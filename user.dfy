/**
 * `kotlinexample.User`: a user account built from a full name and either an
 * e-mail with a password or a phone number that receives an access code.
 *
 * The MD5 digest of `salt + password` is the `hash` function a user is given
 * (any deterministic function of its argument). The `SecureRandom` salt and
 * the six `POSSIBLE_CHARS.random()` draws of an access code are parameters:
 * a `SaltText` stands for the `toString()` of the random byte array, which is
 * never empty, and a `SixPicks` for the six indexes drawn.
 */
module Users {
  import opened Wrappers
  import opened Chars

  /** The exceptions construction, `makeUser` and `changePassword` throw. */
  datatype UserError =
    | FirstNameBlank     // `check(firstName.isNotBlank())`
    | NoEmailOrPhone     // `check(!email.isNullOrBlank() || !rawPhone.isNullOrBlank())`
    | EmptyLastName      // `first()` of an empty last name while the initials are computed
    | BadArguments       // `IllegalArgumentException("")` from `makeUser` and `fullNameToPair`
    | WrongPassword      // `changePassword` with an old password that does not check
    | EmptyLogin         // `first()` of an empty login in `UserHolder.formatLogin`

  type SaltText = s: string | s != [] witness "[B@0"

  /** `POSSIBLE_CHARS`: `a` to `z`, then `A` to `Z`, then `0` to `9`. */
  const PossibleChars: string := Run('a', 26) + Run('A', 26) + Run('0', 10)

  /** The `n` consecutive chars from `first` on. */
  function Run(first: char, n: nat): (r: string)
    requires first as int + n <= 0xD800
    ensures |r| == n && forall k :: 0 <= k < n ==> r[k] as int == first as int + k
  {
    seq(n, k requires 0 <= k < n => (first as int + k) as char)
  }

  /** An index drawn into `POSSIBLE_CHARS`. */
  type CharPick = n: nat | n < 62

  /** The six draws of one access code. */
  type SixPicks = p: seq<CharPick> | |p| == 6 witness [0, 0, 0, 0, 0, 0]

  /** Kotlin `isNullOrBlank()`. */
  predicate NullOrBlank(s: Option<string>) {
    s.None? || IsBlank(s.value)
  }

  // ---------------------------------------------------------------------------
  // Pure helpers.
  // ---------------------------------------------------------------------------

  /** The class `[+\d]` that the phone setter keeps. */
  predicate IsPhoneChar(c: char) {
    c == '+' || IsDigit(c)
  }

  /** The phone setter, `value?.replace(Regex("[^+\\d]"), "")`: only `+` and digits remain. */
  function NormalizePhone(raw: string): (phone: string)
    ensures |phone| <= |raw|
    ensures forall i :: 0 <= i < |phone| ==> IsPhoneChar(phone[i])
  {
    Keep(raw, IsPhoneChar)
  }

  /** Normalising keeps every `+` and digit of the raw phone, as often as it occurs, and nothing else. */
  lemma NormalizePhoneCounts(raw: string)
    ensures forall c :: IsPhoneChar(c) ==> multiset(NormalizePhone(raw))[c] == multiset(raw)[c]
    ensures forall c :: !IsPhoneChar(c) ==> c !in multiset(NormalizePhone(raw))
  {
    KeepCounts(raw, IsPhoneChar);
  }

  /** Normalising works piece by piece, so the kept `+` and digits stay in their order. */
  lemma NormalizePhoneAppend(a: string, b: string)
    ensures NormalizePhone(a + b) == NormalizePhone(a) + NormalizePhone(b)
  {
    KeepAppend(a, b, IsPhoneChar);
  }

  /** The number `+7 (917)` is stored as `+7917`. */
  lemma NormalizePhoneExample()
    ensures NormalizePhone("+7 (917)") == "+7917"
  {
  }

  /** Normalising a normalised phone changes nothing. */
  lemma NormalizePhoneIdempotent(raw: string)
    ensures NormalizePhone(NormalizePhone(raw)) == NormalizePhone(raw)
  {
    KeepAll(NormalizePhone(raw), IsPhoneChar);
  }

  /** A phone is its own lower case, so the login setter stores a phone login as it is. */
  lemma PhoneLowerCase(phone: string)
    requires forall i :: 0 <= i < |phone| ==> IsPhoneChar(phone[i])
    ensures LowerCase(phone) == phone
  {
    assert forall i :: 0 <= i < |phone| ==> LowerCase(phone)[i] == phone[i];
  }

  /** The login a phone user gets is already in lower case. */
  lemma PhoneLoginLowerCase(rawPhone: string)
    ensures LowerCase(NormalizePhone(rawPhone)) == NormalizePhone(rawPhone)
  {
    PhoneLowerCase(NormalizePhone(rawPhone));
  }

  /**
   * `login = email ?: phone!!`, through the setter that lower-cases it: the
   * lower-cased e-mail when there is one, else the normalised phone, which
   * lower-casing leaves as it is.
   */
  function LoginOf(email: Option<string>, phone: Option<string>): (login: string)
    requires email.Some? || phone.Some?
    ensures LowerCase(login) == login
    ensures email.Some? ==> login == LowerCase(email.value)
    ensures email.None? && (forall i :: 0 <= i < |phone.value| ==> IsPhoneChar(phone.value[i])) ==> login == phone.value
  {
    var value := if email.Some? then email.value else phone.value;
    LowerCaseIdempotent(value);
    if email.None? && forall i :: 0 <= i < |phone.value| ==> IsPhoneChar(phone.value[i]) then
      PhoneLowerCase(phone.value);
      LowerCase(value)
    else
      LowerCase(value)
  }

  /** `initials`: the upper-cased first char of the first name and, if any, of the last name, joined by a space. */
  function Initials(firstName: string, lastName: Option<string>): (r: string)
    requires firstName != [] && (lastName.Some? ==> lastName.value != [])
    ensures |r| == if lastName.Some? then 3 else 1
    ensures forall i :: 0 <= i < |r| ==> !IsLowerCase(r[i])
    ensures lastName.None? ==> r == [ToUpper(firstName[0])]
    ensures lastName.Some? ==> r == [ToUpper(firstName[0]), ' ', ToUpper(lastName.value[0])]
  {
    UpperIsNotLower(firstName[0]);
    if lastName.None? then [ToUpper(firstName[0])]
    else
      UpperIsNotLower(lastName.value[0]);
      [ToUpper(firstName[0]), ' ', ToUpper(lastName.value[0])]
  }

  /** Kotlin `capitalize()`: a lower-case first char is upper-cased, the rest is left as it is. */
  function Capitalize(s: string): (r: string)
    ensures |r| == |s|
    ensures s != [] ==> r[1..] == s[1..] && !IsLowerCase(r[0])
    ensures s != [] ==> r[0] == if IsLowerCase(s[0]) then ToUpper(s[0]) else s[0]
    ensures s != [] && !IsLowerCase(s[0]) ==> r == s
  {
    UpperIsNotLower(if s == [] then ' ' else s[0]);
    if s != [] && IsLowerCase(s[0]) then [ToUpper(s[0])] + s[1..] else s
  }

  /** `fullName`: the first and the last name joined by a space, capitalised. */
  function FullName(firstName: string, lastName: Option<string>): string {
    Capitalize(if lastName.Some? then firstName + " " + lastName.value else firstName)
  }

  /**
   * The full name is the first name with its first char capitalised, then,
   * if there is a last name, a space and the last name unchanged.
   */
  lemma FullNameParts(firstName: string, lastName: Option<string>)
    ensures var r := FullName(firstName, lastName);
      && |r| == |firstName| + (if lastName.Some? then 1 + |lastName.value| else 0)
      && (firstName != [] ==> r[0] == (if IsLowerCase(firstName[0]) then ToUpper(firstName[0]) else firstName[0]))
      && (firstName != [] ==> r[1..|firstName|] == firstName[1..])
      && (firstName != [] && lastName.Some? ==> r[|firstName|] == ' ' && r[|firstName| + 1..] == lastName.value)
  {
    var joined := if lastName.Some? then firstName + " " + lastName.value else firstName;
    var r := Capitalize(joined);
    var n := |firstName|;
    if n > 0 && lastName.Some? {
      assert r[n] == r[1..][n - 1] == joined[1..][n - 1] == ' ';
      assert r[n + 1..] == r[1..][n..] == joined[1..][n..] == lastName.value;
    }
    if n > 0 {
      assert r[1..n] == r[1..][..n - 1] == joined[1..][..n - 1] == firstName[1..];
    }
  }

  /** Kotlin's rendering of a nullable string in a template. */
  function Show(s: Option<string>): string {
    if s.None? then "null" else s.value
  }

  /** Kotlin `joinToString("\n")`. */
  function JoinLines(lines: seq<string>): string {
    if lines == [] then [] else if |lines| == 1 then lines[0] else lines[0] + "\n" + JoinLines(lines[1..])
  }

  /** `userInfo`: the eight `name: value` lines of the `trimIndent` template, `meta` printed as a one-entry map. */
  function UserInfo(firstName: string, lastName: Option<string>, login: string, email: Option<string>,
                    phone: Option<string>, auth: string): string
    requires firstName != [] && (lastName.Some? ==> lastName.value != [])
  {
    JoinLines([
      "firstName: " + firstName,
      "lastName: " + Show(lastName),
      "login: " + login,
      "fullName: " + FullName(firstName, lastName),
      "initials: " + Initials(firstName, lastName),
      "email: " + Show(email),
      "phone: " + Show(phone),
      "meta: {auth=" + auth + "}"])
  }

  /** `userInfo` is the template with one `name: value` line per field, the lines separated by `\n`. */
  lemma UserInfoTemplate(firstName: string, lastName: Option<string>, login: string, email: Option<string>,
                         phone: Option<string>, auth: string)
    requires firstName != [] && (lastName.Some? ==> lastName.value != [])
    ensures UserInfo(firstName, lastName, login, email, phone, auth)
      == ("firstName: " + firstName) + "\n" + ("lastName: " + Show(lastName)) + "\n" + ("login: " + login)
         + "\n" + ("fullName: " + FullName(firstName, lastName)) + "\n" + ("initials: " + Initials(firstName, lastName))
         + "\n" + ("email: " + Show(email)) + "\n" + ("phone: " + Show(phone)) + "\n" + ("meta: {auth=" + auth + "}")
  {
    JoinEightLines("firstName: " + firstName, "lastName: " + Show(lastName), "login: " + login,
                   "fullName: " + FullName(firstName, lastName), "initials: " + Initials(firstName, lastName),
                   "email: " + Show(email), "phone: " + Show(phone), "meta: {auth=" + auth + "}");
  }

  /** Eight lines joined with `\n` between them. */
  lemma JoinEightLines(a: string, b: string, c: string, d: string, e: string, f: string, g: string, h: string)
    ensures JoinLines([a, b, c, d, e, f, g, h]) == a + "\n" + b + "\n" + c + "\n" + d + "\n" + e + "\n" + f + "\n" + g + "\n" + h
  {
    JoinSnoc([a], b);
    assert [a] + [b] == [a, b];
    JoinSnoc([a, b], c);
    assert [a, b] + [c] == [a, b, c];
    JoinSnoc([a, b, c], d);
    assert [a, b, c] + [d] == [a, b, c, d];
    JoinSnoc([a, b, c, d], e);
    assert [a, b, c, d] + [e] == [a, b, c, d, e];
    JoinSnoc([a, b, c, d, e], f);
    assert [a, b, c, d, e] + [f] == [a, b, c, d, e, f];
    JoinSnoc([a, b, c, d, e, f], g);
    assert [a, b, c, d, e, f] + [g] == [a, b, c, d, e, f, g];
    JoinSnoc([a, b, c, d, e, f, g], h);
    assert [a, b, c, d, e, f, g] + [h] == [a, b, c, d, e, f, g, h];
  }

  /** One more line at the end adds a `\n` and that line. */
  lemma {:induction false} JoinSnoc(lines: seq<string>, x: string)
    requires lines != []
    ensures JoinLines(lines + [x]) == JoinLines(lines) + "\n" + x
    decreases |lines|
  {
    assert (lines + [x])[1..] == lines[1..] + [x];
    if |lines| > 1 {
      JoinSnoc(lines[1..], x);
    }
  }

  /** The first exception the `init` block throws, if any: the two checks, then the initials of an empty last name. */
  function InitError(firstName: string, lastName: Option<string>, email: Option<string>, rawPhone: Option<string>): (e: Option<UserError>)
    ensures e.None? <==> !IsBlank(firstName) && (!NullOrBlank(email) || !NullOrBlank(rawPhone)) && lastName != Some([])
    ensures e.None? ==> firstName != []
  {
    if IsBlank(firstName) then Some(FirstNameBlank)
    else if NullOrBlank(email) && NullOrBlank(rawPhone) then Some(NoEmailOrPhone)
    else if lastName == Some([]) then Some(EmptyLastName)
    else None
  }

  /** `generateAccessCode()`: six chars, each drawn from `POSSIBLE_CHARS`. */
  function AccessCode(picks: SixPicks): (code: string)
    ensures |code| == 6
    ensures forall i :: 0 <= i < 6 ==> IsCodeChar(code[i])
  {
    seq(6, i requires 0 <= i < 6 => CodeChar(picks[i]))
  }

  /** The chars of `POSSIBLE_CHARS`: ASCII letters of both cases and digits. */
  predicate IsCodeChar(c: char) {
    ('a' <= c <= 'z') || ('A' <= c <= 'Z') || ('0' <= c <= '9')
  }

  /** The char at index `k` of `POSSIBLE_CHARS`, by its three runs. */
  function CodeChar(k: CharPick): (c: char)
    ensures IsCodeChar(c)
  {
    if k < 26 then ('a' as int + k) as char
    else if k < 52 then ('A' as int + k - 26) as char
    else ('0' as int + k - 52) as char
  }

  /** `CodeChar` reads `POSSIBLE_CHARS`: the three runs in order. */
  lemma CodeCharIsPossibleChar()
    ensures |PossibleChars| == 62
    ensures forall k: CharPick :: PossibleChars[k] == CodeChar(k)
  {
  }

  /** Every char of an access code is one of `POSSIBLE_CHARS`. */
  lemma AccessCodeFromPossibleChars(picks: SixPicks)
    ensures forall i :: 0 <= i < 6 ==> AccessCode(picks)[i] in PossibleChars
  {
    CodeCharIsPossibleChar();
    assert forall i :: 0 <= i < 6 ==> AccessCode(picks)[i] == PossibleChars[picks[i]];
  }

  // ---------------------------------------------------------------------------
  // `fullNameToPair`.
  // ---------------------------------------------------------------------------

  /** The parts joined back with single spaces. */
  function JoinSpaces(parts: seq<string>): string
    requires parts != []
  {
    if |parts| == 1 then parts[0] else parts[0] + " " + JoinSpaces(parts[1..])
  }

  /** `split(" ")`: the pieces between spaces, empty ones included; joining them with spaces gives `s` back. */
  function SplitSpaces(s: string): (parts: seq<string>)
    ensures parts != []
    ensures forall k :: 0 <= k < |parts| ==> ' ' !in parts[k]
    ensures JoinSpaces(parts) == s
  {
    if s == [] then [[]]
    else
      var rest := SplitSpaces(s[1..]);
      if s[0] == ' ' then
        assert s == [] + " " + JoinSpaces(rest);
        [[]] + rest
      else
        var parts := [[s[0]] + rest[0]] + rest[1..];
        assert parts[1..] == rest[1..];
        assert s == [s[0]] + s[1..];
        parts
  }

  /** Splitting what `JoinSpaces` built from space-free pieces gives the pieces back. */
  lemma {:induction false} SplitJoin(parts: seq<string>)
    requires parts != [] && forall k :: 0 <= k < |parts| ==> ' ' !in parts[k]
    ensures SplitSpaces(JoinSpaces(parts)) == parts
    decreases |JoinSpaces(parts)|, |parts|
  {
    if |parts| == 1 {
      SplitSpaceFree(parts[0]);
    } else {
      SplitJoin(parts[1..]);
      SplitPrefix(parts[0], JoinSpaces(parts[1..]));
      assert parts == [parts[0]] + parts[1..];
    }
  }

  /** A space-free string is one piece. */
  lemma {:induction false} SplitSpaceFree(w: string)
    requires ' ' !in w
    ensures SplitSpaces(w) == [w]
  {
    if w != [] {
      SplitSpaceFree(w[1..]);
      assert w == [w[0]] + w[1..];
    }
  }

  /** A space-free word, a space, then the rest: the word is the first piece. */
  lemma {:induction false} SplitPrefix(w: string, rest: string)
    requires ' ' !in w
    ensures SplitSpaces(w + " " + rest) == [w] + SplitSpaces(rest)
    decreases |w|
  {
    if w == [] {
      assert w + " " + rest == [' '] + rest;
      assert (w + " " + rest)[1..] == rest;
    } else {
      assert (w + " " + rest)[1..] == w[1..] + " " + rest;
      SplitPrefix(w[1..], rest);
      assert [w[0]] + w[1..] == w;
    }
  }

  /** `filter { it.isNotBlank() }`. */
  function NonBlank(parts: seq<string>): (r: seq<string>)
    ensures |r| <= |parts|
    ensures forall k :: 0 <= k < |r| ==> !IsBlank(r[k])
    ensures |parts| == 1 ==> r == if IsBlank(parts[0]) then [] else parts
  {
    if parts == [] then []
    else (if IsBlank(parts[0]) then [] else [parts[0]]) + NonBlank(parts[1..])
  }

  /** The `k`-th kept part is one of the parts. */
  lemma {:induction false} NonBlankKept(parts: seq<string>, k: nat)
    requires k < |NonBlank(parts)|
    ensures NonBlank(parts)[k] in parts
  {
    NonBlankMembers(parts);
  }

  /** The filter keeps exactly the non-blank parts: each kept part is one of them, and each of them is kept. */
  lemma {:induction false} NonBlankMembers(parts: seq<string>)
    ensures forall k :: 0 <= k < |NonBlank(parts)| ==> NonBlank(parts)[k] in parts
    ensures forall k :: 0 <= k < |parts| && !IsBlank(parts[k]) ==> parts[k] in NonBlank(parts)
  {
    if parts != [] {
      NonBlankMembers(parts[1..]);
      assert parts == [parts[0]] + parts[1..];
    }
  }

  /**
   * The filter keeps the order of the parts: filtering a concatenation
   * filters each half. With the one-part case this fixes the result: the
   * non-blank parts, in order, each as often as it occurs.
   */
  lemma {:induction false} NonBlankAppend(a: seq<string>, b: seq<string>)
    ensures NonBlank(a + b) == NonBlank(a) + NonBlank(b)
  {
    if a == [] {
      assert a + b == b;
    } else {
      var head := if IsBlank(a[0]) then [] else [a[0]];
      var rest, tail := NonBlank(a[1..]), NonBlank(b);
      assert (a + b)[0] == a[0] && (a + b)[1..] == a[1..] + b;
      calc {
        NonBlank(a + b);
      == { NonBlankCons(a + b); }
        head + NonBlank(a[1..] + b);
      == { NonBlankAppend(a[1..], b); }
        head + (rest + tail);
      == { assert head + (rest + tail) == (head + rest) + tail; }
        (head + rest) + tail;
      == { NonBlankCons(a); }
        NonBlank(a) + tail;
      }
    }
  }

  /** One step of the filter: the first part, if it is not blank, then the filter of the rest. */
  lemma NonBlankCons(parts: seq<string>)
    requires parts != []
    ensures NonBlank(parts) == (if IsBlank(parts[0]) then [] else [parts[0]]) + NonBlank(parts[1..])
  {
  }


  /**
   * `fullNameToPair`: the non-blank pieces of the name split on spaces; one
   * piece is a first name alone, two are a first and a last name, any other
   * count is an error.
   */
  function FullNameToPair(fullName: string): (r: Result<(string, Option<string>), UserError>)
    ensures var words := NonBlank(SplitSpaces(fullName));
      && (r.Success? <==> |words| == 1 || |words| == 2)
      && (r.Failure? ==> r.error == BadArguments)
      && (r.Success? ==> r.value.0 == words[0] && (r.value.1.Some? <==> |words| == 2))
      && (r.Success? && r.value.1.Some? ==> r.value.1.value == words[1])
    ensures r.Success? ==> !IsBlank(r.value.0) && ' ' !in r.value.0
    ensures r.Success? && r.value.1.Some? ==> !IsBlank(r.value.1.value) && ' ' !in r.value.1.value
  {
    var words := NonBlank(SplitSpaces(fullName));
    if |words| == 1 then
      NonBlankKept(SplitSpaces(fullName), 0);
      Success((words[0], None))
    else if |words| == 2 then
      NonBlankKept(SplitSpaces(fullName), 0);
      NonBlankKept(SplitSpaces(fullName), 1);
      Success((words[0], Some(words[1])))
    else Failure(BadArguments)
  }

  /** A name of two space-free, non-blank words is split into exactly those words. */
  lemma TwoWordName(first: string, last: string)
    requires !IsBlank(first) && !IsBlank(last) && ' ' !in first && ' ' !in last
    ensures FullNameToPair(first + " " + last) == Success((first, Some(last)))
  {
    SplitJoin([first, last]);
    assert JoinSpaces([first, last]) == first + " " + last;
    assert [first, last][1..] == [last];
  }

  /** The names `fullNameToPair` yields pass the `init` checks whenever there is a non-blank e-mail or phone. */
  lemma PairPassesInit(fullName: string, email: Option<string>, rawPhone: Option<string>)
    requires FullNameToPair(fullName).Success?
    requires !NullOrBlank(email) || !NullOrBlank(rawPhone)
    ensures InitError(FullNameToPair(fullName).value.0, FullNameToPair(fullName).value.1, email, rawPhone).None?
  {
    var (first, last) := FullNameToPair(fullName).value;
    if last == Some([]) {
      assert IsBlank(last.value);
    }
  }

  // ---------------------------------------------------------------------------
  // The account.
  // ---------------------------------------------------------------------------

  class User {
    const firstName: string
    const lastName: Option<string>
    const email: Option<string>
    /** The `"auth"` entry of `meta`: `"password"` or `"sms"`. */
    const auth: string
    /** `md5()`: a deterministic function of salt and password. */
    const hash: string -> string
    /** What the first `encrypt` draws as the salt. */
    const randomSalt: SaltText
    const userInfo: string

    var phone: Option<string>
    var login: string
    var salt: Option<string>
    var passwordHash: string
    var accessCode: Option<string>
    /** The secret that currently checks: the password, or the access code last set. */
    ghost var password: string

    /** The salt is drawn, the stored hash is that of the current secret, and the login is stored lower-cased. */
    ghost predicate Valid()
      reads this
    {
      && salt.Some? && salt.value != [] && passwordHash == hash(salt.value + password)
      && LowerCase(login) == login
    }

    /** The secondary constructor with an e-mail and a password; `init` has passed. */
    constructor WithPassword(firstName: string, lastName: Option<string>, email: string, password: string,
                             hash: string -> string, randomSalt: SaltText)
      requires InitError(firstName, lastName, Some(email), None).None?
      ensures this.firstName == firstName && this.lastName == lastName && this.email == Some(email)
      ensures this.hash == hash && this.randomSalt == randomSalt && auth == "password"
      ensures phone.None? && login == LowerCase(email) && accessCode.None?
      ensures userInfo == UserInfo(firstName, lastName, login, this.email, phone, auth)
      ensures salt == Some(randomSalt)
      ensures Valid() && this.password == password
    {
      var login := LoginOf(Some(email), None);
      var info := UserInfo(firstName, lastName, login, Some(email), None, "password");
      this.firstName := firstName;
      this.lastName := lastName;
      this.email := Some(email);
      this.auth := "password";
      this.hash := hash;
      this.randomSalt := randomSalt;
      this.phone := None;
      this.login := login;
      this.salt := None;
      this.accessCode := None;
      this.userInfo := info;
      new;
      var h := Encrypt(password);
      passwordHash := h;
      this.password := password;
    }

    /** The secondary constructor with a phone: a fresh access code becomes the secret; `init` has passed. */
    constructor WithPhone(firstName: string, lastName: Option<string>, rawPhone: string, picks: SixPicks,
                          hash: string -> string, randomSalt: SaltText)
      requires InitError(firstName, lastName, None, Some(rawPhone)).None?
      ensures this.firstName == firstName && this.lastName == lastName && email.None?
      ensures this.hash == hash && this.randomSalt == randomSalt && auth == "sms"
      ensures phone == Some(NormalizePhone(rawPhone)) && login == NormalizePhone(rawPhone)
      ensures userInfo == UserInfo(firstName, lastName, login, email, phone, auth)
      ensures salt == Some(randomSalt)
      ensures accessCode == Some(AccessCode(picks))
      ensures Valid() && password == AccessCode(picks)
    {
      var normalized := NormalizePhone(rawPhone);
      var login := LoginOf(None, Some(normalized));
      var info := UserInfo(firstName, lastName, login, None, Some(normalized), "sms");
      this.firstName := firstName;
      this.lastName := lastName;
      this.email := None;
      this.auth := "sms";
      this.hash := hash;
      this.randomSalt := randomSalt;
      this.phone := Some(normalized);
      this.login := login;
      this.salt := None;
      this.accessCode := None;
      this.userInfo := info;
      new;
      var code := AccessCode(picks);
      SetAccessCode(Some(code));
    }

    /** The public `login` setter: the value is stored lower-cased. */
    method SetLogin(value: string)
      requires Valid()
      modifies this`login
      ensures login == LowerCase(value) && Valid()
    {
      LowerCaseIdempotent(value);
      login := LowerCase(value);
    }

    /** `encrypt`: draws the salt if there is none yet, then hashes salt and password. */
    method Encrypt(pass: string) returns (h: string)
      modifies this`salt
      ensures salt == if old(salt).None? || old(salt).value == [] then Some(randomSalt) else old(salt)
      ensures h == hash(salt.value + pass)
    {
      if salt.None? || salt.value == [] {
        salt := Some(randomSalt);
      }
      h := hash(salt.value + pass);
    }

    /** `checkPassword`: the hash of `pass` equals the stored hash; the current secret always checks. */
    method CheckPassword(pass: string) returns (ok: bool)
      requires Valid()
      modifies this`salt
      ensures salt == old(salt) && Valid()
      ensures ok <==> hash(salt.value + pass) == passwordHash
      ensures pass == password ==> ok
    {
      var h := Encrypt(pass);
      ok := h == passwordHash;
    }

    /** The `accessCode` setter: a non-null code is stored and becomes the secret. */
    method SetAccessCode(value: Option<string>)
      modifies this`accessCode, this`passwordHash, this`salt, this`password
      ensures accessCode == value
      ensures value.Some? ==> password == value.value && salt.Some? && salt.value != [] && passwordHash == hash(salt.value + password)
      ensures value.Some? && LowerCase(login) == login ==> Valid()
      ensures value.Some? ==> salt == if old(salt).None? || old(salt).value == [] then Some(randomSalt) else old(salt)
      ensures value.None? ==> passwordHash == old(passwordHash) && password == old(password) && salt == old(salt)
    {
      accessCode := value;
      if value.Some? {
        var h := Encrypt(value.value);
        passwordHash := h;
        password := value.value;
      }
    }

    /**
     * `changePassword`: with an old password that checks, the new one becomes
     * the secret (and the access code, if there is a nonempty one);
     * otherwise nothing changes and the call fails.
     */
    method ChangePassword(oldPass: string, newPass: string) returns (r: Result<(), UserError>)
      requires Valid()
      modifies this`accessCode, this`passwordHash, this`salt, this`password
      ensures Valid() && salt == old(salt)
      ensures r.Failure? <==> hash(salt.value + oldPass) != old(passwordHash)
      ensures r.Failure? ==> r.error == WrongPassword
      ensures r.Failure? ==> passwordHash == old(passwordHash) && accessCode == old(accessCode) && password == old(password)
      ensures r.Success? ==> password == newPass && passwordHash == hash(salt.value + newPass)
      ensures r.Success? ==> accessCode == if NullOrEmpty(old(accessCode)) then old(accessCode) else Some(newPass)
      ensures oldPass == old(password) ==> r.Success?
    {
      var ok := CheckPassword(oldPass);
      if !ok {
        return Failure(WrongPassword);
      }
      var h := Encrypt(newPass);
      passwordHash := h;
      password := newPass;
      if !NullOrEmpty(accessCode) {
        SetAccessCode(Some(newPass));
      }
      return Success(());
    }

    /** `makeUser`'s secondary constructor with an e-mail and a password, throwing what `init` throws. */
    static method NewWithPassword(firstName: string, lastName: Option<string>, email: string, password: string,
                                  hash: string -> string, randomSalt: SaltText) returns (r: Result<User, UserError>)
      ensures r.Failure? <==> InitError(firstName, lastName, Some(email), None).Some?
      ensures r.Failure? ==> r.error == InitError(firstName, lastName, Some(email), None).value
      ensures r.Success? ==> fresh(r.value) && r.value.Valid() && r.value.password == password
      ensures r.Success? ==> r.value.login == LowerCase(email) && r.value.email == Some(email) && r.value.accessCode.None?
      ensures r.Success? ==> r.value.hash == hash
      ensures r.Success? ==> r.value.firstName == firstName && r.value.lastName == lastName
      ensures r.Success? ==> r.value.phone.None? && r.value.auth == "password"
      ensures r.Success? ==> r.value.userInfo == UserInfo(firstName, lastName, r.value.login, r.value.email, r.value.phone, r.value.auth)
    {
      var e := InitError(firstName, lastName, Some(email), None);
      if e.Some? {
        return Failure(e.value);
      }
      var u := new User.WithPassword(firstName, lastName, email, password, hash, randomSalt);
      return Success(u);
    }

    /** `makeUser`'s secondary constructor with a phone, throwing what `init` throws. */
    static method NewWithPhone(firstName: string, lastName: Option<string>, rawPhone: string, picks: SixPicks,
                               hash: string -> string, randomSalt: SaltText) returns (r: Result<User, UserError>)
      ensures r.Failure? <==> InitError(firstName, lastName, None, Some(rawPhone)).Some?
      ensures r.Failure? ==> r.error == InitError(firstName, lastName, None, Some(rawPhone)).value
      ensures r.Success? ==> fresh(r.value) && r.value.Valid() && r.value.password == AccessCode(picks)
      ensures r.Success? ==> r.value.login == NormalizePhone(rawPhone) && r.value.accessCode == Some(AccessCode(picks))
      ensures r.Success? ==> r.value.hash == hash
      ensures r.Success? ==> r.value.firstName == firstName && r.value.lastName == lastName
      ensures r.Success? ==> r.value.email.None? && r.value.phone == Some(NormalizePhone(rawPhone)) && r.value.auth == "sms"
      ensures r.Success? ==> r.value.userInfo == UserInfo(firstName, lastName, r.value.login, r.value.email, r.value.phone, r.value.auth)
    {
      var e := InitError(firstName, lastName, None, Some(rawPhone));
      if e.Some? {
        return Failure(e.value);
      }
      var u := new User.WithPhone(firstName, lastName, rawPhone, picks, hash, randomSalt);
      return Success(u);
    }

    /**
     * `makeUser`: a phone user when the phone is not blank, else an e-mail
     * user when both e-mail and password are not blank, else an error; a
     * name that is not one or two words is an error first.
     */
    static method MakeUser(fullName: string, email: Option<string>, password: Option<string>, phone: Option<string>,
                           picks: SixPicks, hash: string -> string, randomSalt: SaltText) returns (r: Result<User, UserError>)
      ensures r.Success? <==>
        (FullNameToPair(fullName).Success? && (!NullOrBlank(phone) || (!NullOrBlank(email) && !NullOrBlank(password))))
      ensures r.Failure? ==> r.error == BadArguments
      ensures r.Success? ==> fresh(r.value) && r.value.Valid() && r.value.hash == hash
      ensures r.Success? && !NullOrBlank(phone) ==>
        r.value.login == NormalizePhone(phone.value) && r.value.password == AccessCode(picks)
      ensures r.Success? && NullOrBlank(phone) ==>
        r.value.login == LowerCase(email.value) && r.value.password == password.value
      ensures r.Success? ==>
        r.value.firstName == FullNameToPair(fullName).value.0 && r.value.lastName == FullNameToPair(fullName).value.1
      ensures r.Success? && !NullOrBlank(phone) ==>
        r.value.email.None? && r.value.phone == Some(NormalizePhone(phone.value)) && r.value.auth == "sms"
      ensures r.Success? && NullOrBlank(phone) ==>
        r.value.email == email && r.value.phone.None? && r.value.auth == "password"
      ensures r.Success? ==>
        r.value.userInfo == UserInfo(r.value.firstName, r.value.lastName, r.value.login, r.value.email, r.value.phone, r.value.auth)
    {
      var pair := FullNameToPair(fullName);
      if pair.Failure? {
        return Failure(pair.error);
      }
      var (firstName, lastName) := pair.value;
      if !NullOrBlank(phone) {
        PairPassesInit(fullName, None, phone);
        r := NewWithPhone(firstName, lastName, phone.value, picks, hash, randomSalt);
      } else if !NullOrBlank(email) && !NullOrBlank(password) {
        PairPassesInit(fullName, email, None);
        r := NewWithPassword(firstName, lastName, email.value, password.value, hash, randomSalt);
      } else {
        r := Failure(BadArguments);
      }
    }
  }

  /** Kotlin `isNullOrEmpty()`. */
  predicate NullOrEmpty(s: Option<string>) {
    s.None? || s.value == []
  }
}
