/**
 * `kotlinexample.UserHolder`: the registry of users, a mutable map from
 * login to `User`. The singleton `object` is a class here; the random salt
 * and access-code draws each registration or refresh consumes are
 * parameters, and `hash` is the digest every user it creates is given.
 */
module UserHolders {
  import opened Wrappers
  import opened Chars
  import opened Users

  /**
   * `formatLogin`: a login starting with `+` keeps only its `+` and digit
   * chars (the `trim()` after that has nothing left to remove); any other
   * login is used as given; an empty login has no `first()` char.
   */
  function FormatLogin(login: string): (r: Result<string, UserError>)
    ensures login == [] <==> r.Failure?
    ensures r.Failure? ==> r.error == EmptyLogin
    ensures login != [] && login[0] == '+' ==> r == Success(NormalizePhone(login))
    ensures login != [] && login[0] != '+' ==> r == Success(login)
  {
    if login == [] then Failure(EmptyLogin)
    else if login[0] == '+' then Success(Trim(NormalizePhone(login)))
    else Success(login)
  }

  /** A phone given with its leading `+` finds the key it was registered under, however it was punctuated. */
  lemma PhoneLoginFound(rawPhone: string)
    requires rawPhone != [] && rawPhone[0] == '+'
    ensures FormatLogin(rawPhone) == Success(NormalizePhone(rawPhone))
    ensures NormalizePhone(rawPhone) != [] && NormalizePhone(rawPhone)[0] == '+'
    ensures FormatLogin(NormalizePhone(rawPhone)) == Success(NormalizePhone(rawPhone))
  {
    assert rawPhone == [rawPhone[0]] + rawPhone[1..];
    assert NormalizePhone(rawPhone) == ['+'] + NormalizePhone(rawPhone[1..]);
    NormalizePhoneIdempotent(rawPhone);
  }

  class UserHolder {
    var users: map<string, User>
    const hash: string -> string

    /** Every stored user is consistent, is keyed by its own login and hashes with the holder's digest. */
    ghost predicate Valid()
      reads this, users.Values
    {
      forall k :: k in users ==> users[k].Valid() && users[k].login == k && users[k].hash == hash
    }

    constructor(hash: string -> string)
      ensures users == map[] && this.hash == hash && Valid()
    {
      users := map[];
      this.hash := hash;
    }

    /** `registerUser`: `makeUser` with an e-mail and a password, stored under its login when it succeeds. */
    method RegisterUser(fullName: string, email: string, password: string, picks: SixPicks, randomSalt: SaltText)
      returns (r: Result<User, UserError>)
      requires Valid()
      modifies this`users
      ensures Valid()
      ensures r.Success? <==> FullNameToPair(fullName).Success? && !IsBlank(email) && !IsBlank(password)
      ensures r.Failure? ==> r.error == BadArguments && users == old(users)
      ensures r.Success? ==> fresh(r.value) && r.value.login == LowerCase(email) && r.value.password == password
      ensures r.Success? ==> users == old(users)[LowerCase(email) := r.value]
      ensures r.Success? ==> r.value.email == Some(email) && r.value.phone.None?
      ensures r.Success? ==>
        r.value.firstName == FullNameToPair(fullName).value.0 && r.value.lastName == FullNameToPair(fullName).value.1
    {
      r := User.MakeUser(fullName, Some(email), Some(password), None, picks, hash, randomSalt);
      if r.Success? {
        users := users[r.value.login := r.value];
      }
    }

    /** `registerUserByPhone`: `makeUser` with a phone, stored under its login when it succeeds. */
    method RegisterUserByPhone(fullName: string, phone: string, picks: SixPicks, randomSalt: SaltText)
      returns (r: Result<User, UserError>)
      requires Valid()
      modifies this`users
      ensures Valid()
      ensures r.Success? <==> FullNameToPair(fullName).Success? && !IsBlank(phone)
      ensures r.Failure? ==> r.error == BadArguments && users == old(users)
      ensures r.Success? ==> fresh(r.value) && r.value.login == NormalizePhone(phone) && r.value.password == AccessCode(picks)
      ensures r.Success? ==> users == old(users)[NormalizePhone(phone) := r.value]
      ensures r.Success? ==> r.value.email.None? && r.value.phone == Some(NormalizePhone(phone))
      ensures r.Success? ==>
        r.value.firstName == FullNameToPair(fullName).value.0 && r.value.lastName == FullNameToPair(fullName).value.1
    {
      r := User.MakeUser(fullName, None, None, Some(phone), picks, hash, randomSalt);
      if r.Success? {
        users := users[r.value.login := r.value];
      }
    }

    /**
     * `loginUser`: the `userInfo` of the user under the formatted login when
     * the password checks against it, `null` otherwise; a user's current
     * secret always logs in.
     */
    method LoginUser(login: string, password: string) returns (r: Result<Option<string>, UserError>)
      requires Valid()
      modifies users.Values`salt
      ensures Valid()
      ensures forall u :: u in users.Values ==> u.salt == old(u.salt)
      ensures r.Failure? <==> login == []
      ensures r.Failure? ==> r.error == EmptyLogin
      ensures r.Success? ==> var key := FormatLogin(login).value;
        && (r.value.Some? <==> key in users && hash(users[key].salt.value + password) == users[key].passwordHash)
        && (r.value.Some? ==> r.value.value == users[key].userInfo)
        && (key in users && password == users[key].password ==> r.value.Some?)
    {
      var key := FormatLogin(login);
      if key.Failure? {
        return Failure(key.error);
      }
      if key.value !in users {
        return Success(None);
      }
      var u := users[key.value];
      var ok := u.CheckPassword(password);
      if ok {
        return Success(Some(u.userInfo));
      }
      return Success(None);
    }

    /** `clearHolder`. */
    method ClearHolder()
      modifies this`users
      ensures users == map[] && Valid()
    {
      users := map[];
    }

    /**
     * `requestAccessCode`: the user under the formatted login gets a fresh
     * access code, which becomes the secret it logs in with; every other
     * user and the map itself are left as they are.
     */
    method RequestAccessCode(login: string, picks: SixPicks) returns (r: Result<(), UserError>)
      requires Valid()
      modifies users.Values`accessCode, users.Values`passwordHash, users.Values`salt, users.Values`password
      ensures Valid()
      ensures r.Failure? <==> login == []
      ensures r.Failure? ==> r.error == EmptyLogin && forall u :: u in users.Values ==> unchanged(u)
      ensures r.Success? ==> var key := FormatLogin(login).value;
        && (key in users ==> users[key].accessCode == Some(AccessCode(picks)) && users[key].password == AccessCode(picks))
        && (key in users ==> users[key].salt == old(users[key].salt))
        && (forall k :: k in users && k != key ==> unchanged(users[k]))
    {
      var key := FormatLogin(login);
      if key.Failure? {
        return Failure(key.error);
      }
      if key.value in users {
        var u := users[key.value];
        u.SetAccessCode(Some(AccessCode(picks)));
      }
      return Success(());
    }
  }

  /**
   * Logins are looked up exactly as typed: an e-mail login that is not in
   * lower case finds no user, because every key is a login the setter
   * lower-cased.
   */
  lemma MixedCaseLoginNotFound(holder: UserHolder, login: string)
    requires holder.Valid()
    requires login != [] && login[0] != '+' && LowerCase(login) != login
    ensures FormatLogin(login) == Success(login) && login !in holder.users
  {
  }
}
