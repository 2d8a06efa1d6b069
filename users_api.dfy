/**
 * The account handlers of the REST server (server/src/index.ts): sign-up,
 * login, profile read and patch, and password change, over a collection of
 * users with a unique email. Body fields may be absent (`None`); a field
 * that is present but empty is falsy just as an absent one is.
 */
module UsersApi {
  import opened Wrappers
  import opened Text
  import opened ApiCommon

  /**
   * bcrypt, as far as the handlers use it: `hash` makes the stored hash of
   * a password and `verify` compares a password with a stored hash.
   */
  datatype Hasher = Hasher(hash: string -> string, verify: (string, string) -> bool)

  /** `verify` accepts the password a hash was made from. */
  ghost predicate Sound(h: Hasher) {
    forall p :: h.verify(p, h.hash(p))
  }

  datatype User = User(
    email: string,
    passwordHash: string,
    name: Option<string>,
    phone: Option<string>,
    designation: Option<string>,
    school: Option<string>,
    photoUrl: Option<string>)

  /** The profile every successful handler sends back: the user without its hash. */
  datatype Profile = Profile(
    email: string,
    name: Option<string>,
    phone: Option<string>,
    designation: Option<string>,
    school: Option<string>,
    photoUrl: Option<string>)

  function ProfileOf(u: User): Profile {
    Profile(u.email, u.name, u.phone, u.designation, u.school, u.photoUrl)
  }

  /** A handler's answer: its JSON value, or an error status with its message. */
  datatype Outcome<T> = Ok(value: T) | Fail(status: nat, error: string)

  datatype SignupRequest = SignupRequest(
    email: Option<string>,
    password: Option<string>,
    name: Option<string>,
    phone: Option<string>,
    designation: Option<string>,
    school: Option<string>,
    photoUrl: Option<string>)

  /**
   * How a client's value goes into a JSON body: a value as a string, and
   * none as a left-out key (`JSON.stringify` drops `undefined`).
   */
  function FieldOf(o: Option<string>): BodyField<string> {
    if o.Some? then Given(o.value) else Absent
  }

  /**
   * What a stored field is after `if (f !== undefined) user.f = f`: the
   * old value when the body leaves it out, nothing when it sends `null`,
   * and the sent string otherwise.
   */
  predicate PatchedBy(now: Option<string>, was: Option<string>, f: BodyField<string>) {
    match f
    case Absent => now == was
    case SentNull => now == None
    case Given(v) => now == Some(v)
  }

  /** Sending back the value a field already has leaves it as it was. */
  lemma ResendKeeps(now: Option<string>, was: Option<string>)
    ensures PatchedBy(now, was, FieldOf(was)) <==> now == was
  {
  }

  /**
   * Only a left-out field keeps the stored value: `null` clears it, and a
   * string replaces it.
   */
  lemma OnlyAbsentKeeps(was: Option<string>, f: BodyField<string>)
    ensures PatchedBy(was, was, f) <==> f.Absent? || (f.SentNull? && was.None?) || (f.Given? && was == Some(f.value))
  {
  }

  /** The body of PATCH /api/user/profile: every field but the email may be left out or `null`. */
  datatype ProfilePatch = ProfilePatch(
    email: Option<string>,
    name: BodyField<string>,
    phone: BodyField<string>,
    designation: BodyField<string>,
    school: BodyField<string>,
    photoUrl: BodyField<string>)

  /** The stored value a body field is assigned: `null` is no value. */
  function Assigned(f: BodyField<string>): Option<string>
    requires !f.Absent?
  {
    if f.Given? then Some(f.value) else None
  }

  /**
   * The 400 answers of POST /api/signup, in the order the handler tests
   * them: credentials first, then the four profile fields.
   */
  function SignupRejection(b: SignupRequest): (r: Option<string>)
    ensures r == Some("Missing email or password") <==> !Truthy(b.email) || !Truthy(b.password)
    ensures r == Some("Missing required fields") <==>
      && Truthy(b.email) && Truthy(b.password)
      && !(Truthy(b.name) && Truthy(b.phone) && Truthy(b.designation) && Truthy(b.school))
    ensures r == None <==>
      && Truthy(b.email) && Truthy(b.password)
      && Truthy(b.name) && Truthy(b.phone) && Truthy(b.designation) && Truthy(b.school)
  {
    if !Truthy(b.email) || !Truthy(b.password) then Some("Missing email or password")
    else if !Truthy(b.name) || !Truthy(b.phone) || !Truthy(b.designation) || !Truthy(b.school) then
      Some("Missing required fields")
    else None
  }

  class UserStore {
    /** The users, by email (the unique index). */
    var users: map<string, User>

    ghost predicate Valid()
      reads this
    {
      forall e :: e in users ==> users[e].email == e && e != ""
    }

    constructor ()
      ensures Valid() && users == map[]
    {
      users := map[];
    }

    /** POST /api/signup */
    method Signup(b: SignupRequest, h: Hasher) returns (r: Outcome<Profile>)
      requires Valid()
      modifies this
      ensures Valid()
      ensures SignupRejection(b).Some? ==> users == old(users) && r == Fail(400, SignupRejection(b).value)
      ensures SignupRejection(b).None? && b.email.value in old(users) ==>
        users == old(users) && r == Fail(409, "Exists")
      ensures SignupRejection(b).None? && b.email.value !in old(users) ==>
        && users == old(users)[b.email.value := User(b.email.value, h.hash(b.password.value),
             b.name, b.phone, b.designation, b.school, b.photoUrl)]
        && r == Ok(ProfileOf(users[b.email.value]))
    {
      var rejection := SignupRejection(b);
      if rejection.Some? {
        return Fail(400, rejection.value);
      }
      var email := b.email.value;
      if email in users {
        return Fail(409, "Exists");
      }
      var hash := h.hash(b.password.value);
      var user := User(email, hash, b.name, b.phone, b.designation, b.school, b.photoUrl);
      users := users[email := user];
      r := Ok(ProfileOf(user));
    }

    /** POST /api/login */
    method Login(email: Option<string>, password: Option<string>, h: Hasher) returns (r: Outcome<Profile>)
      requires Valid()
      ensures !Truthy(email) || !Truthy(password) ==> r == Fail(400, "Missing")
      ensures Truthy(email) && Truthy(password) && email.value !in users ==> r == Fail(401, "Invalid")
      ensures Truthy(email) && Truthy(password) && email.value in users ==>
        r == if h.verify(password.value, users[email.value].passwordHash)
             then Ok(ProfileOf(users[email.value]))
             else Fail(401, "Invalid")
    {
      if !Truthy(email) || !Truthy(password) {
        return Fail(400, "Missing");
      }
      if email.value !in users {
        return Fail(401, "Invalid");
      }
      var user := users[email.value];
      var ok := h.verify(password.value, user.passwordHash);
      if !ok {
        return Fail(401, "Invalid");
      }
      r := Ok(ProfileOf(user));
    }

    /** GET /api/user/profile?email= */
    method GetProfile(email: Option<string>) returns (r: Outcome<Profile>)
      requires Valid()
      ensures !Truthy(email) ==> r == Fail(400, "Missing email")
      ensures Truthy(email) && email.value !in users ==> r == Fail(404, "User not found")
      ensures Truthy(email) && email.value in users ==> r == Ok(ProfileOf(users[email.value]))
    {
      if !Truthy(email) {
        return Fail(400, "Missing email");
      }
      if email.value !in users {
        return Fail(404, "User not found");
      }
      r := Ok(ProfileOf(users[email.value]));
    }

    /**
     * PATCH /api/user/profile: overwrites exactly the fields the body
     * carries, a `null` or an empty string included, and keeps the ones it
     * leaves out; the email and the password hash never change.
     */
    method PatchProfile(p: ProfilePatch) returns (r: Outcome<Profile>)
      requires Valid()
      modifies this
      ensures Valid()
      ensures !Truthy(p.email) ==> users == old(users) && r == Fail(400, "Missing email")
      ensures Truthy(p.email) && p.email.value !in old(users) ==>
        users == old(users) && r == Fail(404, "User not found")
      ensures Truthy(p.email) && p.email.value in old(users) ==>
        var e, was := p.email.value, old(users)[p.email.value];
        && e in users && users == old(users)[e := users[e]]
        && users[e].email == was.email && users[e].passwordHash == was.passwordHash
        && PatchedBy(users[e].name, was.name, p.name)
        && PatchedBy(users[e].phone, was.phone, p.phone)
        && PatchedBy(users[e].designation, was.designation, p.designation)
        && PatchedBy(users[e].school, was.school, p.school)
        && PatchedBy(users[e].photoUrl, was.photoUrl, p.photoUrl)
        && r == Ok(ProfileOf(users[e]))
    {
      if !Truthy(p.email) {
        return Fail(400, "Missing email");
      }
      var email := p.email.value;
      if email !in users {
        return Fail(404, "User not found");
      }
      var user := users[email];
      if p.name != Absent { user := user.(name := Assigned(p.name)); }
      if p.phone != Absent { user := user.(phone := Assigned(p.phone)); }
      if p.designation != Absent { user := user.(designation := Assigned(p.designation)); }
      if p.school != Absent { user := user.(school := Assigned(p.school)); }
      if p.photoUrl != Absent { user := user.(photoUrl := Assigned(p.photoUrl)); }
      users := users[email := user];
      r := Ok(ProfileOf(user));
    }

    /** POST /api/user/change-password */
    method ChangePassword(email: Option<string>, currentPassword: Option<string>, newPassword: Option<string>,
                          h: Hasher)
      returns (r: Outcome<bool>)
      requires Valid()
      modifies this
      ensures Valid()
      ensures !Truthy(email) || !Truthy(currentPassword) || !Truthy(newPassword) ==>
        users == old(users) && r == Fail(400, "Missing fields")
      ensures Truthy(email) && Truthy(currentPassword) && Truthy(newPassword) && email.value !in old(users) ==>
        users == old(users) && r == Fail(404, "User not found")
      ensures Truthy(email) && Truthy(currentPassword) && Truthy(newPassword) && email.value in old(users) ==>
        var e := email.value;
        if h.verify(currentPassword.value, old(users)[e].passwordHash) then
          users == old(users)[e := old(users)[e].(passwordHash := h.hash(newPassword.value))] && r == Ok(true)
        else
          users == old(users) && r == Fail(401, "Incorrect current password")
    {
      if !Truthy(email) || !Truthy(currentPassword) || !Truthy(newPassword) {
        return Fail(400, "Missing fields");
      }
      var e := email.value;
      if e !in users {
        return Fail(404, "User not found");
      }
      var user := users[e];
      var ok := h.verify(currentPassword.value, user.passwordHash);
      if !ok {
        return Fail(401, "Incorrect current password");
      }
      var hash := h.hash(newPassword.value);
      user := user.(passwordHash := hash);
      users := users[e := user];
      r := Ok(true);
    }
  }

  /**
   * With a sound hasher, an account can log in with the password it signed
   * up with, and after a password change with the new password.
   */
  method CredentialsScenario(h: Hasher)
    requires Sound(h)
  {
    var store := new UserStore();
    var b := SignupRequest(Some("a@x.com"), Some("secret1"), Some("A"), Some("99"), Some("Student"),
                           Some("SOET"), None);
    var s := store.Signup(b, h);
    assert s.Ok?;
    var l := store.Login(Some("a@x.com"), Some("secret1"), h);
    assert l == Ok(Profile("a@x.com", Some("A"), Some("99"), Some("Student"), Some("SOET"), None));
    var c := store.ChangePassword(Some("a@x.com"), Some("secret1"), Some("secret2"), h);
    assert c == Ok(true);
    l := store.Login(Some("a@x.com"), Some("secret2"), h);
    assert l.Ok?;
    var again := store.Signup(b, h);
    assert again == Fail(409, "Exists");
  }
}
