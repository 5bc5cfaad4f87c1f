/** The user schema: fields, defaults, the role enumeration and the
    validators `usersModel.create` runs, plus the unique index on `email`. */
module Users {
  import opened Http

  /** The `role` enumeration ["admin", "user"]; the type admits no other value. */
  datatype Role = Admin | User

  /** A bcrypt digest, treated as a function of the password alone (the salt
      plays no part in whether a password matches). The stand-in is
      injective, which bcrypt is not beyond a password's first 72 bytes. */
  datatype Digest = Digest(secret: string)

  function Hash(password: string): Digest {
    Digest(password)
  }

  /** `bcrypt.compareSync`. */
  predicate Matches(password: string, digest: Digest) {
    digest == Hash(password)
  }

  /** A user document. Optional schema paths with no default are `Option`s. */
  datatype UserRecord = UserRecord(
    id: Id,
    googleId: Option<string>,
    firstName: string,
    lastName: string,
    profilePictureURL: string,
    email: string,
    isEmailVerified: bool,
    password: Option<Digest>,
    authToken: Option<string>,
    authPurpose: Option<string>,
    role: Role,
    refreshToken: Option<string>)

  /** The claims every token is signed over. */
  datatype Claims = Claims(userId: Id, email: string, role: Role)

  function ClaimsOf(u: UserRecord): Claims {
    Claims(u.id, u.email, u.role)
  }

  /** A new document for the given fields, every other path at its schema
      default: profile picture "", not verified, role user, no refresh token. */
  function NewUser(id: Id, firstName: string, lastName: string, email: string,
                   googleId: Option<string>, password: Option<Digest>,
                   authToken: Option<string>, authPurpose: Option<string>): (u: UserRecord)
    ensures u.role == User && !u.isEmailVerified
    ensures u.profilePictureURL == "" && u.refreshToken == None
    ensures u.id == id && u.email == email && u.password == password
  {
    UserRecord(id, googleId, firstName, lastName, "", email, false, password,
               authToken, authPurpose, User, None)
  }

  /** The schema's `required` validators: the names and the email must be
      non-empty strings, and a password is required unless a Google id is set. */
  predicate SchemaValid(u: UserRecord) {
    && u.firstName != ""
    && u.lastName != ""
    && u.email != ""
    && (!TruthyString(u.googleId) ==> u.password.Some?)
  }

  predicate UniqueEmails(users: seq<UserRecord>) {
    forall i, j :: 0 <= i < j < |users| ==> users[i].email != users[j].email
  }

  predicate UniqueIds(users: seq<UserRecord>) {
    forall i, j :: 0 <= i < j < |users| ==> users[i].id != users[j].id
  }

  /** What the collection guarantees of its documents. */
  predicate Wf(users: seq<UserRecord>) {
    && (forall i :: 0 <= i < |users| ==> SchemaValid(users[i]))
    && UniqueEmails(users)
    && UniqueIds(users)
  }

  /** `usersModel.create`: the validators run first, then the unique indexes
      on `_id` and `email` refuse a clash; `None` is the rejection, which the
      caller forwards to the error middleware. */
  function CreateUser(users: seq<UserRecord>, u: UserRecord): (r: Option<seq<UserRecord>>)
    ensures r.Some? <==> SchemaValid(u) && forall i :: 0 <= i < |users| ==> users[i].email != u.email && users[i].id != u.id
    ensures r.Some? ==> |r.value| == |users| + 1 && r.value[..|users|] == users && r.value[|users|] == u
    ensures Wf(users) && r.Some? ==> Wf(r.value)
  {
    if !SchemaValid(u) then None
    else if exists i :: 0 <= i < |users| && (users[i].email == u.email || users[i].id == u.id) then None
    else
      var users' := users + [u];
      assert users'[..|users|] == users;
      Some(users')
  }

}
