/** The authentication handlers as transitions on the user collection and
    the reset-token collection. Values minted outside the handlers are
    parameters: the ids the database assigns, `uuid` tokens, the strings
    `jwt.sign` returns, the user id `jwt.verify` decodes (absent when it
    throws) and the verdict of the request-body validator. */
module Auth {
  import opened Http
  import opened Lookup
  import opened Users

  /** A password-reset token document, bound to one user. */
  datatype ResetToken = ResetToken(userId: Id, token: string)

  datatype AuthState = AuthState(users: seq<UserRecord>, resetTokens: seq<ResetToken>)

  /** The body `registerUser` reads. */
  datatype Registration = Registration(firstName: string, lastName: string, email: string, password: string)

  /** What a successful login hands out: both signed tokens and their claims. */
  datatype Session = Session(accessToken: string, refreshToken: string, claims: Claims)

  /** What a successful refresh hands out: a new access token and its claims. */
  datatype Grant = Grant(accessToken: string, claims: Claims)

  const VerifyPurpose := "verify-email"

  /** `u` is waiting for email verification under `token`. */
  predicate HoldsVerifyToken(u: UserRecord, token: string) {
    u.authToken == Some(token) && u.authPurpose == Some(VerifyPurpose)
  }

  /** `findOne({ email })`: the first user with that email. */
  function FindByEmail(users: seq<UserRecord>, email: string): (r: Option<nat>)
    ensures r.Some? ==> r.value < |users| && users[r.value].email == email
    ensures r.Some? ==> forall j :: 0 <= j < r.value ==> users[j].email != email
    ensures r.None? <==> forall j :: 0 <= j < |users| ==> users[j].email != email
  {
    FirstWhere(users, (u: UserRecord) => u.email == email)
  }

  /** `findById(id)`: the first user with that id. */
  function FindById(users: seq<UserRecord>, id: Id): (r: Option<nat>)
    ensures r.Some? ==> r.value < |users| && users[r.value].id == id
    ensures r.Some? ==> forall j :: 0 <= j < r.value ==> users[j].id != id
    ensures r.None? <==> forall j :: 0 <= j < |users| ==> users[j].id != id
  {
    FirstWhere(users, (u: UserRecord) => u.id == id)
  }

  // ---------------------------------------------------------------------
  // registerUser

  function Register(st: AuthState, body: Registration, invalid: Option<string>, newId: Id, token: string)
    : (r: Result<AuthState>)
    ensures invalid.Some? ==> r == Fail(Error(400, invalid.value))
    ensures invalid.None? && (exists i :: 0 <= i < |st.users| && st.users[i].email == body.email) ==>
      r == Fail(Error(400, "User with this email already exists"))
    ensures invalid.None? && FindByEmail(st.users, body.email).None? ==>
      (r.Ok? <==> CreateUser(st.users, NewUser(newId, body.firstName, body.lastName, body.email, None,
                                               Some(Hash(body.password)), Some(token), Some(VerifyPurpose))).Some?)
    ensures r.Fail? && invalid.None? && (forall i :: 0 <= i < |st.users| ==> st.users[i].email != body.email) ==>
      r.error == Unhandled
    ensures r.Ok? ==> r.value.resetTokens == st.resetTokens
    ensures r.Ok? ==> |r.value.users| == |st.users| + 1 && r.value.users[..|st.users|] == st.users
    ensures r.Ok? ==> var u := r.value.users[|st.users|];
      && u.id == newId && u.firstName == body.firstName && u.lastName == body.lastName
      && u.email == body.email && u.googleId == None
      && u.password == Some(Hash(body.password))
      && u.authToken == Some(token) && u.authPurpose == Some(VerifyPurpose)
      && u.role == User && !u.isEmailVerified && u.profilePictureURL == "" && u.refreshToken == None
    ensures Wf(st.users) && r.Ok? ==> Wf(r.value.users)
  {
    if invalid.Some? then Fail(Error(400, invalid.value))
    else if FindByEmail(st.users, body.email).Some? then
      Fail(Error(400, "User with this email already exists"))
    else
      var u := NewUser(newId, body.firstName, body.lastName, body.email, None,
                       Some(Hash(body.password)), Some(token), Some(VerifyPurpose));
      match CreateUser(st.users, u)
      case None => Fail(Unhandled)
      case Some(users') => Ok(st.(users := users'))
  }

  // ---------------------------------------------------------------------
  // verifyEmail

  function VerifyEmail(st: AuthState, token: string): (r: Result<AuthState>)
    ensures r.Fail? <==> forall i :: 0 <= i < |st.users| ==> !HoldsVerifyToken(st.users[i], token)
    ensures r.Fail? ==> r.error == Error(400, "Invalid token")
    ensures r.Ok? ==> r.value.resetTokens == st.resetTokens
    ensures r.Ok? ==>
      exists k :: 0 <= k < |st.users| && HoldsVerifyToken(st.users[k], token)
        && (forall j :: 0 <= j < k ==> !HoldsVerifyToken(st.users[j], token))
        && r.value.users == st.users[k := st.users[k].(isEmailVerified := true, authToken := Some(""), authPurpose := Some(""))]
    ensures Wf(st.users) && r.Ok? ==> Wf(r.value.users)
  {
    match FirstWhere(st.users, (u: UserRecord) => HoldsVerifyToken(u, token))
    case None => Fail(Error(400, "Invalid token"))
    case Some(k) =>
      var u := st.users[k];
      Ok(st.(users := st.users[k := u.(isEmailVerified := true, authToken := Some(""), authPurpose := Some(""))]))
  }

  // ---------------------------------------------------------------------
  // loginUser

  function Login(st: AuthState, email: string, password: string, invalid: Option<string>,
                 accessToken: string, refreshToken: string): (r: Result<(AuthState, Session)>)
    ensures invalid.Some? ==> r == Fail(Error(400, invalid.value))
    ensures invalid.None? && (forall i :: 0 <= i < |st.users| ==> st.users[i].email != email) ==>
      r == Fail(Error(404, "User not found"))
    ensures invalid.None? && FindByEmail(st.users, email).Some? ==>
      var u := st.users[FindByEmail(st.users, email).value];
      && (u.password.None? ==> r == Fail(Unhandled))
      && (u.password.Some? && !Matches(password, u.password.value) ==> r == Fail(Error(401, "Invalid Credentials")))
      && (u.password.Some? && Matches(password, u.password.value) ==> r.Ok?)
    ensures r.Ok? ==> var k := FindByEmail(st.users, email).value;
      && r.value.0 == st.(users := st.users[k := st.users[k].(refreshToken := Some(refreshToken))])
      && r.value.1 == Session(accessToken, refreshToken, ClaimsOf(st.users[k]))
    ensures Wf(st.users) && r.Ok? ==> Wf(r.value.0.users)
  {
    if invalid.Some? then Fail(Error(400, invalid.value))
    else match FindByEmail(st.users, email)
      case None => Fail(Error(404, "User not found"))
      case Some(k) =>
        var u := st.users[k];
        if u.password.None? then Fail(Unhandled)
        else if !Matches(password, u.password.value) then Fail(Error(401, "Invalid Credentials"))
        else
          var users' := st.users[k := u.(refreshToken := Some(refreshToken))];
          Ok((st.(users := users'), Session(accessToken, refreshToken, ClaimsOf(u))))
  }

  // ---------------------------------------------------------------------
  // refreshToken

  /** `presented` is the body's token; `decoded` the user id `jwt.verify`
      recovers from it, absent when verification throws. Nothing is written. */
  function RefreshToken(st: AuthState, presented: Option<string>, decoded: Option<Id>, accessToken: string)
    : (r: Result<Grant>)
    ensures !TruthyString(presented) ==> r == Fail(Error(400, "Refresh token is required"))
    ensures TruthyString(presented) && decoded.None? ==> r == Fail(Unhandled)
    ensures r.Ok? <==>
      (&& TruthyString(presented) && decoded.Some? && FindById(st.users, decoded.value).Some?
       && st.users[FindById(st.users, decoded.value).value].refreshToken == presented)
    ensures r.Ok? ==> var k := FindById(st.users, decoded.value).value;
      r.value == Grant(accessToken, ClaimsOf(st.users[k])) && st.users[k].id == decoded.value
    ensures r.Fail? && TruthyString(presented) && decoded.Some? ==> r.error == Error(401, "Invalid refresh token")
  {
    if !TruthyString(presented) then Fail(Error(400, "Refresh token is required"))
    else if decoded.None? then Fail(Unhandled)
    else match FindById(st.users, decoded.value)
      case None => Fail(Error(401, "Invalid refresh token"))
      case Some(k) =>
        if st.users[k].refreshToken != presented then Fail(Error(401, "Invalid refresh token"))
        else Ok(Grant(accessToken, ClaimsOf(st.users[k])))
  }

  // ---------------------------------------------------------------------
  // forgetPassword and resetPassword

  /** The body is not validated. Without an `email` the filter of `findOne`
      is empty and it returns some user, taken here to be the first, and a
      reset token is stored for that user. */
  function ForgetPassword(st: AuthState, email: Option<string>, token: string): (r: Result<AuthState>)
    ensures email.Some? ==> (r.Fail? <==> forall i :: 0 <= i < |st.users| ==> st.users[i].email != email.value)
    ensures email.None? ==> (r.Fail? <==> |st.users| == 0)
    ensures r.Fail? ==> r.error == Error(404, "User not found")
    ensures r.Ok? ==> r.value.users == st.users
    ensures r.Ok? && email.Some? ==> var k := FindByEmail(st.users, email.value).value;
      && st.users[k].email == email.value
      && r.value.resetTokens == st.resetTokens + [ResetToken(st.users[k].id, token)]
    ensures r.Ok? && email.None? ==> r.value.resetTokens == st.resetTokens + [ResetToken(st.users[0].id, token)]
  {
    var found := if email.Some? then FindByEmail(st.users, email.value)
                 else FirstWhere(st.users, (u: UserRecord) => true);
    match found
    case None => Fail(Error(404, "User not found"))
    case Some(k) => Ok(st.(resetTokens := st.resetTokens + [ResetToken(st.users[k].id, token)]))
  }

  /** `userTokenModel.findOne({ token })`: the first entry for that token. */
  function FindResetToken(tokens: seq<ResetToken>, token: string): (r: Option<nat>)
    ensures r.Some? ==> r.value < |tokens| && tokens[r.value].token == token
    ensures r.Some? ==> forall j :: 0 <= j < r.value ==> tokens[j].token != token
    ensures r.None? <==> forall j :: 0 <= j < |tokens| ==> tokens[j].token != token
  {
    FirstWhere(tokens, (t: ResetToken) => t.token == token)
  }

  /** `newPassword` absent makes `bcrypt.hashSync` throw after the token and
      the user were found: the error is forwarded and nothing is written. */
  function ResetPassword(st: AuthState, token: string, newPassword: Option<string>): (r: Result<AuthState>)
    ensures (forall t :: 0 <= t < |st.resetTokens| ==> st.resetTokens[t].token != token) ==>
      r == Fail(Error(400, "Invalid token"))
    ensures FindResetToken(st.resetTokens, token).Some? ==>
      var entry := st.resetTokens[FindResetToken(st.resetTokens, token).value];
      && (FindById(st.users, entry.userId).None? ==> r == Fail(Error(404, "User not found")))
      && (FindById(st.users, entry.userId).Some? && newPassword.None? ==> r == Fail(Unhandled))
      && (FindById(st.users, entry.userId).Some? && newPassword.Some? ==> r.Ok?)
    ensures r.Ok? ==>
      var t := FindResetToken(st.resetTokens, token).value;
      var k := FindById(st.users, st.resetTokens[t].userId).value;
      && st.resetTokens[t].token == token
      && st.users[k].id == st.resetTokens[t].userId
      && newPassword.Some?
      && r.value.users == st.users[k := st.users[k].(password := Some(Hash(newPassword.value)))]
      && r.value.resetTokens == st.resetTokens[..t] + st.resetTokens[t + 1..]
    ensures Wf(st.users) && r.Ok? ==> Wf(r.value.users)
  {
    match FindResetToken(st.resetTokens, token)
    case None => Fail(Error(400, "Invalid token"))
    case Some(t) =>
      match FindById(st.users, st.resetTokens[t].userId)
      case None => Fail(Error(404, "User not found"))
      case Some(k) =>
        if newPassword.None? then Fail(Unhandled)
        else
          var users' := st.users[k := st.users[k].(password := Some(Hash(newPassword.value)))];
          Ok(AuthState(users', st.resetTokens[..t] + st.resetTokens[t + 1..]))
  }

  // ---------------------------------------------------------------------
  // Token lifecycles

  /** At most one user waits for verification under `token` (uuids are unique). */
  predicate VerifyTokenUnused(users: seq<UserRecord>, token: string) {
    forall i :: 0 <= i < |users| ==> !HoldsVerifyToken(users[i], token)
  }

  /** A registration's token verifies that new user's email. */
  lemma RegisterThenVerify(st: AuthState, body: Registration, newId: Id, token: string)
    requires VerifyTokenUnused(st.users, token)
    requires Register(st, body, None, newId, token).Ok?
    ensures var st' := Register(st, body, None, newId, token).value;
      var r := VerifyEmail(st', token);
      && r.Ok?
      && r.value.users[|st.users|].isEmailVerified
      && r.value.users[..|st.users|] == st.users
  {
  }

  /** A new user can log in with the registered password straight away:
      login does not ask whether the email was verified. */
  lemma RegisterThenLogin(st: AuthState, body: Registration, newId: Id, token: string,
                          accessToken: string, refreshToken: string)
    requires Register(st, body, None, newId, token).Ok?
    ensures var st' := Register(st, body, None, newId, token).value;
      && !st'.users[|st.users|].isEmailVerified
      && Login(st', body.email, body.password, None, accessToken, refreshToken).Ok?
  {
  }

  /** A verification token works once: the user it verified no longer holds it. */
  lemma VerifyEmailIsSingleUse(st: AuthState, token: string)
    requires forall i, j :: 0 <= i < j < |st.users| && HoldsVerifyToken(st.users[i], token) ==> !HoldsVerifyToken(st.users[j], token)
    requires VerifyEmail(st, token).Ok?
    ensures VerifyEmail(VerifyEmail(st, token).value, token) == Fail(Error(400, "Invalid token"))
  {
  }

  /** A refresh token handed out by a login is accepted until the next login. */
  lemma LoginThenRefresh(st: AuthState, email: string, password: string, accessToken: string,
                         refreshToken: string, newAccess: string)
    requires Wf(st.users)
    requires refreshToken != ""
    requires Login(st, email, password, None, accessToken, refreshToken).Ok?
    ensures var (st', session) := Login(st, email, password, None, accessToken, refreshToken).value;
      RefreshToken(st', Some(refreshToken), Some(session.claims.userId), newAccess)
        == Ok(Grant(newAccess, session.claims))
  {
    var (st', session) := Login(st, email, password, None, accessToken, refreshToken).value;
    var k := FindByEmail(st.users, email).value;
    var id := session.claims.userId;
    assert st'.users[k].id == id;
    assert FindById(st'.users, id).value == k;
  }

  /** A second login overwrites the stored refresh token, so the token the
      first login handed out is refused, whichever user it decodes to. */
  lemma LoginRevokesEarlierRefresh(st: AuthState, email: string, password: string,
                                   access1: string, refresh1: string,
                                   access2: string, refresh2: string,
                                   decoded: Id, newAccess: string)
    requires refresh1 != "" && refresh1 != refresh2
    requires forall i :: 0 <= i < |st.users| ==> st.users[i].refreshToken != Some(refresh1)
    requires Login(st, email, password, None, access1, refresh1).Ok?
    ensures var st1 := Login(st, email, password, None, access1, refresh1).value.0;
      var r := Login(st1, email, password, None, access2, refresh2);
      r.Ok? ==> RefreshToken(r.value.0, Some(refresh1), Some(decoded), newAccess)
                  == Fail(Error(401, "Invalid refresh token"))
  {
  }

  /** A reset token works once: it is deleted when used. */
  lemma ResetPasswordIsSingleUse(st: AuthState, token: string, newPassword: Option<string>, again: Option<string>)
    requires forall i, j :: 0 <= i < j < |st.resetTokens| && st.resetTokens[i].token == token ==> st.resetTokens[j].token != token
    requires ResetPassword(st, token, newPassword).Ok?
    ensures ResetPassword(ResetPassword(st, token, newPassword).value, token, again)
         == Fail(Error(400, "Invalid token"))
  {
  }

  /** A reset token issued for an email resets that user's password: the user
      can then log in with the new password. */
  lemma ForgetThenReset(st: AuthState, email: string, token: string, newPassword: string,
                        access: string, refresh: string)
    requires Wf(st.users)
    requires forall t :: 0 <= t < |st.resetTokens| ==> st.resetTokens[t].token != token
    requires ForgetPassword(st, Some(email), token).Ok?
    ensures var st1 := ForgetPassword(st, Some(email), token).value;
      var st2 := ResetPassword(st1, token, Some(newPassword));
      && st2.Ok?
      && st2.value.resetTokens == st.resetTokens
      && Login(st2.value, email, newPassword, None, access, refresh).Ok?
  {
    var st1 := ForgetPassword(st, Some(email), token).value;
    var k := FindByEmail(st.users, email).value;
    var n := |st.resetTokens|;
    assert st1.resetTokens[n].token == token;
    assert FindResetToken(st1.resetTokens, token).value == n;
    assert FindById(st1.users, st.users[k].id).Some?;
    var m := FindById(st1.users, st.users[k].id).value;
    assert m == k;
    var st2 := ResetPassword(st1, token, Some(newPassword)).value;
    assert st1.resetTokens[..n] == st.resetTokens;
    assert st2.users[k].email == email;
    assert FindByEmail(st2.users, email).value == k;
  }
}
