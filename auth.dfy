/** The authentication handlers over an in-memory user collection: registration, login and
    logout, e-mail verification, refresh-token rotation, and the forgot, reset and change
    password flows. SHA-256, bcrypt, JWT signing and verification and the e-mail format check
    are functions the store is given; the random bytes of a one-time token and the clock are
    parameters of the handlers that need them. */
module AuthControllers {
  import opened Common
  import opened Text
  import opened Schema
  import opened AuthValidators
  import opened UserModel

  /** No two users share a username, and no two share an e-mail (the `unique` indexes). */
  ghost predicate UniqueIdentities(users: map<Id, User>)
  {
    forall a, b :: a in users && b in users && a != b ==>
      users[a].username != users[b].username && users[a].email != users[b].email
  }

  /** Replacing a user by a record with the same username and e-mail keeps them unique. */
  lemma UpdateKeepsIdentitiesUnique(users: map<Id, User>, id: Id, u: User)
    requires UniqueIdentities(users) && id in users
    requires u.username == users[id].username && u.email == users[id].email
    ensures UniqueIdentities(users[id := u])
  {
  }

  /** `id` is the user stored under that e-mail. */
  predicate EmailHolder(users: map<Id, User>, id: Id, email: string)
  {
    id in users && users[id].email == email
  }

  /** Inserting a user under a fresh id whose username and e-mail nobody holds keeps them
      unique. */
  lemma InsertKeepsIdentitiesUnique(users: map<Id, User>, id: Id, u: User)
    requires UniqueIdentities(users) && id !in users && !Taken(users, u.username, u.email)
    ensures UniqueIdentities(users[id := u])
  {
  }

  /** A user inserted and then saved again under the same fresh id: the second record is
      the one stored, and identities stay unique when nobody else holds its username or
      e-mail. */
  lemma InsertTwiceKeepsIdentitiesUnique(users: map<Id, User>, id: Id, first: User, u: User)
    requires UniqueIdentities(users) && id !in users && !Taken(users, u.username, u.email)
    ensures users[id := first][id := u] == users[id := u]
    ensures UniqueIdentities(users[id := first][id := u])
  {
    assert users[id := first][id := u] == users[id := u];
  }

  /** `findOne({$or: [{username}, {email}]})` finds someone. */
  predicate Taken(users: map<Id, User>, username: string, email: string)
  {
    exists id :: id in users && (users[id].username == username || users[id].email == email)
  }

  /** The first two steps of `registerUserController`: the body is validated (400), then a
      user holding the username or the e-mail, after the setters, is looked up (409). */
  function RegisterDecision(users: map<Id, User>, body: RegisterBody, isEmail: string -> bool): (o: Outcome<Registration>)
    ensures ValidateRegister(body, isEmail).Rejected? ==> o == Fail(BadRequest)
    ensures o.Ok? <==> (
      && ValidateRegister(body, isEmail).Accepted?
      && !Taken(users, Normalize(body.username.value), Normalize(body.email.value)))
    ensures o.Fail? ==> o.status in {BadRequest, Conflict}
    ensures o.Ok? ==> o.value == ValidateRegister(body, isEmail).value && |o.value.password| >= MinPasswordLength
    ensures o.Ok? ==> !Taken(users, Normalize(o.value.username), Normalize(o.value.email))
  {
    match ValidateRegister(body, isEmail)
    case Rejected(_) => Fail(BadRequest)
    case Accepted(reg) =>
      assert TooShort !in PasswordIssues(reg.password);
      if Taken(users, Normalize(reg.username), Normalize(reg.email)) then Fail(Conflict) else Ok(reg)
  }

  /** A registration is refused as a conflict when the username or the e-mail is taken; the
      comparison is made after trimming and lower-casing both. */
  lemma DuplicateRegistrationConflicts(users: map<Id, User>, body: RegisterBody, isEmail: string -> bool, id: Id)
    requires ValidateRegister(body, isEmail).Accepted? && id in users
    requires users[id].username == Normalize(body.username.value) || users[id].email == Normalize(body.email.value)
    ensures RegisterDecision(users, body, isEmail) == Fail(Conflict)
  {
  }

  /** The access and refresh tokens a login or refresh hands out. */
  datatype TokenPair = TokenPair(accessToken: string, refreshToken: string)

  /** A registered user and the plaintext verification token mailed to them. */
  datatype Registered = Registered(id: Id, verificationToken: string)

  /** The record `verifyEmail` saves: verified, with the verification token and expiry unset. */
  function Verified(u: User): (r: User)
    ensures r.isEmailVerified && r.emailVerificationToken.None? && r.emailVerificationExpiry.None?
    ensures r.(isEmailVerified := u.isEmailVerified, emailVerificationToken := u.emailVerificationToken,
               emailVerificationExpiry := u.emailVerificationExpiry) == u
  {
    u.(isEmailVerified := true, emailVerificationToken := None, emailVerificationExpiry := None)
  }

  /** The record after a verification token was issued to it. */
  function WithVerificationToken(u: User, t: TemporaryToken): (r: User)
    ensures r.emailVerificationToken == Some(t.hashedToken) && r.emailVerificationExpiry == Some(t.tokenExpiry)
    ensures r.(emailVerificationToken := u.emailVerificationToken, emailVerificationExpiry := u.emailVerificationExpiry) == u
  {
    u.(emailVerificationToken := Some(t.hashedToken), emailVerificationExpiry := Some(t.tokenExpiry))
  }

  /** The record after a reset token was issued to it. */
  function WithResetToken(u: User, t: TemporaryToken): (r: User)
    ensures r.forgotPasswordToken == Some(t.hashedToken) && r.forgotPasswordExpiry == Some(t.tokenExpiry)
    ensures r.(forgotPasswordToken := u.forgotPasswordToken, forgotPasswordExpiry := u.forgotPasswordExpiry) == u
  {
    u.(forgotPasswordToken := Some(t.hashedToken), forgotPasswordExpiry := Some(t.tokenExpiry))
  }

  /** The record `resetForgotPassword` saves: reset token and expiry unset, the new password's
      hash stored. */
  function PasswordReset(u: User, hashedPassword: string): (r: User)
    ensures r.forgotPasswordToken.None? && r.forgotPasswordExpiry.None? && r.password == hashedPassword
    ensures r.(forgotPasswordToken := u.forgotPasswordToken, forgotPasswordExpiry := u.forgotPasswordExpiry,
               password := u.password) == u
  {
    u.(forgotPasswordToken := None, forgotPasswordExpiry := None, password := hashedPassword)
  }

  /** The record after a refresh token was issued to it. */
  function WithRefreshToken(u: User, token: string): (r: User)
    ensures r.refreshToken == Some(token)
    ensures r.(refreshToken := u.refreshToken) == u
  {
    u.(refreshToken := Some(token))
  }

  /** The record after logout: the stored refresh token is the empty string. */
  function LoggedOut(u: User): (r: User)
    ensures r.refreshToken == Some("")
    ensures r.(refreshToken := u.refreshToken) == u
  {
    u.(refreshToken := Some(""))
  }

  /** The record `register` stores for an accepted registration: the setters applied, the
      password hashed by the save hook, unverified, holding the hash of a fresh verification
      token. The full name is validated but never passed to `create`. */
  function NewUser(reg: Registration, hash: string -> string, t: TemporaryToken): (r: User)
    ensures var created := CreateUserDocument(reg.username, reg.email, reg.password);
      created.Ok? ==> r == WithVerificationToken(PreSaved(created.value, true, hash), t)
  {
    User(Normalize(reg.username), Normalize(reg.email), None, hash(reg.password), false,
         None, None, None, Some(t.hashedToken), Some(t.tokenExpiry))
  }

  /** A newly registered user is unverified, has no refresh or reset token, logs in with the
      password they registered with, and verifies with the mailed token until it expires. */
  lemma NewUserState(reg: Registration, hash: string -> string, compare: (string, string) -> bool,
                     random: seq<Byte>, issuedAt: int, now: int, sha256: string -> string)
    requires forall p :: compare(p, hash(p))
    ensures var t := GenerateTemporaryToken(random, issuedAt, sha256);
      var u := NewUser(reg, hash, t);
      && !u.isEmailVerified && u.refreshToken.None? && u.forgotPasswordToken.None?
      && PasswordMatches(u, reg.password, compare)
      && (VerificationTokenMatches(u, sha256(t.unHashedToken), now) <==> now < issuedAt + TemporaryTokenLifetime)
  {
  }

  /** The users whose stored verification hash is `hashed` and unexpired at `now`. */
  function MatchingVerification(users: map<Id, User>, hashed: string, now: int): (r: set<Id>)
    ensures forall id :: id in r <==> id in users && VerificationTokenMatches(users[id], hashed, now)
  {
    set id | id in users && VerificationTokenMatches(users[id], hashed, now)
  }

  /** Verification consumes the token: the verified user leaves the set of users the token
      matches, and nobody else's match changes. So when one user matched, presenting the
      same token again fails. */
  lemma {:induction false} VerificationConsumesToken(users: map<Id, User>, id: Id, hashed: string, now: int)
    requires id in users
    ensures MatchingVerification(users[id := Verified(users[id])], hashed, now) == MatchingVerification(users, hashed, now) - {id}
    ensures MatchingVerification(users, hashed, now) == {id} ==>
      MatchingVerification(users[id := Verified(users[id])], hashed, now) == {}
  {
    var after := users[id := Verified(users[id])];
    assert !VerificationTokenMatches(after[id], hashed, now);
    assert forall j :: j in after && j != id ==> after[j] == users[j];
  }

  /** A re-issued verification token replaces the earlier one: the record matches a hash only if
      it is the new token's. */
  lemma ReissueReplacesVerificationToken(u: User, t: TemporaryToken, hashed: string, now: int)
    ensures VerificationTokenMatches(WithVerificationToken(u, t), hashed, now) <==> hashed == t.hashedToken && now < t.tokenExpiry
  {
  }

  /** A successful reset consumes the reset token, and the new password then passes the login
      check. */
  lemma ResetConsumesToken(u: User, p: string, hashed: string, now: int,
                           hash: string -> string, compare: (string, string) -> bool)
    requires forall q :: compare(q, hash(q))
    ensures !ResetTokenMatches(PasswordReset(u, hash(p)), hashed, now)
    ensures PasswordMatches(PasswordReset(u, hash(p)), p, compare)
  {
  }

  /** The stored refresh token accepts an incoming one only by textual equality. */
  predicate RefreshAccepted(u: User, incoming: string)
  {
    u.refreshToken == Some(incoming)
  }

  /** Rotation: once a new refresh token is stored, exactly that token is accepted; any other,
      the previously issued one included, is refused. */
  lemma RotationAcceptsOnlyNewToken(u: User, issued: string, incoming: string)
    ensures RefreshAccepted(WithRefreshToken(u, issued), incoming) <==> incoming == issued
  {
  }

  /** After logout no token is accepted: the stored value is empty, and an empty incoming token
      is refused before the comparison. */
  lemma LogoutRefusesEveryToken(u: User, incoming: string)
    requires incoming != ""
    ensures !RefreshAccepted(LoggedOut(u), incoming)
  {
  }

  /** `req.cookies.refreshToken || req.body.refreshToken`, absent when neither is truthy. */
  function IncomingRefreshToken(cookie: Option<string>, body: Option<string>): (r: Option<string>)
    ensures r.Some? <==> Truthy(cookie) || Truthy(body)
    ensures r.Some? ==> r.value != ""
    ensures Truthy(cookie) ==> r == cookie
    ensures !Truthy(cookie) && Truthy(body) ==> r == body
  {
    if Truthy(cookie) then cookie else if Truthy(body) then body else None
  }

  /** The user collection and the functions the handlers call out to. */
  class UserStore {
    var users: map<Id, User>
    /** The id the next created user receives. */
    var nextId: Id
    /** `createHash("sha256").update(x).digest("hex")`. */
    const sha256: string -> string
    /** `bcrypt.hash(p, 10)`; its salt is not modelled. */
    const bcryptHash: string -> string
    /** `bcrypt.compare(candidate, stored)`. */
    const bcryptCompare: (string, string) -> bool
    /** The format check behind `z.email()`. */
    const isEmail: string -> bool
    /** `jwt.sign` with the access-token secret. */
    const signAccess: SignRequest -> string
    /** `jwt.sign` with the refresh-token secret. */
    const signRefresh: SignRequest -> string
    /** `jwt.verify` with the refresh-token secret at a time: the `_id` claim, or nothing when it
        throws. */
    const verifyRefresh: (string, int) -> Option<Id>
    /** `ACCESS_TOKEN_EXPIRY` and `REFRESH_TOKEN_EXPIRY` from the environment. */
    const accessTokenExpiry: Option<string>
    const refreshTokenExpiry: Option<string>

    ghost predicate Valid()
      reads this
    {
      && (forall id :: id in users ==> id < nextId)
      && UniqueIdentities(users)
    }

    constructor (sha256: string -> string, bcryptHash: string -> string, bcryptCompare: (string, string) -> bool,
                 isEmail: string -> bool, signAccess: SignRequest -> string, signRefresh: SignRequest -> string,
                 verifyRefresh: (string, int) -> Option<Id>, accessTokenExpiry: Option<string>, refreshTokenExpiry: Option<string>)
      ensures Valid() && users == map[]
      ensures this.sha256 == sha256 && this.bcryptHash == bcryptHash && this.bcryptCompare == bcryptCompare
      ensures this.isEmail == isEmail && this.signAccess == signAccess && this.signRefresh == signRefresh
      ensures this.verifyRefresh == verifyRefresh
      ensures this.accessTokenExpiry == accessTokenExpiry && this.refreshTokenExpiry == refreshTokenExpiry
    {
      users := map[];
      nextId := 0;
      this.sha256 := sha256;
      this.bcryptHash := bcryptHash;
      this.bcryptCompare := bcryptCompare;
      this.isEmail := isEmail;
      this.signAccess := signAccess;
      this.signRefresh := signRefresh;
      this.verifyRefresh := verifyRefresh;
      this.accessTokenExpiry := accessTokenExpiry;
      this.refreshTokenExpiry := refreshTokenExpiry;
    }

    /** `user.save()`: the pre-save hook, then the document is written back. */
    method Save(doc: UserDocument)
      modifies this, doc
      ensures doc.data == PreSaved(old(doc.data), old(doc.passwordModified), bcryptHash) && !doc.passwordModified
      ensures users == old(users)[doc.id := doc.data]
      ensures nextId == old(nextId)
    {
      doc.PreSave(bcryptHash);
      users := users[doc.id := doc.data];
      doc.passwordModified := false;
    }

    /** `User.create`: a new document under a fresh id, saved through the pre-save hook, so the
        stored password is the hash of the given one. */
    method Create(data: User) returns (doc: UserDocument)
      modifies this
      ensures fresh(doc) && doc.id == old(nextId) && nextId == old(nextId) + 1
      ensures doc.data == data.(password := bcryptHash(data.password)) && !doc.passwordModified
      ensures users == old(users)[doc.id := doc.data]
    {
      doc := new UserDocument.Created(nextId, data);
      nextId := nextId + 1;
      Save(doc);
    }

    /** `generateAccessAndRefreshTokens`: signs both tokens for the user and stores the refresh
        token on the user. A missing user is reported as 500. */
    method GenerateAccessAndRefreshTokens(id: Id, now: int) returns (r: Outcome<TokenPair>)
      requires Valid()
      modifies this
      ensures Valid()
      ensures r.Ok? <==> id in old(users)
      ensures r.Fail? ==> r.status == InternalError && users == old(users)
      ensures r.Ok? ==>
        && r.value.accessToken == signAccess(AccessTokenRequest(id, old(users)[id], accessTokenExpiry, now))
        && r.value.refreshToken == signRefresh(RefreshTokenRequest(id, refreshTokenExpiry, now))
        && users == old(users)[id := WithRefreshToken(old(users)[id], r.value.refreshToken)]
      ensures nextId == old(nextId)
    {
      if id !in users {
        return Fail(InternalError);
      }
      var doc := new UserDocument.Loaded(id, users[id]);
      var accessToken := signAccess(AccessTokenRequest(id, doc.data, accessTokenExpiry, now));
      var refreshToken := signRefresh(RefreshTokenRequest(id, refreshTokenExpiry, now));
      doc.data := doc.data.(refreshToken := Some(refreshToken));
      Save(doc);
      UpdateKeepsIdentitiesUnique(old(users), id, users[id]);
      return Ok(TokenPair(accessToken, refreshToken));
    }

    /** `registerUserController`: 400 for an invalid body and 409 for a taken username or
        e-mail (decided by `RegisterDecision`); otherwise a new unverified user holding the
        hash of a fresh verification token, whose plaintext is returned for the e-mail. */
    method Register(body: RegisterBody, random: seq<Byte>, now: int) returns (r: Outcome<Registered>)
      requires Valid()
      modifies this
      ensures Valid()
      ensures RegisterDecision(old(users), body, isEmail).Fail? ==> r == Fail(RegisterDecision(old(users), body, isEmail).status)
      ensures r.Ok? <==> (
        && RegisterDecision(old(users), body, isEmail).Ok?
        && Normalize(body.username.value) != [] && Normalize(body.email.value) != [])
      ensures r.Fail? ==> r.status in {BadRequest, Conflict, InternalError} && users == old(users)
      ensures RegisterDecision(old(users), body, isEmail).Ok? && r.Fail? ==> r.status == InternalError
      ensures r.Ok? ==> var t := GenerateTemporaryToken(random, now, sha256);
        && r.value.id !in old(users)
        && users == old(users)[r.value.id := NewUser(RegisterDecision(old(users), body, isEmail).value, bcryptHash, t)]
        && r.value.verificationToken == t.unHashedToken
    {
      var decision := RegisterDecision(users, body, isEmail);
      if decision.Fail? {
        return Fail(decision.status);
      }
      var registration := decision.value;
      assert registration.password != [] by {
        assert |registration.password| >= MinPasswordLength;
      }
      var created := CreateUserDocument(registration.username, registration.email, registration.password);
      if created.Fail? {
        return Fail(created.status);
      }
      var token := GenerateTemporaryToken(random, now, sha256);
      var id := CreateWithVerificationToken(created.value, token);
      assert WithVerificationToken(created.value.(password := bcryptHash(created.value.password)), token)
        == NewUser(registration, bcryptHash, token);
      return Ok(Registered(id, token.unHashedToken));
    }

    /** `User.create` of the built document (its save hook hashes the password), then the
        verification token is set on the created user and saved again. */
    method CreateWithVerificationToken(created: User, token: TemporaryToken) returns (id: Id)
      requires Valid() && !Taken(users, created.username, created.email)
      modifies this
      ensures Valid()
      ensures id !in old(users)
      ensures users == old(users)[id := WithVerificationToken(created.(password := bcryptHash(created.password)), token)]
    {
      ghost var before := users;
      var doc := Create(created);
      id := doc.id;
      ghost var first := doc.data;
      doc.data := doc.data.(emailVerificationToken := Some(token.hashedToken), emailVerificationExpiry := Some(token.tokenExpiry));
      Save(doc);
      InsertTwiceKeepsIdentitiesUnique(before, id, first, doc.data);
    }

    /** `loginUserController`: 400 for an invalid body, an unknown e-mail or a wrong password;
        otherwise new tokens, the refresh token stored on the user. */
    method Login(body: LoginBody, now: int) returns (r: Outcome<TokenPair>)
      requires Valid()
      modifies this
      ensures Valid()
      ensures r.Ok? <==>
        && ValidateLogin(body, isEmail).Accepted?
        && (exists id :: EmailHolder(old(users), id, Normalize(body.email.value))
                         && PasswordMatches(old(users)[id], body.password.value, bcryptCompare))
      ensures r.Fail? ==> r.status == BadRequest && users == old(users)
      ensures r.Ok? ==> exists id :: (
        && EmailHolder(old(users), id, Normalize(body.email.value))
        && r.value.accessToken == signAccess(AccessTokenRequest(id, old(users)[id], accessTokenExpiry, now))
        && r.value.refreshToken == signRefresh(RefreshTokenRequest(id, refreshTokenExpiry, now))
        && users == old(users)[id := WithRefreshToken(old(users)[id], r.value.refreshToken)])
      ensures nextId == old(nextId)
    {
      var credentials := ValidateLogin(body, isEmail);
      if credentials.Rejected? {
        return Fail(BadRequest);
      }
      var email := Normalize(credentials.value.email);
      if !exists id :: id in users && EmailHolder(users, id, email) {
        return Fail(BadRequest);
      }
      var id :| id in users && EmailHolder(users, id, email);
      if !bcryptCompare(credentials.value.password, users[id].password) {
        return Fail(BadRequest);
      }
      var tokens := GenerateAccessAndRefreshTokens(id, now);
      if tokens.Fail? {
        assert false;
        return Fail(BadRequest);
      }
      return Ok(tokens.value);
    }

    /** `logoutUserController`: sets the caller's stored refresh token to the empty string; a
        missing user is ignored. */
    method Logout(caller: Id)
      requires Valid()
      modifies this
      ensures Valid()
      ensures users == if caller in old(users) then old(users)[caller := LoggedOut(old(users)[caller])] else old(users)
      ensures nextId == old(nextId)
    {
      if caller in users {
        UpdateKeepsIdentitiesUnique(users, caller, LoggedOut(users[caller]));
        users := users[caller := LoggedOut(users[caller])];
      }
    }

    /** `verifyEmail`: 400 for a missing token, and 400 unless some user's stored verification
        hash is the token's and has not expired; that user becomes verified and the token is
        cleared. */
    method VerifyEmail(token: string, now: int) returns (r: Outcome<Id>)
      requires Valid()
      modifies this
      ensures Valid()
      ensures r.Ok? <==> token != "" && MatchingVerification(old(users), sha256(token), now) != {}
      ensures r.Fail? ==> r.status == BadRequest && users == old(users)
      ensures r.Ok? ==> (
        && r.value in MatchingVerification(old(users), sha256(token), now)
        && users == old(users)[r.value := Verified(old(users)[r.value])]
        && MatchingVerification(users, sha256(token), now) == MatchingVerification(old(users), sha256(token), now) - {r.value})
      ensures nextId == old(nextId)
    {
      if token == "" {
        return Fail(BadRequest);
      }
      var hashed := sha256(token);
      if MatchingVerification(users, hashed, now) == {} {
        return Fail(BadRequest);
      }
      var id :| id in MatchingVerification(users, hashed, now);
      var doc := new UserDocument.Loaded(id, users[id]);
      doc.data := doc.data.(isEmailVerified := true, emailVerificationToken := None, emailVerificationExpiry := None);
      Save(doc);
      UpdateKeepsIdentitiesUnique(old(users), id, users[id]);
      VerificationConsumesToken(old(users), id, hashed, now);
      return Ok(id);
    }

    /** `resendEmailVerification`: 404 for a missing caller, 409 when already verified,
        otherwise the stored verification hash and expiry are overwritten by a fresh token's. */
    method ResendEmailVerification(caller: Id, random: seq<Byte>, now: int) returns (r: Outcome<string>)
      requires Valid()
      modifies this
      ensures Valid()
      ensures caller !in old(users) ==> r == Fail(NotFound)
      ensures caller in old(users) && old(users)[caller].isEmailVerified ==> r == Fail(Conflict)
      ensures r.Ok? <==> caller in old(users) && !old(users)[caller].isEmailVerified
      ensures r.Fail? ==> users == old(users)
      ensures r.Ok? ==> var t := GenerateTemporaryToken(random, now, sha256);
        && r.value == t.unHashedToken
        && users == old(users)[caller := WithVerificationToken(old(users)[caller], t)]
      ensures nextId == old(nextId)
    {
      if caller !in users {
        return Fail(NotFound);
      }
      var doc := new UserDocument.Loaded(caller, users[caller]);
      if doc.data.isEmailVerified {
        return Fail(Conflict);
      }
      var token := GenerateTemporaryToken(random, now, sha256);
      doc.data := doc.data.(emailVerificationToken := Some(token.hashedToken), emailVerificationExpiry := Some(token.tokenExpiry));
      Save(doc);
      UpdateKeepsIdentitiesUnique(old(users), caller, users[caller]);
      return Ok(token.unHashedToken);
    }

    /** `refreshAccessToken`: the incoming token must be present, verify, name an existing user,
        and equal that user's stored refresh token; then both tokens are re-issued and the new
        refresh token stored. Every failure is reported as 401. */
    method RefreshAccessToken(cookie: Option<string>, bodyToken: Option<string>, now: int) returns (r: Outcome<TokenPair>)
      requires Valid()
      modifies this
      ensures Valid()
      ensures var incoming := IncomingRefreshToken(cookie, bodyToken);
        r.Ok? <==>
          && incoming.Some? && verifyRefresh(incoming.value, now).Some?
          && verifyRefresh(incoming.value, now).value in old(users)
          && RefreshAccepted(old(users)[verifyRefresh(incoming.value, now).value], incoming.value)
      ensures r.Fail? ==> r.status == Unauthorized && users == old(users)
      ensures r.Ok? ==> var id := verifyRefresh(IncomingRefreshToken(cookie, bodyToken).value, now).value;
        && r.value.accessToken == signAccess(AccessTokenRequest(id, old(users)[id], accessTokenExpiry, now))
        && r.value.refreshToken == signRefresh(RefreshTokenRequest(id, refreshTokenExpiry, now))
        && users == old(users)[id := WithRefreshToken(old(users)[id], r.value.refreshToken)]
      ensures nextId == old(nextId)
    {
      var incoming := IncomingRefreshToken(cookie, bodyToken);
      if incoming.None? {
        return Fail(Unauthorized);
      }
      var decoded := verifyRefresh(incoming.value, now);
      if decoded.None? {
        return Fail(Unauthorized);
      }
      var id := decoded.value;
      if id !in users {
        return Fail(Unauthorized);
      }
      var doc := new UserDocument.Loaded(id, users[id]);
      if doc.data.refreshToken != Some(incoming.value) {
        return Fail(Unauthorized);
      }
      var tokens := GenerateAccessAndRefreshTokens(id, now);
      if tokens.Fail? {
        assert false;
        return Fail(Unauthorized);
      }
      doc.data := doc.data.(refreshToken := Some(tokens.value.refreshToken));
      Save(doc);
      UpdateKeepsIdentitiesUnique(old(users), id, users[id]);
      return Ok(tokens.value);
    }

    /** `forgotPasswordRequest`: 400 for an invalid body, 404 for an unknown e-mail, otherwise
        the stored reset hash and expiry are overwritten by a fresh token's. */
    method ForgotPasswordRequest(email: Option<string>, random: seq<Byte>, now: int) returns (r: Outcome<string>)
      requires Valid()
      modifies this
      ensures Valid()
      ensures ValidateForgotPassword(email, isEmail).Rejected? ==> r == Fail(BadRequest)
      ensures r.Ok? <==> (
        && ValidateForgotPassword(email, isEmail).Accepted?
        && exists id :: EmailHolder(old(users), id, Normalize(email.value)))
      ensures r.Fail? ==> r.status in {BadRequest, NotFound} && users == old(users)
      ensures r.Ok? ==> var t := GenerateTemporaryToken(random, now, sha256);
        && r.value == t.unHashedToken
        && exists id :: EmailHolder(old(users), id, Normalize(email.value)) && users == old(users)[id := WithResetToken(old(users)[id], t)]
      ensures nextId == old(nextId)
    {
      var request := ValidateForgotPassword(email, isEmail);
      if request.Rejected? {
        return Fail(BadRequest);
      }
      var normalized := Normalize(request.value);
      if !exists id :: id in users && EmailHolder(users, id, normalized) {
        return Fail(NotFound);
      }
      var id :| id in users && EmailHolder(users, id, normalized);
      var doc := new UserDocument.Loaded(id, users[id]);
      var token := GenerateTemporaryToken(random, now, sha256);
      doc.data := doc.data.(forgotPasswordToken := Some(token.hashedToken), forgotPasswordExpiry := Some(token.tokenExpiry));
      Save(doc);
      UpdateKeepsIdentitiesUnique(old(users), id, users[id]);
      return Ok(token.unHashedToken);
    }

    /** `user.password = p; user.save()` on a loaded user whose other changes are in `u`: the
        save hook stores the hash of `p`. */
    method SaveNewPassword(id: Id, u: User, p: string)
      requires Valid() && id in users
      requires u.username == users[id].username && u.email == users[id].email
      modifies this
      ensures Valid()
      ensures users == old(users)[id := u.(password := bcryptHash(p))]
      ensures nextId == old(nextId)
    {
      var doc := new UserDocument.Loaded(id, u);
      doc.SetPassword(p);
      Save(doc);
      UpdateKeepsIdentitiesUnique(old(users), id, users[id]);
    }

    /** `resetForgotPassword`: the body is validated first (400); then some user's stored reset
        hash must be the token's and unexpired (489); that user's reset token is cleared and
        the new password stored, hashed by the save hook. */
    method ResetForgotPassword(resetToken: string, newPassword: Option<string>, now: int) returns (r: Outcome<Id>)
      requires Valid()
      modifies this
      ensures Valid()
      ensures ValidateResetPassword(newPassword).Rejected? ==> r == Fail(BadRequest)
      ensures r.Ok? <==> (
        && ValidateResetPassword(newPassword).Accepted?
        && exists id :: id in old(users) && ResetTokenMatches(old(users)[id], sha256(resetToken), now))
      ensures ValidateResetPassword(newPassword).Accepted? && r.Fail? ==> r == Fail(ResetTokenRejected)
      ensures r.Fail? ==> users == old(users)
      ensures r.Ok? ==> (
        && r.value in old(users) && ResetTokenMatches(old(users)[r.value], sha256(resetToken), now)
        && users == old(users)[r.value := PasswordReset(old(users)[r.value], bcryptHash(newPassword.value))])
      ensures nextId == old(nextId)
    {
      var reset := ValidateResetPassword(newPassword);
      if reset.Rejected? {
        return Fail(BadRequest);
      }
      var hashed := sha256(resetToken);
      if !exists id :: id in users && ResetTokenMatches(users[id], hashed, now) {
        return Fail(ResetTokenRejected);
      }
      var id :| id in users && ResetTokenMatches(users[id], hashed, now);
      SaveNewPassword(id, users[id].(forgotPasswordToken := None, forgotPasswordExpiry := None), reset.value);
      return Ok(id);
    }

    /** `changeCurrentPassword`: 400 for an invalid body (a new password equal to the old one
        included), 404 for a missing caller, 400 when the old password does not match; otherwise
        the new password is stored, hashed by the save hook. */
    method ChangeCurrentPassword(caller: Id, oldPassword: Option<string>, newPassword: Option<string>) returns (r: Outcome<Id>)
      requires Valid()
      modifies this
      ensures Valid()
      ensures ValidateChangePassword(oldPassword, newPassword).Rejected? ==> r == Fail(BadRequest)
      ensures ValidateChangePassword(oldPassword, newPassword).Accepted? && caller !in old(users) ==> r == Fail(NotFound)
      ensures r.Ok? <==> (
        && ValidateChangePassword(oldPassword, newPassword).Accepted? && caller in old(users)
        && PasswordMatches(old(users)[caller], oldPassword.value, bcryptCompare))
      ensures r.Fail? ==> r.status in {BadRequest, NotFound} && users == old(users)
      ensures r.Ok? ==> r.value == caller && users == old(users)[caller := old(users)[caller].(password := bcryptHash(newPassword.value))]
      ensures nextId == old(nextId)
    {
      var change := ValidateChangePassword(oldPassword, newPassword);
      if change.Rejected? {
        return Fail(BadRequest);
      }
      if caller !in users {
        return Fail(NotFound);
      }
      var doc := new UserDocument.Loaded(caller, users[caller]);
      if !doc.IsPasswordCorrect(change.value.oldPassword, bcryptCompare) {
        return Fail(BadRequest);
      }
      SaveNewPassword(caller, doc.data, change.value.newPassword);
      return Ok(caller);
    }
  }
}
