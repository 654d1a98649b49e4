/** The user schema: the stored record, its defaults and setters, the pre-save password hook,
    the password check, the JWT claim sets and the one-time token generator. */
module UserModel {
  import opened Common
  import opened Text

  /** A stored user. Token hashes and expiries are absent (`undefined`) until set; expiries
      are milliseconds since the epoch. The avatar sub-document is not modelled. */
  datatype User = User(
    username: string,
    email: string,
    fullName: Option<string>,
    password: string,
    isEmailVerified: bool,
    refreshToken: Option<string>,
    forgotPasswordToken: Option<string>,
    forgotPasswordExpiry: Option<int>,
    emailVerificationToken: Option<string>,
    emailVerificationExpiry: Option<int>)

  /** The document `User.create({email, password, username, isEmailVerified: false})` builds
      before its pre-save hook runs: the `lowercase` and `trim` setters applied to username and
      email, every other field at its default, and `required` checked (Mongoose's `required`
      refuses the empty string). A failed check is a validation error, reported as 500. */
  function CreateUserDocument(username: string, email: string, password: string): (r: Outcome<User>)
    ensures r.Ok? <==> Normalize(username) != [] && Normalize(email) != [] && password != []
    ensures r.Fail? ==> r.status == InternalError
    ensures r.Ok? ==> r.value.username == Normalize(username) && r.value.email == Normalize(email)
    ensures r.Ok? ==> r.value.password == password && !r.value.isEmailVerified && r.value.fullName.None?
    ensures r.Ok? ==> r.value.refreshToken.None? && r.value.forgotPasswordToken.None? && r.value.forgotPasswordExpiry.None?
    ensures r.Ok? ==> r.value.emailVerificationToken.None? && r.value.emailVerificationExpiry.None?
  {
    var u := User(Normalize(username), Normalize(email), None, password, false, None, None, None, None, None);
    if u.username == [] || u.email == [] || password == [] then Fail(InternalError) else Ok(u)
  }

  /** The `pre("save")` hook as a function of the record: the password is replaced by its hash
      exactly when it was modified. */
  function PreSaved(u: User, passwordModified: bool, hash: string -> string): (r: User)
    ensures passwordModified ==> r.password == hash(u.password)
    ensures !passwordModified ==> r == u
    ensures r.(password := u.password) == u
  {
    if passwordModified then u.(password := hash(u.password)) else u
  }

  /** `isPasswordCorrect`: `bcrypt.compare(candidate, stored)`. */
  predicate PasswordMatches(u: User, candidate: string, compare: (string, string) -> bool)
  {
    compare(candidate, u.password)
  }

  /** Once the hook has stored the hash of a modified password, `isPasswordCorrect` accepts
      that password, given that `compare` accepts every password against its own hash. */
  lemma SavedPasswordIsCorrect(u: User, p: string, hash: string -> string, compare: (string, string) -> bool)
    requires forall q :: compare(q, hash(q))
    ensures PasswordMatches(PreSaved(u.(password := p), true, hash), p, compare)
    ensures forall q :: PasswordMatches(PreSaved(u, false, hash), q, compare) == PasswordMatches(u, q, compare)
  {
  }

  /** A loaded Mongoose document of a user, with the one piece of change tracking the hook
      consults. */
  class UserDocument {
    const id: Id
    var data: User
    var passwordModified: bool

    /** A document read from the collection: nothing modified yet. */
    constructor Loaded(id: Id, data: User)
      ensures this.id == id && this.data == data && !passwordModified
    {
      this.id := id;
      this.data := data;
      passwordModified := false;
    }

    /** A document being created: every path counts as modified. */
    constructor Created(id: Id, data: User)
      ensures this.id == id && this.data == data && passwordModified
    {
      this.id := id;
      this.data := data;
      passwordModified := true;
    }

    /** `user.password = p`. */
    method SetPassword(p: string)
      modifies this
      ensures data == old(data).(password := p) && passwordModified
    {
      data := data.(password := p);
      passwordModified := true;
    }

    /** The `pre("save")` hook: hashes the password only when it was modified. */
    method PreSave(hash: string -> string)
      modifies this
      ensures data == PreSaved(old(data), old(passwordModified), hash)
      ensures old(passwordModified) ==> data.password == hash(old(data).password)
      ensures !old(passwordModified) ==> data == old(data)
    {
      if !passwordModified {
        return;
      }
      data := data.(password := hash(data.password));
    }

    /** `isPasswordCorrect`. */
    predicate IsPasswordCorrect(candidate: string, compare: (string, string) -> bool)
      reads this
    {
      PasswordMatches(data, candidate, compare)
    }
  }

  /** The lifetime of a one-time token: twenty minutes, in milliseconds. */
  const TemporaryTokenLifetime := 20 * 60 * 1000

  /** An octet, as `crypto.randomBytes` produces them. */
  newtype Byte = x: int | 0 <= x < 256

  /** What `generateTemporaryToken` returns. */
  datatype TemporaryToken = TemporaryToken(unHashedToken: string, hashedToken: string, tokenExpiry: int)

  predicate IsLowerHexDigit(c: char) { '0' <= c <= '9' || 'a' <= c <= 'f' }

  function HexDigit(n: nat): (c: char)
    requires n < 16
    ensures IsLowerHexDigit(c)
  {
    if n < 10 then ('0' as int + n) as char else ('a' as int + n - 10) as char
  }

  function HexValue(c: char): (n: nat)
    ensures n < 16
  {
    if '0' <= c <= '9' then c as int - '0' as int
    else if 'a' <= c <= 'f' then c as int - 'a' as int + 10
    else 0
  }

  /** `Buffer.toString("hex")`: two lower-case hex digits per byte, high nibble first. */
  function HexEncode(bytes: seq<Byte>): (s: string)
    ensures |s| == 2 * |bytes|
    ensures forall i :: 0 <= i < |s| ==> IsLowerHexDigit(s[i])
  {
    if bytes == [] then []
    else [HexDigit(bytes[0] as nat / 16), HexDigit(bytes[0] as nat % 16)] + HexEncode(bytes[1..])
  }

  /** Reads hex text back into bytes, two digits per byte. */
  function HexDecode(s: string): seq<Byte>
    requires |s| % 2 == 0
  {
    if s == [] then []
    else [ByteOf(s[0], s[1])] + HexDecode(s[2..])
  }

  /** The byte two hex digits stand for, high nibble first. */
  function ByteOf(hi: char, lo: char): Byte
  {
    (HexValue(hi) * 16 + HexValue(lo)) as Byte
  }

  lemma HexDigitValue(n: nat)
    requires n < 16
    ensures HexValue(HexDigit(n)) == n
  {
  }

  /** One byte survives its two hex digits. */
  lemma HexByteRoundTrip(b: Byte)
    ensures ByteOf(HexDigit(b as nat / 16), HexDigit(b as nat % 16)) == b
  {
    var n := b as nat;
    HexDigitValue(n / 16);
    HexDigitValue(n % 16);
  }

  /** The hex text of the random bytes determines them: distinct random bytes give distinct
      plaintext tokens. */
  lemma {:induction false} HexRoundTrip(bytes: seq<Byte>)
    ensures HexDecode(HexEncode(bytes)) == bytes
  {
    if bytes != [] {
      var n := bytes[0] as nat;
      var s := HexEncode(bytes);
      assert s == [HexDigit(n / 16), HexDigit(n % 16)] + HexEncode(bytes[1..]);
      assert s[2..] == HexEncode(bytes[1..]);
      HexByteRoundTrip(bytes[0]);
      HexRoundTrip(bytes[1..]);
      assert HexDecode(s) == [ByteOf(s[0], s[1])] + HexDecode(s[2..]);
    }
  }

  /** `generateTemporaryToken`: the plaintext is the hex text of the random bytes, the stored
      value is its SHA-256 digest, and it expires twenty minutes after `now`. */
  function GenerateTemporaryToken(random: seq<Byte>, now: int, sha256: string -> string): (t: TemporaryToken)
    ensures t.hashedToken == sha256(t.unHashedToken)
    ensures t.tokenExpiry == now + 1200000
    ensures |t.unHashedToken| == 2 * |random| && HexDecode(t.unHashedToken) == random
  {
    HexRoundTrip(random);
    var plain := HexEncode(random);
    TemporaryToken(plain, sha256(plain), now + TemporaryTokenLifetime)
  }

  /** The stored verification hash matches and has not expired: the filter
      `{emailVerificationToken: hashed, emailVerificationExpiry: {$gt: now}}`. */
  predicate VerificationTokenMatches(u: User, hashed: string, now: int)
  {
    u.emailVerificationToken == Some(hashed) && u.emailVerificationExpiry.Some? && u.emailVerificationExpiry.value > now
  }

  /** The same filter over the forgot-password fields. */
  predicate ResetTokenMatches(u: User, hashed: string, now: int)
  {
    u.forgotPasswordToken == Some(hashed) && u.forgotPasswordExpiry.Some? && u.forgotPasswordExpiry.value > now
  }

  /** A fresh one-time token is accepted, until it expires, by the plaintext sent to the user. */
  lemma FreshTokenMatchesUntilExpiry(u: User, random: seq<Byte>, issuedAt: int, now: int, sha256: string -> string)
    ensures var t := GenerateTemporaryToken(random, issuedAt, sha256);
      VerificationTokenMatches(u.(emailVerificationToken := Some(t.hashedToken), emailVerificationExpiry := Some(t.tokenExpiry)), sha256(t.unHashedToken), now)
      <==> now < issuedAt + TemporaryTokenLifetime
  {
  }

  /** A value in a JWT payload: an ObjectId or a string. */
  datatype ClaimValue = IdClaim(id: Id) | TextClaim(text: string)

  /** `generateAccessToken`'s payload: exactly `_id`, `email` and `username`. */
  function AccessTokenClaims(id: Id, u: User): (c: map<string, ClaimValue>)
    ensures c.Keys == {"_id", "email", "username"}
    ensures c["_id"] == IdClaim(id) && c["email"] == TextClaim(u.email) && c["username"] == TextClaim(u.username)
  {
    map["_id" := IdClaim(id), "email" := TextClaim(u.email), "username" := TextClaim(u.username)]
  }

  /** `generateRefreshToken`'s payload: exactly `_id`. */
  function RefreshTokenClaims(id: Id): (c: map<string, ClaimValue>)
    ensures c.Keys == {"_id"} && c["_id"] == IdClaim(id)
  {
    map["_id" := IdClaim(id)]
  }

  const DefaultAccessTokenExpiry := "15m"
  const DefaultRefreshTokenExpiry := "10d"

  /** `process.env.X || fallback`: the configured lifetime unless it is unset or empty. */
  function ExpiresIn(configured: Option<string>, fallback: string): (r: string)
    ensures Truthy(configured) ==> r == configured.value
    ensures !Truthy(configured) ==> r == fallback
  {
    if configured.Some? && configured.value != "" then configured.value else fallback
  }

  /** Everything `jwt.sign` is given: the payload, the lifetime, and the `iat` it stamps, in
      whole seconds. The secret is part of the signer. */
  datatype SignRequest = SignRequest(claims: map<string, ClaimValue>, expiresIn: string, issuedAt: int)

  function AccessTokenRequest(id: Id, u: User, configured: Option<string>, now: int): SignRequest
  {
    SignRequest(AccessTokenClaims(id, u), ExpiresIn(configured, DefaultAccessTokenExpiry), now / 1000)
  }

  function RefreshTokenRequest(id: Id, configured: Option<string>, now: int): SignRequest
  {
    SignRequest(RefreshTokenClaims(id), ExpiresIn(configured, DefaultRefreshTokenExpiry), now / 1000)
  }

  /** Without configuration the lifetimes are "15m" and "10d". */
  lemma DefaultLifetimes(id: Id, u: User, now: int)
    ensures AccessTokenRequest(id, u, None, now).expiresIn == "15m"
    ensures RefreshTokenRequest(id, None, now).expiresIn == "10d"
    ensures AccessTokenRequest(id, u, Some(""), now).expiresIn == "15m"
  {
  }

  /** Two refresh tokens for one user issued within the same second are signed from the same
      request, so a deterministic signer gives the same token; in different seconds the
      requests differ. */
  lemma RefreshRequestsPerSecond(id: Id, configured: Option<string>, now1: int, now2: int)
    ensures RefreshTokenRequest(id, configured, now1) == RefreshTokenRequest(id, configured, now2)
        <==> now1 / 1000 == now2 / 1000
  {
  }
}
