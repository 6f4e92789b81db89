/** The session lifecycle of `AuthService`: signup, signin, refresh-token
    rotation and signout over a user table with unique emails.

    The table is what Prisma's `user` model holds; each row keeps the argon2
    digest of the password and, while a session is open, the digest of the
    current refresh token (`rtHash`). Every successful signup, signin and
    refresh overwrites `rtHash` with the digest of the refresh token it
    returns; signout clears it. The clock (`now`), the argon2 salts and the
    JWT signer are parameters of each operation. */
module Auth {
  import opened Common
  import opened Crypto

  datatype CreateUserDto = CreateUserDto(name: string, email: string, password: string)

  datatype SigninDto = SigninDto(email: string, password: string)

  /** A row of the user table. `createdAt` is set on creation and `updateAt`
      on every write to the row. */
  datatype UserRow = UserRow(
    id: int,
    name: string,
    email: string,
    hash: Digest,
    rtHash: Option<Digest>,
    createdAt: nat,
    updateAt: nat)

  /** The columns `findUserById` selects: no password digest, no refresh digest. */
  datatype UserProfile = UserProfile(id: int, name: string, email: string, createdAt: nat, updateAt: nat)

  /** `ForbiddenException` with its message. */
  datatype HttpError = Forbidden(message: string)

  const AccessDenied: HttpError := Forbidden("Access denied")

  function DuplicateEmail(email: string): HttpError
  {
    Forbidden("Email " + email + " already exists")
  }

  /** The store error `create` raises when the unique index on `email` is
      violated (Prisma code P2002). */
  datatype StoreError = UniqueConstraintFailed

  predicate EmailTaken(users: map<int, UserRow>, email: string)
  {
    exists id :: id in users && users[id].email == email
  }

  predicate EmailsUnique(users: map<int, UserRow>)
  {
    forall a, b :: a in users && b in users && a != b ==> users[a].email != users[b].email
  }

  /** Signin accepts these credentials: a row has this email and its password
      digest verifies against this password. */
  predicate SigninAllowed(users: map<int, UserRow>, dto: SigninDto)
  {
    exists id :: id in users && users[id].email == dto.email && Verify(users[id].hash, dto.password)
  }

  /** Refresh accepts this token for this user: the row exists, has an open
      session, and the presented token verifies against its `rtHash`. */
  predicate RefreshAllowed(users: map<int, UserRow>, userId: int, rt: string)
  {
    userId in users && users[userId].rtHash.Some? && Verify(users[userId].rtHash.value, rt)
  }

  /** The `select` of `findUserById`: exactly the five public columns. */
  function Project(row: UserRow): (p: UserProfile)
    ensures p.id == row.id && p.name == row.name && p.email == row.email
    ensures p.createdAt == row.createdAt && p.updateAt == row.updateAt
  {
    UserProfile(row.id, row.name, row.email, row.createdAt, row.updateAt)
  }

  /** The table after `updateRtHash(userId, rt)`: the row's `rtHash` becomes
      the digest of `rt` and its `updateAt` the current time. */
  function Rotated(users: map<int, UserRow>, userId: int, rt: string, salt: nat, now: nat): (r: map<int, UserRow>)
    requires userId in users
    ensures r.Keys == users.Keys
    ensures r[userId].rtHash.Some? && Verify(r[userId].rtHash.value, rt)
    ensures r[userId] == users[userId].(rtHash := r[userId].rtHash, updateAt := now)
    ensures forall id :: id in users && id != userId ==> r[id] == users[id]
  {
    users[userId := users[userId].(rtHash := Some(Hash(rt, salt)), updateAt := now)]
  }

  /** The table after the `updateMany` of `signout(userId)`: only a row with
      this id and a non-null `rtHash` matches; it gets `rtHash` null and,
      being written, `updateAt` the time of the call. */
  function SignedOut(users: map<int, UserRow>, userId: int, now: nat): (r: map<int, UserRow>)
    ensures r.Keys == users.Keys
    ensures userId in r ==> r[userId].rtHash.None?
    ensures userId in users ==> r[userId] == users[userId].(rtHash := None, updateAt := r[userId].updateAt)
    ensures userId in users && users[userId].rtHash.Some? ==> r[userId] == users[userId].(rtHash := None, updateAt := now)
    ensures forall id :: id in users && id != userId ==> r[id] == users[id]
    ensures userId !in users || users[userId].rtHash.None? ==> r == users
  {
    if userId in users && users[userId].rtHash.Some? then
      users[userId := users[userId].(rtHash := None, updateAt := now)]
    else
      users
  }

  /** The projection cannot reveal either digest: rows that differ only in
      `hash` and `rtHash` have the same profile. */
  lemma ProfileHidesDigests(row: UserRow, hash: Digest, rtHash: Option<Digest>)
    ensures Project(row.(hash := hash, rtHash := rtHash)) == Project(row)
  {
  }

  /** After a rotation to `rt`, refresh accepts exactly the tokens equal to
      `rt`; whatever token was current before is accepted only if it is that
      same string. */
  lemma RotationAcceptsOnlyNewToken(users: map<int, UserRow>, userId: int, rt: string, salt: nat, now: nat, presented: string)
    requires userId in users
    ensures RefreshAllowed(Rotated(users, userId, rt, salt, now), userId, presented) <==> presented == rt
  {
  }

  /** After signout no token refreshes that user's session. */
  lemma SignoutRevokesRefresh(users: map<int, UserRow>, userId: int, now: nat, presented: string)
    ensures !RefreshAllowed(SignedOut(users, userId, now), userId, presented)
  {
  }

  /** Signout is idempotent: a second signout matches no row. */
  lemma SignoutIdempotent(users: map<int, UserRow>, userId: int, now1: nat, now2: nat)
    ensures SignedOut(SignedOut(users, userId, now1), userId, now2) == SignedOut(users, userId, now1)
  {
  }

  /** Rotation and signout touch only session columns, so the password keeps
      working: signin is accepted afterwards exactly when it was before. */
  lemma SessionChangesKeepSignin(users: map<int, UserRow>, userId: int, rt: string, salt: nat, now: nat, dto: SigninDto)
    requires userId in users
    ensures SigninAllowed(Rotated(users, userId, rt, salt, now), dto) <==> SigninAllowed(users, dto)
    ensures SigninAllowed(SignedOut(users, userId, now), dto) <==> SigninAllowed(users, dto)
  {
  }

  class AuthService {
    /** AT_SECRET and RT_SECRET. */
    const config: Config
    /** The user table, keyed by id. */
    var users: map<int, UserRow>
    /** The next value of the autoincrement id. */
    var nextId: int

    ghost predicate Valid()
      reads this
    {
      && 1 <= nextId
      && (forall id :: id in users ==> 1 <= id < nextId && users[id].id == id)
      && EmailsUnique(users)
    }

    constructor (config: Config)
      ensures Valid()
      ensures this.config == config && users == map[] && nextId == 1
    {
      this.config := config;
      users := map[];
      nextId := 1;
    }

    /** `generateTokens`: both tokens are signed over the same payload, the
        access token with AT_SECRET for ten minutes, the refresh token with
        RT_SECRET for sixty days. */
    function GenerateTokens(payload: JwtPayload, sign: Signer): Tokens
    {
      Tokens(
        sign(payload, SignOptions(AccessExpiresIn, config.atSecret)),
        sign(payload, SignOptions(RefreshExpiresIn, config.rtSecret)))
    }

    /** `prisma.user.create`: a new row with the next id and no session, or
        the unique-constraint error when the email is already in the table. */
    method Create(name: string, email: string, hash: Digest, now: nat) returns (r: Result<int, StoreError>)
      requires Valid()
      modifies this
      ensures Valid()
      ensures r.Failure? <==> EmailTaken(old(users), email)
      ensures r.Failure? ==> users == old(users) && nextId == old(nextId)
      ensures r.Success? ==>
        && r.value == old(nextId) && r.value !in old(users) && nextId == old(nextId) + 1
        && users == old(users)[r.value := UserRow(r.value, name, email, hash, None, now, now)]
    {
      if exists id :: id in users && users[id].email == email {
        r := Failure(UniqueConstraintFailed);
      } else {
        var id := nextId;
        users := users[id := UserRow(id, name, email, hash, None, now, now)];
        nextId := nextId + 1;
        r := Success(id);
      }
    }

    /** `prisma.user.findUnique({ where: { email } })`: the id of the one row
        with this email, or nothing. */
    method FindUniqueByEmail(email: string) returns (found: Option<int>)
      requires Valid()
      ensures found.Some? ==> found.value in users && users[found.value].email == email
      ensures found.None? <==> !EmailTaken(users, email)
    {
      if exists id :: id in users && users[id].email == email {
        var id :| id in users && users[id].email == email;
        found := Some(id);
      } else {
        found := None;
      }
    }

    /** `updateRtHash`: store the digest of the new refresh token. */
    method UpdateRtHash(userId: int, rt: string, salt: nat, now: nat)
      requires Valid() && userId in users
      modifies this
      ensures Valid() && nextId == old(nextId)
      ensures users == Rotated(old(users), userId, rt, salt, now)
    {
      var hash := Hash(rt, salt);
      users := users[userId := users[userId].(rtHash := Some(hash), updateAt := now)];
    }

    /** `localSignup`: the row is written twice, by `create` at `nowCreate`
        and by `updateRtHash` at `nowRotate`. */
    method LocalSignup(dto: CreateUserDto, pwSalt: nat, rtSalt: nat, nowCreate: nat, nowRotate: nat, sign: Signer)
      returns (r: Result<Tokens, HttpError>)
      requires Valid()
      modifies this
      ensures Valid()
      ensures r.Success? <==> !EmailTaken(old(users), dto.email)
      ensures r.Failure? ==> r.error == DuplicateEmail(dto.email) && users == old(users) && nextId == old(nextId)
      ensures r.Success? ==>
        var id := old(nextId);
        && id !in old(users) && nextId == id + 1 && |users| == |old(users)| + 1
        && users == old(users)[id := UserRow(id, dto.name, dto.email, Hash(dto.password, pwSalt),
                                             Some(Hash(r.value.refreshToken, rtSalt)), nowCreate, nowRotate)]
        && r.value == GenerateTokens(JwtPayload(id, dto.email), sign)
        && Verify(users[id].hash, dto.password)
        && RefreshAllowed(users, id, r.value.refreshToken)
    {
      var hash := Hash(dto.password, pwSalt);
      var created := Create(dto.name, dto.email, hash, nowCreate);
      match created {
        case Failure(_) =>
          r := Failure(DuplicateEmail(dto.email));
        case Success(id) =>
          var payload := JwtPayload(id, dto.email);
          var tokens := GenerateTokens(payload, sign);
          UpdateRtHash(id, tokens.refreshToken, rtSalt, nowRotate);
          r := Success(tokens);
      }
    }

    /** `localSignin`: an unknown email and a wrong password fail alike. */
    method LocalSignin(dto: SigninDto, rtSalt: nat, now: nat, sign: Signer)
      returns (r: Result<Tokens, HttpError>)
      requires Valid()
      modifies this
      ensures Valid() && nextId == old(nextId)
      ensures r.Success? <==> SigninAllowed(old(users), dto)
      ensures r.Failure? ==> r.error == AccessDenied && users == old(users)
      ensures forall id :: id in old(users) && old(users)[id].email == dto.email && r.Success? ==>
        && r.value == GenerateTokens(JwtPayload(id, dto.email), sign)
        && users == Rotated(old(users), id, r.value.refreshToken, rtSalt, now)
    {
      var found := FindUniqueByEmail(dto.email);
      if found.None? {
        r := Failure(AccessDenied);
        return;
      }
      var id := found.value;
      var user := users[id];
      var isPasswordMatch := Verify(user.hash, dto.password);
      if !isPasswordMatch {
        r := Failure(AccessDenied);
        return;
      }
      var payload := JwtPayload(user.id, user.email);
      var tokens := GenerateTokens(payload, sign);
      UpdateRtHash(user.id, tokens.refreshToken, rtSalt, now);
      r := Success(tokens);
    }

    /** `refreshTokens`: the presented token must verify against the stored
        digest; on success the session rotates to the new pair. */
    method RefreshTokens(userId: int, rt: string, rtSalt: nat, now: nat, sign: Signer)
      returns (r: Result<Tokens, HttpError>)
      requires Valid()
      modifies this
      ensures Valid() && nextId == old(nextId)
      ensures r.Success? <==> RefreshAllowed(old(users), userId, rt)
      ensures r.Failure? ==> r.error == AccessDenied && users == old(users)
      ensures r.Success? ==>
        && r.value == GenerateTokens(JwtPayload(userId, old(users)[userId].email), sign)
        && users == Rotated(old(users), userId, r.value.refreshToken, rtSalt, now)
    {
      if userId !in users || users[userId].rtHash.None? {
        r := Failure(AccessDenied);
        return;
      }
      var user := users[userId];
      var isRtMatch := Verify(user.rtHash.value, rt);
      if !isRtMatch {
        r := Failure(AccessDenied);
        return;
      }
      var payload := JwtPayload(user.id, user.email);
      var tokens := GenerateTokens(payload, sign);
      UpdateRtHash(user.id, tokens.refreshToken, rtSalt, now);
      r := Success(tokens);
    }

    /** `signout`: never fails; an unknown id or a closed session changes nothing. */
    method Signout(userId: int, now: nat)
      requires Valid()
      modifies this
      ensures Valid() && nextId == old(nextId)
      ensures users == SignedOut(old(users), userId, now)
    {
      if userId in users && users[userId].rtHash.Some? {
        users := users[userId := users[userId].(rtHash := None, updateAt := now)];
      }
    }

    /** `findUserById`: the public columns of the row, or null. */
    function FindUserById(userId: int): (r: Option<UserProfile>)
      reads this
      ensures r.Some? <==> userId in users
      ensures r.Some? ==> r.value == Project(users[userId])
    {
      if userId in users then Some(Project(users[userId])) else None
    }
  }
}
