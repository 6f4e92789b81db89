/** Sequences of service calls, as a client sees them, proved from the
    operations' contracts alone. */
module Scenarios {
  import opened Common
  import opened Crypto
  import opened Auth

  /** Signing in right after signing up, with the same email and password, succeeds. */
  method SignupThenSignin(auth: AuthService, dto: CreateUserDto, pwSalt: nat, rtSalt1: nat, rtSalt2: nat,
                          now1: nat, now2: nat, now3: nat, sign1: Signer, sign2: Signer)
    returns (signup: Result<Tokens, HttpError>, signin: Result<Tokens, HttpError>)
    requires auth.Valid() && !EmailTaken(auth.users, dto.email)
    modifies auth
    ensures auth.Valid()
    ensures signup.Success? && signin.Success?
  {
    ghost var id := auth.nextId;
    signup := auth.LocalSignup(dto, pwSalt, rtSalt1, now1, now2, sign1);
    assert auth.users[id].email == dto.email && Verify(auth.users[id].hash, dto.password);
    signin := auth.LocalSignin(SigninDto(dto.email, dto.password), rtSalt2, now3, sign2);
  }

  /** A second signup with an email already taken fails with the duplicate
      message and leaves the first user's row as it was. */
  method SecondSignupWithSameEmail(auth: AuthService, first: CreateUserDto, second: CreateUserDto,
                                   pwSalt1: nat, pwSalt2: nat, rtSalt1: nat, rtSalt2: nat,
                                   now1: nat, now2: nat, now3: nat, now4: nat, sign1: Signer, sign2: Signer)
    returns (r1: Result<Tokens, HttpError>, r2: Result<Tokens, HttpError>)
    requires auth.Valid() && !EmailTaken(auth.users, first.email) && second.email == first.email
    modifies auth
    ensures auth.Valid()
    ensures r1.Success?
    ensures r2 == Failure(Forbidden("Email " + first.email + " already exists"))
    ensures old(auth.nextId) !in old(auth.users) && old(auth.nextId) in auth.users
    ensures auth.users == old(auth.users)[old(auth.nextId) := auth.users[old(auth.nextId)]]
    ensures auth.users[old(auth.nextId)].email == first.email && Verify(auth.users[old(auth.nextId)].hash, first.password)
    ensures auth.users[old(auth.nextId)].name == first.name
    ensures RefreshAllowed(auth.users, old(auth.nextId), r1.value.refreshToken)
  {
    ghost var id := auth.nextId;
    r1 := auth.LocalSignup(first, pwSalt1, rtSalt1, now1, now2, sign1);
    assert auth.users[id].email == second.email;
    r2 := auth.LocalSignup(second, pwSalt2, rtSalt2, now3, now4, sign2);
  }

  /** After signout every refresh for that user is denied; after the next
      signin the token it returned refreshes again. */
  method SignoutThenRefresh(auth: AuthService, userId: int, oldRt: string, credentials: SigninDto,
                            now1: nat, now2: nat, now3: nat, now4: nat,
                            rtSalt1: nat, rtSalt2: nat, rtSalt3: nat, sign1: Signer, sign2: Signer, sign3: Signer)
    returns (denied: Result<Tokens, HttpError>, signin: Result<Tokens, HttpError>, refreshed: Result<Tokens, HttpError>)
    requires auth.Valid()
    requires userId in auth.users && auth.users[userId].email == credentials.email
    requires Verify(auth.users[userId].hash, credentials.password)
    modifies auth
    ensures auth.Valid()
    ensures denied == Failure(AccessDenied)
    ensures signin.Success? && refreshed.Success?
  {
    auth.Signout(userId, now1);
    SignoutRevokesRefresh(old(auth.users), userId, now1, oldRt);
    denied := auth.RefreshTokens(userId, oldRt, rtSalt1, now2, sign1);
    assert auth.users[userId].email == credentials.email && Verify(auth.users[userId].hash, credentials.password);
    signin := auth.LocalSignin(credentials, rtSalt2, now3, sign2);
    refreshed := auth.RefreshTokens(userId, signin.value.refreshToken, rtSalt3, now4, sign3);
  }

  /** Re-presenting a refresh token after it was used succeeds only if the
      new refresh token happens to be the same string (two tokens signed over
      the same payload within one second are). */
  method RefreshTokenReuse(auth: AuthService, userId: int, rt: string,
                           rtSalt1: nat, rtSalt2: nat, now1: nat, now2: nat, sign1: Signer, sign2: Signer)
    returns (first: Result<Tokens, HttpError>, again: Result<Tokens, HttpError>)
    requires auth.Valid() && RefreshAllowed(auth.users, userId, rt)
    modifies auth
    ensures auth.Valid()
    ensures first.Success?
    ensures again.Success? <==> rt == first.value.refreshToken
    ensures again.Failure? ==> again.error == AccessDenied
  {
    first := auth.RefreshTokens(userId, rt, rtSalt1, now1, sign1);
    RotationAcceptsOnlyNewToken(old(auth.users), userId, first.value.refreshToken, rtSalt1, now1, rt);
    again := auth.RefreshTokens(userId, rt, rtSalt2, now2, sign2);
  }
}
