/** `RtStrategy.validate`: once the refresh token's signature has been
    checked, the strategy looks up the user named by the token's `sub` and
    recovers the raw token from the `Authorization` header, so that
    `refreshTokens` can verify it against the stored digest. */
module RtStrategy {
  import opened Common
  import opened Crypto
  import opened JsString
  import opened Auth

  /** `Partial<User & { rt: string }>`: the spread of the looked-up profile
      (all its fields, or none when the lookup returned null) plus `rt`. */
  datatype RtUser = RtUser(profile: Option<UserProfile>, rt: string)

  const Bearer: string := "Bearer"

  /** `authorization.replace('Bearer', '').trim()` */
  function ExtractRt(authorization: string): (rt: string)
    ensures IsTrimmed(rt)
  {
    Trim(ReplaceFirst(authorization, Bearer, ""))
  }

  /** `validate(req, payload)` */
  function Validate(auth: AuthService, authorization: string, payload: JwtPayload): (r: RtUser)
    reads auth
    ensures r.rt == ExtractRt(authorization)
    ensures r.profile.Some? <==> payload.sub in auth.users
    ensures r.profile.Some? ==> r.profile.value == Project(auth.users[payload.sub])
  {
    var user := auth.FindUserById(payload.sub);
    var rt := ExtractRt(authorization);
    RtUser(user, rt)
  }

  /** The header `Bearer <t>` yields `t` for any token without surrounding
      white space, including a token that itself contains "Bearer": only the
      scheme's occurrence is removed. */
  lemma BearerTokenRecovered(t: string)
    requires IsTrimmed(t)
    ensures ExtractRt("Bearer " + t) == t
  {
    assert "Bearer " + t == Bearer + (" " + t);
    ReplaceFirstAtStart(Bearer, " " + t, "");
    assert "" + (" " + t) == " " + t + [];
    assert AllWhiteSpace(" ");
    TrimOfPadded(" ", t, []);
  }

  /** A header that starts with "Bearer" loses exactly that occurrence and
      is then trimmed; later occurrences stay. */
  lemma FirstBearerRemoved(rest: string)
    ensures ExtractRt(Bearer + rest) == Trim(rest)
  {
  }

  /** A header without "Bearer" is only trimmed. */
  lemma NoBearerOnlyTrims(authorization: string)
    requires forall j :: !OccursAt(authorization, Bearer, j)
    ensures ExtractRt(authorization) == Trim(authorization)
  {
  }

  /** The token forwarded to `refreshTokens` is the one the client sent: for
      the header `Bearer <t>`, refresh is accepted exactly when the session of
      the user named by `sub` holds the digest of `t`. The refresh route
      passes the profile's `id`, which for a known user is `sub` itself; for
      an unknown user that `id` is undefined, and only here is the refresh
      keyed by `sub`. */
  lemma ValidatedTokenReachesRefresh(auth: AuthService, t: string, payload: JwtPayload)
    requires IsTrimmed(t)
    ensures RefreshAllowed(auth.users, payload.sub, Validate(auth, "Bearer " + t, payload).rt)
        <==> RefreshAllowed(auth.users, payload.sub, t)
    ensures auth.Valid() && Validate(auth, "Bearer " + t, payload).profile.Some? ==>
      var u := Validate(auth, "Bearer " + t, payload);
      u.profile.value.id == payload.sub
      && (RefreshAllowed(auth.users, u.profile.value.id, u.rt) <==> RefreshAllowed(auth.users, payload.sub, t))
  {
    BearerTokenRecovered(t);
  }
}
