/** The two cryptographic libraries the service calls, as abstract oracles.

    argon2: `hash(secret)` draws a random salt and returns a digest;
    `verify(digest, candidate)` is true exactly when the candidate is the
    secret the digest was made from. The salt is a parameter here (it is the
    randomness), and a digest records the secret only so that `Verify` can be
    defined; nothing outside this module looks inside a digest.

    jsonwebtoken: `signAsync(payload, {expiresIn, secret})` returns an opaque
    string that also depends on the clock (the issued-at claim), so the signer
    is a function handed to each call and stands for "the signer at that moment". */
module Crypto {

  datatype Digest = Digest(secret: string, salt: nat)

  /** argon2.hash */
  function Hash(secret: string, salt: nat): (d: Digest)
    ensures Verify(d, secret)
    ensures forall candidate {:trigger Verify(d, candidate)} :: Verify(d, candidate) <==> candidate == secret
  {
    Digest(secret, salt)
  }

  /** argon2.verify: hashing the candidate again with the salt recorded in
      the digest reproduces the digest. */
  predicate Verify(d: Digest, candidate: string): (ok: bool)
    ensures ok <==> Digest(candidate, d.salt) == d
  {
    d.secret == candidate
  }

  /** Two hashes of one secret under different salts are different digests,
      yet both verify against that secret. This is a fact about the hashing
      oracle: the service draws a fresh salt for every call, which the
      callers' salt parameters stand for, but nothing here forces two calls
      to receive different salts. */
  lemma SaltedHashesDiffer(secret: string, salt1: nat, salt2: nat)
    requires salt1 != salt2
    ensures Hash(secret, salt1) != Hash(secret, salt2)
    ensures Verify(Hash(secret, salt1), secret) && Verify(Hash(secret, salt2), secret)
  {
  }

  /** The claims both tokens carry: the user's id and email. */
  datatype JwtPayload = JwtPayload(sub: int, email: string)

  datatype SignOptions = SignOptions(expiresIn: string, secret: string)

  /** jwt.signAsync at the moment of the call. */
  type Signer = (JwtPayload, SignOptions) -> string

  datatype Tokens = Tokens(accessToken: string, refreshToken: string)

  /** The two signing secrets read from the configuration (AT_SECRET, RT_SECRET). */
  datatype Config = Config(atSecret: string, rtSecret: string)

  const AccessExpiresIn: string := "10m"
  const RefreshExpiresIn: string := "60d"
}
