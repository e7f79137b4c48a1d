/** Password hashing. The hash library of the application is not part of this model; a
    digest is represented symbolically by the random salt it was made with and the
    plaintext it encodes, so that verification can be stated exactly. */
module Hashing {
  import opened Errors

  datatype Digest = Salted(salt: string, preimage: string)

  /** `get_password_hash(plaintext)`; the random salt is an input. */
  function GetPasswordHash(plaintext: string, salt: string): (d: Digest)
    ensures d.salt == salt
  {
    Salted(salt, plaintext)
  }

  /** `verify_password(plaintext, digest)`. The hash module is not part of this model; it
      is taken to answer false, not to raise, when either argument is None. */
  function VerifyPassword(plaintext: Option<string>, digest: Option<Digest>): (ok: bool)
    ensures ok ==> plaintext.Some? && digest.Some?
  {
    match (plaintext, digest)
    case (Some(p), Some(d)) => d.preimage == p
    case _ => false
  }

  /** A password verifies against its own hash, whatever the salt ... */
  lemma VerifyOwnHash(plaintext: string, salt: string)
    ensures VerifyPassword(Some(plaintext), Some(GetPasswordHash(plaintext, salt)))
  {
  }

  /** ... and no other password does. */
  lemma VerifyOtherFails(guess: string, plaintext: string, salt: string)
    requires guess != plaintext
    ensures !VerifyPassword(Some(guess), Some(GetPasswordHash(plaintext, salt)))
  {
  }

  /** Two hashes of one password made with different salts differ. */
  lemma SaltedHashesDiffer(plaintext: string, salt1: string, salt2: string)
    requires salt1 != salt2
    ensures GetPasswordHash(plaintext, salt1) != GetPasswordHash(plaintext, salt2)
  {
  }
}
