/**
 * The password digest of bcryptjs, with the Blowfish key derivation left
 * uninterpreted: `kdf(password, cost, salt)` stands for the 31-character
 * checksum bcrypt computes. Every property below holds for every `kdf`.
 */
module Bcrypt {

  /** The work factor the register route asks `genSalt` for. */
  const SaltRounds: nat := 10

  /** The key derivation: (password, cost, salt) to checksum. */
  type Kdf = (string, nat, string) -> string

  /** A stored digest: the `$2a$<cost>$<salt><checksum>` string, kept in its three parts. */
  datatype Digest = Digest(cost: nat, salt: string, checksum: string)

  /** The digest a password gives under a cost and a salt. */
  function Derive(kdf: Kdf, password: string, cost: nat, salt: string): Digest
  {
    Digest(cost, salt, kdf(password, cost, salt))
  }

  /**
   * `bcrypt.compare(password, digest)`: re-derive with the stored cost and
   * salt and compare. A digest matches exactly when it is the one the
   * password gives under the digest's own cost and salt.
   */
  predicate Compare(kdf: Kdf, password: string, digest: Digest)
    ensures Compare(kdf, password, digest) <==> digest == Derive(kdf, password, digest.cost, digest.salt)
  {
    kdf(password, digest.cost, digest.salt) == digest.checksum
  }

  /** `bcrypt.hash(password, salt)` for a salt made by `genSalt(SaltRounds)`. */
  function Hash(kdf: Kdf, password: string, salt: string): (digest: Digest)
    ensures Compare(kdf, password, digest)
    ensures digest.cost == SaltRounds && digest.salt == salt
  {
    Derive(kdf, password, SaltRounds, salt)
  }
}
