/** A stand-in for the bcrypt credential codec (`bcrypt.hash` with cost 10 and `bcrypt.compare`).
    The hash is modelled as an injective, tagged transformation of the plaintext; salts and the
    key-derivation function itself are not modelled. */
module Credentials {
  import opened Text

  /** The tag a bcrypt hash with cost factor 10 starts with. */
  const HashPrefix: string := "$2a$10$"

  predicate IsHash(s: string) {
    StartsWith(s, HashPrefix)
  }

  /** `bcrypt.hash(plain, 10)`: always a hash, and never the plaintext itself. */
  function Hash(plain: string): (h: string)
    ensures IsHash(h)
    ensures h != plain
  {
    HashPrefix + plain
  }

  /** `bcrypt.compare(plain, hash)`. */
  predicate Compare(plain: string, hash: string) {
    hash == Hash(plain)
  }

  /** The codec's contract: a plaintext matches a hash exactly when the hash was made from it. */
  lemma CompareHash(p: string, q: string)
    ensures Compare(p, Hash(q)) <==> p == q
  {
    if Hash(p) == Hash(q) {
      assert p == Hash(p)[|HashPrefix|..];
      assert q == Hash(q)[|HashPrefix|..];
    }
  }
}
