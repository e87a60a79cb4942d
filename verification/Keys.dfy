/** The symbolic key algebra. A key pair is named by an id; the public half is the id itself.
    HKDF and HMAC are free constructors, the only equation is that the Diffie-Hellman
    agreement of two pairs does not depend on which side computes it. */
module Keys {
  type KeyId = nat

  datatype Info = WhisperText | WhisperRatchet | WhisperMessageKeys | WhisperGroup

  datatype Key =
    | Zeros                                           // a wiped buffer, and HKDF's empty salt
    | Discontinuity                                   // 32 bytes of 0xff
    | Agreement(lo: KeyId, hi: KeyId)                 // always built with lo <= hi
    | Private(id: KeyId)                              // the private half of a pair
    | Random(id: nat)                                 // freshly generated, as for sender keys
    | Joined(parts: seq<Key>)                         // 32-byte blocks laid end to end
    | Hkdf(input: Key, salt: Key, info: Info, chunk: nat)
    | Hmac(key: Key, tag: nat)

  /** curve.calculateAgreement */
  function CalculateAgreement(theirs: KeyId, ours: KeyId): Key {
    if theirs <= ours then Agreement(theirs, ours) else Agreement(ours, theirs)
  }

  /** The same, from the bytes at hand: a wiped private key agrees with nobody. */
  function Agree(theirs: KeyId, ours: Key): Key {
    if ours.Private? then CalculateAgreement(theirs, ours.id) else Zeros
  }

  /** The KDF chain: `n` applications of HMAC with the constant 2. */
  function ChainKeyAt(seed: Key, n: nat): Key {
    if n == 0 then seed else Hmac(ChainKeyAt(seed, n - 1), 2)
  }

  /** The message key number `n` of the chain that starts at `seed`. */
  function MessageKeyAt(seed: Key, n: nat): Key {
    Hmac(ChainKeyAt(seed, n), 1)
  }

  lemma {:induction false} ChainKeyComposes(seed: Key, m: nat, n: nat)
    ensures ChainKeyAt(ChainKeyAt(seed, m), n) == ChainKeyAt(seed, m + n)
  {
    if n != 0 {
      ChainKeyComposes(seed, m, n - 1);
    }
  }

  /** Message keys of chains that start at HKDF outputs never collide: the key determines
      the chain it came from and its position on that chain. */
  lemma {:induction false} MessageKeysInjective(a: Key, m: nat, b: Key, n: nat)
    requires a.Hkdf? && b.Hkdf?
    requires MessageKeyAt(a, m) == MessageKeyAt(b, n)
    ensures a == b && m == n
  {
    ChainKeysInjective(a, m, b, n);
  }

  lemma {:induction false} ChainKeysInjective(a: Key, m: nat, b: Key, n: nat)
    requires a.Hkdf? && b.Hkdf?
    requires ChainKeyAt(a, m) == ChainKeyAt(b, n)
    ensures a == b && m == n
  {
    if m != 0 && n != 0 {
      ChainKeysInjective(a, m - 1, b, n - 1);
    }
  }
}
