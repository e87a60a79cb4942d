/** Group messages and what the group session builder and cipher make of a sender key record,
    on values. */
module GroupMessages {
  import opened Wrappers
  import opened Keys
  import opened SenderKeys

  datatype Ciphertext = Sealed(cipherKey: Key, iv: Key, plaintext: Bytes) | Noise(id: nat)

  /** A signature verifies only for the content it was made over. */
  datatype Signature = Forged | Signed(signer: KeyId, keyId: nat, iteration: nat, ciphertext: Ciphertext)

  /** The fields of a SenderKeyMessage, as the receiver reads them. */
  datatype Message = Message(keyId: nat, iteration: nat, ciphertext: Ciphertext, signature: Signature)

  datatype Distribution = Distribution(keyId: nat, iteration: nat, seed: Key, signing: KeyId)

  /** What generateSenderKeyId, generateSenderKey and generateSenderSigningKey return. */
  datatype NewKeys = NewKeys(keyId: nat, seed: nat, signing: KeyId)

  /** How the protobuf writer sends a number in a uint32 field. */
  function ToUint32(n: nat): (r: nat)
    ensures r <= n && (r == n <==> n < 0x1_0000_0000)
  {
    n % 0x1_0000_0000
  }

  // The 48 bytes derived from a message key: 16 of iv, then 32 of cipher key.

  function Iv(seed: Key): Key {
    Hkdf(seed, Zeros, WhisperGroup, 0)
  }

  function CipherKey(seed: Key): Key {
    Joined([Hkdf(seed, Zeros, WhisperGroup, 0), Hkdf(seed, Zeros, WhisperGroup, 1)])
  }

  function SignedMessage(keyId: nat, iteration: nat, messageKey: Key, signing: KeyId, plaintext: Bytes): Message {
    var ciphertext := Sealed(CipherKey(messageKey), Iv(messageKey), plaintext);
    Message(keyId, ToUint32(iteration), ciphertext, Signed(signing, keyId, ToUint32(iteration), ciphertext))
  }

  /** encrypt, on the latest state */
  function Encrypt(states: seq<State>, plaintext: Bytes): Result<(seq<State>, Message), Error> {
    if states == [] then Failure(NoState)
    else
      var s := states[|states| - 1];
      if s.signingPrivate.None? then Failure(NoSigningKey)
      else
        var taken :- GetSenderKey(s, s.iteration);
        Success((states[..|states| - 1] + [taken.0],
                 SignedMessage(s.keyId, s.iteration, taken.1.seed, s.signingPrivate.value, plaintext)))
  }

  function Open(messageKey: Key, ciphertext: Ciphertext): Result<Bytes, Error> {
    if ciphertext.Sealed? && ciphertext.cipherKey == CipherKey(messageKey) && ciphertext.iv == Iv(messageKey)
    then Success(ciphertext.plaintext) else Failure(BadCiphertext)
  }

  /** decrypt, on the state that the message names. A failure leaves the stored record alone. */
  function Decrypt(states: seq<State>, m: Message): Result<(seq<State>, Bytes), Error> {
    var i := Find(states, m.keyId);
    if i == |states| then Failure(NoState)
    else if m.signature != Signed(states[i].signingPublic, m.keyId, m.iteration, m.ciphertext)
      then Failure(BadSignature)
    else
      var taken :- GetSenderKey(states[i], m.iteration);
      var plaintext :- Open(taken.1.seed, m.ciphertext);
      Success((states[i := taken.0], plaintext))
  }

  function NewState(k: NewKeys): State {
    State(k.keyId, 0, Random(k.seed), k.signing, Some(k.signing), [])
  }

  function Create(states: seq<State>, k: NewKeys): seq<State> {
    if states == [] then AddState(states, NewState(k)) else states
  }

  function Rotate(k: NewKeys): seq<State> {
    [NewState(k)]
  }

  /** The distribution message for the latest state */
  function Distribute(s: State): Distribution {
    Distribution(s.keyId, ToUint32(s.iteration), s.seed, s.signingPublic)
  }

  /** process: what a receiver makes of a distribution message */
  function Process(states: seq<State>, d: Distribution): seq<State> {
    AddState(states, State(d.keyId, d.iteration, d.seed, d.signing, None, []))
  }

  // What a message is made of, written out in the primitives.

  /** encrypt uses the last state: the message names its key id and iteration, is sealed with the keys derived from
      the next message key of its chain, and is signed as a whole; the chain goes one iteration on. */
  lemma SentIs(states: seq<State>, plaintext: Bytes)
    requires states != []
    requires states[|states| - 1].signingPrivate.Some? && |states[|states| - 1].messageKeys| <= 2000
    ensures var s, r := states[|states| - 1], Encrypt(states, plaintext);
            var messageKey := Hmac(s.seed, 1);
            && r.Success?
            && r.value.0 == states[|states| - 1 := s.(iteration := s.iteration + 1, seed := Hmac(s.seed, 2))]
            && var m := r.value.1;
               && m.keyId == s.keyId && m.iteration == s.iteration % 0x1_0000_0000
               && m.ciphertext == Sealed(Joined([Hkdf(messageKey, Zeros, WhisperGroup, 0),
                                                 Hkdf(messageKey, Zeros, WhisperGroup, 1)]),
                                         Hkdf(messageKey, Zeros, WhisperGroup, 0), plaintext)
               && m.signature == Signed(s.signingPrivate.value, m.keyId, m.iteration, m.ciphertext)
  {
    var s := states[|states| - 1];
    assert Skipped(s.iteration, s.seed, 0) == [];
    assert ChainKeyAt(s.seed, 0) == s.seed && ChainKeyAt(s.seed, 1) == Hmac(s.seed, 2);
    assert s.messageKeys + [] == s.messageKeys;
    hide Skipped, ChainKeyAt;
  }

  lemma NotSentWhen(states: seq<State>, plaintext: Bytes)
    ensures Encrypt(states, plaintext) == Failure(NoState) <==> states == []
    ensures Encrypt(states, plaintext) == Failure(NoSigningKey) <==>
              states != [] && states[|states| - 1].signingPrivate.None?
  {
  }

  /** A message key opens exactly what was sealed with the keys derived from it. */
  lemma OpensWhat(messageKey: Key, ciphertext: Ciphertext)
    ensures var r := Open(messageKey, ciphertext);
            && (forall plaintext :: r == Success(plaintext) <==>
                  ciphertext == Sealed(Joined([Hkdf(messageKey, Zeros, WhisperGroup, 0),
                                               Hkdf(messageKey, Zeros, WhisperGroup, 1)]),
                                       Hkdf(messageKey, Zeros, WhisperGroup, 0), plaintext))
            && (r.Failure? ==> r == Failure(BadCiphertext))
  {
  }

  /** The first state of a key id. */
  ghost predicate IsFirst(states: seq<State>, keyId: nat, i: int) {
    0 <= i < |states| && states[i].keyId == keyId && forall j :: 0 <= j < i ==> states[j].keyId != keyId
  }

  /** decrypt takes the state of the key id, and refuses whatever is not signed with its key, before it touches the
      chain: the key id, the iteration and the ciphertext are signed. */
  lemma RefusedWhen(states: seq<State>, m: Message)
    ensures Decrypt(states, m) == Failure(NoState) <==> forall s :: s in states ==> s.keyId != m.keyId
    ensures forall i :: IsFirst(states, m.keyId, i) ==>
              (Decrypt(states, m) == Failure(BadSignature) <==>
                 m.signature != Signed(states[i].signingPublic, m.keyId, m.iteration, m.ciphertext))
  {
    var i := Find(states, m.keyId);
    assert i < |states| ==> states[i] in states;
    hide Open;
  }
}
