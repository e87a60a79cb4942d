/** What the session operations mean, on values. The classes of Chains.dfy and SessionEntry.dfy are proved
    to compute these functions; the theorems of Protocol.dfy are about them. */
module Ratchet {
  import opened Wrappers
  import opened Keys
  import opened IntSets

  const MAX_RECEIVER_CHAINS := 5
  const MAX_MESSAGE_KEYS := 2000
  const MAX_FILL := 2000

  type Bytes = seq<bv8>

  datatype ChainType = Sending | Receiving

  /** `messageKeys` holds the keys of skipped messages. A closed chain has lost its key. */
  datatype Chain = Chain(kind: ChainType, counter: int, key: Option<Key>, messageKeys: map<int, Key>)

  /** `order` is the insertion order of the `_chains` dictionary. */
  datatype Session = Session(
    ephemeral: KeyId, lastRemote: KeyId, previousCounter: int, rootKey: Key,
    chains: map<KeyId, Chain>, order: seq<KeyId>,
    remoteIdentity: KeyId, baseKey: KeyId, pending: Option<PreKeyRef>)

  /** What the initiator names until it hears from the responder. Prekey ids stand for the
      key pairs that the responder stores under them. */
  datatype PreKeyRef = PreKeyRef(baseKey: KeyId, signedPreKey: KeyId, preKey: Option<KeyId>)

  datatype Ciphertext = Sealed(key: Key, iv: Key, plaintext: Bytes) | Noise(id: nat)

  /** The fields of a WhisperMessage, as the receiver reads them. */
  datatype Message = Message(ephemeral: KeyId, counter: nat, previousCounter: nat, ciphertext: Ciphertext)

  datatype MacInput = MacInput(sender: KeyId, receiver: KeyId, message: Message)

  /** The only way to a tag that verifies is to compute it with the right key and input. */
  datatype Tag = Forged | Mac(key: Key, input: MacInput)

  datatype Whisper = Whisper(message: Message, tag: Tag)

  /** What encrypt returns: with an envelope it is a PreKeyWhisperMessage. */
  datatype Envelope = Envelope(identity: KeyId, pre: PreKeyRef)

  datatype Packet = Packet(envelope: Option<Envelope>, whisper: Whisper)

  datatype Error =
    | TooFarAhead | ChainClosed | OverwriteAttempt | NoChain | WrongDirection
    | KeyUsedOrNeverFilled | BadMac | BadCiphertext

  /** How the protobuf writer sends a number in a uint32 field. */
  function ToUint32(n: int): (r: nat)
    ensures 0 <= n ==> r <= n
    ensures r == n <==> 0 <= n < 0x1_0000_0000
  {
    n % 0x1_0000_0000
  }

  // Message keys derived from one chain key.

  function CipherKey(messageKey: Key): Key {
    Hkdf(messageKey, Zeros, WhisperMessageKeys, 0)
  }

  function MacKey(messageKey: Key): Key {
    Hkdf(messageKey, Zeros, WhisperMessageKeys, 1)
  }

  function Iv(messageKey: Key): Key {
    Hkdf(messageKey, Zeros, WhisperMessageKeys, 2)
  }

  // Filling and pruning.

  /** The entries of `m` that have fewer than 2000 greater ones. */
  function Newest(m: map<int, Key>): map<int, Key> {
    map i | i in m && |Above(m.Keys, i)| < MAX_MESSAGE_KEYS :: m[i]
  }

  /** The keys a chain derives on its way from `counter` to `target`. */
  function Derived(key: Key, counter: int, target: int): map<int, Key> {
    map i | i in Interval(counter, target) :: MessageKeyAt(key, i - counter - 1)
  }

  /** fillMessageKeys, without its loop. */
  function Fill(c: Chain, target: int): Result<Chain, Error> {
    if target <= c.counter then Success(c)
    else if target - c.counter > MAX_FILL then Failure(TooFarAhead)
    else if c.key.None? then Failure(ChainClosed)
    else Success(Chain(
      c.kind, target, Some(ChainKeyAt(c.key.value, target - c.counter)),
      Newest(c.messageKeys + Derived(c.key.value, c.counter, target))))
  }

  // The chain table.

  function Ids(order: seq<KeyId>): set<KeyId> {
    set k | k in order
  }

  function Without(order: seq<KeyId>, gone: set<KeyId>): seq<KeyId> {
    if order == [] then []
    else if order[0] in gone then Without(order[1..], gone)
    else [order[0]] + Without(order[1..], gone)
  }

  function AddChain(s: Session, id: KeyId, c: Chain): Result<Session, Error> {
    if id in s.chains then Failure(OverwriteAttempt)
    else Success(s.(chains := s.chains[id := c], order := s.order + [id]))
  }

  function DeleteChains(s: Session, gone: set<KeyId>): Session {
    s.(chains := s.chains - gone, order := Without(s.order, gone))
  }

  /** The receiving chains in the order they were added. */
  function ReceivingIds(order: seq<KeyId>, chains: map<KeyId, Chain>): (r: seq<KeyId>)
    ensures |r| <= |order|
  {
    if order == [] then []
    else
      (if order[0] in chains && chains[order[0]].kind.Receiving? then [order[0]] else [])
      + ReceivingIds(order[1..], chains)
  }

  /** The members of `ids` that have to go so that at most `max` stay. */
  function Surplus(ids: seq<KeyId>, max: nat): set<KeyId> {
    if |ids| <= max then {} else Ids(ids[..|ids| - max])
  }

  function RemoveOldReceiverChains(s: Session, max: nat): Session {
    DeleteChains(s, Surplus(ReceivingIds(s.order, s.chains), max))
  }

  // The Diffie-Hellman ratchet.

  function NextRoot(theirs: KeyId, ours: KeyId, root: Key): Key {
    Hkdf(CalculateAgreement(theirs, ours), root, WhisperRatchet, 0)
  }

  function NextSeed(theirs: KeyId, ours: KeyId, root: Key): Key {
    Hkdf(CalculateAgreement(theirs, ours), root, WhisperRatchet, 1)
  }

  function NewChain(kind: ChainType, seed: Key): Chain {
    Chain(kind, -1, Some(seed), map[])
  }

  function CalculateRatchet(s: Session, remote: KeyId, kind: ChainType): Result<Session, Error> {
    var id := if kind.Sending? then s.ephemeral else remote;
    var added :- AddChain(s, id, NewChain(kind, NextSeed(remote, s.ephemeral, s.rootKey)));
    Success(added.(rootKey := NextRoot(remote, s.ephemeral, s.rootKey)))
  }

  /** The previous remote chain is filled up to the last message sent on it, and closed. */
  function ClosePrevious(s: Session, previousCounter: int): Result<Session, Error> {
    if s.lastRemote !in s.chains then Success(s)
    else
      var filled :- Fill(s.chains[s.lastRemote], previousCounter);
      Success(s.(chains := s.chains[s.lastRemote := filled.(key := None)]))
  }

  function RetireSending(s: Session): Session {
    if s.ephemeral !in s.chains then s
    else DeleteChains(s.(previousCounter := s.chains[s.ephemeral].counter), {s.ephemeral})
  }

  /** Both halves of the step: a receiving chain for the remote key with our old key pair, then
      a sending chain with `newKey`, the key pair generated in between. */
  function Turn(s: Session, remote: KeyId, newKey: KeyId): Result<Session, Error> {
    var received :- CalculateRatchet(s, remote, Receiving);
    var sending :- CalculateRatchet(RetireSending(received).(ephemeral := newKey), remote, Sending);
    Success(RemoveOldReceiverChains(sending.(lastRemote := remote), MAX_RECEIVER_CHAINS))
  }

  /** maybeStepRatchet */
  function StepRatchet(s: Session, remote: KeyId, previousCounter: int, newKey: KeyId): Result<Session, Error> {
    if remote in s.chains then Success(s)
    else
      var closed :- ClosePrevious(s, previousCounter);
      Turn(closed, remote, newKey)
  }

  // Messages.

  function Seal(ephemeral: KeyId, counter: int, previousCounter: int, sender: KeyId, receiver: KeyId,
                messageKey: Key, plaintext: Bytes): Whisper {
    var message := Message(ephemeral, ToUint32(counter), ToUint32(previousCounter),
                           Sealed(CipherKey(messageKey), Iv(messageKey), plaintext));
    Whisper(message, Mac(MacKey(messageKey), MacInput(sender, receiver, message)))
  }

  function Encrypt(s: Session, ourIdentity: KeyId, plaintext: Bytes): Result<(Session, Packet), Error> {
    if s.ephemeral !in s.chains then Failure(NoChain)
    else if s.chains[s.ephemeral].kind.Receiving? then Failure(WrongDirection)
    else
      var c :- Fill(s.chains[s.ephemeral], s.chains[s.ephemeral].counter + 1);
      if c.counter !in c.messageKeys then Failure(KeyUsedOrNeverFilled)
      else
        var used := c.(messageKeys := c.messageKeys - {c.counter});
        var whisper := Seal(s.ephemeral, c.counter, s.previousCounter, ourIdentity, s.remoteIdentity,
                            c.messageKeys[c.counter], plaintext);
        var envelope := if s.pending.Some? then Some(Envelope(ourIdentity, s.pending.value)) else None;
        Success((s.(chains := s.chains[s.ephemeral := used]), Packet(envelope, whisper)))
  }

  function Open(messageKey: Key, ourIdentity: KeyId, remoteIdentity: KeyId, w: Whisper): Result<Bytes, Error> {
    if w.tag != Mac(MacKey(messageKey), MacInput(remoteIdentity, ourIdentity, w.message)) then Failure(BadMac)
    else match w.message.ciphertext
      case Sealed(key, iv, plaintext) =>
        if key == CipherKey(messageKey) && iv == Iv(messageKey) then Success(plaintext) else Failure(BadCiphertext)
      case Noise(_) => Failure(BadCiphertext)
  }

  /** The part of doDecryptWhisperMessage after the ratchet step. */
  function DecryptOnChain(s: Session, ourIdentity: KeyId, w: Whisper): Result<(Session, Bytes), Error> {
    var id, counter := w.message.ephemeral, w.message.counter;
    if id !in s.chains then Failure(NoChain)
    else if s.chains[id].kind.Sending? then Failure(WrongDirection)
    else
      var c :- Fill(s.chains[id], counter);
      if counter !in c.messageKeys then Failure(KeyUsedOrNeverFilled)
      else
        var plaintext :- Open(c.messageKeys[counter], ourIdentity, s.remoteIdentity, w);
        var used := c.(messageKeys := c.messageKeys - {counter});
        Success((s.(chains := s.chains[id := used], pending := None), plaintext))
  }

  /** doDecryptWhisperMessage on a private copy of the session. */
  function Decrypt(s: Session, ourIdentity: KeyId, w: Whisper, newKey: KeyId): Result<(Session, Bytes), Error> {
    var stepped :- StepRatchet(s, w.message.ephemeral, w.message.previousCounter, newKey);
    DecryptOnChain(stepped, ourIdentity, w)
  }

  // What pruning and filling keep.

  lemma NewestOfSmall(m: map<int, Key>)
    requires |m| <= 2000
    ensures Newest(m) == m
  {
    assert |m.Keys| == |m|;
    forall i | i in m ensures |Above(m.Keys, i)| < 2000 {
      SubsetSize(Above(m.Keys, i), m.Keys);
      assert i !in Above(m.Keys, i);
    }
  }

  lemma NewestSize(m: map<int, Key>)
    ensures |Newest(m)| == if |m| <= 2000 then |m| else 2000
  {
    assert |m.Keys| == |m|;
    if |m| <= 2000 {
      NewestOfSmall(m);
    } else {
      GreatestSize(m.Keys, 2000);
      assert Newest(m).Keys == Greatest(m.Keys, 2000);
      assert |Newest(m)| == |Newest(m).Keys|;
    }
  }

  /** Exactly the 2000 greatest entries stay, or all of them when there are fewer. */
  lemma NewestKeepsTheGreatest(m: map<int, Key>)
    ensures |Newest(m)| == if |m| <= 2000 then |m| else 2000
    ensures forall i :: i in Newest(m) ==> i in m && Newest(m)[i] == m[i]
    ensures forall i, j :: i in Newest(m) && j in m && j !in Newest(m) ==> j < i
  {
    NewestSize(m);
    forall i, j | i in Newest(m) && j in m && j !in Newest(m) ensures j < i {
      if i <= j {
        SubsetSize(Above(m.Keys, j), Above(m.Keys, i));
      }
    }
  }

  /** What a fill past the counter leaves cached: every key up to the target, unless it was
      missing before or has been dropped because 2000 greater ones are cached, which takes a
      target at least 2000 ahead of it. */
  ghost predicate CachedUpTo(c: Chain, m: map<int, Key>, key: Key, target: int) {
    && |m| <= 2000 && target in m
    && OldOrDerived(c, m, key, target)
    && MissingForReason(c, m, target)
  }

  ghost predicate OldOrDerived(c: Chain, m: map<int, Key>, key: Key, target: int) {
    forall i {:trigger i in m} :: i in m ==>
      if i <= c.counter then i in c.messageKeys && m[i] == c.messageKeys[i]
      else i <= target && m[i] == MessageKeyAt(key, i - c.counter - 1)
  }

  ghost predicate MissingForReason(c: Chain, m: map<int, Key>, target: int) {
    forall i {:trigger i in m} :: i <= target && i !in m ==>
      target - i >= 2000 || (i <= c.counter && i !in c.messageKeys)
  }

  ghost predicate Filled(c: Chain, f: Chain, target: int)
    requires c.key.Some? && c.counter < target
  {
    && f.kind == c.kind && f.counter == target
    && f.key == Some(ChainKeyAt(c.key.value, target - c.counter))
    && CachedUpTo(c, f.messageKeys, c.key.value, target)
  }

  lemma FillIsFilled(c: Chain, target: int)
    requires c.counter < target && Fill(c, target).Success?
    requires forall i :: i in c.messageKeys ==> i <= c.counter
    ensures Filled(c, Fill(c, target).value, target)
  {
    hide CachedUpTo, Derived, Newest, ChainKeyAt;
    MergedIsCached(c, c.key.value, target);
  }

  lemma MergedIsCached(c: Chain, key: Key, target: int)
    requires c.counter < target
    requires forall i :: i in c.messageKeys ==> i <= c.counter
    ensures CachedUpTo(c, Newest(c.messageKeys + Derived(key, c.counter, target)), key, target)
  {
    var merged := c.messageKeys + Derived(key, c.counter, target);
    MergedEntries(c, key, target);
    hide OldOrDerived, MissingForReason, Newest, Derived;
    NewestOld(c, merged, key, target);
    NewestMissing(c, merged, target);
    NewestFits(merged, target);
    NewestSize(merged);
  }

  lemma MergedEntries(c: Chain, key: Key, target: int)
    requires c.counter < target
    requires forall i :: i in c.messageKeys ==> i <= c.counter
    ensures var merged := c.messageKeys + Derived(key, c.counter, target);
            && target in merged && (forall i :: i in merged ==> i <= target)
            && OldOrDerived(c, merged, key, target) && MissingForReason(c, merged, target)
  {
    MergedMissing(c, key, target);
    hide MissingForReason, MessageKeyAt;
  }

  lemma MergedMissing(c: Chain, key: Key, target: int)
    requires c.counter < target
    ensures MissingForReason(c, c.messageKeys + Derived(key, c.counter, target), target)
  {
    hide MessageKeyAt;
  }

  lemma NewestOld(c: Chain, merged: map<int, Key>, key: Key, target: int)
    requires OldOrDerived(c, merged, key, target)
    ensures OldOrDerived(c, Newest(merged), key, target)
  {
  }

  lemma NewestMissing(c: Chain, merged: map<int, Key>, target: int)
    requires target in merged && MissingForReason(c, merged, target)
    requires forall i :: i in merged ==> i <= target
    ensures MissingForReason(c, Newest(merged), target)
  {
    NewestFits(merged, target);
    hide Newest;
  }

  lemma NewestFits(m: map<int, Key>, top: int)
    requires top in m && forall i :: i in m ==> i <= top
    ensures top in Newest(m)
    ensures forall i :: i in m && i !in Newest(m) ==> top - i >= 2000
  {
    assert Above(m.Keys, top) == {};
    forall i | i in m && i !in Newest(m) ensures top - i >= 2000 {
      AboveFits(m.Keys, i, top);
    }
  }
}
