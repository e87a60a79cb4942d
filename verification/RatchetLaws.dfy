/** What the messages and the steps of a session are made of, written out in the primitives: which keys are
    derived from which, and what is authenticated. */
module RatchetLaws {
  import opened Wrappers
  import opened Keys
  import opened Ratchet
  import opened ChainIds

  // Sending.

  lemma DerivedNext(key: Key, counter: int)
    ensures Derived(key, counter, counter + 1) == map[counter + 1 := Hmac(key, 1)]
    ensures ChainKeyAt(key, 1) == Hmac(key, 2)
  {
    assert ChainKeyAt(key, 0) == key;
    assert ChainKeyAt(key, 1) == Hmac(ChainKeyAt(key, 0), 2);
  }

  lemma OneMore<V>(m: map<int, V>, n: int, v: V)
    requires n !in m
    ensures m + map[n := v] == m[n := v]
  {
  }

  lemma WithoutIt<V>(m: map<int, V>, n: int, v: V)
    requires n !in m
    ensures m[n := v] - {n} == m
  {
  }

  lemma NewestOfOneMore(m: map<int, Key>, n: int, key: Key)
    requires |m| < 2000 && n !in m
    ensures Newest(m[n := key]) == m[n := key]
  {
    assert m[n := key].Keys == m.Keys + {n};
    assert |m[n := key]| == |m[n := key].Keys| && |m| == |m.Keys|;
    NewestOfSmall(m[n := key]);
    hide Newest;
  }

  /** A chain that has come to its counter and caches fewer keys than would be pruned. */
  ghost predicate Short(c: Chain) {
    |c.messageKeys| < 2000 && forall i :: i in c.messageKeys ==> i <= c.counter
  }

  /** The next message key of a chain, and the chain behind it. */
  lemma FillsNext(c: Chain)
    requires c.key.Some? && Short(c)
    ensures c.counter + 1 !in c.messageKeys
    ensures Fill(c, c.counter + 1)
            == Success(Chain(c.kind, c.counter + 1, Some(Hmac(c.key.value, 2)),
                             c.messageKeys[c.counter + 1 := Hmac(c.key.value, 1)]))
  {
    var key, n := c.key.value, c.counter + 1;
    DerivedNext(key, c.counter);
    NewestOfOneMore(c.messageKeys, n, Hmac(key, 1));
    OneMore(c.messageKeys, n, Hmac(key, 1));
    hide Newest, Derived, ChainKeyAt;
  }

  ghost function Stepped(c: Chain): Chain {
    Chain(c.kind, c.counter + 1, if c.key.Some? then Some(Hmac(c.key.value, 2)) else None, c.messageKeys)
  }

  lemma NextTaken(c: Chain)
    requires c.key.Some? && Short(c)
    ensures var n := c.counter + 1;
            && Fill(c, n).Success?
            && var f := Fill(c, n).value;
               && f.counter == n && n in f.messageKeys && f.messageKeys[n] == Hmac(c.key.value, 1)
               && f.(messageKeys := f.messageKeys - {n}) == Stepped(c)
  {
    FillsNext(c);
    hide Fill, Short;
    WithoutIt(c.messageKeys, c.counter + 1, Hmac(c.key.value, 1));
  }

  /** encrypt takes the sending chain one step on, and keeps nothing of the message key. */
  lemma SentLeaves(s: Session, ourIdentity: KeyId, plaintext: Bytes)
    requires s.ephemeral in s.chains && s.chains[s.ephemeral].kind.Sending?
    requires s.chains[s.ephemeral].key.Some? && Short(s.chains[s.ephemeral])
    ensures var c := s.chains[s.ephemeral];
            Encrypt(s, ourIdentity, plaintext)
            == Success((s.(chains := s.chains[s.ephemeral := Stepped(c)]),
                        Packet(if s.pending.Some? then Some(Envelope(ourIdentity, s.pending.value)) else None,
                               Seal(s.ephemeral, c.counter + 1, s.previousCounter, ourIdentity, s.remoteIdentity,
                                    Hmac(c.key.value, 1), plaintext))))
  {
    var c := s.chains[s.ephemeral];
    hide *;
    NextTaken(c);
    SendsOn(s, ourIdentity, plaintext, Fill(c, c.counter + 1).value);
  }

  lemma SendsOn(s: Session, ourIdentity: KeyId, plaintext: Bytes, f: Chain)
    requires s.ephemeral in s.chains && s.chains[s.ephemeral].kind.Sending? && s.chains[s.ephemeral].key.Some?
    requires var c := s.chains[s.ephemeral];
             && Fill(c, c.counter + 1) == Success(f)
             && f.counter == c.counter + 1 && f.counter in f.messageKeys
             && f.messageKeys[f.counter] == Hmac(c.key.value, 1)
             && f.(messageKeys := f.messageKeys - {f.counter}) == Stepped(c)
    ensures var c := s.chains[s.ephemeral];
            Encrypt(s, ourIdentity, plaintext)
            == Success((s.(chains := s.chains[s.ephemeral := Stepped(c)]),
                        Packet(if s.pending.Some? then Some(Envelope(ourIdentity, s.pending.value)) else None,
                               Seal(s.ephemeral, c.counter + 1, s.previousCounter, ourIdentity, s.remoteIdentity,
                                    Hmac(c.key.value, 1), plaintext))))
  {
    hide Fill, Seal, Stepped;
  }

  /** The message is sealed with the first and third key derived from the next message key, and its tag is made with
      the second over both identities, ours first, and the fields. */
  lemma SentIs(s: Session, ourIdentity: KeyId, plaintext: Bytes)
    requires s.ephemeral in s.chains && s.chains[s.ephemeral].kind.Sending?
    requires s.chains[s.ephemeral].key.Some? && Short(s.chains[s.ephemeral])
    ensures var c, r := s.chains[s.ephemeral], Encrypt(s, ourIdentity, plaintext);
            var messageKey := Hmac(c.key.value, 1);
            && r.Success?
            && r.value.1.envelope == (if s.pending.Some? then Some(Envelope(ourIdentity, s.pending.value)) else None)
            && var w := r.value.1.whisper;
               && w.message.ephemeral == s.ephemeral
               && w.message.counter == (c.counter + 1) % 0x1_0000_0000
               && w.message.previousCounter == s.previousCounter % 0x1_0000_0000
               && w.message.ciphertext == Sealed(Hkdf(messageKey, Zeros, WhisperMessageKeys, 0),
                                                 Hkdf(messageKey, Zeros, WhisperMessageKeys, 2), plaintext)
               && w.tag == Mac(Hkdf(messageKey, Zeros, WhisperMessageKeys, 1),
                               MacInput(ourIdentity, s.remoteIdentity, w.message))
  {
    var c := s.chains[s.ephemeral];
    hide Fill, Seal, Short, Encrypt;
    SentLeaves(s, ourIdentity, plaintext);
    SealIs(s.ephemeral, c.counter + 1, s.previousCounter, ourIdentity, s.remoteIdentity, Hmac(c.key.value, 1),
           plaintext);
  }

  lemma SealIs(ephemeral: KeyId, counter: int, previousCounter: int, sender: KeyId, receiver: KeyId, messageKey: Key,
               plaintext: Bytes)
    ensures var w := Seal(ephemeral, counter, previousCounter, sender, receiver, messageKey, plaintext);
            && w.message.ephemeral == ephemeral
            && w.message.counter == counter % 0x1_0000_0000
            && w.message.previousCounter == previousCounter % 0x1_0000_0000
            && w.message.ciphertext == Sealed(Hkdf(messageKey, Zeros, WhisperMessageKeys, 0),
                                              Hkdf(messageKey, Zeros, WhisperMessageKeys, 2), plaintext)
            && w.tag == Mac(Hkdf(messageKey, Zeros, WhisperMessageKeys, 1), MacInput(sender, receiver, w.message))
  {
  }

  /** Without such a chain nothing is sent. */
  lemma NotSentWhen(s: Session, ourIdentity: KeyId, plaintext: Bytes)
    ensures s.ephemeral !in s.chains ==> Encrypt(s, ourIdentity, plaintext) == Failure(NoChain)
    ensures s.ephemeral in s.chains && s.chains[s.ephemeral].kind.Receiving? ==>
              Encrypt(s, ourIdentity, plaintext) == Failure(WrongDirection)
    ensures s.ephemeral in s.chains && s.chains[s.ephemeral].kind.Sending? && s.chains[s.ephemeral].key.None? ==>
              Encrypt(s, ourIdentity, plaintext) == Failure(ChainClosed)
  {
  }

  // Receiving.

  /** A message key opens exactly the message that was sealed with the keys derived from it and whose tag
      was made by the remote identity for ours. */
  lemma OpensWhat(messageKey: Key, ourIdentity: KeyId, remoteIdentity: KeyId, w: Whisper)
    ensures var sealed := w.tag == Mac(Hkdf(messageKey, Zeros, WhisperMessageKeys, 1),
                                       MacInput(remoteIdentity, ourIdentity, w.message));
            && (Open(messageKey, ourIdentity, remoteIdentity, w) == Failure(BadMac) <==> !sealed)
            && forall plaintext ::
                 Open(messageKey, ourIdentity, remoteIdentity, w) == Success(plaintext) <==>
                 sealed && w.message.ciphertext == Sealed(Hkdf(messageKey, Zeros, WhisperMessageKeys, 0),
                                                          Hkdf(messageKey, Zeros, WhisperMessageKeys, 2), plaintext)
  {
  }

  /** On a chain that has come to `c.counter`: the next message is opened with the next message key, which is not
      kept; a late one with its cached key, which is dropped. Either ends the time of the envelopes. */
  lemma ReceivedIs(s: Session, ourIdentity: KeyId, w: Whisper, newKey: KeyId)
    requires w.message.ephemeral in s.chains && s.chains[w.message.ephemeral].kind.Receiving?
    requires Short(s.chains[w.message.ephemeral])
    ensures var id, n := w.message.ephemeral, w.message.counter; var c := s.chains[id];
            && (n <= c.counter && n !in c.messageKeys ==>
                  Decrypt(s, ourIdentity, w, newKey) == Failure(KeyUsedOrNeverFilled))
            && (n <= c.counter && n in c.messageKeys ==>
                  match Open(c.messageKeys[n], ourIdentity, s.remoteIdentity, w)
                  case Failure(e) => Decrypt(s, ourIdentity, w, newKey) == Failure(e)
                  case Success(plaintext) =>
                    Decrypt(s, ourIdentity, w, newKey)
                    == Success((s.(pending := None,
                                   chains := s.chains[id := c.(messageKeys := c.messageKeys - {n})]), plaintext)))
            && (n == c.counter + 1 && c.key.Some? ==>
                  match Open(Hmac(c.key.value, 1), ourIdentity, s.remoteIdentity, w)
                  case Failure(e) => Decrypt(s, ourIdentity, w, newKey) == Failure(e)
                  case Success(plaintext) =>
                    Decrypt(s, ourIdentity, w, newKey)
                    == Success((s.(pending := None,
                                   chains := s.chains[id := Chain(Receiving, n, Some(Hmac(c.key.value, 2)),
                                                                  c.messageKeys)]),
                                plaintext)))
            && (n > c.counter + 2000 ==> Decrypt(s, ourIdentity, w, newKey) == Failure(TooFarAhead))
  {
    var c, n := s.chains[w.message.ephemeral], w.message.counter;
    if n == c.counter + 1 && c.key.Some? {
      FillsNext(c);
      WithoutIt(c.messageKeys, n, Hmac(c.key.value, 1));
    }
    hide Open;
  }

  // The ratchet step.

  /** maybeStepRatchet for a new remote key, as long as no receiving chain has to go: two derivations, the first
      with our old key pair for what is received, the second with the new one for what is sent, each from the root
      that the one before has left. */
  lemma StepIs(s: Session, remote: KeyId, previousCounter: int, newKey: KeyId)
    requires remote !in s.chains && newKey !in s.chains && newKey != remote && remote != s.ephemeral
    requires s.lastRemote != s.ephemeral && |ReceivingIds(s.order, s.chains)| < 5 && s.chains.Keys == Ids(s.order)
    requires s.lastRemote in s.chains ==> Fill(s.chains[s.lastRemote], previousCounter).Success?
    ensures var r := StepRatchet(s, remote, previousCounter, newKey);
            var received, sent := CalculateAgreement(remote, s.ephemeral), CalculateAgreement(remote, newKey);
            var root := Hkdf(received, s.rootKey, WhisperRatchet, 0);
            && r.Success?
            && r.value.rootKey == Hkdf(sent, root, WhisperRatchet, 0)
            && r.value.ephemeral == newKey && r.value.lastRemote == remote
            && r.value.previousCounter
               == (if s.ephemeral in s.chains then s.chains[s.ephemeral].counter else s.previousCounter)
            && r.value.remoteIdentity == s.remoteIdentity && r.value.baseKey == s.baseKey
            && r.value.pending == s.pending
            && r.value.chains
               == (if s.lastRemote in s.chains
                   then s.chains[s.lastRemote := Fill(s.chains[s.lastRemote], previousCounter).value.(key := None)]
                   else s.chains)
                  - {s.ephemeral}
                  + map[remote := Chain(Receiving, -1, Some(Hkdf(received, s.rootKey, WhisperRatchet, 1)), map[]),
                        newKey := Chain(Sending, -1, Some(Hkdf(sent, root, WhisperRatchet, 1)), map[])]
  {
    var closed := ClosePrevious(s, previousCounter).value;
    ClosedKinds(s, previousCounter);
    hide Fill, ReceivingIds, Without;
    var turned := Turned(closed, remote, newKey);
    TurnIs(closed, remote, newKey);
    assert Turn(closed, remote, newKey) == Success(turned) by {
      hide Turned, ClosePrevious, Turn;
    }
    hide ClosePrevious, Turn;
  }

  /** What the two derivations make of a session. */
  ghost function Turned(s: Session, remote: KeyId, newKey: KeyId): Session {
    var received, sent := CalculateAgreement(remote, s.ephemeral), CalculateAgreement(remote, newKey);
    var root := Hkdf(received, s.rootKey, WhisperRatchet, 0);
    s.(rootKey := Hkdf(sent, root, WhisperRatchet, 0), ephemeral := newKey, lastRemote := remote,
       previousCounter := if s.ephemeral in s.chains then s.chains[s.ephemeral].counter else s.previousCounter,
       chains := s.chains - {s.ephemeral}
                 + map[remote := Chain(Receiving, -1, Some(Hkdf(received, s.rootKey, WhisperRatchet, 1)), map[]),
                       newKey := Chain(Sending, -1, Some(Hkdf(sent, root, WhisperRatchet, 1)), map[])],
       order := Without(s.order + [remote], {s.ephemeral}) + [newKey])
  }

  lemma TurnIs(s: Session, remote: KeyId, newKey: KeyId)
    requires remote !in s.chains && newKey !in s.chains && newKey != remote && remote != s.ephemeral
    requires |ReceivingIds(s.order, s.chains)| < 5 && s.chains.Keys == Ids(s.order)
    ensures Turn(s, remote, newKey) == Success(Turned(s, remote, newKey))
  {
    var t := Turned(s, remote, newKey);
    OneMoreReceiving(s.order, {s.ephemeral}, remote, newKey, s.chains, t.chains);
    NothingSurplus(t);
    if s.ephemeral !in s.chains {
      assert forall k :: k in s.order + [remote] ==> k in Ids(s.order) || k == remote;
      WithoutNone(s.order + [remote], {s.ephemeral});
    }
    hide ReceivingIds, Without, Surplus, DeleteChains;
    TurnsTo(s, remote, newKey);
  }

  lemma TurnsTo(s: Session, remote: KeyId, newKey: KeyId)
    requires remote !in s.chains && newKey !in s.chains && newKey != remote && remote != s.ephemeral
    requires s.ephemeral !in s.chains ==> Without(s.order + [remote], {s.ephemeral}) == s.order + [remote]
    requires var t := Turned(s, remote, newKey); RemoveOldReceiverChains(t, 5) == t
    ensures Turn(s, remote, newKey) == Success(Turned(s, remote, newKey))
  {
    var t := Turned(s, remote, newKey);
    hide Without, RemoveOldReceiverChains, CalculateAgreement;
    var received := CalculateRatchet(s, remote, Receiving).value;
    assert received.chains == s.chains[remote := t.chains[remote]];
    var retired := RetireSending(received).(ephemeral := newKey);
    assert retired.chains == s.chains[remote := t.chains[remote]] - {s.ephemeral};
    assert t.chains == retired.chains[newKey := t.chains[newKey]];
    var sending := CalculateRatchet(retired, remote, Sending).value.(lastRemote := remote);
    assert sending == t;
  }

  lemma ClosedKinds(s: Session, previousCounter: int)
    requires s.lastRemote in s.chains ==> Fill(s.chains[s.lastRemote], previousCounter).Success?
    ensures var c := ClosePrevious(s, previousCounter);
            && c.Success? && c.value.order == s.order && c.value.chains.Keys == s.chains.Keys
            && |ReceivingIds(c.value.order, c.value.chains)| <= |ReceivingIds(s.order, s.chains)|
  {
    var c := ClosePrevious(s, previousCounter).value;
    WithoutNone(s.order, {});
    FewerReceiving(s.order, {}, s.chains, c.chains);
    hide ReceivingIds, Without;
  }

  lemma NothingSurplus(s: Session)
    requires |ReceivingIds(s.order, s.chains)| <= 5
    ensures RemoveOldReceiverChains(s, 5) == s
  {
    WithoutNone(s.order, {});
    hide ReceivingIds, Without;
    assert s.chains - {} == s.chains;
  }

  lemma {:induction false} ReceivingAppend(a: seq<KeyId>, b: seq<KeyId>, chains: map<KeyId, Chain>)
    ensures ReceivingIds(a + b, chains) == ReceivingIds(a, chains) + ReceivingIds(b, chains)
  {
    if a == [] {
      assert a + b == b;
    } else {
      assert (a + b)[1..] == a[1..] + b;
      ReceivingAppend(a[1..], b, chains);
    }
  }

  lemma {:induction false} FewerReceiving(order: seq<KeyId>, gone: set<KeyId>, before: map<KeyId, Chain>,
                                          after: map<KeyId, Chain>)
    requires forall k :: k in order && k in after && after[k].kind.Receiving? ==>
               k in before && before[k].kind.Receiving?
    ensures |ReceivingIds(Without(order, gone), after)| <= |ReceivingIds(order, before)|
  {
    if order != [] {
      FewerReceiving(order[1..], gone, before, after);
    }
  }

  lemma OneMoreReceiving(order: seq<KeyId>, gone: set<KeyId>, remote: KeyId, newKey: KeyId, before: map<KeyId, Chain>,
                         after: map<KeyId, Chain>)
    requires forall k :: k in order && k in after && after[k].kind.Receiving? ==>
               k in before && before[k].kind.Receiving?
    requires newKey in after && after[newKey].kind.Sending? && remote !in gone
    ensures |ReceivingIds(Without(order + [remote], gone) + [newKey], after)| <= |ReceivingIds(order, before)| + 1
  {
    WithoutAppend(order, [remote], gone);
    assert Without([remote], gone) == [remote];
    ReceivingAppend(Without(order, gone) + [remote], [newKey], after);
    ReceivingAppend(Without(order, gone), [remote], after);
    FewerReceiving(order, gone, before, after);
    assert ReceivingIds([newKey], after) == [];
  }

  /** Nothing changes when the previous chain cannot be filled up to the last message that was sent on it. */
  lemma StepFails(s: Session, remote: KeyId, previousCounter: int, newKey: KeyId)
    requires remote !in s.chains && s.lastRemote in s.chains && Fill(s.chains[s.lastRemote], previousCounter).Failure?
    ensures StepRatchet(s, remote, previousCounter, newKey)
            == Failure(Fill(s.chains[s.lastRemote], previousCounter).error)
  {
  }
}
