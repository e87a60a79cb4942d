/** What becomes of a message whose chain has been evicted: the receiver takes its ratchet key for
    a new one, steps a copy of the session, and rejects the message. */
module Eviction {
  import opened Wrappers
  import opened Keys
  import opened Ratchet
  import opened X3dh
  import opened Epochs
  import opened EpochLemmas
  import opened ChainIds
  import opened Protocol
  import opened Soundness
  import opened Theorems
  import opened Completeness

  /** What goes wrong in the step is always the distance, or else the tag. */
  function Rejection(s: Session, message: Message): Error {
    if OpenableByStep(s, message) then BadMac else TooFarAhead
  }

  lemma CloseFails(s: Session, previousCounter: int)
    requires s.lastRemote in s.chains && s.chains[s.lastRemote].key.Some?
    ensures if Fillable(s.chains[s.lastRemote], previousCounter) then ClosePrevious(s, previousCounter).Success?
            else ClosePrevious(s, previousCounter) == Failure(TooFarAhead)
  {
  }

  lemma NewChainFill(seed: Key, counter: nat)
    ensures var f := Fill(NewChain(Receiving, seed), counter);
            if counter < 2000 then f.Success? && counter in f.value.messageKeys else f == Failure(TooFarAhead)
  {
    if counter < 2000 {
      FillIsFilled(NewChain(Receiving, seed), counter);
    }
  }

  lemma ClosedTable(s: Session, previousCounter: int)
    requires ClosePrevious(s, previousCounter).Success?
    ensures var c := ClosePrevious(s, previousCounter).value;
            && c == s.(chains := c.chains) && c.chains.Keys == s.chains.Keys
            && forall id :: id in s.chains ==> c.chains[id].kind == s.chains[id].kind
  {
    hide Newest, Derived, ChainKeyAt;
  }

  /** A turn on a key that is no longer in the table, though it once was. */
  lemma TurnOnOld(h: History, c: Session, n: nat, k: nat, newKey: KeyId)
    requires ValidHistory(h) && Frame(h, c, n) && Kinds(h, c, n)
    requires k < n && h.keys[k] !in c.chains && newKey !in h.keys
    ensures Turn(c, h.keys[k], newKey).Success? && h.keys[k] in Turn(c, h.keys[k], newKey).value.chains
  {
    hide Turn, Untrimmed, NoRepeats, Root, SeedOf;
    var remote, w := h.keys[k], Window(h.keys, n);
    var all := w + [remote];
    var d := if |all| <= 5 then 0 else |all| - 5;
    WindowDistinct(h.keys, n);
    WindowMembers(h.keys, n, n);
    TurnTable(c, w, remote, newKey, d);
    assert all[d..][|w| - d] == remote;
  }

  lemma StepOnOld(h: History, s: Session, n: nat, k: nat, log: seq<Delivery>, previousCounter: int, newKey: KeyId)
    requires ValidHistory(h) && Shape(h, s, n, log) && k < n && h.keys[k] !in s.chains && newKey !in h.keys
    requires ClosePrevious(s, previousCounter).Success?
    ensures StepRatchet(s, h.keys[k], previousCounter, newKey).Success?
    ensures h.keys[k] in StepRatchet(s, h.keys[k], previousCounter, newKey).value.chains
  {
    hide ClosePrevious, Turn, Receives, Sends, Root, SeedOf;
    ClosedTable(s, previousCounter);
    ShapeHasKinds(h, s, n, log);
    TurnOnOld(h, ClosePrevious(s, previousCounter).value, n, k, newKey);
  }

  /** A sealed message fails to open only by its tag. */
  lemma SealedFailsByTag(h: History, r: Role, k: nat, i: nat, whisper: Whisper, plaintext: Bytes,
                         messageKey: Key, ourIdentity: KeyId, remote: KeyId)
    requires ValidHistory(h) && SentBy(h, r, k, i, whisper, plaintext)
    ensures Open(messageKey, ourIdentity, remote, whisper).Success?
            || Open(messageKey, ourIdentity, remote, whisper) == Failure(BadMac)
  {
    hide ValidHistory, MessageKeyAt, SeedOf, LastBefore;
  }

  /** Once the step is taken, the message opens or fails by the distance or by its tag. */
  lemma AfterStep(t: Session, ourIdentity: KeyId, whisper: Whisper, seed: Key)
    requires whisper.message.ephemeral in t.chains && t.chains[whisper.message.ephemeral] == NewChain(Receiving, seed)
    requires forall key: Key {:trigger Open(key, ourIdentity, t.remoteIdentity, whisper)} ::
               Open(key, ourIdentity, t.remoteIdentity, whisper).Success?
               || Open(key, ourIdentity, t.remoteIdentity, whisper) == Failure(BadMac)
    ensures if whisper.message.counter < 2000
            then DecryptOnChain(t, ourIdentity, whisper).Success?
              || DecryptOnChain(t, ourIdentity, whisper) == Failure(BadMac)
            else DecryptOnChain(t, ourIdentity, whisper) == Failure(TooFarAhead)
  {
    NewChainFill(seed, whisper.message.counter);
    hide Fill, Open;
  }

  lemma NewestIsOpen(h: History, s: Session, n: nat, log: seq<Delivery>)
    requires ValidHistory(h) && Shape(h, s, n, log) && n >= 2
    ensures s.lastRemote in s.chains && s.chains[s.lastRemote].key.Some?
  {
    HoldsNewest(h, s, n, log);
  }

  /** The attempt, when it does not open the message. */
  lemma OldFails(h: History, r: Role, s: Session, n: nat, k: nat, i: nat, log: seq<Delivery>,
                 whisper: Whisper, plaintext: Bytes, newKey: KeyId)
    requires ValidHistory(h) && Shape(h, s, n, log) && 2 <= n && k < n && newKey !in h.keys
    requires SentBy(h, r, k, i, whisper, plaintext) && whisper.message.ephemeral !in s.chains
    requires newKey != whisper.message.ephemeral
    requires Decrypt(s, Identity(h.hs, r), whisper, newKey).Failure?
    ensures Decrypt(s, Identity(h.hs, r), whisper, newKey) == Failure(Rejection(s, whisper.message))
  {
    hide Shape, ValidHistory, SentBy, StepRatchet, DecryptOnChain, ClosePrevious, Open, Fillable;
    var id, previous := whisper.message.ephemeral, whisper.message.previousCounter;
    SentByKey(h, r, k, i, whisper, plaintext);
    NewestIsOpen(h, s, n, log);
    CloseFails(s, previous);
    StepFirst(s, id, previous, newKey);
    if ClosePrevious(s, previous).Success? {
      StepOnOld(h, s, n, k, log, previous, newKey);
      StepDerives(s, id, previous, newKey);
      var t := StepRatchet(s, id, previous, newKey).value;
      forall key: Key
        ensures Open(key, Identity(h.hs, r), t.remoteIdentity, whisper).Success?
                || Open(key, Identity(h.hs, r), t.remoteIdentity, whisper) == Failure(BadMac)
      {
        SealedFailsByTag(h, r, k, i, whisper, plaintext, key, Identity(h.hs, r), t.remoteIdentity);
      }
      AfterStep(t, Identity(h.hs, r), whisper, NextSeed(id, s.ephemeral, s.rootKey));
    }
  }

  lemma StepFirst(s: Session, id: KeyId, previousCounter: int, newKey: KeyId)
    requires id !in s.chains
    ensures ClosePrevious(s, previousCounter).Failure? ==>
              StepRatchet(s, id, previousCounter, newKey) == Failure(ClosePrevious(s, previousCounter).error)
    ensures ClosePrevious(s, previousCounter).Success? ==>
              StepRatchet(s, id, previousCounter, newKey) == Turn(ClosePrevious(s, previousCounter).value, id, newKey)
  {
    hide ClosePrevious, Turn;
  }

  /** For every run, every packet of an earlier epoch whose chain the receiver no longer holds is
      rejected: by its tag if the step it seems to ask for is within reach, and because that is too
      far ahead otherwise. The stored session stays as it is. */
  lemma EvictedIsRejected(hs: Handshake, events: seq<Event>, r: Role, k: nat, i: nat, newKey: KeyId)
    requires ValidHandshake(hs)
    requires var h := Run(hs, events).history; k < |h.sent| && i < |h.sent[k]| && !Owns(r, k)
    requires var h := Run(hs, events).history; newKey !in h.keys && newKey != h.sent[k][i].whisper.message.ephemeral
    requires var w := Run(hs, events);
             && k < PeerOf(w, r).epoch
             && w.history.sent[k][i].whisper.message.ephemeral !in Effective(hs, r, PeerOf(w, r).session).chains
    ensures var w := Run(hs, events);
            var p, packet := PeerOf(w, r), w.history.sent[k][i];
            && Receive(hs, r, p.session, packet.envelope, packet.whisper, newKey)
               == Failure(Rejected(Rejection(Effective(hs, r, p.session), packet.whisper.message)))
            && Next(w, Deliver(r, packet.envelope, packet.whisper, newKey)) == w
  {
    RunInv(hs, events);
    RunHandshake(hs, events);
    var w := Run(hs, events);
    hide Run;
    EvictedInWorld(w, r, k, i, newKey);
  }

  lemma EvictedInWorld(w: World, r: Role, k: nat, i: nat, newKey: KeyId)
    requires Inv(w) && k < |w.history.sent| && i < |w.history.sent[k]| && !Owns(r, k) && k < PeerOf(w, r).epoch
    requires newKey !in w.history.keys && newKey != w.history.sent[k][i].whisper.message.ephemeral
    requires w.history.sent[k][i].whisper.message.ephemeral !in Effective(w.history.hs, r, PeerOf(w, r).session).chains
    ensures var p, packet := PeerOf(w, r), w.history.sent[k][i];
            Receive(w.history.hs, r, p.session, packet.envelope, packet.whisper, newKey)
            == Failure(Rejected(Rejection(Effective(w.history.hs, r, p.session), packet.whisper.message)))
  {
    var p, packet, h := PeerOf(w, r), w.history.sent[k][i], w.history;
    var s := Effective(h.hs, r, p.session);
    var plaintext := SentPacket(w, r, k, i);
    PacketSession(w, r, k, i);
    OpensInWorld(w, r, k, i, newKey);
    EvictedEpoch(h, r, p.epoch, k, i, packet.whisper, plaintext);
    hide Decrypt, Shape, SentBy, HonestlySent, LogIsHonest, EnvelopesInv, ValidHistory, SessionFor, OpenableByStep;
    OldFails(h, r, s, p.epoch, k, i, p.log, packet.whisper, plaintext, newKey);
  }

  lemma EvictedEpoch(h: History, r: Role, n: nat, k: nat, i: nat, whisper: Whisper, plaintext: Bytes)
    requires ValidHistory(h) && SentBy(h, r, k, i, whisper, plaintext) && k < n && Owns(r, n)
    ensures n >= 2
  {
  }
}
