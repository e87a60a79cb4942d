/** What holds in every run of the protocol. */
module Theorems {
  import opened Wrappers
  import opened Keys
  import opened Ratchet
  import opened X3dh
  import opened Epochs
  import opened EpochLemmas
  import opened Protocol
  import opened Soundness
  import opened Preservation
  import opened DeliveryLemmas

  lemma StartInv(hs: Handshake)
    requires ValidHandshake(hs)
    ensures Inv(Start(hs))
  {
    var w := Start(hs);
    var h := w.history;
    assert Root(hs, h.keys, 1) == NextRoot(hs.signedPreKey, hs.firstEphemeral, MasterKey(hs));
    assert Order(h.keys, 1) == [h.keys[1]] && Order(h.keys, 0) == [];
    hide MasterKey;
    InitiatorShape(h);
    ResponderShape(h);
  }

  lemma InitiatorShape(h: History)
    requires ValidHistory(h) && |h.keys| == 2 && h.sent == [[], []]
    ensures Shape(h, OutgoingSession(h.hs), 1, [])
  {
    var s := OutgoingSession(h.hs);
    assert Order(h.keys, 1) == [h.keys[1]];
    hide MasterKey;
    assert Root(h.hs, h.keys, 0) == MasterKey(h.hs);
  }

  lemma ResponderShape(h: History)
    requires ValidHistory(h) && |h.keys| == 2 && h.sent == [[], []]
    ensures Shape(h, ResponderSession(h.hs), 0, [])
  {
    assert Order(h.keys, 0) == [];
    hide MasterKey;
  }

  lemma NextKeepsInv(w: World, e: Event)
    requires Inv(w)
    ensures Inv(Next(w, e))
  {
    hide Inv, AfterSend, AfterDelivery;
    if Enabled(w, e) {
      match e
      case Send(r, plaintext) => SendKeepsInv(w, r, plaintext);
      case Deliver(r, envelope, whisper, newKey) => DeliverKeepsInv(w, r, envelope, whisper, newKey);
    }
  }

  lemma {:induction false} RunInv(hs: Handshake, events: seq<Event>)
    requires ValidHandshake(hs)
    ensures Inv(Run(hs, events))
  {
    hide Inv, Next, Start;
    if events == [] {
      StartInv(hs);
    } else {
      RunInv(hs, events[..|events| - 1]);
      NextKeepsInv(Run(hs, events[..|events| - 1]), events[|events| - 1]);
    }
  }

  // Agreement and authenticity.

  /** Whatever a party opens, in whatever order the network brings it, was sealed by its peer:
      under the key with that number of the chain of that epoch, with the same MAC input. */
  lemma Agreement(hs: Handshake, events: seq<Event>, r: Role, d: Delivery)
    requires ValidHandshake(hs)
    requires d in PeerOf(Run(hs, events), r).log
    ensures var h := Run(hs, events).history;
            && ValidHistory(h)
            && exists k: nat, w: Whisper ::
                 SentBy(h, r, k, d.counter, w, d.plaintext) && w.message.ephemeral == d.ephemeral
                   && w.message.counter == d.counter
  {
    RunInv(hs, events);
    hide Run, HonestlySent, Shape, EnvelopesInv, ValidHistory, SentBy;
    assert SentAs(Run(hs, events).history, r, d);
  }

  // Nothing is opened twice.

  ghost predicate Opened(log: seq<Delivery>, id: KeyId, counter: nat) {
    exists d :: d in log && d.ephemeral == id && d.counter == counter
  }

  ghost predicate OpenedOnce(log: seq<Delivery>) {
    forall i, j :: 0 <= i < j < |log| ==> log[i].ephemeral != log[j].ephemeral || log[i].counter != log[j].counter
  }

  lemma CachedIsUnused(c: Chain, seed: Key, last: int, open: bool, used: set<int>, counter: nat)
    requires ReceivingChain(c, seed, last, open, used) && counter <= last
    requires Fill(c, counter).Success? && counter in Fill(c, counter).value.messageKeys
    ensures counter !in used
  {
    FillReceiving(c, seed, last, open, used, counter);
  }

  lemma NewOnChain(h: History, r: Role, s: Session, n: nat, log: seq<Delivery>, whisper: Whisper)
    requires ValidHistory(h) && HonestlySent(h) && Seen(h, whisper.tag)
    requires Shape(h, s, n, log) && Owns(r, n) && whisper.message.ephemeral in s.chains
    requires DecryptOnChain(s, Identity(h.hs, r), whisper).Success?
    ensures !Opened(log, whisper.message.ephemeral, whisper.message.counter)
  {
    hide HonestlySent, Seen, OpenedOn, SentBy, Order, Root;
    var id, counter := whisper.message.ephemeral, whisper.message.counter;
    var k := AcceptedOnChain(h, r, s, n, log, whisper);
    var _ := OnChain(s, Identity(h.hs, r), whisper);
    SentByKey(h, r, k, counter, whisper, DecryptOnChain(s, Identity(h.hs, r), whisper).value.1);
    assert Receives(h, s.chains, n, k, log);
    hide Shape, ReceivingChain, DecryptOnChain, Fill;
    OnChainFill(s, Identity(h.hs, r), whisper);
    CachedIsUnused(s.chains[id], SeedOf(h.hs, h.keys, k), |h.sent[k]| - 1, k == n - 1, Used(log, id), counter);
  }

  lemma OnChainFill(s: Session, ourIdentity: KeyId, w: Whisper)
    requires w.message.ephemeral in s.chains && DecryptOnChain(s, ourIdentity, w).Success?
    ensures var f := Fill(s.chains[w.message.ephemeral], w.message.counter);
            f.Success? && w.message.counter in f.value.messageKeys
  {
  }

  lemma NewOnStep(h: History, r: Role, s: Session, n: nat, log: seq<Delivery>, whisper: Whisper, newKey: KeyId)
    requires ValidHistory(h) && HonestlySent(h) && Seen(h, whisper.tag)
    requires Shape(h, s, n, log)
    requires whisper.message.ephemeral !in s.chains && newKey != whisper.message.ephemeral
    requires Decrypt(s, Identity(h.hs, r), whisper, newKey).Success?
    ensures !Opened(log, whisper.message.ephemeral, whisper.message.counter)
  {
    hide HonestlySent, Seen, SentBy, Decrypt;
    NextEpoch(h, r, s, n, log, whisper, newKey);
    SentByKey(h, r, n + 1, whisper.message.counter, whisper, Decrypt(s, Identity(h.hs, r), whisper, newKey).value.1);
    assert h.keys[n + 1] !in h.keys[..n];
  }

  lemma OpensOnlyNew(w: World, r: Role, envelope: Option<Envelope>, whisper: Whisper, newKey: KeyId)
    requires Inv(w) && Enabled(w, Deliver(r, envelope, whisper, newKey))
    requires Receive(w.history.hs, r, PeerOf(w, r).session, envelope, whisper, newKey).Success?
    ensures !Opened(PeerOf(w, r).log, whisper.message.ephemeral, whisper.message.counter)
  {
    hide HonestlySent, Seen, Shape, EnvelopesInv, ValidHistory, LogIsHonest, Receive, Opened, DecryptOnChain;
    SessionTried(w, r, envelope, whisper, newKey);
    var s, p := Effective(w.history.hs, r, PeerOf(w, r).session), PeerOf(w, r);
    if whisper.message.ephemeral in s.chains {
      NewOnChain(w.history, r, s, p.epoch, p.log, whisper);
    } else {
      NewOnStep(w.history, r, s, p.epoch, p.log, whisper, newKey);
    }
  }

  lemma NextOpensOnce(w: World, e: Event, r: Role)
    requires Inv(w) && OpenedOnce(PeerOf(w, r).log)
    ensures OpenedOnce(PeerOf(Next(w, e), r).log)
  {
    hide Inv, Receive, SentAs, Encrypt;
    if Enabled(w, e) && e.Deliver? {
      DeliverKeepsInv(w, e.role, e.envelope, e.whisper, e.newKey);
      if e.role == r && Receive(w.history.hs, r, PeerOf(w, r).session, e.envelope, e.whisper, e.newKey).Success? {
        OpensOnlyNew(w, r, e.envelope, e.whisper, e.newKey);
      }
    }
  }

  /** In the life of a session no (ratchet key, counter) yields a plaintext twice, not even
      after its chain was closed or evicted. */
  lemma {:induction false} AtMostOnce(hs: Handshake, events: seq<Event>, r: Role)
    requires ValidHandshake(hs)
    ensures OpenedOnce(PeerOf(Run(hs, events), r).log)
  {
    hide Next, Inv, ValidHandshake;
    if events != [] {
      AtMostOnce(hs, events[..|events| - 1], r);
      RunInv(hs, events[..|events| - 1]);
      NextOpensOnce(Run(hs, events[..|events| - 1]), events[|events| - 1], r);
    }
  }

  // The two sessions side by side.

  /** One chain from both ends. */
  ghost predicate SameChain(sender: Chain, receiver: Chain) {
    && sender.kind.Sending? && receiver.kind.Receiving? && receiver.counter <= sender.counter
    && sender.key.Some? && receiver.key.Some?
    && sender.key.value == ChainKeyAt(receiver.key.value, sender.counter - receiver.counter)
  }

  ghost predicate SideBySide(behind: Session, ahead: Session, chains: map<KeyId, Chain>) {
    && ahead.lastRemote == behind.ephemeral
    && ahead.rootKey == NextRoot(behind.ephemeral, ahead.ephemeral, behind.rootKey)
    && (behind.ephemeral in chains ==>
          behind.ephemeral in behind.chains && SameChain(behind.chains[behind.ephemeral], chains[behind.ephemeral]))
  }

  /** The parties are always exactly one epoch apart. The root key of the one ahead is a single
      ratchet step from the root key of the one behind, and its open receiving chain is an
      earlier point of the other's sending chain. */
  lemma EpochsAgree(hs: Handshake, events: seq<Event>)
    requires ValidHandshake(hs)
    ensures var w := Run(hs, events);
            var a, b := Effective(hs, Initiator, w.initiator.session), Effective(hs, Responder, w.responder.session);
            || (w.initiator.epoch + 1 == w.responder.epoch && SideBySide(a, b, b.chains))
            || (w.responder.epoch + 1 == w.initiator.epoch && SideBySide(b, a, a.chains))
  {
    RunInv(hs, events);
    RunHandshake(hs, events);
    var w := Run(hs, events);
    var h := w.history;
    var a, b := Effective(hs, Initiator, w.initiator.session), Effective(hs, Responder, w.responder.session);
    hide Run, HonestlySent, EnvelopesInv, LogIsHonest, SideBySide;
    OneApart(h, a, w.initiator.epoch, w.initiator.log, b, w.responder.epoch, w.responder.log);
    if w.initiator.epoch < w.responder.epoch {
      Aligned(h, a, w.initiator.epoch, w.initiator.log, b, w.responder.log);
    } else {
      Aligned(h, b, w.responder.epoch, w.responder.log, a, w.initiator.log);
    }
  }

  lemma OneApart(h: History, a: Session, m: nat, logA: seq<Delivery>, b: Session, n: nat, logB: seq<Delivery>)
    requires ValidHistory(h) && Shape(h, a, m, logA) && Shape(h, b, n, logB)
    requires Owns(Initiator, m) && Owns(Responder, n)
    ensures m == n + 1 || n == m + 1
  {
    hide Order, Receives, Sends, Root;
  }

  lemma FramesAligned(h: History, a: Session, n: nat, b: Session)
    requires ValidHistory(h) && Frame(h, a, n) && Frame(h, b, n + 1)
    ensures b.lastRemote == a.ephemeral == h.keys[n] && b.rootKey == NextRoot(a.ephemeral, b.ephemeral, a.rootKey)
  {
    hide ValidHistory, Order, Ids, LastBefore, MasterKey;
  }

  lemma ChainsAligned(sender: Chain, receiver: Chain, seed: Key, count: nat, used: set<int>)
    requires SendingChain(sender, seed, count) && ReceivingChain(receiver, seed, count - 1, true, used)
    ensures SameChain(sender, receiver)
  {
    ChainKeyComposes(seed, receiver.counter + 1, count - 1 - receiver.counter);
    hide MessageKeyAt;
  }

  lemma Aligned(h: History, a: Session, n: nat, logA: seq<Delivery>, b: Session, logB: seq<Delivery>)
    requires ValidHistory(h) && Shape(h, a, n, logA) && Shape(h, b, n + 1, logB)
    ensures SideBySide(a, b, b.chains)
  {
    hide ValidHistory, Frame, Receives, Order, Used, ReceivingChain, SendingChain, SeedOf, SameChain;
    FramesAligned(h, a, n, b);
    SameEpoch(h, a, n);
    SameEpoch(h, b, n + 1);
    HoldsWindow(h, b, n + 1, n);
    if h.keys[n] in b.chains {
      assert Receives(h, b.chains, n + 1, n, logB);
      BothEnds(h, a.chains, n, b.chains, logB);
    }
  }

  lemma SameEpoch(h: History, s: Session, n: nat)
    requires ValidHistory(h) && Frame(h, s, n)
    ensures n < |h.keys| == |h.sent|
  {
  }

  lemma BothEnds(h: History, chains: map<KeyId, Chain>, n: nat, received: map<KeyId, Chain>, log: seq<Delivery>)
    requires 1 <= n < |h.keys| && |h.keys| == |h.sent| && Sends(h, chains, n) && Receives(h, received, n + 1, n, log)
    ensures h.keys[n] in chains && h.keys[n] in received && SameChain(chains[h.keys[n]], received[h.keys[n]])
  {
    hide SendingChain, ReceivingChain, SameChain, SeedOf, Used;
    ChainsAligned(chains[h.keys[n]], received[h.keys[n]], SeedOf(h.hs, h.keys, n), |h.sent[n]|, Used(log, h.keys[n]));
  }

  lemma {:induction false} RunHandshake(hs: Handshake, events: seq<Event>)
    requires ValidHandshake(hs)
    ensures Run(hs, events).history.hs == hs
  {
    if events != [] {
      RunHandshake(hs, events[..|events| - 1]);
      hide Encrypt, Receive, Enabled;
    }
  }

  // The shape of a stored session.

  ghost predicate WellReceiving(c: Chain) {
    && c.kind.Receiving? && |c.messageKeys| <= 2000
    && (forall i :: i in c.messageKeys ==> 0 <= i <= c.counter)
  }

  /** One sending chain, at the party's own ratchet key and without cached keys; at most five
      receiving chains, the newest one among them, each with at most 2000 cached keys below
      its next counter. */
  ghost predicate WellShaped(s: Session) {
    && s.ephemeral in s.chains && s.chains[s.ephemeral].kind.Sending? && s.chains[s.ephemeral].messageKeys == map[]
    && s.chains[s.ephemeral].key.Some? && 0 <= s.previousCounter
    && s.chains.Keys == Ids(s.order) && |s.order| <= 6
    && (|s.order| > 1 ==> s.lastRemote in s.chains && s.chains[s.lastRemote].key.Some?)
    && forall id :: id in s.chains && id != s.ephemeral ==> WellReceiving(s.chains[id])
  }

  lemma ReceivesIsWell(h: History, chains: map<KeyId, Chain>, n: nat, k: nat, log: seq<Delivery>)
    requires 1 <= k < |h.keys| && |h.keys| == |h.sent| && Receives(h, chains, n, k, log)
    ensures h.keys[k] in chains && WellReceiving(chains[h.keys[k]]) && (k == n - 1 ==> chains[h.keys[k]].key.Some?)
  {
    hide SeedOf, Used, MessageKeyAt;
  }

  lemma FrameIsWell(h: History, s: Session, n: nat)
    requires ValidHistory(h) && Frame(h, s, n) && Sends(h, s.chains, n) && n != 0
    ensures s.ephemeral in s.chains && s.chains[s.ephemeral].kind.Sending? && s.chains[s.ephemeral].messageKeys == map[]
    ensures s.chains[s.ephemeral].key.Some? && 0 <= s.previousCounter
    ensures s.chains.Keys == Ids(s.order) && |s.order| <= 6
    ensures n == 1 ==> |s.order| == 1
    ensures n >= 2 ==> s.lastRemote == h.keys[n - 1]
    ensures forall id :: id in s.chains && id != s.ephemeral ==> id in Window(h.keys, n)
  {
    hide Root, SeedOf, ChainKeyAt;
  }

  lemma ShapeIsWell(h: History, s: Session, n: nat, log: seq<Delivery>)
    requires ValidHistory(h) && Shape(h, s, n, log) && n != 0
    ensures WellShaped(s)
  {
    hide ValidHistory, Frame, Receives, Sends, Window, Root, SeedOf, Used, WellReceiving;
    SameEpoch(h, s, n);
    FrameIsWell(h, s, n);
    if n >= 2 {
      assert InWindow(n - 1, n);
      ReceivesIsWell(h, s.chains, n, n - 1, log);
    }
    forall id | id in s.chains && id != s.ephemeral ensures WellReceiving(s.chains[id]) {
      var k := WindowEpoch(h.keys, n, id);
      ReceivesIsWell(h, s.chains, n, k, log);
    }
  }

  lemma SessionsWellShaped(hs: Handshake, events: seq<Event>, r: Role)
    requires ValidHandshake(hs) && PeerOf(Run(hs, events), r).session.Some?
    ensures WellShaped(PeerOf(Run(hs, events), r).session.value)
  {
    RunInv(hs, events);
    var w := Run(hs, events);
    hide Run, Shape, WellShaped, Inv;
    EpochBounds(w, r);
    InvIsValid(w);
    ShapeIsWell(w.history, PeerOf(w, r).session.value, PeerOf(w, r).epoch, PeerOf(w, r).log);
  }

  lemma InvIsValid(w: World)
    requires Inv(w)
    ensures ValidHistory(w.history)
  {
    hide HonestlySent, PeerInv, EnvelopesInv;
  }

  /** A party with a session can always send. */
  lemma SendingNeverFails(hs: Handshake, events: seq<Event>, r: Role, plaintext: Bytes)
    requires ValidHandshake(hs) && PeerOf(Run(hs, events), r).session.Some?
    ensures Encrypt(PeerOf(Run(hs, events), r).session.value, Identity(hs, r), plaintext).Success?
  {
    RunInv(hs, events);
    RunHandshake(hs, events);
    hide Run, Inv, Encrypt;
    SendKeepsInv(Run(hs, events), r, plaintext);
  }

  /** No packet at all, honest or not, makes a receiver overwrite a chain. */
  lemma NeverOverwrites(hs: Handshake, events: seq<Event>, r: Role, envelope: Option<Envelope>, whisper: Whisper,
                        newKey: KeyId)
    requires ValidHandshake(hs) && Enabled(Run(hs, events), Deliver(r, envelope, whisper, newKey))
    ensures Receive(hs, r, PeerOf(Run(hs, events), r).session, envelope, whisper,
                    newKey) != Failure(Rejected(OverwriteAttempt))
  {
    RunInv(hs, events);
    RunHandshake(hs, events);
    var w := Run(hs, events);
    hide Run, Inv, Effective, Decrypt;
    var tried := SessionFor(hs, r, PeerOf(w, r).session, envelope);
    if tried.Success? {
      NewKeyIsNew(w, r, envelope, whisper, newKey);
      DecryptNeverOverwrites(tried.value, Identity(hs, r), whisper, newKey);
    }
  }

  lemma NewKeyIsNew(w: World, r: Role, envelope: Option<Envelope>, whisper: Whisper, newKey: KeyId)
    requires Inv(w) && Enabled(w, Deliver(r, envelope, whisper, newKey))
    requires SessionFor(w.history.hs, r, PeerOf(w, r).session, envelope).Success?
    ensures var s := SessionFor(w.history.hs, r, PeerOf(w, r).session, envelope).value;
            newKey !in s.chains && newKey != whisper.message.ephemeral
  {
    hide Inv, MasterKey, Seen;
    InvIsValid(w);
    ChainIds(w, r);
  }

  lemma ChainIds(w: World, r: Role)
    requires Inv(w)
    ensures forall id :: id in Effective(w.history.hs, r, PeerOf(w, r).session).chains ==> id in w.history.keys
  {
    var h, s, n := w.history, Effective(w.history.hs, r, PeerOf(w, r).session), PeerOf(w, r).epoch;
    hide HonestlySent, EnvelopesInv, LogIsHonest, Receives, Sends;
    assert Frame(h, s, n);
    WindowDistinct(h.keys, n);
    hide Window, Root;
  }

  lemma DecryptNeverOverwrites(s: Session, ourIdentity: KeyId, whisper: Whisper, newKey: KeyId)
    requires newKey !in s.chains && newKey != whisper.message.ephemeral
    ensures Decrypt(s, ourIdentity, whisper, newKey) != Failure(OverwriteAttempt)
  {
    hide Fill, NextSeed, NextRoot, Surplus, ReceivingIds, Without;
    var counter := whisper.message.previousCounter;
    assert forall c, t :: Fill(c, t) != Failure(OverwriteAttempt) by {
      forall c: Chain, t: int ensures Fill(c, t) != Failure(OverwriteAttempt) {
        FillErrors(c, t);
      }
    }
  }

  lemma FillErrors(c: Chain, target: int)
    ensures Fill(c, target) != Failure(OverwriteAttempt)
  {
  }
}
