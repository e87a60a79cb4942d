/** Exactly when an honest message can be opened, and what bounds make that certain. */
module Completeness {
  import opened Wrappers
  import opened Keys
  import opened Ratchet
  import opened X3dh
  import opened Epochs
  import opened EpochLemmas
  import opened Protocol
  import opened Soundness
  import opened Preservation
  import opened DeliveryLemmas
  import opened Theorems

  predicate Fillable(c: Chain, target: int) {
    target <= c.counter || (target - c.counter <= 2000 && c.key.Some?)
  }

  /** What a receiver can check before it opens a message on a chain that it holds. */
  predicate OpenableOn(c: Chain, counter: int) {
    Fillable(c, counter) && (counter <= c.counter ==> counter in c.messageKeys)
  }

  /** The same for the first message of a new epoch. */
  predicate OpenableByStep(s: Session, message: Message) {
    && (s.lastRemote in s.chains ==> Fillable(s.chains[s.lastRemote], message.previousCounter))
    && message.counter < 2000
  }

  /** Message `i` of epoch `k` at a receiver at epoch `n` with session `s`. */
  ghost predicate Openable(s: Session, n: nat, k: nat, i: nat, message: Message) {
    && i < 0x1_0000_0000
    && if message.ephemeral in s.chains then OpenableOn(s.chains[message.ephemeral], i)
       else k == n + 1 && OpenableByStep(s, message)
  }

  // The message opens when the condition holds.

  lemma OpenHonest(h: History, r: Role, k: nat, i: nat, whisper: Whisper, plaintext: Bytes, remote: KeyId)
    requires ValidHistory(h) && SentBy(h, r, k, i, whisper, plaintext) && remote == Identity(h.hs, Other(r))
    ensures Open(MessageKeyAt(SeedOf(h.hs, h.keys, k), i), Identity(h.hs, r), remote, whisper) == Success(plaintext)
  {
    hide SeedOf, MessageKeyAt, ValidHistory, LastBefore;
  }

  lemma OpensOnChain(h: History, r: Role, s: Session, n: nat, k: nat, log: seq<Delivery>, whisper: Whisper,
                     plaintext: Bytes)
    requires ValidHistory(h) && 1 <= k < |h.keys| && Receives(h, s.chains, n, k, log)
    requires SentBy(h, r, k, whisper.message.counter, whisper, plaintext)
    requires s.remoteIdentity == Identity(h.hs, Other(r))
    requires OpenableOn(s.chains[h.keys[k]], whisper.message.counter)
    ensures DecryptOnChain(s, Identity(h.hs, r), whisper).Success?
  {
    var c, counter := s.chains[h.keys[k]], whisper.message.counter;
    SentByKey(h, r, k, counter, whisper, plaintext);
    OpenHonest(h, r, k, counter, whisper, plaintext, s.remoteIdentity);
    hide SentBy, ValidHistory, MessageKeyAt, SeedOf, Used, Open;
    if c.counter < counter {
      FillIsFilled(c, counter);
    }
    assert Fill(c, counter).Success? && counter in Fill(c, counter).value.messageKeys;
    KeyOnChain(h, s, n, k, log, counter);
  }

  lemma CloseSucceeds(s: Session, previousCounter: int)
    requires s.lastRemote in s.chains ==> Fillable(s.chains[s.lastRemote], previousCounter)
    ensures ClosePrevious(s, previousCounter).Success?
  {
  }

  lemma OpensOnStep(h: History, r: Role, s: Session, n: nat, log: seq<Delivery>, whisper: Whisper, plaintext: Bytes,
                    newKey: KeyId)
    requires ValidHistory(h) && Shape(h, s, n, log) && n + 2 == |h.keys| && newKey !in h.keys
    requires newKey != whisper.message.ephemeral && whisper.message.ephemeral !in s.chains
    requires SentBy(h, r, n + 1, whisper.message.counter, whisper, plaintext)
    requires s.remoteIdentity == Identity(h.hs, Other(r)) && OpenableByStep(s, whisper.message)
    ensures Decrypt(s, Identity(h.hs, r), whisper, newKey).Success?
  {
    hide Shape, ValidHistory, StepRatchet, SentBy, ClosePrevious, DecryptOnChain, Grows;
    var id, counter := whisper.message.ephemeral, whisper.message.counter;
    var g := Stepped(h, newKey);
    SentByKey(h, r, n + 1, counter, whisper, plaintext);
    CloseSucceeds(s, whisper.message.previousCounter);
    SameLength(h);
    StepKeepsShape(h, s, n, log, newKey);
    var t := StepRatchet(s, id, whisper.message.previousCounter, newKey).value;
    StepDerives(s, id, whisper.message.previousCounter, newKey);
    LatestIsUsed(h, r, n + 1, whisper, plaintext);
    SteppedGrows(h, newKey);
    SentByGrows(h, g, r, n + 1, counter, whisper, plaintext);
    HoldsNewest(g, t, n + 2, log);
    OpensOnChain(g, r, t, n + 2, n + 1, log, whisper, plaintext);
  }

  lemma HoldsNewest(h: History, s: Session, n: nat, log: seq<Delivery>)
    requires ValidHistory(h) && Shape(h, s, n, log) && n >= 2
    ensures Receives(h, s.chains, n, n - 1, log)
  {
    assert InWindow(n - 1, n);
  }

  // The condition holds when the message opens.

  lemma SentOnce(h: History, r: Role, k: nat, i: nat, p: Bytes, k': nat, i': nat, p': Bytes, whisper: Whisper)
    requires ValidHistory(h) && SentBy(h, r, k, i, whisper, p) && SentBy(h, r, k', i', whisper, p')
    ensures k == k' && i == i' && p == p'
  {
    SentByKey(h, r, k, i, whisper, p);
    SentByKey(h, r, k', i', whisper, p');
    hide SeedOf, LastBefore, MessageKeyAt;
    MessageKeysInjective(SeedOf(h.hs, h.keys, k), i, SeedOf(h.hs, h.keys, k'), i');
  }

  lemma CloseNeeds(s: Session, previousCounter: int)
    requires ClosePrevious(s, previousCounter).Success?
    ensures s.lastRemote in s.chains ==> Fillable(s.chains[s.lastRemote], previousCounter)
  {
  }

  lemma OpenedOnNeeds(s: Session, ourIdentity: KeyId, whisper: Whisper)
    requires whisper.message.ephemeral in s.chains && DecryptOnChain(s, ourIdentity, whisper).Success?
    ensures OpenableOn(s.chains[whisper.message.ephemeral], whisper.message.counter)
  {
    OnChainFill(s, ourIdentity, whisper);
  }

  lemma NewChainNeeds(seed: Key, counter: nat)
    requires Fill(NewChain(Receiving, seed), counter).Success?
    ensures counter < 2000
  {
  }

  lemma StepNeeds(s: Session, ourIdentity: KeyId, whisper: Whisper, newKey: KeyId)
    requires whisper.message.ephemeral !in s.chains && newKey != whisper.message.ephemeral
    requires Decrypt(s, ourIdentity, whisper, newKey).Success?
    ensures OpenableByStep(s, whisper.message)
  {
    hide ClosePrevious, StepRatchet, DecryptOnChain, NextSeed, Fill;
    var id := whisper.message.ephemeral;
    StepSucceeds(s, ourIdentity, whisper, newKey);
    CloseNeeds(s, whisper.message.previousCounter);
    StepDerives(s, id, whisper.message.previousCounter, newKey);
    var t := StepRatchet(s, id, whisper.message.previousCounter, newKey).value;
    var _ := OnChain(t, ourIdentity, whisper);
    OnChainFill(t, ourIdentity, whisper);
    NewChainNeeds(NextSeed(id, s.ephemeral, s.rootKey), whisper.message.counter);
  }

  lemma NoStep(s: Session, ourIdentity: KeyId, whisper: Whisper, newKey: KeyId)
    requires whisper.message.ephemeral in s.chains
    ensures Decrypt(s, ourIdentity, whisper, newKey) == DecryptOnChain(s, ourIdentity, whisper)
  {
    hide DecryptOnChain;
  }

  lemma OpenedWasOpenable(h: History, r: Role, s: Session, n: nat, k: nat, i: nat, log: seq<Delivery>,
                          whisper: Whisper, plaintext: Bytes, newKey: KeyId)
    requires ValidHistory(h) && HonestlySent(h) && Seen(h, whisper.tag)
    requires Shape(h, s, n, log) && Owns(r, n)
    requires SentBy(h, r, k, i, whisper, plaintext) && newKey != whisper.message.ephemeral
    requires Decrypt(s, Identity(h.hs, r), whisper, newKey).Success?
    ensures Openable(s, n, k, i, whisper.message)
  {
    hide ValidHistory, HonestlySent, Seen, Shape, SentBy, DecryptOnChain, OpenableOn, OpenableByStep, StepRatchet;
    var opened' := Decrypt(s, Identity(h.hs, r), whisper, newKey).value.1;
    SentByKey(h, r, k, i, whisper, plaintext);
    if whisper.message.ephemeral in s.chains {
      NoStep(s, Identity(h.hs, r), whisper, newKey);
      var k' := AcceptedOnChain(h, r, s, n, log, whisper);
      SentOnce(h, r, k, i, plaintext, k', whisper.message.counter, opened', whisper);
      OpenedOnNeeds(s, Identity(h.hs, r), whisper);
    } else {
      NextEpoch(h, r, s, n, log, whisper, newKey);
      SentOnce(h, r, k, i, plaintext, n + 1, whisper.message.counter, opened', whisper);
      StepNeeds(s, Identity(h.hs, r), whisper, newKey);
    }
  }

  lemma OpenableOpens(h: History, r: Role, s: Session, n: nat, k: nat, i: nat, log: seq<Delivery>,
                      whisper: Whisper, plaintext: Bytes, newKey: KeyId)
    requires ValidHistory(h) && Shape(h, s, n, log) && Owns(r, n)
    requires SentBy(h, r, k, i, whisper, plaintext) && newKey != whisper.message.ephemeral && newKey !in h.keys
    requires s.remoteIdentity == Identity(h.hs, Other(r))
    requires Openable(s, n, k, i, whisper.message)
    ensures Decrypt(s, Identity(h.hs, r), whisper, newKey).Success?
  {
    hide ValidHistory, Shape, SentBy, DecryptOnChain, OpenableOn, OpenableByStep;
    SentByKey(h, r, k, i, whisper, plaintext);
    if whisper.message.ephemeral in s.chains {
      SenderInWindow(h, r, s, n, k, i, log, whisper, plaintext);
      OpensOnChain(h, r, s, n, k, log, whisper, plaintext);
    } else {
      KeysReach(h, s, n, log);
      OpensOnStep(h, r, s, n, log, whisper, plaintext, newKey);
    }
  }

  lemma KeysReach(h: History, s: Session, n: nat, log: seq<Delivery>)
    requires ValidHistory(h) && Shape(h, s, n, log)
    ensures n < |h.keys| <= n + 2
  {
  }

  // Runs.

  /** For every run and every packet that was ever sent: delivered now, late or again, it opens
      if and only if the receiver still has its key or can derive it within 2000 steps. */
  lemma OpensExactlyWhen(hs: Handshake, events: seq<Event>, r: Role, k: nat, i: nat, newKey: KeyId)
    requires ValidHandshake(hs)
    requires var h := Run(hs, events).history; k < |h.sent| && i < |h.sent[k]| && !Owns(r, k)
    requires var h := Run(hs, events).history; newKey !in h.keys && newKey != h.sent[k][i].whisper.message.ephemeral
    ensures var w := Run(hs, events);
            var p, packet := PeerOf(w, r), w.history.sent[k][i];
            Receive(hs, r, p.session, packet.envelope, packet.whisper, newKey).Success?
            <==> Openable(Effective(hs, r, p.session), p.epoch, k, i, packet.whisper.message)
  {
    RunInv(hs, events);
    RunHandshake(hs, events);
    var w := Run(hs, events);
    hide Run;
    OpensInWorld(w, r, k, i, newKey);
  }

  lemma SentPacket(w: World, r: Role, k: nat, i: nat) returns (plaintext: Bytes)
    requires Inv(w) && k < |w.history.sent| && i < |w.history.sent[k]| && !Owns(r, k)
    ensures SentBy(w.history, r, k, i, w.history.sent[k][i].whisper, plaintext)
  {
    var h := w.history;
    hide Shape, LogIsHonest, EnvelopesInv, HonestWhisper;
    var packet := h.sent[k][i];
    assert HonestAt(h, k, i);
    plaintext :| HonestWhisper(h, k, i, packet.whisper, plaintext);
  }

  lemma PacketSession(w: World, r: Role, k: nat, i: nat)
    requires Inv(w) && k < |w.history.sent| && i < |w.history.sent[k]| && !Owns(r, k)
    ensures SessionFor(w.history.hs, r, PeerOf(w, r).session, w.history.sent[k][i].envelope)
         == Success(Effective(w.history.hs, r, PeerOf(w, r).session))
  {
    hide Shape, LogIsHonest, HonestlySent, MasterKey;
    if r.Responder? {
      SameResponder(w.history.hs, Envelope(w.history.hs.initiatorIdentity, PreKeys(w.history.hs)));
    }
    var packet := w.history.sent[k][i];
    assert packet.envelope == Some(Envelope(w.history.hs.initiatorIdentity, PreKeys(w.history.hs)))
           || (packet.envelope == None && w.responder.session.Some?);
  }

  lemma OpensInWorld(w: World, r: Role, k: nat, i: nat, newKey: KeyId)
    requires Inv(w) && k < |w.history.sent| && i < |w.history.sent[k]| && !Owns(r, k)
    requires newKey !in w.history.keys && newKey != w.history.sent[k][i].whisper.message.ephemeral
    ensures var p, packet := PeerOf(w, r), w.history.sent[k][i];
            Receive(w.history.hs, r, p.session, packet.envelope, packet.whisper, newKey).Success?
            <==> Openable(Effective(w.history.hs, r, p.session), p.epoch, k, i, packet.whisper.message)
  {
    var p, packet, h := PeerOf(w, r), w.history.sent[k][i], w.history;
    var plaintext := SentPacket(w, r, k, i);
    PacketSession(w, r, k, i);
    assert Seen(h, packet.whisper.tag);
    hide Decrypt, Shape, SentBy, Openable, HonestlySent, LogIsHonest, EnvelopesInv, ValidHistory, Seen, SessionFor;
    var s := Effective(h.hs, r, p.session);
    if Decrypt(s, Identity(h.hs, r), packet.whisper, newKey).Success? {
      OpenedWasOpenable(h, r, s, p.epoch, k, i, p.log, packet.whisper, plaintext, newKey);
    }
    if Openable(s, p.epoch, k, i, packet.whisper.message) {
      OpenableOpens(h, r, s, p.epoch, k, i, p.log, packet.whisper, plaintext, newKey);
    }
  }

  // Bounds that make delivery certain.

  /** On a chain at hand a message that was not opened yet still has its key, unless it is 2000
      or more behind the newest one. */
  lemma CachedUnlessOpened(h: History, s: Session, n: nat, k: nat, i: nat, log: seq<Delivery>)
    requires ValidHistory(h) && 1 <= k < |h.keys| && Receives(h, s.chains, n, k, log)
    requires !Opened(log, h.keys[k], i) && i < |h.sent[k]| <= 0x1_0000_0000
    requires var c := s.chains[h.keys[k]]; -2000 <= c.counter - i < 2000
    ensures OpenableOn(s.chains[h.keys[k]], i)
  {
    hide SeedOf, MessageKeyAt;
    assert i !in Used(log, h.keys[k]);
  }

  lemma PreviousFillable(h: History, s: Session, n: nat, log: seq<Delivery>)
    requires ValidHistory(h) && Shape(h, s, n, log) && n + 2 == |h.keys|
    requires n >= 2 ==> |h.sent[n - 1]| <= 2000
    ensures s.lastRemote in s.chains ==> Fillable(s.chains[s.lastRemote], ToUint32(LastBefore(h, n + 1)))
  {
    if n >= 2 {
      HoldsNewest(h, s, n, log);
      hide Order, Used, SeedOf;
    } else if n == 1 {
      HoldsWindow(h, s, 1, 0);
    } else {
      assert Order(h.keys, 0) == [];
    }
  }

  lemma SmallChainsOpen(h: History, r: Role, s: Session, n: nat, k: nat, i: nat, log: seq<Delivery>, whisper: Whisper,
                        plaintext: Bytes)
    requires ValidHistory(h) && Shape(h, s, n, log) && Owns(r, n)
    requires SentBy(h, r, k, i, whisper, plaintext) && !Opened(log, h.keys[k], i)
    requires forall j :: 0 <= j < |h.sent| ==> |h.sent[j]| <= 2000
    requires n - 1 - k < 10
    ensures Openable(s, n, k, i, whisper.message)
  {
    hide SentBy, ValidHistory, Order, Receives, Sends, Opened, OpenableOn, Root, LastRemote;
    SameLength(h);
    SentByKey(h, r, k, i, whisper, plaintext);
    Parity(r, n, k);
    HoldsWindow(h, s, n, k);
    if whisper.message.ephemeral in s.chains {
      assert Receives(h, s.chains, n, k, log);
      SmallChainHolds(h, s, n, k, i, log);
    } else {
      assert k == n + 1;
      PreviousFillable(h, s, n, log);
      hide Fillable;
    }
  }

  lemma SmallChainHolds(h: History, s: Session, n: nat, k: nat, i: nat, log: seq<Delivery>)
    requires ValidHistory(h) && 1 <= k < |h.keys| && |h.keys| == |h.sent| && Receives(h, s.chains, n, k, log)
    requires !Opened(log, h.keys[k], i) && i < |h.sent[k]| <= 2000
    ensures OpenableOn(s.chains[h.keys[k]], i)
  {
    hide ValidHistory, Receives, Opened, OpenableOn;
    CounterBound(h, s.chains, n, k, log);
    CachedUnlessOpened(h, s, n, k, i, log);
  }

  lemma CounterBound(h: History, chains: map<KeyId, Chain>, n: nat, k: nat, log: seq<Delivery>)
    requires 1 <= k < |h.keys| && |h.keys| == |h.sent| && Receives(h, chains, n, k, log)
    ensures -1 <= chains[h.keys[k]].counter < |h.sent[k]|
  {
  }

  /** While no chain carries more than 2000 messages, every message that was sent and not opened
      yet opens when it arrives, however late and in whatever order, unless five newer chains
      of the same sender have replaced its chain. */
  lemma DeliveredHoweverLate(hs: Handshake, events: seq<Event>, r: Role, k: nat, i: nat, newKey: KeyId)
    requires ValidHandshake(hs)
    requires var h := Run(hs, events).history; k < |h.sent| && i < |h.sent[k]| && !Owns(r, k)
    requires var h := Run(hs, events).history; newKey !in h.keys && newKey != h.sent[k][i].whisper.message.ephemeral
    requires var w := Run(hs, events);
             && (forall j :: 0 <= j < |w.history.sent| ==> |w.history.sent[j]| <= 2000)
             && !Opened(PeerOf(w, r).log, w.history.sent[k][i].whisper.message.ephemeral, i)
             && PeerOf(w, r).epoch - 1 - k < 10
    ensures var w := Run(hs, events);
            var p, packet := PeerOf(w, r), w.history.sent[k][i];
            Receive(hs, r, p.session, packet.envelope, packet.whisper, newKey).Success?
  {
    var w := Run(hs, events);
    var p, packet, h := PeerOf(w, r), w.history.sent[k][i], w.history;
    RunInv(hs, events);
    RunHandshake(hs, events);
    var plaintext := SentPacket(w, r, k, i);
    SentByKey(h, r, k, i, packet.whisper, plaintext);
    hide Run, Receive, Openable, SentBy, Shape, HonestlySent, EnvelopesInv, LogIsHonest, Opened;
    SmallChainsOpen(h, r, Effective(hs, r, p.session), p.epoch, k, i, p.log, packet.whisper, plaintext);
    OpensExactlyWhen(hs, events, r, k, i, newKey);
  }
}
