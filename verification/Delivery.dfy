/** Deliveries keep the invariant. */
module DeliveryLemmas {
  import opened Wrappers
  import opened Keys
  import opened Ratchet
  import opened X3dh
  import opened Epochs
  import opened EpochLemmas
  import opened Protocol
  import opened Soundness
  import opened Preservation

  ghost function DeliveryOf(whisper: Whisper, plaintext: Bytes): Delivery {
    Delivery(whisper.message.ephemeral, whisper.message.counter, plaintext)
  }

  lemma SentByIsSentAs(h: History, r: Role, k: nat, whisper: Whisper, plaintext: Bytes)
    requires ValidHistory(h) && SentBy(h, r, k, whisper.message.counter, whisper, plaintext)
    ensures SentAs(h, r, DeliveryOf(whisper, plaintext))
  {
    hide SentBy;
  }

  lemma LogExtends(h: History, r: Role, log: seq<Delivery>, d: Delivery)
    requires ValidHistory(h) && LogIsHonest(h, r, log) && SentAs(h, r, d)
    ensures LogIsHonest(h, r, log + [d])
  {
    hide SentAs;
  }

  lemma StepSucceeds(s: Session, ourIdentity: KeyId, whisper: Whisper, newKey: KeyId)
    requires whisper.message.ephemeral !in s.chains && Decrypt(s, ourIdentity, whisper, newKey).Success?
    ensures ClosePrevious(s, whisper.message.previousCounter).Success?
    ensures var t := StepRatchet(s, whisper.message.ephemeral, whisper.message.previousCounter, newKey);
            t.Success? && Decrypt(s, ourIdentity, whisper, newKey) == DecryptOnChain(t.value, ourIdentity, whisper)
  {
    hide DecryptOnChain, ClosePrevious, Turn;
  }

  lemma OpenedKeepsNames(s: Session, ourIdentity: KeyId, whisper: Whisper)
    requires DecryptOnChain(s, ourIdentity, whisper).Success?
    ensures var t := DecryptOnChain(s, ourIdentity, whisper).value.0;
            t.remoteIdentity == s.remoteIdentity && t.baseKey == s.baseKey && t.pending == None
  {
    hide Fill, Open;
  }

  lemma DecryptKeepsNames(s: Session, ourIdentity: KeyId, whisper: Whisper, newKey: KeyId)
    requires Decrypt(s, ourIdentity, whisper, newKey).Success? && newKey != whisper.message.ephemeral
    ensures var t := Decrypt(s, ourIdentity, whisper, newKey).value.0;
            t.remoteIdentity == s.remoteIdentity && t.baseKey == s.baseKey && t.pending == None
  {
    hide DecryptOnChain;
    if whisper.message.ephemeral in s.chains {
      OpenedKeepsNames(s, ourIdentity, whisper);
    } else {
      StepSucceeds(s, ourIdentity, whisper, newKey);
      hide StepRatchet, Decrypt;
      StepDerives(s, whisper.message.ephemeral, whisper.message.previousCounter, newKey);
      OpenedKeepsNames(StepRatchet(s, whisper.message.ephemeral, whisper.message.previousCounter, newKey).value,
                       ourIdentity, whisper);
    }
  }

  /** A message on a chain at hand. */
  lemma DeliverOnChain(h: History, r: Role, s: Session, n: nat, log: seq<Delivery>, whisper: Whisper) returns (k: nat)
    requires ValidHistory(h) && HonestlySent(h) && Seen(h, whisper.tag)
    requires Shape(h, s, n, log) && Owns(r, n) && whisper.message.ephemeral in s.chains
    requires DecryptOnChain(s, Identity(h.hs, r), whisper).Success?
    ensures var (after, plaintext) := DecryptOnChain(s, Identity(h.hs, r), whisper).value;
            && SentBy(h, r, k, whisper.message.counter, whisper, plaintext)
            && Shape(h, after, n, log + [DeliveryOf(whisper, plaintext)])
  {
    hide Shape, HonestlySent, Seen, DecryptOnChain, OpenedOn, SentBy;
    k := AcceptedOnChain(h, r, s, n, log, whisper);
    var (after, plaintext) := DecryptOnChain(s, Identity(h.hs, r), whisper).value;
    var _ := OnChain(s, Identity(h.hs, r), whisper);
    SentByKey(h, r, k, whisper.message.counter, whisper, plaintext);
    OpenedKeepsShape(h, s, after, n, k, log, DeliveryOf(whisper, plaintext));
  }

  /** A message that makes the receiver step must come from the very next epoch. */
  lemma NextEpoch(h: History, r: Role, s: Session, n: nat, log: seq<Delivery>, whisper: Whisper, newKey: KeyId)
    requires ValidHistory(h) && HonestlySent(h) && Seen(h, whisper.tag)
    requires Shape(h, s, n, log)
    requires whisper.message.ephemeral !in s.chains && newKey != whisper.message.ephemeral
    requires Decrypt(s, Identity(h.hs, r), whisper, newKey).Success?
    ensures n + 2 == |h.keys|
    ensures SentBy(h, r, n + 1, whisper.message.counter, whisper,
                   Decrypt(s, Identity(h.hs, r), whisper, newKey).value.1)
  {
    hide HonestlySent, Seen, Decrypt, Receives, Sends, Order, SentBy;
    var k := AcceptedOnStep(h, r, s, whisper, newKey);
    SentByKey(h, r, k, whisper.message.counter, whisper, Decrypt(s, Identity(h.hs, r), whisper, newKey).value.1);
    RootsInjective(h.hs, h.keys, n, k - 1);
  }

  lemma OpensAfterStep(h: History, r: Role, t: Session, n: nat, log: seq<Delivery>, whisper: Whisper)
    requires ValidHistory(h) && Shape(h, t, n, log) && n >= 1
    requires whisper.message.ephemeral == h.keys[n - 1] && whisper.message.counter < |h.sent[n - 1]|
    requires InWindow(n - 1, n)
    requires DecryptOnChain(t, Identity(h.hs, r), whisper).Success?
    ensures var (after, plaintext) := DecryptOnChain(t, Identity(h.hs, r), whisper).value;
            Shape(h, after, n, log + [DeliveryOf(whisper, plaintext)])
  {
    hide OpenedOn, Receives, Sends, Order;
    var (after, plaintext) := DecryptOnChain(t, Identity(h.hs, r), whisper).value;
    var _ := OnChain(t, Identity(h.hs, r), whisper);
    hide DecryptOnChain;
    OpenedKeepsShape(h, t, after, n, n - 1, log, DeliveryOf(whisper, plaintext));
  }

  /** The first message of the next epoch. */
  lemma DeliverOnStep(h: History, r: Role, s: Session, n: nat, log: seq<Delivery>, whisper: Whisper, newKey: KeyId)
    requires ValidHistory(h) && HonestlySent(h) && Seen(h, whisper.tag)
    requires Shape(h, s, n, log)
    requires whisper.message.ephemeral !in s.chains && newKey != whisper.message.ephemeral && newKey !in h.keys
    requires Decrypt(s, Identity(h.hs, r), whisper, newKey).Success?
    ensures n + 2 == |h.keys| && ValidHistory(Stepped(h, newKey))
    ensures var (after, plaintext) := Decrypt(s, Identity(h.hs, r), whisper, newKey).value;
            && SentBy(h, r, n + 1, whisper.message.counter, whisper, plaintext)
            && Shape(Stepped(h, newKey), after, n + 2, log + [DeliveryOf(whisper, plaintext)])
  {
    hide HonestlySent, Seen, Shape, SentBy, ValidHistory, Decrypt, StepRatchet, ClosePrevious, DecryptOnChain;
    NextEpoch(h, r, s, n, log, whisper, newKey);
    StepSucceeds(s, Identity(h.hs, r), whisper, newKey);
    var t := StepRatchet(s, whisper.message.ephemeral, whisper.message.previousCounter, newKey).value;
    SentByKey(h, r, n + 1, whisper.message.counter, whisper, Decrypt(s, Identity(h.hs, r), whisper, newKey).value.1);
    SameLength(h);
    StepKeepsShape(h, s, n, log, newKey);
    OpensAfterStep(Stepped(h, newKey), r, t, n + 2, log, whisper);
  }

  lemma SameLength(h: History)
    requires ValidHistory(h)
    ensures |h.keys| == |h.sent|
  {
  }

  // The side that does not step.

  lemma WaitingReceives(h: History, chains: map<KeyId, Chain>, m: nat, k: nat, log: seq<Delivery>, newKey: KeyId)
    requires ValidHistory(h) && 1 <= k < |h.keys| && Receives(h, chains, m, k, log)
    ensures Receives(Stepped(h, newKey), chains, m, k, log)
  {
    hide ReceivingChain, Used;
    SteppedRoots(h, newKey);
    assert Stepped(h, newKey).keys[k] == h.keys[k] && Stepped(h, newKey).sent[k] == h.sent[k];
  }

  lemma WaitingFrame(h: History, s: Session, m: nat, newKey: KeyId)
    requires ValidHistory(h) && Frame(h, s, m) && |h.keys| == m + 1 && newKey !in h.keys && h.sent[m] != []
    ensures ValidHistory(Stepped(h, newKey)) && Frame(Stepped(h, newKey), s, m)
    ensures Sends(h, s.chains, m) ==> Sends(Stepped(h, newKey), s.chains, m)
  {
    SteppedIsValid(h, newKey);
    SteppedRoots(h, newKey);
    assert Window(Stepped(h, newKey).keys, m) == Window(h.keys, m);
  }

  lemma WaitingShape(h: History, s: Session, m: nat, log: seq<Delivery>, newKey: KeyId)
    requires ValidHistory(h) && Shape(h, s, m, log) && |h.keys| == m + 1 && newKey !in h.keys && h.sent[m] != []
    ensures ValidHistory(Stepped(h, newKey)) && Shape(Stepped(h, newKey), s, m, log)
  {
    hide Order, Used, ReceivingChain, SendingChain, Root, SeedOf;
    var g := Stepped(h, newKey);
    WaitingFrame(h, s, m, newKey);
    assert g.keys[..m] == h.keys[..m];
    forall k | InWindow(k, m) ensures Receives(g, s.chains, m, k, log) {
      assert Receives(h, s.chains, m, k, log);
      WaitingReceives(h, s.chains, m, k, log, newKey);
    }
    hide Receives, Frame, Sends;
  }

  lemma SteppedGrows(h: History, newKey: KeyId)
    requires ValidHistory(h) && newKey !in h.keys && h.sent[|h.sent| - 1] != []
    ensures ValidHistory(Stepped(h, newKey)) && Grows(h, Stepped(h, newKey))
  {
    SteppedIsValid(h, newKey);
  }

  lemma SteppedIsHonest(h: History, newKey: KeyId)
    requires ValidHistory(h) && HonestlySent(h) && newKey !in h.keys && h.sent[|h.sent| - 1] != []
    ensures ValidHistory(Stepped(h, newKey)) && HonestlySent(Stepped(h, newKey))
  {
    SteppedGrows(h, newKey);
    var g := Stepped(h, newKey);
    hide Grows, ValidHistory, HonestAt;
    forall k: nat, i: nat | 1 <= k < |g.sent| && i < |g.sent[k]| ensures HonestAt(g, k, i) {
      HonestGrows(h, g, k, i);
    }
  }

  // Which session a packet is tried on.

  /** No tag that the network knows verifies in a session that an envelope starts, unless it is started
      by the responder and the envelope tells the true handshake. */
  lemma ClaimIsTrue(h: History, r: Role, e: Envelope, whisper: Whisper, newKey: KeyId)
    requires ValidHistory(h) && HonestlySent(h) && Seen(h, whisper.tag)
    requires newKey != whisper.message.ephemeral
    requires Decrypt(ResponderSession(Claimed(Identity(h.hs, r), e)), Identity(h.hs, r), whisper, newKey).Success?
    ensures r == Responder && e == Envelope(h.hs.initiatorIdentity, PreKeys(h.hs))
  {
    hide Decrypt, HonestlySent, Seen, SentBy, MasterKey;
    var g := Claimed(Identity(h.hs, r), e);
    var k := AcceptedOnStep(h, r, ResponderSession(g), whisper, newKey);
    SentByKey(h, r, k, whisper.message.counter, whisper,
              Decrypt(ResponderSession(g), Identity(h.hs, r), whisper, newKey).value.1);
    MasterIsNoRatchetRoot(g, h.hs, h.keys, k - 1);
    OddEpoch(h, r, k, whisper, Decrypt(ResponderSession(g), Identity(h.hs, r), whisper, newKey).value.1);
    MasterKeyInjective(g, h.hs);
  }

  /** The first epoch after the handshake is the initiator's. */
  lemma OddEpoch(h: History, r: Role, k: nat, whisper: Whisper, plaintext: Bytes)
    requires ValidHistory(h) && SentBy(h, r, k, whisper.message.counter, whisper, plaintext) && k == 1
    ensures r == Responder
  {
  }

  lemma MasterIsNoRatchetRoot(g: Handshake, hs: Handshake, keys: seq<KeyId>, k: nat)
    requires k < |keys| && MasterKey(g) == Root(hs, keys, k)
    ensures k == 0
  {
  }

  lemma SessionTried(w: World, r: Role, envelope: Option<Envelope>, whisper: Whisper, newKey: KeyId)
    requires Inv(w) && Seen(w.history, whisper.tag) && newKey != whisper.message.ephemeral
    requires Receive(w.history.hs, r, PeerOf(w, r).session, envelope, whisper, newKey).Success?
    ensures var s := Effective(w.history.hs, r, PeerOf(w, r).session);
            && SessionFor(w.history.hs, r, PeerOf(w, r).session, envelope) == Success(s)
            && Decrypt(s, Identity(w.history.hs, r), whisper, newKey)
               == Success(Receive(w.history.hs, r, PeerOf(w, r).session, envelope, whisper, newKey).value)
    ensures PeerOf(w, r).session.None? ==>
              envelope == Some(Envelope(w.history.hs.initiatorIdentity, PreKeys(w.history.hs)))
  {
    hide Decrypt, HonestlySent, Shape, LogIsHonest, MasterKey;
    var hs := w.history.hs;
    var session := PeerOf(w, r).session;
    if envelope.Some? && (session.None? || session.value.baseKey != envelope.value.pre.baseKey) {
      ClaimIsTrue(w.history, r, envelope.value, whisper, newKey);
      assert ResponderSession(Claimed(hs.responderIdentity, envelope.value)) == ResponderSession(hs) by {
        SameResponder(hs, envelope.value);
      }
    }
  }

  lemma SameResponder(hs: Handshake, e: Envelope)
    requires e == Envelope(hs.initiatorIdentity, PreKeys(hs))
    ensures ResponderSession(Claimed(hs.responderIdentity, e)) == ResponderSession(hs)
  {
    assert KeyMaterial(Claimed(hs.responderIdentity, e)) == KeyMaterial(hs);
  }

  // The events.

  lemma DeliverOnChainKeepsInv(w: World, r: Role, envelope: Option<Envelope>, whisper: Whisper, newKey: KeyId,
                               s: Session, after: Session, plaintext: Bytes)
    requires Inv(w) && Seen(w.history, whisper.tag)
    requires s == Effective(w.history.hs, r, PeerOf(w, r).session) && whisper.message.ephemeral in s.chains
    requires Decrypt(s, Identity(w.history.hs, r), whisper, newKey) == Success((after, plaintext))
    requires newKey != whisper.message.ephemeral
    ensures var p := PeerOf(w, r);
            PeerInv(w.history, r, Peer(Some(after), p.epoch, p.log + [DeliveryOf(whisper, plaintext)]))
    ensures SentAs(w.history, r, DeliveryOf(whisper, plaintext))
    ensures after.pending == None
  {
    var p, h := PeerOf(w, r), w.history;
    hide HonestlySent, Seen, Shape, SentAs, EnvelopesInv, ValidHistory, LogIsHonest, SentBy;
    DecryptKeepsNames(s, Identity(h.hs, r), whisper, newKey);
    hide DecryptOnChain;
    var k := DeliverOnChain(h, r, s, p.epoch, p.log, whisper);
    SentByIsSentAs(h, r, k, whisper, plaintext);
    LogExtends(h, r, p.log, DeliveryOf(whisper, plaintext));
  }

  lemma DeliverOnStepKeepsInv(w: World, r: Role, envelope: Option<Envelope>, whisper: Whisper, newKey: KeyId,
                              s: Session, after: Session, plaintext: Bytes)
    requires Inv(w) && Seen(w.history, whisper.tag)
    requires s == Effective(w.history.hs, r, PeerOf(w, r).session) && whisper.message.ephemeral !in s.chains
    requires Decrypt(s, Identity(w.history.hs, r), whisper, newKey) == Success((after, plaintext))
    requires newKey != whisper.message.ephemeral && newKey !in w.history.keys
    ensures var g, p := Stepped(w.history, newKey), PeerOf(w, r);
            && ValidHistory(g) && HonestlySent(g) && Grows(w.history, g)
            && PeerInv(g, r, Peer(Some(after), p.epoch + 2, p.log + [DeliveryOf(whisper, plaintext)]))
            && PeerInv(g, Other(r), PeerOf(w, Other(r)))
            && SentAs(g, r, DeliveryOf(whisper, plaintext))
    ensures after.pending == None
  {
    var p, o, h := PeerOf(w, r), PeerOf(w, Other(r)), w.history;
    hide HonestlySent, Seen, Shape, SentAs, EnvelopesInv, ValidHistory, LogIsHonest, SentBy, Grows, Decrypt;
    var g := Stepped(h, newKey);
    DecryptKeepsNames(s, Identity(h.hs, r), whisper, newKey);
    DeliverOnStep(h, r, s, p.epoch, p.log, whisper, newKey);
    LatestIsUsed(h, r, p.epoch + 1, whisper, plaintext);
    SteppedGrows(h, newKey);
    SteppedIsHonest(h, newKey);
    SentByGrows(h, g, r, p.epoch + 1, whisper.message.counter, whisper, plaintext);
    SentByIsSentAs(g, r, p.epoch + 1, whisper, plaintext);
    LogGrows(h, g, r, p.log);
    LogExtends(g, r, p.log, DeliveryOf(whisper, plaintext));
    LogGrows(h, g, Other(r), o.log);
    OtherIsLatest(h, r, p.epoch, o, p.epoch + 1);
    WaitingShape(h, Effective(h.hs, Other(r), o.session), o.epoch, o.log, newKey);
  }

  lemma LatestIsUsed(h: History, r: Role, k: nat, whisper: Whisper, plaintext: Bytes)
    requires ValidHistory(h) && k + 1 == |h.keys| && SentBy(h, r, k, whisper.message.counter, whisper, plaintext)
    ensures h.sent[|h.sent| - 1] != []
  {
  }

  lemma OtherIsLatest(h: History, r: Role, n: nat, o: Peer, latest: nat)
    requires ValidHistory(h) && Owns(r, n) && latest == n + 1 && n + 2 == |h.keys|
    requires Owns(Other(r), o.epoch)
    requires Shape(h, Effective(h.hs, Other(r), o.session), o.epoch, o.log)
    ensures o.epoch == latest
  {
    hide Receives, Sends, Order, Root;
  }

  /** Hearing from the responder takes a responder that has a session. */
  lemma HeardFromResponder(w: World, d: Delivery)
    requires Inv(w) && SentAs(w.history, Initiator, d)
    ensures w.responder.session.Some?
  {
    var h := w.history;
    hide HonestlySent, Shape, LogIsHonest, HonestWhisper;
    var k: nat, whisper: Whisper :|
      SentBy(h, Initiator, k, d.counter, whisper, d.plaintext) && whisper.message.ephemeral == d.ephemeral
        && whisper.message.counter == d.counter;
    assert h.sent[k][d.counter].envelope == None;
  }

  lemma SentBeforeStep(h: History, r: Role, newKey: KeyId, d: Delivery)
    requires ValidHistory(h) && ValidHistory(Stepped(h, newKey)) && SentAs(Stepped(h, newKey), r, d)
    requires Grows(h, Stepped(h, newKey))
    ensures exists k: nat {:trigger h.sent[k]} :: k < |h.sent| && !Owns(r, k) && d.counter < |h.sent[k]|
  {
    var g := Stepped(h, newKey);
    SameLength(h);
    hide HonestWhisper, ValidHistory;
    var k: nat, whisper: Whisper :|
      SentBy(g, r, k, d.counter, whisper, d.plaintext) && whisper.message.ephemeral == d.ephemeral
        && whisper.message.counter == d.counter;
    assert k < |h.sent| && g.sent[k] == h.sent[k];
  }

  lemma ResponderHasSession(w: World, k: nat, i: nat)
    requires EnvelopesInv(w) && k < |w.history.sent| && i < |w.history.sent[k]| && k % 2 == 0
    ensures w.responder.session.Some?
  {
    assert w.history.sent[k][i].envelope == None;
  }

  lemma DeliverEnvelopes(w: World, r: Role, after: Peer, h: History)
    requires EnvelopesInv(w) && after.session.Some? && after.session.value.pending == None
    requires after.epoch != 0 && (w.history == h || exists newKey :: h == Stepped(w.history, newKey))
    requires r.Initiator? ==> w.responder.session.Some?
    ensures EnvelopesInv(WithPeer(w, r, after).(history := h))
  {
  }

  lemma AfterDeliveryIs(w: World, r: Role, envelope: Option<Envelope>, whisper: Whisper, newKey: KeyId)
    ensures var p, h := PeerOf(w, r), w.history;
            AfterDelivery(w, r, envelope, whisper, newKey)
            == match Receive(h.hs, r, p.session, envelope, whisper, newKey)
               case Failure(_) => w
               case Success(v) =>
                 var log := p.log + [DeliveryOf(whisper, v.1)];
                 if p.session.Some? && whisper.message.ephemeral in p.session.value.chains then
                   WithPeer(w, r, Peer(Some(v.0), p.epoch, log))
                 else
                   WithPeer(w, r, Peer(Some(v.0), p.epoch + 2, log)).(history := Stepped(h, newKey))
  {
    hide Receive;
  }

  lemma OnChainWorld(w: World, r: Role, after: Peer, d: Delivery)
    requires Inv(w) && PeerInv(w.history, r, after) && SentAs(w.history, r, d)
    requires EnvelopesInv(WithPeer(w, r, after))
    ensures Inv(WithPeer(w, r, after))
    ensures PeerOf(WithPeer(w, r, after), r) == after && PeerOf(WithPeer(w, r, after), Other(r)) == PeerOf(w, Other(r))
  {
    hide HonestlySent, PeerInv, EnvelopesInv, ValidHistory;
  }

  lemma OnStepWorld(w: World, r: Role, after: Peer, g: History)
    requires Inv(w) && ValidHistory(g) && HonestlySent(g) && PeerInv(g, r, after)
    requires PeerInv(g, Other(r), PeerOf(w, Other(r)))
    requires EnvelopesInv(WithPeer(w, r, after).(history := g))
    ensures var u := WithPeer(w, r, after).(history := g);
            Inv(u) && PeerOf(u, r) == after && PeerOf(u, Other(r)) == PeerOf(w, Other(r))
  {
    hide HonestlySent, PeerInv, EnvelopesInv, ValidHistory;
  }

  /** What a delivery may do: nothing, or open one message of the peer. */
  ghost predicate Delivered(w: World, u: World, r: Role, received: Result<(Session, Bytes), ReceiveError>,
                            whisper: Whisper)
    requires ValidHistory(u.history)
  {
    match received
    case Failure(_) => u == w
    case Success(v) =>
      && PeerOf(u, r).log == PeerOf(w, r).log + [DeliveryOf(whisper, v.1)]
      && PeerOf(u, Other(r)) == PeerOf(w, Other(r))
      && SentAs(u.history, r, DeliveryOf(whisper, v.1))
  }

  lemma DeliverKeepsInv(w: World, r: Role, envelope: Option<Envelope>, whisper: Whisper, newKey: KeyId)
    requires Inv(w) && Enabled(w, Deliver(r, envelope, whisper, newKey))
    ensures Inv(AfterDelivery(w, r, envelope, whisper, newKey))
    ensures Delivered(w, AfterDelivery(w, r, envelope, whisper, newKey), r,
                      Receive(w.history.hs, r, PeerOf(w, r).session, envelope, whisper, newKey), whisper)
  {
    var p, h := PeerOf(w, r), w.history;
    var received := Receive(h.hs, r, p.session, envelope, whisper, newKey);
    AfterDeliveryIs(w, r, envelope, whisper, newKey);
    if received.Success? {
      var (after, plaintext) := received.value;
      var s := Effective(h.hs, r, p.session);
      SessionTried(w, r, envelope, whisper, newKey);
      if whisper.message.ephemeral in s.chains {
        DeliverOnChainKeepsInv(w, r, envelope, whisper, newKey, s, after, plaintext);
        hide Inv, Seen, SentAs, EnvelopesInv, Grows, Decrypt, Receive, PeerInv, AfterDelivery;
        OnChainSettled(w, r, whisper, after, plaintext);
        OnChainWorld(w, r, Peer(Some(after), p.epoch, p.log + [DeliveryOf(whisper, plaintext)]),
                     DeliveryOf(whisper, plaintext));
      } else {
        DeliverOnStepKeepsInv(w, r, envelope, whisper, newKey, s, after, plaintext);
        hide Inv, Seen, SentAs, EnvelopesInv, Grows, Decrypt, Receive, PeerInv, AfterDelivery, HonestlySent;
        OnStepSettled(w, r, whisper, newKey, after, plaintext);
        OnStepWorld(w, r, Peer(Some(after), p.epoch + 2, p.log + [DeliveryOf(whisper, plaintext)]), Stepped(h, newKey));
      }
    }
  }

  lemma OnChainSettled(w: World, r: Role, whisper: Whisper, after: Session, plaintext: Bytes)
    requires Inv(w) && SentAs(w.history, r, DeliveryOf(whisper, plaintext)) && after.pending == None
    requires whisper.message.ephemeral in Effective(w.history.hs, r, PeerOf(w, r).session).chains
    ensures PeerOf(w, r).session.Some?
    ensures var p := PeerOf(w, r);
            EnvelopesInv(WithPeer(w, r, Peer(Some(after), p.epoch, p.log + [DeliveryOf(whisper, plaintext)])))
  {
    hide HonestlySent, Shape, SentAs, LogIsHonest;
    if r.Initiator? {
      HeardFromResponder(w, DeliveryOf(whisper, plaintext));
    }
    var p := PeerOf(w, r);
    DeliverEnvelopes(w, r, Peer(Some(after), p.epoch, p.log + [DeliveryOf(whisper, plaintext)]), w.history);
  }

  lemma OnStepSettled(w: World, r: Role, whisper: Whisper, newKey: KeyId, after: Session, plaintext: Bytes)
    requires Inv(w) && ValidHistory(Stepped(w.history, newKey)) && Grows(w.history, Stepped(w.history, newKey))
    requires SentAs(Stepped(w.history, newKey), r, DeliveryOf(whisper, plaintext)) && after.pending == None
    ensures var p := PeerOf(w, r);
            EnvelopesInv(WithPeer(w, r, Peer(Some(after), p.epoch + 2, p.log + [DeliveryOf(whisper, plaintext)]))
                         .(history := Stepped(w.history, newKey)))
  {
    hide HonestlySent, Shape, SentAs, LogIsHonest, Grows;
    if r.Initiator? {
      SentBeforeStep(w.history, r, newKey, DeliveryOf(whisper, plaintext));
      var k: nat :| k < |w.history.sent| && !Owns(r, k) && whisper.message.counter < |w.history.sent[k]|;
      ResponderHasSession(w, k, whisper.message.counter);
    }
    var p := PeerOf(w, r);
    DeliverEnvelopes(w, r, Peer(Some(after), p.epoch + 2, p.log + [DeliveryOf(whisper, plaintext)]),
                     Stepped(w.history, newKey));
  }
}
