/** Every event keeps the invariant. */
module Preservation {
  import opened Wrappers
  import opened Keys
  import opened Ratchet
  import opened Epochs
  import opened Protocol
  import opened Soundness

  // Growing histories.

  ghost predicate Grows(h: History, g: History)
    requires ValidHistory(h) && ValidHistory(g)
  {
    && g.hs == h.hs && h.keys <= g.keys
    && (forall k: nat {:trigger g.sent[k]} :: k < |h.sent| ==> h.sent[k] <= g.sent[k])
    && (forall k: nat {:trigger LastBefore(g, k)} :: k < |h.sent| ==> LastBefore(g, k) == LastBefore(h, k))
  }

  lemma SeedOfPrefix(h: History, g: History, k: nat)
    requires ValidHistory(h) && ValidHistory(g) && Grows(h, g) && 1 <= k < |h.keys|
    ensures SeedOf(g.hs, g.keys, k) == SeedOf(h.hs, h.keys, k)
  {
    assert g.keys == h.keys + g.keys[|h.keys|..];
    RootOfPrefix(h.hs, h.keys, g.keys[|h.keys|..], k - 1);
  }

  lemma SentByGrows(h: History, g: History, r: Role, k: nat, i: nat, whisper: Whisper, plaintext: Bytes)
    requires ValidHistory(h) && ValidHistory(g) && Grows(h, g)
    requires SentBy(h, r, k, i, whisper, plaintext)
    ensures SentBy(g, r, k, i, whisper, plaintext)
  {
    SeedOfPrefix(h, g, k);
    assert h.sent[k] <= g.sent[k] && LastBefore(g, k) == LastBefore(h, k);
    hide SeedOf, LastBefore, ValidHistory;
  }

  lemma LogGrows(h: History, g: History, r: Role, log: seq<Delivery>)
    requires ValidHistory(h) && ValidHistory(g) && Grows(h, g) && LogIsHonest(h, r, log)
    ensures LogIsHonest(g, r, log)
  {
    hide SentBy, Grows, ValidHistory;
    forall d | d in log ensures SentAs(g, r, d) {
      var k: nat, w: Whisper :|
        SentBy(h, r, k, d.counter, w, d.plaintext) && w.message.ephemeral == d.ephemeral
          && w.message.counter == d.counter;
      SentByGrows(h, g, r, k, d.counter, w, d.plaintext);
    }
  }

  lemma HonestGrows(h: History, g: History, k: nat, i: nat)
    requires ValidHistory(h) && ValidHistory(g) && Grows(h, g) && HonestlySent(h)
    requires 1 <= k < |h.sent| && i < |h.sent[k]|
    ensures HonestAt(g, k, i)
  {
    SeedOfPrefix(h, g, k);
    assert h.sent[k] <= g.sent[k] && LastBefore(g, k) == LastBefore(h, k);
    var packet := h.sent[k][i];
    assert HonestAt(h, k, i);
    var plaintext :| HonestWhisper(h, k, i, packet.whisper, plaintext);
    hide SeedOf, LastBefore, ValidHistory;
    assert HonestWhisper(g, k, i, g.sent[k][i].whisper, plaintext);
  }

  // Sending.

  ghost function Sent(h: History, n: nat, packet: Packet): History
    requires n < |h.sent|
  {
    h.(sent := h.sent[n := h.sent[n] + [packet]])
  }

  lemma SentIsValid(h: History, n: nat, packet: Packet)
    requires ValidHistory(h) && 1 <= n < |h.keys| <= n + 2
    ensures ValidHistory(Sent(h, n, packet)) && Grows(h, Sent(h, n, packet))
  {
  }

  lemma SendingFill(c: Chain, seed: Key, count: nat)
    requires SendingChain(c, seed, count)
    ensures var f := Fill(c, count);
            && f.Success? && f.value.messageKeys == map[count as int := MessageKeyAt(seed, count)]
            && SendingChain(f.value.(messageKeys := map[]), seed, count + 1)
  {
    var f := Fill(c, count).value;
    FillIsFilled(c, count);
    ChainKeyComposes(seed, count, 1);
    hide Fill;
    assert MessageKeyAt(c.key.value, 0) == MessageKeyAt(seed, count);
    assert f.messageKeys.Keys == {count as int};
  }

  /** Encrypting never fails, and seals the next message of the chain. */
  lemma EncryptSeals(h: History, s: Session, n: nat, log: seq<Delivery>, ourIdentity: KeyId, plaintext: Bytes)
    requires ValidHistory(h) && Shape(h, s, n, log) && n != 0
    ensures var r := Encrypt(s, ourIdentity, plaintext);
            && r.Success?
            && r.value.1.whisper == Seal(h.keys[n], |h.sent[n]|, LastBefore(h, n), ourIdentity, s.remoteIdentity,
                                         MessageKeyAt(SeedOf(h.hs, h.keys, n), |h.sent[n]|), plaintext)
            && r.value.1.envelope == (if s.pending.Some? then Some(Envelope(ourIdentity, s.pending.value)) else None)
            && r.value.0 == s.(chains := r.value.0.chains)
            && r.value.0.chains.Keys == s.chains.Keys
            && (forall id :: id in s.chains && id != h.keys[n] ==> r.value.0.chains[id] == s.chains[id])
            && SendingChain(r.value.0.chains[h.keys[n]], SeedOf(h.hs, h.keys, n), |h.sent[n]| + 1)
  {
    hide Receives, SeedOf, Order, Seal, MessageKeyAt;
    var c, count := s.chains[h.keys[n]], |h.sent[n]|;
    SendingFill(c, SeedOf(h.hs, h.keys, n), count);
    var f := Fill(c, count).value;
    assert f.messageKeys - {count as int} == map[];
    hide Fill;
  }

  lemma OwnReceivesKept(h: History, before: map<KeyId, Chain>, after: map<KeyId, Chain>, n: nat, k: nat,
                        log: seq<Delivery>, packet: Packet)
    requires ValidHistory(h) && n < |h.keys| && 1 <= k < n && Receives(h, before, n, k, log)
    requires h.keys[k] in after && after[h.keys[k]] == before[h.keys[k]]
    ensures Receives(Sent(h, n, packet), after, n, k, log)
  {
    hide ReceivingChain, Used, SeedOf;
  }

  lemma SenderShape(h: History, s: Session, after: Session, n: nat, log: seq<Delivery>, packet: Packet)
    requires ValidHistory(h) && Shape(h, s, n, log) && n != 0
    requires after == s.(chains := after.chains) && after.chains.Keys == s.chains.Keys
    requires forall id :: id in s.chains && id != h.keys[n] ==> after.chains[id] == s.chains[id]
    requires h.keys[n] in after.chains
    requires SendingChain(after.chains[h.keys[n]], SeedOf(h.hs, h.keys, n), |h.sent[n]| + 1)
    ensures ValidHistory(Sent(h, n, packet)) && Shape(Sent(h, n, packet), after, n, log)
  {
    hide ReceivingChain, Used, SeedOf, Root, Order;
    SentIsValid(h, n, packet);
    var g := Sent(h, n, packet);
    forall k | InWindow(k, n) ensures Receives(g, after.chains, n, k, log) {
      assert Receives(h, s.chains, n, k, log);
      assert h.keys[k] != h.keys[n];
      OwnReceivesKept(h, s.chains, after.chains, n, k, log, packet);
    }
    hide Receives, InWindow;
  }

  lemma PeerReceivesKept(h: History, chains: map<KeyId, Chain>, m: nat, n: nat, k: nat, log: seq<Delivery>,
                         packet: Packet)
    requires ValidHistory(h) && n < |h.keys| && 1 <= k < |h.keys| && Receives(h, chains, m, k, log)
    requires k == n ==> m == n + 1
    ensures Receives(Sent(h, n, packet), chains, m, k, log)
  {
    hide Used, SeedOf;
  }

  lemma ReceiverShape(h: History, s: Session, m: nat, n: nat, log: seq<Delivery>, packet: Packet)
    requires ValidHistory(h) && Shape(h, s, m, log)
    requires 1 <= n < |h.keys| <= n + 2 && (m - n) % 2 == 1
    ensures ValidHistory(Sent(h, n, packet)) && Shape(Sent(h, n, packet), s, m, log)
  {
    hide ReceivingChain, Used, SeedOf, Root, Order;
    SentIsValid(h, n, packet);
    var g := Sent(h, n, packet);
    forall k | InWindow(k, m) ensures Receives(g, s.chains, m, k, log) {
      assert Receives(h, s.chains, m, k, log);
      PeerReceivesKept(h, s.chains, m, n, k, log, packet);
    }
    hide Receives, InWindow;
  }

  lemma SentIsHonest(h: History, r: Role, n: nat, packet: Packet, plaintext: Bytes)
    requires ValidHistory(h) && HonestlySent(h) && 1 <= n < |h.keys| <= n + 2 && Owns(r, n)
    requires packet.whisper
             == Seal(h.keys[n], |h.sent[n]|, LastBefore(h, n), Identity(h.hs, r), Identity(h.hs, Other(r)),
                                    MessageKeyAt(SeedOf(h.hs, h.keys, n), |h.sent[n]|), plaintext)
    ensures ValidHistory(Sent(h, n, packet)) && HonestlySent(Sent(h, n, packet))
  {
    SentIsValid(h, n, packet);
    var g := Sent(h, n, packet);
    hide SeedOf, Seal, MessageKeyAt, ValidHistory, Grows;
    forall k: nat, i: nat | 1 <= k < |g.sent| && i < |g.sent[k]|
      ensures HonestAt(g, k, i)
    {
      if k == n && i == |h.sent[n]| {
        assert HonestWhisper(g, k, i, g.sent[k][i].whisper, plaintext);
      } else {
        HonestGrows(h, g, k, i);
      }
    }
  }

  /** What encrypting does to the sender's session. */
  ghost predicate Encrypted(h: History, r: Role, s: Session, after: Session, n: nat, packet: Packet, plaintext: Bytes)
    requires ValidHistory(h) && 1 <= n < |h.keys|
  {
    && packet.whisper == Seal(h.keys[n], |h.sent[n]|, LastBefore(h, n), Identity(h.hs, r), s.remoteIdentity,
                              MessageKeyAt(SeedOf(h.hs, h.keys, n), |h.sent[n]|), plaintext)
    && packet.envelope == (if s.pending.Some? then Some(Envelope(Identity(h.hs, r), s.pending.value)) else None)
    && after == s.(chains := after.chains) && after.chains.Keys == s.chains.Keys
    && (forall id :: id in s.chains && id != h.keys[n] ==> after.chains[id] == s.chains[id])
    && h.keys[n] in after.chains
    && SendingChain(after.chains[h.keys[n]], SeedOf(h.hs, h.keys, n), |h.sent[n]| + 1)
  }

  lemma EncryptedSession(h: History, r: Role, s: Session, n: nat, log: seq<Delivery>, plaintext: Bytes)
    requires ValidHistory(h) && Shape(h, s, n, log) && n != 0
    ensures var e := Encrypt(s, Identity(h.hs, r), plaintext);
            e.Success? && Encrypted(h, r, s, e.value.0, n, e.value.1, plaintext)
  {
    hide Receives, SeedOf, Seal, MessageKeyAt, SendingChain, Encrypt;
    EncryptSeals(h, s, n, log, Identity(h.hs, r), plaintext);
  }

  lemma SenderKeepsInv(h: History, r: Role, p: Peer, after: Session, packet: Packet, plaintext: Bytes)
    requires ValidHistory(h) && HonestlySent(h) && PeerInv(h, r, p) && p.session.Some? && p.epoch != 0
    requires Encrypted(h, r, p.session.value, after, p.epoch, packet, plaintext)
    ensures var g := Sent(h, p.epoch, packet);
            ValidHistory(g) && HonestlySent(g) && PeerInv(g, r, p.(session := Some(after)))
  {
    hide HonestlySent, Receives, SendingChain, Seal, SeedOf, MessageKeyAt, SentAs;
    var s, n := p.session.value, p.epoch;
    SentIsValid(h, n, packet);
    SentIsHonest(h, r, n, packet, plaintext);
    SenderShape(h, s, after, n, p.log, packet);
    LogGrows(h, Sent(h, n, packet), r, p.log);
  }

  lemma ReceiverKeepsInv(h: History, r: Role, p: Peer, n: nat, packet: Packet)
    requires ValidHistory(h) && PeerInv(h, r, p)
    requires 1 <= n < |h.keys| <= n + 2 && !Owns(r, n)
    ensures var g := Sent(h, n, packet);
            ValidHistory(g) && PeerInv(g, r, p)
  {
    hide Shape, LogIsHonest;
    SentIsValid(h, n, packet);
    Parity(r, p.epoch, n);
    ReceiverShape(h, Effective(h.hs, r, p.session), p.epoch, n, p.log, packet);
    LogGrows(h, Sent(h, n, packet), r, p.log);
  }

  lemma SendKeepsInv(w: World, r: Role, plaintext: Bytes)
    requires Inv(w)
    ensures Inv(AfterSend(w, r, plaintext))
    ensures PeerOf(w, r).session.Some? ==>
              Encrypt(PeerOf(w, r).session.value, Identity(w.history.hs, r), plaintext).Success?
  {
    var p, o, h := PeerOf(w, r), PeerOf(w, Other(r)), w.history;
    if p.session.Some? {
      var n := p.epoch;
      EpochBounds(w, r);
      EncryptedSession(h, r, p.session.value, n, p.log, plaintext);
      var (after, packet) := Encrypt(p.session.value, Identity(h.hs, r), plaintext).value;
      SenderKeepsInv(h, r, p, after, packet, plaintext);
      ReceiverKeepsInv(h, Other(r), o, n, packet);
      SendEnvelopes(w, r, after, packet, plaintext);
      hide Encrypt, Encrypted, Sent, PeerInv, EnvelopesInv, HonestlySent, ValidHistory;
      assert AfterSend(w, r, plaintext)
          == WithPeer(w, r, p.(session := Some(after))).(history := Sent(h, n, packet)) by {
        AfterSendIs(w, r, plaintext, after, packet);
      }
    }
  }

  lemma AfterSendIs(w: World, r: Role, plaintext: Bytes, after: Session, packet: Packet)
    requires PeerOf(w, r).session.Some? && PeerOf(w, r).epoch < |w.history.sent|
    requires Encrypt(PeerOf(w, r).session.value, Identity(w.history.hs, r), plaintext) == Success((after, packet))
    ensures AfterSend(w, r, plaintext)
         == WithPeer(w, r, PeerOf(w, r).(session := Some(after))).(history := Sent(w.history, PeerOf(w, r).epoch,
               packet))
  {
    hide Encrypt;
  }

  lemma EpochBounds(w: World, r: Role)
    requires Inv(w) && PeerOf(w, r).session.Some?
    ensures 1 <= PeerOf(w, r).epoch < |w.history.keys| <= PeerOf(w, r).epoch + 2
    ensures Owns(r, PeerOf(w, r).epoch) && !Owns(Other(r), PeerOf(w, r).epoch)
    ensures Shape(w.history, PeerOf(w, r).session.value, PeerOf(w, r).epoch, PeerOf(w, r).log)
  {
    hide HonestlySent, LogIsHonest, Receives, Sends;
  }

  lemma SendEnvelopes(w: World, r: Role, after: Session, packet: Packet, plaintext: Bytes)
    requires Inv(w) && PeerOf(w, r).session.Some?
    requires var p := PeerOf(w, r); 1 <= p.epoch < |w.history.keys| <= p.epoch + 2 && Owns(r, p.epoch)
    requires Encrypted(w.history, r, PeerOf(w, r).session.value, after, PeerOf(w, r).epoch, packet, plaintext)
    ensures EnvelopesInv(WithPeer(w, r, PeerOf(w, r).(session := Some(after)))
                         .(history := Sent(w.history, PeerOf(w, r).epoch, packet)))
  {
    hide HonestlySent, LogIsHonest, Shape, SeedOf, Seal, MessageKeyAt, SendingChain;
  }
}
