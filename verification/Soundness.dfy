/** What a verified tag proves: the message is one that the peer sent, opened with the key
    that sealed it. */
module Soundness {
  import opened Wrappers
  import opened Keys
  import opened Ratchet
  import opened Epochs
  import opened EpochLemmas
  import opened Protocol

  lemma Authentic(h: History, r: Role, remote: KeyId, whisper: Whisper, messageKey: Key)
    returns (k: nat, i: nat, plaintext: Bytes)
    requires ValidHistory(h) && HonestlySent(h) && Seen(h, whisper.tag)
    requires Open(messageKey, Identity(h.hs, r), remote, whisper).Success?
    ensures SentBy(h, r, k, i, whisper, plaintext)
    ensures messageKey == MessageKeyAt(SeedOf(h.hs, h.keys, k), i)
    ensures Open(messageKey, Identity(h.hs, r), remote, whisper) == Success(plaintext)
    ensures remote == Identity(h.hs, Other(r))
  {
    k, i :| 0 <= k < |h.sent| && 0 <= i < |h.sent[k]| && h.sent[k][i].whisper.tag == whisper.tag;
    assert HonestAt(h, k, i);
    plaintext :| HonestWhisper(h, k, i, h.sent[k][i].whisper, plaintext);
    hide MessageKeyAt, SeedOf;
  }

  /** Whatever the target, what a fill puts under `counter` is the key with that number. */
  lemma FilledKey(c: Chain, seed: Key, last: int, open: bool, used: set<int>, counter: nat)
    requires ReceivingChain(c, seed, last, open, used)
    requires Fill(c, counter).Success? && counter in Fill(c, counter).value.messageKeys
    ensures Fill(c, counter).value.messageKeys[counter] == MessageKeyAt(seed, counter)
  {
    if c.counter < counter {
      assert ReceivingChain(c, seed, if last < counter then counter else last, true, used);
      FillReceiving(c, seed, if last < counter then counter else last, true, used, counter);
    }
  }

  /** A ratchet step derives the new receiving chain from the current root key. */
  lemma StepDerives(s: Session, remote: KeyId, previousCounter: int, newKey: KeyId)
    requires remote !in s.chains && newKey != remote
    requires StepRatchet(s, remote, previousCounter, newKey).Success?
    ensures var t := StepRatchet(s, remote, previousCounter, newKey).value;
            remote in t.chains ==> t.chains[remote] == NewChain(Receiving, NextSeed(remote, s.ephemeral, s.rootKey))
    ensures var t := StepRatchet(s, remote, previousCounter, newKey).value;
            t.remoteIdentity == s.remoteIdentity && t.baseKey == s.baseKey
  {
    hide Surplus, ReceivingIds, Without, NextSeed, NextRoot, Fill;
  }

  lemma NewChainKey(seed: Key, counter: nat)
    requires var c := NewChain(Receiving, seed);
             Fill(c, counter).Success? && counter in Fill(c, counter).value.messageKeys
    ensures Fill(NewChain(Receiving, seed), counter).value.messageKeys[counter] == MessageKeyAt(seed, counter)
  {
    FilledKey(NewChain(Receiving, seed), seed, counter, true, {}, counter);
  }

  lemma OnChain(s: Session, ourIdentity: KeyId, w: Whisper) returns (messageKey: Key)
    requires DecryptOnChain(s, ourIdentity, w).Success?
    ensures var id, counter := w.message.ephemeral, w.message.counter;
            && OpenedOn(s, DecryptOnChain(s, ourIdentity, w).value.0, id, counter)
            && s.chains[id].kind.Receiving?
            && messageKey == Fill(s.chains[id], counter).value.messageKeys[counter]
            && Open(messageKey, ourIdentity, s.remoteIdentity, w) == Success(DecryptOnChain(s, ourIdentity, w).value.1)
  {
    messageKey := Fill(s.chains[w.message.ephemeral], w.message.counter).value.messageKeys[w.message.counter];
  }

  lemma KeyOnChain(h: History, s: Session, n: nat, k: nat, log: seq<Delivery>, counter: nat)
    requires ValidHistory(h) && 1 <= k < |h.keys| && Receives(h, s.chains, n, k, log)
    requires var r := Fill(s.chains[h.keys[k]], counter); r.Success? && counter in r.value.messageKeys
    ensures Fill(s.chains[h.keys[k]], counter).value.messageKeys[counter]
            == MessageKeyAt(SeedOf(h.hs, h.keys, k), counter)
  {
    FilledKey(s.chains[h.keys[k]], SeedOf(h.hs, h.keys, k), |h.sent[k]| - 1, k == n - 1, Used(log, h.keys[k]), counter);
  }

  lemma HeldEpoch(h: History, s: Session, n: nat, k: nat, log: seq<Delivery>)
    requires ValidHistory(h) && Shape(h, s, n, log)
    requires k < |h.keys| && (n - k) % 2 == 1 && h.keys[k] in s.chains
    ensures InWindow(k, n) && Receives(h, s.chains, n, k, log)
  {
    HoldsWindow(h, s, n, k);
  }

  /** A message opened on a chain at hand is the message sent on that chain with that number. */
  lemma AcceptedOnChain(h: History, r: Role, s: Session, n: nat, log: seq<Delivery>, whisper: Whisper) returns (k: nat)
    requires ValidHistory(h) && HonestlySent(h) && Seen(h, whisper.tag)
    requires Shape(h, s, n, log) && Owns(r, n) && whisper.message.ephemeral in s.chains
    requires DecryptOnChain(s, Identity(h.hs, r), whisper).Success?
    ensures InWindow(k, n)
    ensures SentBy(h, r, k, whisper.message.counter, whisper, DecryptOnChain(s, Identity(h.hs, r), whisper).value.1)
  {
    var messageKey := OnChain(s, Identity(h.hs, r), whisper);
    hide Shape, HonestlySent, MessageKeyAt, Fill, Seen, DecryptOnChain, Open, Receives, SeedOf;
    var k', i, plaintext := Authentic(h, r, s.remoteIdentity, whisper, messageKey);
    k := k';
    hide SentBy;
    NumberOnChain(h, r, s, n, k, i, log, whisper, plaintext);
  }

  lemma SentByKey(h: History, r: Role, k: nat, i: nat, whisper: Whisper, plaintext: Bytes)
    requires ValidHistory(h) && SentBy(h, r, k, i, whisper, plaintext)
    ensures 1 <= k < |h.keys| && !Owns(r, k) && i < |h.sent[k]|
    ensures whisper.message.ephemeral == h.keys[k]
    ensures whisper.message.counter == ToUint32(i) && whisper.message.previousCounter == ToUint32(LastBefore(h, k))
  {
  }

  lemma SenderInWindow(h: History, r: Role, s: Session, n: nat, k: nat, i: nat, log: seq<Delivery>, whisper: Whisper,
                       plaintext: Bytes)
    requires ValidHistory(h) && Shape(h, s, n, log) && Owns(r, n)
    requires SentBy(h, r, k, i, whisper, plaintext) && whisper.message.ephemeral in s.chains
    ensures InWindow(k, n) && 1 <= k < |h.keys|
    ensures Receives(h, s.chains, n, k, log) && whisper.message.ephemeral == h.keys[k]
  {
    SentByKey(h, r, k, i, whisper, plaintext);
    Parity(r, n, k);
    hide *;
    HeldEpoch(h, s, n, k, log);
  }

  lemma Parity(r: Role, n: nat, k: nat)
    requires Owns(r, n) && !Owns(r, k)
    ensures (n - k) % 2 == 1
  {
  }

  lemma NumberOnChain(h: History, r: Role, s: Session, n: nat, k: nat, i: nat, log: seq<Delivery>, whisper: Whisper,
                      plaintext: Bytes)
    requires ValidHistory(h) && Shape(h, s, n, log) && Owns(r, n)
    requires SentBy(h, r, k, i, whisper, plaintext)
    requires var id, counter := whisper.message.ephemeral, whisper.message.counter;
             && id in s.chains && Fill(s.chains[id], counter).Success?
             && counter in Fill(s.chains[id], counter).value.messageKeys
             && Fill(s.chains[id], counter).value.messageKeys[counter] == MessageKeyAt(SeedOf(h.hs, h.keys, k), i)
    ensures InWindow(k, n) && i == whisper.message.counter
  {
    hide MessageKeyAt, Fill, SeedOf, Shape, SentBy, Receives;
    SenderInWindow(h, r, s, n, k, i, log, whisper, plaintext);
    KeyOnChain(h, s, n, k, log, whisper.message.counter);
    MessageKeysInjective(SeedOf(h.hs, h.keys, k), i, SeedOf(h.hs, h.keys, k), whisper.message.counter);
  }

  /** A message opened after a ratchet step belongs to the epoch that the root key leads to. */
  lemma AcceptedOnStep(h: History, r: Role, s: Session, whisper: Whisper, newKey: KeyId) returns (k: nat)
    requires ValidHistory(h) && HonestlySent(h) && Seen(h, whisper.tag)
    requires whisper.message.ephemeral !in s.chains && newKey != whisper.message.ephemeral
    requires Decrypt(s, Identity(h.hs, r), whisper, newKey).Success?
    ensures SentBy(h, r, k, whisper.message.counter, whisper, Decrypt(s, Identity(h.hs, r), whisper, newKey).value.1)
    ensures s.rootKey == Root(h.hs, h.keys, k - 1)
    ensures s.remoteIdentity == Identity(h.hs, Other(r))
  {
    var id, counter := whisper.message.ephemeral, whisper.message.counter;
    var t := StepRatchet(s, id, whisper.message.previousCounter, newKey).value;
    StepDerives(s, id, whisper.message.previousCounter, newKey);
    var messageKey := OnChain(t, Identity(h.hs, r), whisper);
    hide StepRatchet, Fill;
    var seed := NextSeed(id, s.ephemeral, s.rootKey);
    NewChainKey(seed, counter);
    var k', i, plaintext := Authentic(h, r, t.remoteIdentity, whisper, messageKey);
    k := k';
    hide HonestlySent, MessageKeyAt, Seen;
    MessageKeysInjective(SeedOf(h.hs, h.keys, k), i, seed, counter);
  }
}
