/** Every session operation keeps the shape of its epoch. */
module EpochLemmas {
  import opened Wrappers
  import opened Keys
  import opened IntSets
  import opened Ratchet
  import opened Epochs
  import opened ChainIds

  // One receiving chain.

  lemma FilledEntry(c: Chain, f: Chain, seed: Key, last: int, used: set<int>, target: int, i: int)
    requires ReceivingChain(c, seed, last, true, used) && c.counter < target <= last
    requires Filled(c, f, target) && i in f.messageKeys
    ensures 0 <= i <= target && i !in used && f.messageKeys[i] == MessageKeyAt(seed, i)
  {
    if i > c.counter {
      ChainKeyComposes(seed, c.counter + 1, i - c.counter - 1);
    }
  }

  lemma FilledReceiving(c: Chain, f: Chain, seed: Key, last: int, used: set<int>, target: int)
    requires ReceivingChain(c, seed, last, true, used) && c.counter < target <= last
    requires Filled(c, f, target)
    ensures ReceivingChain(f, seed, last, true, used)
  {
    forall i | i in f.messageKeys
      ensures 0 <= i <= target && i !in used && f.messageKeys[i] == MessageKeyAt(seed, i)
    {
      FilledEntry(c, f, seed, last, used, target, i);
    }
    assert f.key == Some(ChainKeyAt(seed, target + 1)) by {
      ChainKeyComposes(seed, c.counter + 1, target - c.counter);
    }
  }

  lemma FillReceiving(c: Chain, seed: Key, last: int, open: bool, used: set<int>, target: int)
    requires ReceivingChain(c, seed, last, open, used) && target <= last
    requires Fill(c, target).Success?
    ensures ReceivingChain(Fill(c, target).value, seed, last, open, used)
    ensures target <= Fill(c, target).value.counter
    ensures target > c.counter ==> Fill(c, target).value.counter == target
                                   && target in Fill(c, target).value.messageKeys
  {
    if c.counter < target {
      FillIsFilled(c, target);
      FilledReceiving(c, Fill(c, target).value, seed, last, used, target);
    }
  }

  lemma UseReceiving(c: Chain, seed: Key, last: int, open: bool, used: set<int>, i: int)
    requires ReceivingChain(c, seed, last, open, used) && i in c.messageKeys
    ensures ReceivingChain(c.(messageKeys := c.messageKeys - {i}), seed, last, open, used + {i})
  {
    assert |c.messageKeys - {i}| <= |c.messageKeys| by {
      SubsetSize((c.messageKeys - {i}).Keys, c.messageKeys.Keys);
    }
  }

  lemma UsedGrows(log: seq<Delivery>, d: Delivery, id: KeyId)
    ensures Used(log + [d], id) == if d.ephemeral == id then Used(log, id) + {d.counter as int} else Used(log, id)
  {
    var more := log + [d];
    assert more[|log|] == d;
    assert forall e :: e in more <==> e in log || e == d;
  }

  // A message on a chain that the receiver holds.

  /** What opening a message does to the chains. */
  ghost predicate OpenedOn(s: Session, after: Session, id: KeyId, counter: nat) {
    && id in s.chains && Fill(s.chains[id], counter).Success?
    && var c := Fill(s.chains[id], counter).value;
       && counter in c.messageKeys
       && after == s.(chains := s.chains[id := c.(messageKeys := c.messageKeys - {counter})], pending := None)
  }

  lemma ReceivesKept(h: History, before: map<KeyId, Chain>, after: map<KeyId, Chain>, n: nat, k: nat,
                     log: seq<Delivery>, d: Delivery)
    requires 1 <= k < |h.keys| && |h.keys| == |h.sent|
    requires Receives(h, before, n, k, log)
    requires h.keys[k] in after && after[h.keys[k]] == before[h.keys[k]]
    requires d.ephemeral != h.keys[k]
    ensures Receives(h, after, n, k, log + [d])
  {
    UsedGrows(log, d, h.keys[k]);
  }

  lemma ReceivesOpened(h: History, s: Session, after: Session, n: nat, k: nat, log: seq<Delivery>, d: Delivery)
    requires 1 <= k < |h.keys| && |h.keys| == |h.sent|
    requires Receives(h, s.chains, n, k, log) && d.ephemeral == h.keys[k] && d.counter < |h.sent[k]|
    requires OpenedOn(s, after, d.ephemeral, d.counter)
    ensures Receives(h, after.chains, n, k, log + [d])
  {
    var seed, last := SeedOf(h.hs, h.keys, k), |h.sent[k]| - 1;
    var c, used := s.chains[d.ephemeral], Used(log, d.ephemeral);
    FillReceiving(c, seed, last, k == n - 1, used, d.counter);
    UseReceiving(Fill(c, d.counter).value, seed, last, k == n - 1, used, d.counter);
    UsedGrows(log, d, d.ephemeral);
  }

  lemma HoldsWindow(h: History, s: Session, n: nat, k: nat)
    requires ValidHistory(h) && Frame(h, s, n) && k < |h.keys| && (n - k) % 2 == 1
    ensures h.keys[k] in s.chains <==> InWindow(k, n)
  {
    WindowMembers(h.keys, n, k);
    assert k != n;
  }

  lemma OpenedKeepsShape(h: History, s: Session, after: Session, n: nat, k: nat, log: seq<Delivery>, d: Delivery)
    requires ValidHistory(h) && Shape(h, s, n, log)
    requires InWindow(k, n) && d.ephemeral == h.keys[k] && d.counter < |h.sent[k]|
    requires OpenedOn(s, after, d.ephemeral, d.counter)
    ensures Shape(h, after, n, log + [d])
  {
    assert after.chains.Keys == s.chains.Keys;
    forall j | InWindow(j, n) ensures Receives(h, after.chains, n, j, log + [d]) {
      if j == k {
        ReceivesOpened(h, s, after, n, k, log, d);
      } else {
        ReceivesKept(h, s.chains, after.chains, n, j, log, d);
      }
    }
  }

  // The step to the next epoch.

  ghost function Stepped(h: History, newKey: KeyId): History {
    History(h.hs, h.keys + [newKey], h.sent + [[]])
  }

  /** Before the first message of epoch `n + 1` the chain of epoch `n - 1` is filled up to the
      announced end and closed. */
  ghost predicate ClosedOff(h: History, s: Session, closed: Session, n: nat, log: seq<Delivery>)
    requires ValidHistory(h) && n + 1 < |h.keys|
  {
    && closed == s.(chains := closed.chains) && closed.chains.Keys == s.chains.Keys
    && (forall id :: id in s.chains && id != s.lastRemote ==> closed.chains[id] == s.chains[id])
    && (n >= 2 ==>
          h.keys[n - 1] in closed.chains
          && ReceivingChain(closed.chains[h.keys[n - 1]], SeedOf(h.hs, h.keys, n - 1), |h.sent[n - 1]| - 1, false,
                            Used(log, h.keys[n - 1])))
  }

  lemma DropKey(f: Chain, seed: Key, last: int, used: set<int>)
    requires ReceivingChain(f, seed, last, true, used) && ToUint32(last) <= f.counter
    ensures ReceivingChain(f.(key := None), seed, last, false, used)
  {
  }

  lemma ClosedReceiving(c: Chain, seed: Key, last: int, used: set<int>, target: int)
    requires ReceivingChain(c, seed, last, true, used) && Fill(c, target).Success?
    requires ToUint32(last) <= target <= last
    ensures ReceivingChain(Fill(c, target).value.(key := None), seed, last, false, used)
  {
    FillReceiving(c, seed, last, true, used, target);
    DropKey(Fill(c, target).value, seed, last, used);
  }

  lemma CloseLatest(h: History, s: Session, n: nat, log: seq<Delivery>)
    requires ValidHistory(h) && 2 <= n && n + 2 == |h.keys| && Receives(h, s.chains, n, n - 1, log)
    requires Fill(s.chains[h.keys[n - 1]], ToUint32(LastBefore(h, n + 1))).Success?
    ensures var f := Fill(s.chains[h.keys[n - 1]], ToUint32(LastBefore(h, n + 1))).value;
            ReceivingChain(f.(key := None), SeedOf(h.hs, h.keys, n - 1), |h.sent[n - 1]| - 1, false,
                           Used(log, h.keys[n - 1]))
  {
    hide Used, Fill;
    ClosedReceiving(s.chains[h.keys[n - 1]], SeedOf(h.hs, h.keys, n - 1), |h.sent[n - 1]| - 1,
                    Used(log, h.keys[n - 1]), ToUint32(LastBefore(h, n + 1)));
  }

  lemma CloseKeepsChain(h: History, s: Session, n: nat, log: seq<Delivery>)
    requires ValidHistory(h) && Shape(h, s, n, log) && n + 2 == |h.keys|
    requires ClosePrevious(s, ToUint32(LastBefore(h, n + 1))).Success?
    ensures ClosedOff(h, s, ClosePrevious(s, ToUint32(LastBefore(h, n + 1))).value, n, log)
  {
    hide ReceivingChain, Used, Fill, Order, Root, SeedOf;
    if n >= 2 {
      assert InWindow(n - 1, n);
      assert Receives(h, s.chains, n, n - 1, log);
      CloseLatest(h, s, n, log);
    } else if n == 1 {
      HoldsWindow(h, s, 1, 0);
    }
  }

  // The window as a list.

  lemma WindowDistinct(keys: seq<KeyId>, n: nat)
    requires n <= |keys| && Distinct(keys)
    ensures NoRepeats(Window(keys, n))
    ensures forall k :: k in Window(keys, n) ==> k in keys[..n]
  {
    var len := WindowLength(n);
    forall i, j | 0 <= i < j < len ensures Window(keys, n)[i] != Window(keys, n)[j] {
      assert n + 1 - 2 * (len - i) < n + 1 - 2 * (len - j);
    }
    forall i | 0 <= i < len ensures Window(keys, n)[i] in keys[..n] {
      assert Window(keys, n)[i] == keys[..n][n + 1 - 2 * (len - i)];
    }
  }

  /** The turn at epoch `n`, spelled out. */
  ghost predicate Turned(h: History, c: Session, after: Session, n: nat, newKey: KeyId)
    requires ValidHistory(h) && n + 2 == |h.keys| && (n != 0 ==> h.keys[n] in c.chains)
  {
    var g := Stepped(h, newKey);
    && {newKey, h.keys[n + 1]} <= after.chains.Keys
    && after.ephemeral == newKey
    && after.lastRemote == h.keys[n + 1]
    && after.rootKey == Root(g.hs, g.keys, n + 2)
    && after.previousCounter == (if n == 0 then c.previousCounter else c.chains[h.keys[n]].counter)
    && after.order == Order(g.keys, n + 2)
    && after.chains.Keys == Ids(Order(g.keys, n + 2))
    && after.chains[newKey] == NewChain(Sending, SeedOf(g.hs, g.keys, n + 2))
    && after.chains[h.keys[n + 1]] == NewChain(Receiving, SeedOf(g.hs, g.keys, n + 1))
    && (forall id :: id in after.chains && id != newKey && id != h.keys[n + 1] ==>
          id in c.chains && after.chains[id] == c.chains[id])
    && after == c.(ephemeral := after.ephemeral, lastRemote := after.lastRemote, rootKey := after.rootKey,
                   previousCounter := after.previousCounter, order := after.order, chains := after.chains)
  }

  lemma SteppedRoots(h: History, newKey: KeyId)
    requires ValidHistory(h)
    ensures var g, m := Stepped(h, newKey), |h.keys|;
            && (forall k: nat {:trigger Root(g.hs, g.keys, k)} :: k < m ==>
                  Root(g.hs, g.keys, k) == Root(h.hs, h.keys, k))
            && (forall k: nat {:trigger SeedOf(g.hs, g.keys, k)} :: 1 <= k < m ==>
                  SeedOf(g.hs, g.keys, k) == SeedOf(h.hs, h.keys, k))
  {
    forall k: nat | k < |h.keys|
      ensures Root(h.hs, h.keys + [newKey], k) == Root(h.hs, h.keys, k)
    {
      RootOfPrefix(h.hs, h.keys, [newKey], k);
    }
  }

  ghost predicate Kinds(h: History, c: Session, n: nat)
    requires n < |h.keys|
  {
    && (n != 0 ==> h.keys[n] in c.chains && c.chains[h.keys[n]].kind.Sending?)
    && forall id :: id in Window(h.keys, n) ==> id in c.chains && c.chains[id].kind.Receiving?
  }

  lemma RetireTable(r: Session, w: seq<KeyId>, remote: KeyId)
    requires r.ephemeral !in w && r.ephemeral != remote && r.ephemeral in r.chains
    requires r.order == w + [r.ephemeral] + [remote]
    ensures RetireSending(r) == r.(previousCounter := r.chains[r.ephemeral].counter, order := w + [remote],
                                   chains := r.chains - {r.ephemeral})
  {
    var gone := {r.ephemeral};
    assert r.order == w + ([r.ephemeral] + [remote]);
    WithoutAppend(w, [r.ephemeral] + [remote], gone);
    WithoutNone(w, gone);
    WithoutFront([r.ephemeral], [remote], gone);
  }

  /** The chain table that a turn builds before old receiving chains are removed. */
  ghost function Untrimmed(c: Session, w: seq<KeyId>, remote: KeyId, newKey: KeyId): Session {
    var root := NextRoot(remote, c.ephemeral, c.rootKey);
    c.(ephemeral := newKey, lastRemote := remote, rootKey := NextRoot(remote, newKey, root),
       previousCounter := if c.ephemeral in c.chains then c.chains[c.ephemeral].counter else c.previousCounter,
       order := w + [remote] + [newKey],
       chains := (c.chains[remote := NewChain(Receiving, NextSeed(remote, c.ephemeral, c.rootKey))] - {c.ephemeral})
                 [newKey := NewChain(Sending, NextSeed(remote, newKey, root))])
  }

  lemma BeforeTrim(c: Session, w: seq<KeyId>, remote: KeyId, newKey: KeyId)
    requires c.ephemeral !in w && remote !in c.chains && newKey !in c.chains
    requires c.ephemeral != remote && newKey != remote
    requires c.order == w + if c.ephemeral in c.chains then [c.ephemeral] else []
    ensures Turn(c, remote, newKey)
         == Success(RemoveOldReceiverChains(Untrimmed(c, w, remote, newKey), 5))
  {
    var received := CalculateRatchet(c, remote, Receiving).value;
    var retired := RetireSending(received);
    if c.ephemeral in c.chains {
      RetireTable(received, w, remote);
    } else {
      assert c.order == w;
      assert received.chains - {c.ephemeral} == received.chains;
    }
    assert retired == received.(previousCounter := retired.previousCounter, order := w + [remote],
                                chains := received.chains - {c.ephemeral});
    var sending := CalculateRatchet(retired.(ephemeral := newKey), remote, Sending).value;
    assert sending.(lastRemote := remote) == Untrimmed(c, w, remote, newKey);
  }

  lemma KeptIds(w: seq<KeyId>, last: KeyId, d: nat)
    requires NoRepeats(w) && last !in w && d <= |w|
    ensures Ids(w + [last]) - Ids(w[..d]) == Ids(w[d..] + [last])
  {
    forall k ensures k in Ids(w + [last]) - Ids(w[..d]) <==> k in Ids(w[d..] + [last]) {
      assert w == w[..d] + w[d..];
      if k in w[d..] {
        HalvesDisjoint(w, d, k);
      }
    }
  }

  lemma TrimTable(w: seq<KeyId>, last: KeyId, u: Session, d: nat)
    requires NoRepeats(w) && last !in w && u.order == w + [last]
    requires d == if |w| <= 5 then 0 else |w| - 5
    requires forall k :: k in w ==> k in u.chains && u.chains[k].kind.Receiving?
    requires last in u.chains && u.chains[last].kind.Sending?
    requires u.chains.Keys == Ids(w + [last])
    ensures var after := RemoveOldReceiverChains(u, 5);
            && after == u.(order := w[d..] + [last], chains := u.chains - Ids(w[..d]))
            && after.chains.Keys == Ids(w[d..] + [last])
  {
    TrimFront(w, last, u, 5, d);
    KeptIds(w, last, d);
  }

  lemma UntrimmedTable(c: Session, w: seq<KeyId>, remote: KeyId, newKey: KeyId)
    requires c.ephemeral !in w && c.ephemeral != remote && c.ephemeral != newKey
    requires c.chains.Keys == Ids(w) + if c.ephemeral in c.chains then {c.ephemeral} else {}
    requires forall k :: k in w ==> c.chains[k].kind.Receiving?
    ensures Untrimmed(c, w, remote, newKey).chains.Keys == Ids(w + [remote] + [newKey])
    ensures newKey !in w + [remote] ==>
              forall k :: k in w + [remote] ==> Untrimmed(c, w, remote, newKey).chains[k].kind.Receiving?
  {
    var u := Untrimmed(c, w, remote, newKey);
    forall k ensures k in u.chains.Keys <==> k in Ids(w + [remote] + [newKey]) {
    }
  }

  /** A turn on a table of receiving ids `w` and our own sending id. */
  lemma TurnTable(c: Session, w: seq<KeyId>, remote: KeyId, newKey: KeyId, d: nat)
    requires NoRepeats(w) && remote !in w && newKey !in w + [remote]
    requires c.ephemeral !in w && c.ephemeral != remote && c.ephemeral != newKey
    requires c.order == w + if c.ephemeral in c.chains then [c.ephemeral] else []
    requires c.chains.Keys == Ids(w) + if c.ephemeral in c.chains then {c.ephemeral} else {}
    requires forall k :: k in w ==> c.chains[k].kind.Receiving?
    requires d == if |w + [remote]| <= 5 then 0 else |w + [remote]| - 5
    ensures var u := Untrimmed(c, w, remote, newKey);
            && Turn(c, remote, newKey)
               == Success(u.(order := (w + [remote])[d..] + [newKey], chains := u.chains - Ids((w + [remote])[..d])))
            && u.chains.Keys - Ids((w + [remote])[..d]) == Ids((w + [remote])[d..] + [newKey])
  {
    hide NoRepeats, RemoveOldReceiverChains, Turn, Without;
    AddingKeepsDistinct(w, remote);
    UntrimmedTable(c, w, remote, newKey);
    BeforeTrim(c, w, remote, newKey);
    TrimTable(w + [remote], newKey, Untrimmed(c, w, remote, newKey), d);
  }

  lemma AddingKeepsDistinct(w: seq<KeyId>, id: KeyId)
    requires NoRepeats(w) && id !in w
    ensures NoRepeats(w + [id])
  {
  }

  lemma TurnedFrom(h: History, c: Session, after: Session, n: nat, newKey: KeyId, gone: set<KeyId>)
    requires ValidHistory(h) && n + 2 == |h.keys| && newKey !in h.keys
    requires Frame(h, c, n) && (n != 0 <==> c.ephemeral in c.chains)
    requires var u := Untrimmed(c, Window(h.keys, n), h.keys[n + 1], newKey);
             after == u.(order := Order(Stepped(h, newKey).keys, n + 2), chains := u.chains - gone)
    requires after.chains.Keys == Ids(Order(Stepped(h, newKey).keys, n + 2))
    requires h.keys[n + 1] in after.chains && newKey in after.chains
    ensures Turned(h, c, after, n, newKey)
  {
    var g := Stepped(h, newKey);
    SteppedRoots(h, newKey);
    assert g.keys[n + 2] == newKey && g.keys[n + 1] == h.keys[n + 1] && g.keys[n] == h.keys[n];
    assert SeedOf(g.hs, g.keys, n + 1) == NextSeed(h.keys[n + 1], c.ephemeral, c.rootKey);
    assert Root(g.hs, g.keys, n + 1) == NextRoot(h.keys[n + 1], c.ephemeral, c.rootKey);
  }

  lemma OrderAfterTurn(h: History, n: nat, newKey: KeyId)
    requires n + 2 == |h.keys|
    ensures var w, remote := Window(h.keys, n), h.keys[n + 1]; var d := |w + [remote]| - WindowLength(n + 2);
            && 0 <= d <= |w| && Order(Stepped(h, newKey).keys, n + 2) == (w + [remote])[d..] + [newKey]
            && (w + [remote])[d..][|w| - d] == remote
  {
    WindowStep(h.keys, [newKey], n);
    assert Stepped(h, newKey).keys[n + 2] == newKey;
  }

  lemma TurnIsTurned(h: History, c: Session, n: nat, newKey: KeyId)
    requires ValidHistory(h) && Frame(h, c, n) && Kinds(h, c, n) && n + 2 == |h.keys| && newKey !in h.keys
    ensures Turn(c, h.keys[n + 1], newKey).Success?
    ensures n != 0 ==> h.keys[n] in c.chains
    ensures Turned(h, c, Turn(c, h.keys[n + 1], newKey).value, n, newKey)
  {
    hide Turn, Untrimmed, NoRepeats, Turned, Root, SeedOf;
    var g, remote, w := Stepped(h, newKey), h.keys[n + 1], Window(h.keys, n);
    var d := |w + [remote]| - WindowLength(n + 2);
    WindowDistinct(h.keys, n);
    WindowMembers(h.keys, n, n);
    WindowMembers(h.keys, n, n + 1);
    TurnTable(c, w, remote, newKey, d);
    OrderAfterTurn(h, n, newKey);
    hide Window, Order, Stepped, Frame, Kinds, ValidHistory;
    TurnedFrom(h, c, Turn(c, remote, newKey).value, n, newKey, Ids((w + [remote])[..d]));
  }

  lemma WindowEpoch(keys: seq<KeyId>, n: nat, id: KeyId) returns (k: nat)
    requires n <= |keys| && id in Window(keys, n)
    ensures InWindow(k, n) && keys[k] == id
  {
    var len := WindowLength(n);
    var j :| 0 <= j < len && Window(keys, n)[j] == id;
    k := n + 1 - 2 * (len - j);
  }

  lemma ShapeHasKinds(h: History, s: Session, n: nat, log: seq<Delivery>)
    requires ValidHistory(h) && Shape(h, s, n, log)
    ensures Kinds(h, s, n)
  {
    hide Window, Used, Root, SeedOf, Order;
    forall id | id in Window(h.keys, n) ensures id in s.chains && s.chains[id].kind.Receiving? {
      var k := WindowEpoch(h.keys, n, id);
      assert Receives(h, s.chains, n, k, log);
    }
  }

  lemma NewestAfterTurn(h: History, after: Session, n: nat, log: seq<Delivery>, newKey: KeyId)
    requires ValidHistory(h) && n + 2 == |h.keys| && h.sent[n + 1] != []
    requires forall d :: d in log ==> d.ephemeral in h.keys[..n]
    requires var g := Stepped(h, newKey);
             && h.keys[n + 1] in after.chains
             && after.chains[h.keys[n + 1]] == NewChain(Receiving, SeedOf(g.hs, g.keys, n + 1))
    ensures Receives(Stepped(h, newKey), after.chains, n + 2, n + 1, log)
  {
    assert h.keys[n + 1] !in h.keys[..n];
    assert Used(log, h.keys[n + 1]) == {};
    assert |h.sent[n + 1]| >= 1;
  }

  lemma OlderAfterTurn(h: History, before: Session, after: Session, n: nat, k: nat, log: seq<Delivery>, newKey: KeyId)
    requires ValidHistory(h) && 1 <= k < |h.keys| && k != n + 1
    requires h.keys[k] in before.chains && h.keys[k] in after.chains
    requires after.chains[h.keys[k]] == before.chains[h.keys[k]]
    requires ReceivingChain(before.chains[h.keys[k]], SeedOf(h.hs, h.keys, k), |h.sent[k]| - 1, false,
                            Used(log, h.keys[k]))
    ensures Receives(Stepped(h, newKey), after.chains, n + 2, k, log)
  {
    hide ReceivingChain, Used;
    SteppedRoots(h, newKey);
    assert Stepped(h, newKey).keys[k] == h.keys[k] && Stepped(h, newKey).sent[k] == h.sent[k];
  }

  lemma TurnedHolds(h: History, n: nat, k: nat, newKey: KeyId)
    requires ValidHistory(h) && n + 2 == |h.keys| && newKey !in h.keys && InWindow(k, n + 2)
    ensures h.keys[k] in Ids(Order(Stepped(h, newKey).keys, n + 2)) && h.keys[k] != newKey
  {
    WindowMembers(Stepped(h, newKey).keys, n + 2, k);
  }

  lemma ClosedChain(h: History, s: Session, c: Session, n: nat, k: nat, log: seq<Delivery>)
    requires ValidHistory(h) && n + 2 == |h.keys| && InWindow(k, n)
    requires Receives(h, s.chains, n, k, log) && s.lastRemote == LastRemote(h, n) && ClosedOff(h, s, c, n, log)
    ensures h.keys[k] in c.chains
    ensures ReceivingChain(c.chains[h.keys[k]], SeedOf(h.hs, h.keys, k), |h.sent[k]| - 1, false, Used(log, h.keys[k]))
  {
    hide ReceivingChain, Used, Root, SeedOf;
  }

  lemma TurnedKeeps(h: History, c: Session, after: Session, n: nat, k: nat, newKey: KeyId)
    requires ValidHistory(h) && n + 2 == |h.keys| && newKey !in h.keys && InWindow(k, n + 2)
    requires (n != 0 ==> h.keys[n] in c.chains) && Turned(h, c, after, n, newKey)
    ensures h.keys[k] in after.chains
    ensures var g := Stepped(h, newKey);
            k == n + 1 ==> after.chains[h.keys[k]] == NewChain(Receiving, SeedOf(g.hs, g.keys, n + 1))
    ensures k != n + 1 ==> h.keys[k] in c.chains && after.chains[h.keys[k]] == c.chains[h.keys[k]]
  {
    TurnedHolds(h, n, k, newKey);
    assert k != n + 1 ==> h.keys[k] != h.keys[n + 1];
    hide Order, Root, SeedOf;
  }

  lemma ReceivesAfterTurn(h: History, s: Session, c: Session, after: Session, n: nat, k: nat,
                          log: seq<Delivery>, newKey: KeyId)
    requires ValidHistory(h) && n + 2 == |h.keys| && newKey !in h.keys && h.sent[n + 1] != []
    requires Shape(h, s, n, log) && ClosedOff(h, s, c, n, log)
    requires (n != 0 ==> h.keys[n] in c.chains) && Turned(h, c, after, n, newKey)
    requires InWindow(k, n + 2)
    ensures Receives(Stepped(h, newKey), after.chains, n + 2, k, log)
  {
    hide Receives, ReceivingChain, Used, Root, SeedOf, Order, Distinct, ClosedOff, Stepped, Turned, LastBefore, Sends;
    TurnedKeeps(h, c, after, n, k, newKey);
    if k == n + 1 {
      NewestAfterTurn(h, after, n, log, newKey);
    } else {
      ClosedChain(h, s, c, n, k, log);
      OlderAfterTurn(h, c, after, n, k, log, newKey);
    }
  }

  lemma FrameAfterTurn(h: History, s: Session, c: Session, after: Session, n: nat, log: seq<Delivery>, newKey: KeyId)
    requires ValidHistory(h) && n + 2 == |h.keys| && newKey !in h.keys && h.sent[n + 1] != []
    requires Shape(h, s, n, log) && ClosedOff(h, s, c, n, log)
    requires (n != 0 ==> h.keys[n] in c.chains) && Turned(h, c, after, n, newKey)
    ensures ValidHistory(Stepped(h, newKey))
    ensures Frame(Stepped(h, newKey), after, n + 2) && Sends(Stepped(h, newKey), after.chains, n + 2)
  {
    hide ReceivingChain, Used, Order, Root, SeedOf, Receives;
    SteppedIsValid(h, newKey);
    if n != 0 {
      assert c.chains[h.keys[n]] == s.chains[h.keys[n]];
    }
  }

  lemma SteppedIsValid(h: History, newKey: KeyId)
    requires ValidHistory(h) && newKey !in h.keys && h.sent[|h.sent| - 1] != []
    ensures ValidHistory(Stepped(h, newKey))
  {
  }

  lemma TurnKeepsShape(h: History, s: Session, c: Session, after: Session, n: nat, log: seq<Delivery>, newKey: KeyId)
    requires ValidHistory(h) && n + 2 == |h.keys| && newKey !in h.keys && h.sent[n + 1] != []
    requires Shape(h, s, n, log) && ClosedOff(h, s, c, n, log)
    requires (n != 0 ==> h.keys[n] in c.chains) && Turned(h, c, after, n, newKey)
    ensures ValidHistory(Stepped(h, newKey))
    ensures Shape(Stepped(h, newKey), after, n + 2, log)
  {
    var g, m := Stepped(h, newKey), n + 2;
    FrameAfterTurn(h, s, c, after, n, log, newKey);
    forall k | InWindow(k, m) ensures 1 <= k < |g.keys| && Receives(g, after.chains, m, k, log) {
      ReceivesAfterTurn(h, s, c, after, n, k, log, newKey);
    }
    forall d | d in log ensures d.ephemeral in g.keys[..m] {
      assert d.ephemeral in h.keys[..n];
      assert h.keys[..n] == g.keys[..m][..n];
    }
    hide Receives, Frame, Sends, Turned, ClosedOff, Stepped;
  }

  /** The whole step: a session at epoch `n` that hears the key of epoch `n + 1` goes to epoch `n + 2`. */
  lemma StepKeepsShape(h: History, s: Session, n: nat, log: seq<Delivery>, newKey: KeyId)
    requires ValidHistory(h) && n + 2 == |h.keys| && newKey !in h.keys && h.sent[n + 1] != []
    requires Shape(h, s, n, log)
    requires ClosePrevious(s, ToUint32(LastBefore(h, n + 1))).Success?
    ensures ValidHistory(Stepped(h, newKey))
    ensures var r := StepRatchet(s, h.keys[n + 1], ToUint32(LastBefore(h, n + 1)), newKey);
            r.Success? && Shape(Stepped(h, newKey), r.value, n + 2, log)
  {
    hide ClosePrevious, Turn, ClosedOff, Kinds, Turned, Sends, Stepped, Receives;
    var c := ClosePrevious(s, ToUint32(LastBefore(h, n + 1))).value;
    CloseKeepsChain(h, s, n, log);
    HoldsWindow(h, s, n, n + 1);
    ClosedKinds(h, s, c, n, log);
    TurnIsTurned(h, c, n, newKey);
    TurnKeepsShape(h, s, c, Turn(c, h.keys[n + 1], newKey).value, n, log, newKey);
  }

  lemma ClosedKinds(h: History, s: Session, c: Session, n: nat, log: seq<Delivery>)
    requires ValidHistory(h) && n + 2 == |h.keys|
    requires Shape(h, s, n, log) && ClosedOff(h, s, c, n, log)
    ensures Frame(h, c, n) && Kinds(h, c, n)
  {
    hide Used, Root, SeedOf;
    ShapeHasKinds(h, s, n, log);
  }
}
