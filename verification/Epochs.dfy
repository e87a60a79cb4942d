/** The ratchet epochs of one session pair. Epoch 0 is the responder's signed prekey, epoch 1
    the initiator's first ratchet key, and the owners alternate from there on. This module
    says what a party's session is at epoch `n`, and that every operation keeps it so. */
module Epochs {
  import opened Wrappers
  import opened Keys
  import opened Ratchet
  import opened X3dh

  /** One message that a party opened. */
  datatype Delivery = Delivery(ephemeral: KeyId, counter: nat, plaintext: Bytes)

  /** The keys of all epochs so far, and what was sent on each epoch's chain. */
  datatype History = History(hs: Handshake, keys: seq<KeyId>, sent: seq<seq<Packet>>)

  ghost predicate Distinct(keys: seq<KeyId>) {
    forall i, j :: 0 <= i < j < |keys| ==> keys[i] != keys[j]
  }

  ghost predicate ValidHistory(h: History) {
    && 2 <= |h.keys| == |h.sent|
    && h.keys[0] == h.hs.signedPreKey && h.keys[1] == h.hs.firstEphemeral
    && Distinct(h.keys)
    && h.hs.initiatorIdentity != h.hs.responderIdentity
    && h.sent[0] == []
    && forall k :: 1 <= k < |h.keys| - 1 ==> h.sent[k] != []
  }

  /** The root key after the Diffie-Hellman step between epochs `k - 1` and `k`. */
  ghost function Root(hs: Handshake, keys: seq<KeyId>, k: nat): Key
    requires k < |keys|
  {
    if k == 0 then MasterKey(hs) else NextRoot(keys[k - 1], keys[k], Root(hs, keys, k - 1))
  }

  /** The first chain key of epoch `k`. */
  ghost function SeedOf(hs: Handshake, keys: seq<KeyId>, k: nat): (r: Key)
    requires 1 <= k < |keys|
    ensures r.Hkdf?
  {
    NextSeed(keys[k - 1], keys[k], Root(hs, keys, k - 1))
  }

  /** The previousCounter that the owner of epoch `k` announces: the index of the last message
      it sent on its chain before, or 0 when there was none. */
  ghost function LastBefore(h: History, k: nat): int
    requires k < |h.sent|
  {
    if k < 3 then 0 else |h.sent[k - 2]| - 1
  }

  lemma {:induction false} RootsInjective(hs: Handshake, keys: seq<KeyId>, a: nat, b: nat)
    requires a < |keys| && b < |keys| && Root(hs, keys, a) == Root(hs, keys, b)
    ensures a == b
  {
    if a != 0 && b != 0 {
      RootsInjective(hs, keys, a - 1, b - 1);
    }
  }

  lemma {:induction false} RootOfPrefix(hs: Handshake, keys: seq<KeyId>, more: seq<KeyId>, k: nat)
    requires k < |keys|
    ensures Root(hs, keys + more, k) == Root(hs, keys, k)
  {
    if k != 0 {
      RootOfPrefix(hs, keys, more, k - 1);
    }
  }

  // The chain table at epoch n.

  function WindowLength(n: nat): nat {
    if n / 2 < 5 then n / 2 else 5
  }

  /** The other side's epochs whose chains a party at epoch `n` still holds. */
  predicate InWindow(k: int, n: nat) {
    1 <= k < n && (n - 1 - k) % 2 == 0 && n - 1 - k < 10
  }

  ghost function Window(keys: seq<KeyId>, n: nat): (r: seq<KeyId>)
    requires n <= |keys|
    ensures |r| == WindowLength(n)
  {
    seq(WindowLength(n), j requires 0 <= j < WindowLength(n) => keys[n + 1 - 2 * (WindowLength(n) - j)])
  }

  lemma WindowMembers(keys: seq<KeyId>, n: nat, k: nat)
    requires n <= |keys| && k < |keys| && Distinct(keys)
    ensures keys[k] in Window(keys, n) <==> InWindow(k, n)
  {
    var len := WindowLength(n);
    if InWindow(k, n) {
      var j := len - (n + 1 - k) / 2;
      assert 0 <= j < len && n + 1 - 2 * (len - j) == k;
      assert Window(keys, n)[j] == keys[k];
    }
    if keys[k] in Window(keys, n) {
      var j :| 0 <= j < len && Window(keys, n)[j] == keys[k];
      assert k == n + 1 - 2 * (len - j);
    }
  }

  /** A step adds the newest remote key and drops the sixth oldest. */
  lemma WindowStep(keys: seq<KeyId>, more: seq<KeyId>, n: nat)
    requires n + 1 < |keys|
    ensures var wide := Window(keys, n) + [keys[n + 1]];
            Window(keys + more, n + 2) == wide[|wide| - WindowLength(n + 2)..]
  {
    var wide := Window(keys, n) + [keys[n + 1]];
    var next := Window(keys + more, n + 2);
    var d := |wide| - WindowLength(n + 2);
    forall j | 0 <= j < |next| ensures next[j] == wide[d..][j] {
    }
  }

  /** A receiving chain grown from `seed`. `last` is the index of the last message sent on it,
      `used` the counters that were already opened. */
  ghost predicate ReceivingChain(c: Chain, seed: Key, last: int, open: bool, used: set<int>) {
    && c.kind.Receiving?
    && -1 <= c.counter <= last
    && c.key == (if open then Some(ChainKeyAt(seed, c.counter + 1)) else None)
    && (open || ToUint32(last) <= c.counter)
    && |c.messageKeys| <= 2000
    && (forall i :: i in c.messageKeys ==>
          0 <= i <= c.counter && i !in used && c.messageKeys[i] == MessageKeyAt(seed, i))
    && (forall i {:trigger i in used} :: i in used ==> 0 <= i <= c.counter)
    && (forall i {:trigger i in c.messageKeys} :: 0 <= i <= c.counter ==>
          i in c.messageKeys || i in used || c.counter - i >= 2000)
  }

  ghost function Used(log: seq<Delivery>, id: KeyId): (r: set<int>)
    ensures forall i :: i in r <==> exists d :: d in log && d.ephemeral == id && d.counter == i
  {
    set d | d in log && d.ephemeral == id :: d.counter as int
  }

  ghost function LastRemote(h: History, n: nat): KeyId
    requires n <= |h.keys|
  {
    if n == 0 then h.hs.base else h.keys[n - 1]
  }

  ghost function Order(keys: seq<KeyId>, n: nat): seq<KeyId>
    requires n < |keys|
  {
    Window(keys, n) + if n == 0 then [] else [keys[n]]
  }

  ghost predicate SendingChain(c: Chain, seed: Key, count: nat) {
    c == Chain(Sending, count - 1, Some(ChainKeyAt(seed, count)), map[])
  }

  /** The party at epoch `n` holds the other side's chain of epoch `k`. */
  ghost predicate Receives(h: History, chains: map<KeyId, Chain>, n: nat, k: nat, log: seq<Delivery>)
    requires 1 <= k < |h.keys| && |h.keys| == |h.sent|
  {
    && h.keys[k] in chains
    && ReceivingChain(chains[h.keys[k]], SeedOf(h.hs, h.keys, k), |h.sent[k]| - 1, k == n - 1, Used(log, h.keys[k]))
  }

  ghost predicate Sends(h: History, chains: map<KeyId, Chain>, n: nat)
    requires n < |h.keys| && |h.keys| == |h.sent|
  {
    n != 0 ==> h.keys[n] in chains && SendingChain(chains[h.keys[n]], SeedOf(h.hs, h.keys, n), |h.sent[n]|)
  }

  /** All but the contents of the chains. */
  ghost predicate Frame(h: History, s: Session, n: nat)
    requires ValidHistory(h)
  {
    && n < |h.keys| <= n + 2
    && s.ephemeral == h.keys[n]
    && s.lastRemote == LastRemote(h, n)
    && s.rootKey == Root(h.hs, h.keys, n)
    && s.previousCounter == LastBefore(h, n)
    && s.order == Order(h.keys, n)
    && s.chains.Keys == Ids(Order(h.keys, n))
  }

  /** The session of a party at epoch `n` that opened the messages of `log`. */
  ghost predicate Shape(h: History, s: Session, n: nat, log: seq<Delivery>)
    requires ValidHistory(h)
  {
    && Frame(h, s, n)
    && Sends(h, s.chains, n)
    && (forall d :: d in log ==> d.ephemeral in h.keys[..n])
    && forall k {:trigger InWindow(k, n)} :: InWindow(k, n) ==> Receives(h, s.chains, n, k, log)
  }
}
