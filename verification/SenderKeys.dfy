/** The sender key ratchet on values: the chain of one sender key, its list of skipped message
    keys, and the record of at most five of them. The classes of SenderKeyRecord.dfy are proved
    to compute these functions. */
module SenderKeys {
  import opened Wrappers
  import opened Keys

  const MAX_JUMP := 2000
  const MAX_MESSAGE_KEYS := 2000
  const MAX_STATES := 5

  type Bytes = seq<bv8>

  datatype SenderMessageKey = SenderMessageKey(iteration: int, seed: Key)

  datatype State = State(
    keyId: nat, iteration: nat, seed: Key,
    signingPublic: KeyId, signingPrivate: Option<KeyId>,
    messageKeys: seq<SenderMessageKey>)

  datatype Error = NoState | NoSigningKey | BadSignature | OldCounter | TooFarAhead | BadCiphertext

  // One state.

  /** push, and shift while there are more than 2000. */
  function Newest(keys: seq<SenderMessageKey>): seq<SenderMessageKey> {
    if |keys| <= MAX_MESSAGE_KEYS then keys else keys[|keys| - MAX_MESSAGE_KEYS..]
  }

  /** The message keys passed over on the way to `iteration + n`. */
  function Skipped(iteration: int, seed: Key, n: nat): (r: seq<SenderMessageKey>)
    ensures |r| == n
  {
    if n == 0 then []
    else Skipped(iteration, seed, n - 1) + [SenderMessageKey(iteration + n - 1, MessageKeyAt(seed, n - 1))]
  }

  /** findIndex, with the length for -1 */
  function IndexOf(keys: seq<SenderMessageKey>, iteration: int): (r: nat)
    ensures r <= |keys|
    ensures r < |keys| ==> keys[r].iteration == iteration
    ensures forall i :: 0 <= i < r ==> keys[i].iteration != iteration
  {
    if keys == [] || keys[0].iteration == iteration then 0 else 1 + IndexOf(keys[1..], iteration)
  }

  function RemoveAt<T>(s: seq<T>, i: nat): (r: seq<T>)
    requires i < |s|
  {
    s[..i] + s[i + 1..]
  }

  /** getSenderKey, without its loop. */
  function GetSenderKey(s: State, iteration: int): Result<(State, SenderMessageKey), Error> {
    var n := iteration - s.iteration;
    if n < 0 then
      var i := IndexOf(s.messageKeys, iteration);
      if i == |s.messageKeys| then Failure(OldCounter)
      else Success((s.(messageKeys := RemoveAt(s.messageKeys, i)), s.messageKeys[i]))
    else if n > MAX_JUMP then Failure(TooFarAhead)
    else
      Success((s.(iteration := iteration + 1, seed := ChainKeyAt(s.seed, n + 1),
                  messageKeys := Newest(s.messageKeys + Skipped(s.iteration, s.seed, n))),
               SenderMessageKey(iteration, MessageKeyAt(s.seed, n))))
  }

  // The record.

  function Find(states: seq<State>, keyId: nat): (r: nat)
    ensures r <= |states|
    ensures r < |states| ==> states[r].keyId == keyId
    ensures forall i :: 0 <= i < r ==> states[i].keyId != keyId
  {
    if states == [] || states[0].keyId == keyId then 0 else 1 + Find(states[1..], keyId)
  }

  function AddState(states: seq<State>, s: State): seq<State> {
    var i := Find(states, s.keyId);
    var others := if i < |states| then RemoveAt(states, i) else states;
    var all := others + [s];
    if |all| > MAX_STATES then all[1..] else all
  }

  // What the ratchet keeps. `seed` is the chain key of iteration 0.

  ghost predicate Rising(keys: seq<SenderMessageKey>) {
    forall i, j :: 0 <= i < j < |keys| ==> keys[i].iteration < keys[j].iteration
  }

  ghost predicate OnChain(keys: seq<SenderMessageKey>, seed: Key, next: int) {
    forall k :: k in keys ==> 0 <= k.iteration < next && k.seed == MessageKeyAt(seed, k.iteration)
  }

  ghost predicate Holds(keys: seq<SenderMessageKey>, iteration: int) {
    exists k :: k in keys && k.iteration == iteration
  }

  /** Every key since `from` is there unless it was handed out or is more than 2000 back. */
  ghost predicate Covers(keys: seq<SenderMessageKey>, from: int, next: int, used: set<int>) {
    forall i {:trigger Holds(keys, i)} :: from <= i < next && i !in used && next - i <= 2000 ==>
      Holds(keys, i)
  }

  ghost predicate NoneUsed(keys: seq<SenderMessageKey>, next: int, used: set<int>) {
    (forall k :: k in keys ==> k.iteration !in used) && forall i :: i in used ==> i < next
  }

  /** The state has followed the chain from `seed`, has had its keys since `from`, and has
      handed out those of `used`. */
  ghost predicate Follows(s: State, seed: Key, from: int, used: set<int>) {
    && 0 <= from <= s.iteration && s.seed == ChainKeyAt(seed, s.iteration)
    && Rising(s.messageKeys) && |s.messageKeys| <= 2000
    && OnChain(s.messageKeys, seed, s.iteration)
    && Covers(s.messageKeys, from, s.iteration, used)
    && NoneUsed(s.messageKeys, s.iteration, used)
  }

  lemma StartFollows(keyId: nat, iteration: nat, seed: Key, signing: KeyId, private: Option<KeyId>)
    ensures Follows(State(keyId, iteration, ChainKeyAt(seed, iteration), signing, private, []), seed, iteration, {})
  {
  }

  // Taking a skipped key.

  lemma InRemoved(keys: seq<SenderMessageKey>, i: nat, k: SenderMessageKey)
    requires i < |keys| && k in keys && k != keys[i]
    ensures k in RemoveAt(keys, i)
  {
    var j :| 0 <= j < |keys| && keys[j] == k;
    if j < i {
      assert RemoveAt(keys, i)[j] == k;
    } else {
      assert RemoveAt(keys, i)[j - 1] == k;
    }
  }

  lemma RemovedIn(keys: seq<SenderMessageKey>, i: nat)
    requires i < |keys| && Rising(keys)
    ensures Rising(RemoveAt(keys, i))
    ensures forall k :: k in RemoveAt(keys, i) ==> k in keys && k.iteration != keys[i].iteration
  {
  }

  lemma TakeFollows(s: State, seed: Key, from: int, used: set<int>, i: nat)
    requires Follows(s, seed, from, used) && i < |s.messageKeys|
    ensures var k := s.messageKeys[i];
            && Follows(s.(messageKeys := RemoveAt(s.messageKeys, i)), seed, from, used + {k.iteration})
            && k.iteration !in used && k.seed == MessageKeyAt(seed, k.iteration)
  {
    var k, rest := s.messageKeys[i], RemoveAt(s.messageKeys, i);
    RemovedIn(s.messageKeys, i);
    assert k in s.messageKeys;
    forall j | from <= j < s.iteration && j !in used + {k.iteration} && s.iteration - j <= 2000
      ensures Holds(rest, j)
    {
      assert Holds(s.messageKeys, j);
      var other :| other in s.messageKeys && other.iteration == j;
      InRemoved(s.messageKeys, i, other);
    }
  }

  // Going forward.

  lemma {:induction false} SkippedAt(iteration: int, seed: Key, n: nat, j: nat)
    requires j < n
    ensures Skipped(iteration, seed, n)[j] == SenderMessageKey(iteration + j, MessageKeyAt(seed, j))
  {
    if j < n - 1 {
      SkippedAt(iteration, seed, n - 1, j);
    }
  }

  lemma SkippedOnChain(s: State, seed: Key, n: nat)
    requires 0 <= s.iteration && s.seed == ChainKeyAt(seed, s.iteration)
    ensures forall j :: 0 <= j < n ==>
              Skipped(s.iteration, s.seed, n)[j]
                == SenderMessageKey(s.iteration + j, MessageKeyAt(seed, s.iteration + j))
  {
    forall j: nat | j < n
      ensures Skipped(s.iteration, s.seed, n)[j]
              == SenderMessageKey(s.iteration + j, MessageKeyAt(seed, s.iteration + j))
    {
      SkippedAt(s.iteration, s.seed, n, j);
      ChainKeyComposes(seed, s.iteration, j);
    }
  }

  lemma AllRise(s: State, seed: Key, skipped: seq<SenderMessageKey>)
    requires Rising(s.messageKeys) && OnChain(s.messageKeys, seed, s.iteration)
    requires forall j :: 0 <= j < |skipped| ==> skipped[j].iteration == s.iteration + j
    ensures Rising(s.messageKeys + skipped)
  {
    var all := s.messageKeys + skipped;
    forall i, j | 0 <= i < j < |all| ensures all[i].iteration < all[j].iteration {
      assert i < |s.messageKeys| ==> all[i] in s.messageKeys;
    }
  }

  lemma AllCover(s: State, from: int, used: set<int>, skipped: seq<SenderMessageKey>)
    requires Covers(s.messageKeys, from, s.iteration, used)
    requires forall j :: 0 <= j < |skipped| ==> skipped[j].iteration == s.iteration + j
    ensures Covers(s.messageKeys + skipped, from, s.iteration + |skipped|, used)
  {
    var next := s.iteration + |skipped|;
    forall i | from <= i < next && i !in used && next - i <= 2000
      ensures Holds(s.messageKeys + skipped, i)
    {
      if i < s.iteration {
        assert Holds(s.messageKeys, i);
      } else {
        assert (s.messageKeys + skipped)[|s.messageKeys| + i - s.iteration] in s.messageKeys + skipped;
      }
    }
  }

  lemma AllOnChain(s: State, seed: Key, used: set<int>, skipped: seq<SenderMessageKey>)
    requires OnChain(s.messageKeys, seed, s.iteration) && NoneUsed(s.messageKeys, s.iteration, used) && 0 <= s.iteration
    requires forall j :: 0 <= j < |skipped| ==>
               skipped[j] == SenderMessageKey(s.iteration + j, MessageKeyAt(seed, s.iteration + j))
    ensures OnChain(s.messageKeys + skipped, seed, s.iteration + |skipped|)
    ensures NoneUsed(s.messageKeys + skipped, s.iteration + |skipped|, used)
  {
    hide ChainKeyAt;
  }

  /** The list before anything is dropped. */
  lemma AllFollow(s: State, seed: Key, from: int, used: set<int>, n: nat)
    requires Follows(s, seed, from, used)
    ensures var all := s.messageKeys + Skipped(s.iteration, s.seed, n);
            && Rising(all) && OnChain(all, seed, s.iteration + n)
            && Covers(all, from, s.iteration + n, used) && NoneUsed(all, s.iteration + n, used)
  {
    hide Rising, Covers, OnChain, NoneUsed, Skipped, ChainKeyAt;
    var skipped := Skipped(s.iteration, s.seed, n);
    SkippedOnChain(s, seed, n);
    AllRise(s, seed, skipped);
    AllCover(s, from, used, skipped);
    AllOnChain(s, seed, used, skipped);
  }

  lemma {:induction false} RisingGap(keys: seq<SenderMessageKey>, i: nat, j: nat)
    requires Rising(keys) && i <= j < |keys|
    ensures keys[i].iteration + (j - i) <= keys[j].iteration
  {
    if i < j {
      RisingGap(keys, i, j - 1);
    }
  }

  /** What is dropped is more than 2000 back. */
  lemma NewestFollows(keys: seq<SenderMessageKey>, seed: Key, from: int, next: int, used: set<int>)
    requires Rising(keys) && OnChain(keys, seed, next) && Covers(keys, from, next, used) && NoneUsed(keys, next, used)
    ensures Rising(Newest(keys)) && OnChain(Newest(keys), seed, next)
    ensures Covers(Newest(keys), from, next, used) && NoneUsed(Newest(keys), next, used)
  {
    if |keys| > 2000 {
      var d := |keys| - 2000;
      forall i | from <= i < next && i !in used && next - i <= 2000 ensures Holds(Newest(keys), i) {
        assert Holds(keys, i);
        var k :| k in keys && k.iteration == i;
        var p :| 0 <= p < |keys| && keys[p] == k;
        assert keys[|keys| - 1] in keys;
        if p < d {
          RisingGap(keys, p, |keys| - 1);
          assert false;
        }
        assert keys[d..][p - d] == k;
      }
    }
  }

  lemma NewestSize(keys: seq<SenderMessageKey>)
    ensures |Newest(keys)| <= 2000
  {
  }

  lemma PastFollows(keys: seq<SenderMessageKey>, seed: Key, from: int, next: int, used: set<int>)
    requires OnChain(keys, seed, next) && Covers(keys, from, next, used) && NoneUsed(keys, next, used)
    ensures OnChain(keys, seed, next + 1) && Covers(keys, from, next + 1, used + {next})
    ensures NoneUsed(keys, next + 1, used + {next})
  {
  }

  lemma AdvanceFollows(s: State, seed: Key, from: int, used: set<int>, iteration: int)
    requires Follows(s, seed, from, used) && s.iteration <= iteration <= s.iteration + 2000
    ensures GetSenderKey(s, iteration).Success?
    ensures Follows(GetSenderKey(s, iteration).value.0, seed, from, used + {iteration})
    ensures GetSenderKey(s, iteration).value.1 == SenderMessageKey(iteration, MessageKeyAt(seed, iteration))
  {
    hide Rising, OnChain, Covers, NoneUsed, Skipped, ChainKeyAt, Newest;
    var n := iteration - s.iteration;
    var all := s.messageKeys + Skipped(s.iteration, s.seed, n);
    AllFollow(s, seed, from, used, n);
    ChainKeyComposes(seed, s.iteration, n);
    ChainKeyComposes(seed, s.iteration, n + 1);
    NewestSize(all);
    NewestFollows(all, seed, from, iteration, used);
    PastFollows(Newest(all), seed, from, iteration, used);
  }

  /** Whatever is asked for, the key of an iteration is the one at its place in the KDF chain,
      it has not been handed out before, and the state goes on following the chain. */
  lemma KeyOfIteration(s: State, seed: Key, from: int, used: set<int>, iteration: int)
    requires Follows(s, seed, from, used) && GetSenderKey(s, iteration).Success?
    ensures var (after, key) := GetSenderKey(s, iteration).value;
            && key == SenderMessageKey(iteration, MessageKeyAt(seed, iteration)) && iteration >= 0
            && iteration !in used && Follows(after, seed, from, used + {iteration})
            && after.keyId == s.keyId && after.signingPublic == s.signingPublic
              && after.signingPrivate == s.signingPrivate
  {
    if iteration < s.iteration {
      TakeFollows(s, seed, from, used, IndexOf(s.messageKeys, iteration));
      assert s.messageKeys[IndexOf(s.messageKeys, iteration)] in s.messageKeys;
    } else {
      hide Rising, OnChain, Covers;
      AdvanceFollows(s, seed, from, used, iteration);
    }
  }

  /** A key is handed out exactly when it is cached or at most 2000 ahead. Of the keys since
      `from`, that leaves out only those handed out before and those more than 2000 back. */
  lemma HandedOutExactlyWhen(s: State, seed: Key, from: int, used: set<int>, iteration: int)
    requires Follows(s, seed, from, used)
    ensures GetSenderKey(s, iteration).Success? <==>
              Holds(s.messageKeys, iteration) || s.iteration <= iteration <= s.iteration + 2000
    ensures (from <= iteration <= s.iteration + 2000 && iteration !in used
             && s.iteration - iteration <= 2000)
            ==> GetSenderKey(s, iteration).Success?
  {
    var i := IndexOf(s.messageKeys, iteration);
    if i < |s.messageKeys| {
      assert s.messageKeys[i] in s.messageKeys;
    }
    if Holds(s.messageKeys, iteration) {
      var k :| k in s.messageKeys && k.iteration == iteration;
      assert 0 <= k.iteration < s.iteration;
    }
    if from <= iteration < s.iteration && iteration !in used && s.iteration - iteration <= 2000 {
      assert Holds(s.messageKeys, iteration);
    }
  }

  // The record keeps one state for each of the last five key ids.

  ghost predicate Distinct(states: seq<State>) {
    forall i, j :: 0 <= i < j < |states| ==> states[i].keyId != states[j].keyId
  }

  /** addSenderKeyState: the new state is the latest, no key id is there twice, and nothing is
      kept of an older state with the same id. */
  lemma AddStateKeeps(states: seq<State>, s: State)
    requires Distinct(states) && |states| <= 5
    ensures Distinct(AddState(states, s)) && 1 <= |AddState(states, s)| <= 5
    ensures AddState(states, s)[|AddState(states, s)| - 1] == s
    ensures forall t :: t in AddState(states, s) ==> t == s || (t in states && t.keyId != s.keyId)
  {
    OthersKeep(states, s.keyId);
    hide RemoveAt, Find, Distinct;
    var i := Find(states, s.keyId);
    var others := if i < |states| then RemoveAt(states, i) else states;
    DistinctAppend(others, s);
  }

  lemma OthersKeep(states: seq<State>, keyId: nat)
    requires Distinct(states)
    ensures var i := Find(states, keyId);
            var others := if i < |states| then RemoveAt(states, i) else states;
            Distinct(others) && forall t :: t in others ==> t in states && t.keyId != keyId
  {
    var i := Find(states, keyId);
    hide Find;
    if i < |states| {
      forall t | t in RemoveAt(states, i) ensures t in states && t.keyId != keyId {
        var p :| 0 <= p < |states| - 1 && RemoveAt(states, i)[p] == t;
        assert t == states[if p < i then p else p + 1];
      }
    }
  }

  lemma DistinctAppend(others: seq<State>, s: State)
    requires Distinct(others) && forall t :: t in others ==> t.keyId != s.keyId
    ensures Distinct(others + [s]) && Distinct((others + [s])[1..])
    ensures forall t :: t in (others + [s])[1..] ==> t == s || t in others
  {
    assert forall j :: 0 <= j < |others| ==> others[j] in others;
  }

  lemma StaysInTail(states: seq<State>, s: State, t: State)
    requires t in states && t != states[0]
    ensures t in (states + [s])[1..]
  {
    var p :| 0 <= p < |states| && states[p] == t;
    assert (states + [s])[1..][p - 1] == t;
  }

  lemma StaysWhenRemoved(states: seq<State>, i: nat, t: State)
    requires i < |states| && t in states && t != states[i]
    ensures t in RemoveAt(states, i)
  {
    var p :| 0 <= p < |states| && states[p] == t;
    assert RemoveAt(states, i)[if p < i then p else p - 1] == t;
  }

  /** A state with another id only goes when the record is full, and then the first goes. */
  lemma AddStateDrops(states: seq<State>, s: State, t: State)
    requires Distinct(states) && |states| <= 5 && t in states && t.keyId != s.keyId
    ensures t !in AddState(states, s) ==> t == states[0] && |states| == 5 && Find(states, s.keyId) == |states|
  {
    hide Distinct, Find;
    var i := Find(states, s.keyId);
    if i < |states| {
      StaysWhenRemoved(states, i, t);
    } else if t != states[0] {
      StaysInTail(states, s, t);
    }
  }
}
