/** Key buffers. Every key of a session is a byte buffer that its fields refer to; keys are derived
    into new buffers, and a buffer that is replaced or removed is overwritten with zeros. Here two
    fields may well refer to one buffer. That they never do, so that no key is zeroed that somebody
    still has, is proved of each operation of src/session-cipher.ts and src/session-record.ts. */
module KeyBuffers {
  import opened Wrappers
  import opened Keys
  import opened IntSets
  import opened Ratchet
  import opened Chains

  type Ref = nat

  /** All buffers there are. A new one goes to the end. */
  type Heap = seq<Key>

  function At(h: Heap, r: Ref): Key {
    if r < |h| then h[r] else Zeros
  }

  /** wipeBuffer */
  function Wipe(h: Heap, r: Ref): Heap {
    if r < |h| then h[r := Zeros] else h
  }

  /** What a step may do that starts with the buffers `before` and ends with `after`: it writes to no
      other buffer, it gets no other but new ones, and what it does not keep is zero. */
  ghost predicate Step(h: Heap, before: set<Ref>, g: Heap, after: set<Ref>) {
    && |h| <= |g| && InHeap(g, after)
    && (forall r :: 0 <= r < |h| && r !in before ==> g[r] == h[r])
    && (forall r :: r in after ==> r in before || |h| <= r)
    && (forall r :: 0 <= r < |g| && (r in before || |h| <= r) && r !in after ==> g[r] == Zeros)
  }

  ghost predicate InHeap(h: Heap, refs: set<Ref>) {
    forall r :: r in refs ==> r < |h|
  }

  lemma StepNothing(h: Heap, refs: set<Ref>)
    requires InHeap(h, refs)
    ensures Step(h, refs, h, refs)
  {
  }

  lemma StepThen(h: Heap, a: set<Ref>, g: Heap, b: set<Ref>, k: Heap, c: set<Ref>)
    requires Step(h, a, g, b) && Step(g, b, k, c)
    ensures Step(h, a, k, c)
  {
  }

  /** What a step does not start with stays as it is. */
  lemma StepBeside(h: Heap, a: set<Ref>, g: Heap, b: set<Ref>, rest: set<Ref>)
    requires Step(h, a, g, b) && InHeap(h, rest) && a !! rest
    ensures Step(h, a + rest, g, b + rest) && InHeap(g, rest) && b !! rest
    ensures forall r :: r in rest ==> At(g, r) == At(h, r)
  {
  }

  // Chains.

  datatype ChainRefs = ChainRefs(kind: ChainType, counter: int, key: Option<Ref>, messageKeys: map<int, Ref>)

  function KeyRef(c: ChainRefs): set<Ref> {
    if c.key.Some? then {c.key.value} else {}
  }

  function RefsOf(c: ChainRefs): set<Ref> {
    KeyRef(c) + c.messageKeys.Values
  }

  function ReadAll(h: Heap, m: map<int, Ref>): map<int, Key> {
    map i | i in m :: At(h, m[i])
  }

  function ReadKey(h: Heap, key: Option<Ref>): Option<Key> {
    if key.Some? then Some(At(h, key.value)) else None
  }

  /** The chain as it reads: what Ratchet.dfy calls a chain. */
  function ChainValue(h: Heap, c: ChainRefs): Chain {
    Chain(c.kind, c.counter, ReadKey(h, c.key), ReadAll(h, c.messageKeys))
  }

  ghost predicate Injective(m: map<int, Ref>) {
    forall i, j :: i in m && j in m && i != j ==> m[i] != m[j]
  }

  lemma KeyFor<K, V>(m: map<K, V>, v: V) returns (k: K)
    requires v in m.Values
    ensures k in m && m[k] == v
  {
    k :| k in m && m[k] == v;
  }

  lemma PutValue(m: map<int, Ref>, i: int, r: Ref)
    requires Injective(m) && i !in m && r !in m.Values
    ensures m[i := r].Values == m.Values + {r} && Injective(m[i := r])
  {
    var n := m[i := r];
    assert n[i] == r && forall j :: j in m ==> n[j] == m[j] && m[j] in m.Values;
    forall v | v in m.Values + {r} ensures v in n.Values {
      if v != r {
        var j := KeyFor(m, v);
        assert n[j] == v;
      }
    }
  }

  lemma DropValue(m: map<int, Ref>, i: int)
    requires Injective(m) && i in m
    ensures (m - {i}).Values == m.Values - {m[i]} && Injective(m - {i}) && m[i] in m.Values
  {
    var n := m - {i};
    assert forall j :: j in n ==> n[j] == m[j] && m[j] != m[i] && m[j] in m.Values;
    forall v | v in m.Values - {m[i]} ensures v in n.Values {
      var j := KeyFor(m, v);
      assert n[j] == v;
    }
    forall v | v in n.Values ensures v in m.Values - {m[i]} {
      var j := KeyFor(n, v);
    }
  }

  /** No two keys of the chain share a buffer. */
  ghost predicate ChainSound(h: Heap, c: ChainRefs) {
    && InHeap(h, RefsOf(c)) && Injective(c.messageKeys) && KeyRef(c) !! c.messageKeys.Values
    && forall i :: i in c.messageKeys ==> i <= c.counter
  }

  /** The chain `c` has become `d`, and its other buffers are zero. */
  ghost predicate ChainStep(h: Heap, c: ChainRefs, g: Heap, d: ChainRefs) {
    ChainSound(g, d) && Step(h, RefsOf(c), g, RefsOf(d))
  }

  lemma ChainThen(h: Heap, c: ChainRefs, g: Heap, d: ChainRefs, k: Heap, e: ChainRefs)
    requires ChainStep(h, c, g, d) && ChainStep(g, d, k, e)
    ensures ChainStep(h, c, k, e)
  {
    hide ChainSound, RefsOf;
    StepThen(h, RefsOf(c), g, RefsOf(d), k, RefsOf(e));
  }

  lemma ChainStays(h: Heap, c: ChainRefs)
    requires ChainSound(h, c)
    ensures ChainStep(h, c, h, c)
  {
  }

  /** A chain reads the same where its buffers are the same. */
  lemma ChainReads(h: Heap, g: Heap, c: ChainRefs)
    requires ChainSound(h, c) && |h| <= |g| && forall r :: r in RefsOf(c) ==> At(g, r) == At(h, r)
    ensures ChainSound(g, c) && ChainValue(g, c) == ChainValue(h, c)
  {
  }

  /** One turn of the loop of fillMessageKeys. */
  method Advance(h: Heap, c: ChainRefs) returns (g: Heap, d: ChainRefs)
    requires ChainSound(h, c) && c.key.Some?
    ensures ChainStep(h, c, g, d) && ChainValue(g, d) == Advanced(ChainValue(h, c))
    ensures d.key.Some? && d.counter == c.counter + 1
  {
    var key := c.key.value;
    var messageKey, chainKey := |h|, |h| + 1;
    g := h + [Hmac(At(h, key), 1)];
    g := g + [Hmac(At(g, key), 2)];
    g := Wipe(g, key);
    d := c.(messageKeys := c.messageKeys[c.counter + 1 := messageKey], key := Some(chainKey), counter := c.counter + 1);
    AdvanceIsStep(h, c, g, d);
    AdvanceReads(h, c, g, d);
  }

  ghost predicate IsAdvance(h: Heap, c: ChainRefs, g: Heap, d: ChainRefs) {
    && c.key.Some? && c.key.value < |h|
    && g == (h + [Hmac(h[c.key.value], 1), Hmac(h[c.key.value], 2)])[c.key.value := Zeros]
    && d == ChainRefs(c.kind, c.counter + 1, Some(|h| + 1), c.messageKeys[c.counter + 1 := |h|])
  }

  lemma AdvanceIsStep(h: Heap, c: ChainRefs, g: Heap, d: ChainRefs)
    requires ChainSound(h, c) && IsAdvance(h, c, g, d)
    ensures ChainStep(h, c, g, d)
  {
    assert |h| !in c.messageKeys.Values && c.counter + 1 !in c.messageKeys;
    PutValue(c.messageKeys, c.counter + 1, |h|);
    hide Injective;
    assert RefsOf(d) == c.messageKeys.Values + {|h|} + {|h| + 1};
  }

  lemma AdvanceReads(h: Heap, c: ChainRefs, g: Heap, d: ChainRefs)
    requires ChainSound(h, c) && IsAdvance(h, c, g, d)
    ensures ChainValue(g, d) == Advanced(ChainValue(h, c))
  {
    forall i | i in c.messageKeys ensures At(g, c.messageKeys[i]) == At(h, c.messageKeys[i]) {
      assert c.messageKeys[i] in c.messageKeys.Values;
    }
    assert ReadAll(g, d.messageKeys) == ReadAll(h, c.messageKeys)[c.counter + 1 := Hmac(h[c.key.value], 1)];
  }

  /** wipeBuffer and delete, on one message key. */
  method DropMessageKey(h: Heap, c: ChainRefs, index: int) returns (g: Heap, d: ChainRefs)
    requires ChainSound(h, c) && index in c.messageKeys
    ensures ChainStep(h, c, g, d)
    ensures ChainValue(g, d) == ChainValue(h, c).(messageKeys := ChainValue(h, c).messageKeys - {index})
    ensures d == c.(messageKeys := c.messageKeys - {index})
  {
    g, d := Wipe(h, c.messageKeys[index]), c.(messageKeys := c.messageKeys - {index});
    DropValue(c.messageKeys, index);
    forall i | i in d.messageKeys ensures At(g, d.messageKeys[i]) == At(h, c.messageKeys[i]) {
    }
    assert ReadAll(g, d.messageKeys) == ReadAll(h, c.messageKeys) - {index};
    hide Injective;
  }

  method PruneNext(h: Heap, c: ChainRefs, ghost before: map<int, Key>, indexes: seq<int>, i: nat)
    returns (g: Heap, d: ChainRefs)
    requires ChainSound(h, c) && Pruning(before, ChainValue(h, c).messageKeys, indexes, i) && i < |indexes|
    ensures ChainStep(h, c, g, d) && Pruning(before, ChainValue(g, d).messageKeys, indexes, i + 1)
    ensures ChainValue(g, d) == ChainValue(h, c).(messageKeys := ChainValue(g, d).messageKeys)
  {
    NextIndex(before, ChainValue(h, c).messageKeys, indexes, i);
    hide Pruning, SortedKeys, ChainSound, ChainStep;
    g, d := DropMessageKey(h, c, indexes[i]);
  }

  method PruneFirst(h: Heap, c: ChainRefs, ghost before: map<int, Key>, indexes: seq<int>, n: nat)
    returns (g: Heap, d: ChainRefs)
    requires ChainSound(h, c) && Pruning(before, ChainValue(h, c).messageKeys, indexes, 0) && n <= |indexes|
    ensures ChainStep(h, c, g, d) && Pruning(before, ChainValue(g, d).messageKeys, indexes, n)
    ensures ChainValue(g, d) == ChainValue(h, c).(messageKeys := ChainValue(g, d).messageKeys)
  {
    ChainStays(h, c);
    hide *;
    g, d := h, c;
    for i := 0 to n
      invariant ChainStep(h, c, g, d) && Pruning(before, ChainValue(g, d).messageKeys, indexes, i)
      invariant ChainValue(g, d) == ChainValue(h, c).(messageKeys := ChainValue(g, d).messageKeys)
    {
      StepSound(h, c, g, d);
      var g', d' := PruneNext(g, d, before, indexes, i);
      ChainThen(h, c, g, d, g', d');
      g, d := g', d';
    }
  }

  /** pruneMessageKeys */
  method Prune(h: Heap, c: ChainRefs) returns (g: Heap, d: ChainRefs)
    requires ChainSound(h, c)
    ensures ChainStep(h, c, g, d)
    ensures ChainValue(g, d) == ChainValue(h, c).(messageKeys := Newest(ChainValue(h, c).messageKeys))
  {
    ghost var before := ChainValue(h, c).messageKeys;
    assert c.messageKeys.Keys == before.Keys;
    var indexes := SortedKeys(c.messageKeys.Keys);
    var n := if |indexes| <= MAX_MESSAGE_KEYS then 0 else |indexes| - MAX_MESSAGE_KEYS;
    hide *;
    PruningStarts(before, indexes);
    g, d := PruneFirst(h, c, before, indexes, n);
    PruningEnds(before, ChainValue(g, d).messageKeys, indexes, n);
  }

  lemma StepSound(h: Heap, c: ChainRefs, g: Heap, d: ChainRefs)
    requires ChainStep(h, c, g, d)
    ensures ChainSound(g, d)
  {
  }

  lemma CachedBelow(h: Heap, c: ChainRefs)
    requires ChainSound(h, c)
    ensures forall i :: i in ChainValue(h, c).messageKeys ==> i <= ChainValue(h, c).counter
  {
  }

  /** fillMessageKeys: the chain that Fill returns, in buffers of its own, or nothing has changed. */
  method FillMessageKeys(h: Heap, c: ChainRefs, target: int) returns (g: Heap, d: ChainRefs, r: Result<(), Error>)
    requires ChainSound(h, c)
    ensures ChainStep(h, c, g, d)
    ensures match Fill(ChainValue(h, c), target)
            case Failure(e) => r == Failure(e) && g == h && d == c
            case Success(v) => r == Success(()) && ChainValue(g, d) == v
  {
    ghost var before := ChainValue(h, c);
    FillingErrors(before, target);
    ChainStays(h, c);
    CachedBelow(h, c);
    assert Filling(before, before);
    hide Filling, Fill, ChainSound, ChainStep, ReadAll, Advanced;
    g, d := h, c;
    while d.counter < target
      invariant ChainStep(h, c, g, d) && Filling(before, ChainValue(g, d))
      invariant c.counter <= d.counter && (d.counter <= target || d.counter == c.counter)
      invariant d.counter == c.counter ==> g == h && d == c
      invariant c.counter < d.counter ==> target - c.counter <= MAX_FILL && c.key.Some? && d.key.Some?
    {
      if target - d.counter > 2000 {
        return g, d, Failure(TooFarAhead);
      }
      if d.key.None? {
        return g, d, Failure(ChainClosed);
      }
      FillingNext(before, ChainValue(g, d));
      StepSound(h, c, g, d);
      var g', d' := Advance(g, d);
      ChainThen(h, c, g, d, g', d');
      g, d := g', d';
    }
    if d.counter != c.counter {
      FillingEnds(before, ChainValue(g, d), target);
      StepSound(h, c, g, d);
      var g', d' := Prune(g, d);
      ChainThen(h, c, g, d, g', d');
      g, d := g', d';
    }
    r := Success(());
  }

  /** The chain key is wiped and deleted. */
  method Close(h: Heap, c: ChainRefs) returns (g: Heap, d: ChainRefs)
    requires ChainSound(h, c)
    ensures ChainStep(h, c, g, d) && ChainValue(g, d) == ChainValue(h, c).(key := None)
  {
    g := if c.key.Some? then Wipe(h, c.key.value) else h;
    d := c.(key := None);
    forall i | i in c.messageKeys ensures At(g, c.messageKeys[i]) == At(h, c.messageKeys[i]) {
      assert c.messageKeys[i] in c.messageKeys.Values;
    }
    assert ReadAll(g, d.messageKeys) == ReadAll(h, c.messageKeys);
  }

  /** The chain as Buffer.from copies it, key by key. */
  method CopyChain(h: Heap, c: ChainRefs) returns (g: Heap, d: ChainRefs)
    requires ChainSound(h, c)
    ensures ChainSound(g, d) && Step(h, {}, g, RefsOf(d)) && ChainValue(g, d) == ChainValue(h, c)
  {
    var indexes := SortedKeys(c.messageKeys.Keys);
    g, d := h, ChainRefs(c.kind, c.counter, None, map[]);
    if c.key.Some? {
      g, d := h + [At(h, c.key.value)], d.(key := Some(|h|));
    }
    SortedMembers(c.messageKeys.Keys);
    CopyingStarts(h, c, g, d, indexes);
    hide SortedKeys, CopyingChain, Members, ChainSound, Ascending;
    for i := 0 to |indexes|
      invariant CopyingChain(h, c, g, d, indexes, i)
    {
      CopyingNext(h, c, g, d, indexes, i);
      var copied := |g|;
      g := g + [At(g, c.messageKeys[indexes[i]])];
      d := d.(messageKeys := d.messageKeys[indexes[i] := copied]);
    }
    CopyingEnds(h, c, g, d, indexes);
  }

  /** `i` message keys have been copied. */
  ghost predicate CopyingChain(h: Heap, c: ChainRefs, g: Heap, d: ChainRefs, indexes: seq<int>, i: nat) {
    && Ascending(indexes) && i <= |indexes| && Members(indexes) == c.messageKeys.Keys
    && d.kind == c.kind && d.counter == c.counter && ReadKey(g, d.key) == ReadKey(h, c.key)
    && ChainSound(g, d) && Step(h, {}, g, RefsOf(d))
    && CopiedKeys(h, c.messageKeys, g, d.messageKeys, Members(indexes[..i]))
  }

  ghost predicate CopiedKeys(h: Heap, m: map<int, Ref>, g: Heap, n: map<int, Ref>, done: set<int>) {
    n.Keys == done && forall j :: j in n ==> j in m && At(g, n[j]) == At(h, m[j])
  }

  lemma CopyingStarts(h: Heap, c: ChainRefs, g: Heap, d: ChainRefs, indexes: seq<int>)
    requires ChainSound(h, c) && Ascending(indexes) && Members(indexes) == c.messageKeys.Keys
    requires d == ChainRefs(c.kind, c.counter, if c.key.Some? then Some(|h|) else None, map[])
    requires g == if c.key.Some? then h + [At(h, c.key.value)] else h
    ensures CopyingChain(h, c, g, d, indexes, 0)
  {
    assert indexes[..0] == [];
  }

  lemma CopyingNext(h: Heap, c: ChainRefs, g: Heap, d: ChainRefs, indexes: seq<int>, i: nat)
    requires ChainSound(h, c) && CopyingChain(h, c, g, d, indexes, i) && i < |indexes|
    ensures indexes[i] in c.messageKeys
    ensures CopyingChain(h, c, g + [At(g, c.messageKeys[indexes[i]])],
                         d.(messageKeys := d.messageKeys[indexes[i] := |g|]), indexes, i + 1)
  {
    var k := indexes[i];
    assert k in Members(indexes);
    assert indexes[..i + 1] == indexes[..i] + [k];
    assert k !in Members(indexes[..i]);
    assert Members(indexes[..i + 1]) == Members(indexes[..i]) + {k};
    assert c.messageKeys[k] in c.messageKeys.Values;
    hide Members, Ascending;
    CopiedNext(h, c, g, d, k, Members(indexes[..i]));
    hide ChainSound, Step, CopiedKeys, RefsOf;
  }

  lemma CopiedNext(h: Heap, c: ChainRefs, g: Heap, d: ChainRefs, k: int, done: set<int>)
    requires ChainSound(h, c) && ChainSound(g, d) && Step(h, {}, g, RefsOf(d)) && k in c.messageKeys && k !in done
    requires CopiedKeys(h, c.messageKeys, g, d.messageKeys, done) && k <= d.counter
    ensures var g', d' := g + [At(g, c.messageKeys[k])], d.(messageKeys := d.messageKeys[k := |g|]);
            && ChainSound(g', d') && Step(h, {}, g', RefsOf(d')) && ReadKey(g', d'.key) == ReadKey(g, d.key)
            && CopiedKeys(h, c.messageKeys, g', d'.messageKeys, done + {k})
  {
    assert |g| !in d.messageKeys.Values && c.messageKeys[k] in c.messageKeys.Values;
    PutValue(d.messageKeys, k, |g|);
    forall j | j in d.messageKeys ensures d.messageKeys[j] < |g| {
      assert d.messageKeys[j] in d.messageKeys.Values;
    }
    hide Injective;
  }

  lemma CopyingEnds(h: Heap, c: ChainRefs, g: Heap, d: ChainRefs, indexes: seq<int>)
    requires CopyingChain(h, c, g, d, indexes, |indexes|)
    ensures ChainSound(g, d) && Step(h, {}, g, RefsOf(d)) && ChainValue(g, d) == ChainValue(h, c)
  {
    assert indexes[..|indexes|] == indexes;
    assert d.messageKeys.Keys == c.messageKeys.Keys;
    assert ReadAll(g, d.messageKeys) == ReadAll(h, c.messageKeys);
  }

  /** The keys at the first `i` of these indexes are zero, and nothing but keys of the chain has changed. */
  ghost predicate Wiping(h: Heap, c: ChainRefs, g: Heap, indexes: seq<int>, i: nat) {
    && i <= |indexes| && Members(indexes) == c.messageKeys.Keys
    && |g| == |h| && (forall r :: 0 <= r < |h| && r !in RefsOf(c) ==> g[r] == h[r])
    && (forall r :: r in KeyRef(c) ==> At(g, r) == Zeros)
    && forall j :: 0 <= j < i ==> indexes[j] in c.messageKeys && At(g, c.messageKeys[indexes[j]]) == Zeros
  }

  lemma WipingStarts(h: Heap, c: ChainRefs, g: Heap, indexes: seq<int>)
    requires Members(indexes) == c.messageKeys.Keys && g == if c.key.Some? then Wipe(h, c.key.value) else h
    ensures Wiping(h, c, g, indexes, 0)
  {
  }

  lemma WipingEnds(h: Heap, c: ChainRefs, g: Heap, indexes: seq<int>)
    requires ChainSound(h, c) && Wiping(h, c, g, indexes, |indexes|)
    ensures Step(h, RefsOf(c), g, {})
  {
    forall r | r in c.messageKeys.Values ensures At(g, r) == Zeros {
      var k := KeyFor(c.messageKeys, r);
      assert k in Members(indexes);
    }
  }

  lemma WipingNext(h: Heap, c: ChainRefs, g: Heap, indexes: seq<int>, i: nat)
    requires ChainSound(h, c) && Wiping(h, c, g, indexes, i) && i < |indexes|
    ensures indexes[i] in c.messageKeys && Wiping(h, c, Wipe(g, c.messageKeys[indexes[i]]), indexes, i + 1)
  {
    assert indexes[i] in Members(indexes);
    assert c.messageKeys[indexes[i]] in c.messageKeys.Values;
  }

  /** Every key of the chain is zeroed, as deleteChain and wipeKeyMaterial do. */
  method WipeChain(h: Heap, c: ChainRefs) returns (g: Heap)
    requires ChainSound(h, c)
    ensures Step(h, RefsOf(c), g, {})
  {
    var indexes := SortedKeys(c.messageKeys.Keys);
    SortedMembers(c.messageKeys.Keys);
    g := if c.key.Some? then Wipe(h, c.key.value) else h;
    WipingStarts(h, c, g, indexes);
    hide SortedKeys, Wiping, ChainSound, RefsOf, Ascending, Members;
    for i := 0 to |indexes|
      invariant Wiping(h, c, g, indexes, i)
    {
      WipingNext(h, c, g, indexes, i);
      g := Wipe(g, c.messageKeys[indexes[i]]);
    }
    WipingEnds(h, c, g, indexes);
  }
}
