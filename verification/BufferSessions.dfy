/** A session whose keys are buffers, and the operations on it: each computes its function of
    Ratchet.dfy, touches no buffer of anybody else, and leaves none of its own behind unwiped. */
module SessionBuffers {
  import opened Wrappers
  import opened Keys
  import opened Ratchet
  import opened ChainIds
  import opened Entries
  import opened KeyBuffers

  datatype Entry = Entry(
    ephemeral: KeyId, privateKey: Ref, lastRemote: KeyId, previousCounter: int, rootKey: Ref,
    chains: map<KeyId, ChainRefs>, order: seq<KeyId>,
    remoteIdentity: KeyId, baseKey: KeyId, pending: Option<PreKeyRef>)

  ghost function TableRefs(chains: map<KeyId, ChainRefs>): set<Ref> {
    set id, r | id in chains && r in RefsOf(chains[id]) :: r
  }

  ghost function RatchetRefs(e: Entry): set<Ref> {
    {e.privateKey, e.rootKey}
  }

  ghost function Refs(e: Entry): set<Ref> {
    RatchetRefs(e) + TableRefs(e.chains)
  }

  function TableValue(h: Heap, chains: map<KeyId, ChainRefs>): map<KeyId, Chain> {
    map id | id in chains :: ChainValue(h, chains[id])
  }

  /** The session as it reads. */
  function EntryValue(h: Heap, e: Entry): Session {
    Session(e.ephemeral, e.lastRemote, e.previousCounter, At(h, e.rootKey), TableValue(h, e.chains), e.order,
            e.remoteIdentity, e.baseKey, e.pending)
  }

  ghost predicate TableSound(h: Heap, chains: map<KeyId, ChainRefs>) {
    && (forall id :: id in chains ==> ChainSound(h, chains[id]))
    && forall a, b :: a in chains && b in chains && a != b ==> RefsOf(chains[a]) !! RefsOf(chains[b])
  }

  /** No two keys of the session share a buffer, and its private key is the one of its public key. */
  ghost predicate EntrySound(h: Heap, e: Entry) {
    && RatchetSound(h, e) && TableSound(h, e.chains) && RatchetRefs(e) !! TableRefs(e.chains)
    && e.chains.Keys == Ids(e.order) && NoRepeats(e.order)
  }

  ghost predicate RatchetSound(h: Heap, e: Entry) {
    InHeap(h, RatchetRefs(e)) && e.privateKey != e.rootKey && At(h, e.privateKey) == Private(e.ephemeral)
  }

  /** The session `e` has become `d`. Of its other buffers only `left` may not be zero. */
  ghost predicate EntryStep(h: Heap, e: Entry, g: Heap, d: Entry, left: set<Ref>) {
    EntrySound(g, d) && Refs(d) !! left && Step(h, Refs(e), g, Refs(d) + left)
  }

  lemma EntryThen(h: Heap, e: Entry, g: Heap, d: Entry, k: Heap, f: Entry, left: set<Ref>)
    requires EntryStep(h, e, g, d, {}) && EntryStep(g, d, k, f, left)
    ensures EntryStep(h, e, k, f, left)
  {
    hide EntrySound, Refs;
    assert Refs(d) + {} == Refs(d);
    StepThen(h, Refs(e), g, Refs(d), k, Refs(f) + left);
  }

  lemma EntryStays(h: Heap, e: Entry)
    requires EntrySound(h, e)
    ensures EntryStep(h, e, h, e, {})
  {
    EntryInHeap(h, e);
    StepNothing(h, Refs(e));
    hide EntrySound, Refs, Step;
    assert Refs(e) + {} == Refs(e);
  }

  lemma EntryInHeap(h: Heap, e: Entry)
    requires EntrySound(h, e)
    ensures InHeap(h, Refs(e)) && InHeap(h, TableRefs(e.chains)) && InHeap(h, RatchetRefs(e))
  {
    TableInHeap(h, e.chains);
  }

  lemma TableInHeap(h: Heap, chains: map<KeyId, ChainRefs>)
    requires TableSound(h, chains)
    ensures InHeap(h, TableRefs(chains))
  {
  }

  // One chain of the table.

  lemma Split(h: Heap, chains: map<KeyId, ChainRefs>, id: KeyId)
    requires TableSound(h, chains) && id in chains
    ensures TableRefs(chains) == RefsOf(chains[id]) + TableRefs(chains - {id})
    ensures RefsOf(chains[id]) !! TableRefs(chains - {id}) && TableSound(h, chains - {id}) && ChainSound(h, chains[id])
    ensures TableValue(h, chains - {id}) == TableValue(h, chains) - {id}
  {
    hide RefsOf, ChainSound, ChainValue;
    var rest := chains - {id};
    forall r ensures r in TableRefs(chains) <==> r in RefsOf(chains[id]) + TableRefs(rest) {
      if r in TableRefs(chains) && r !in RefsOf(chains[id]) {
        var k :| k in chains && r in RefsOf(chains[k]);
        assert rest[k] == chains[k];
      }
    }
  }

  lemma Joins(h: Heap, chains: map<KeyId, ChainRefs>, id: KeyId, c: ChainRefs)
    requires TableSound(h, chains) && id !in chains && ChainSound(h, c) && RefsOf(c) !! TableRefs(chains)
    ensures TableRefs(chains[id := c]) == TableRefs(chains) + RefsOf(c) && TableSound(h, chains[id := c])
    ensures TableValue(h, chains[id := c]) == TableValue(h, chains)[id := ChainValue(h, c)]
  {
    hide RefsOf, ChainSound, ChainValue;
    var t := chains[id := c];
    forall r | r in TableRefs(chains) + RefsOf(c) ensures r in TableRefs(t) {
      if r in RefsOf(c) {
        assert t[id] == c;
      } else {
        var k :| k in chains && r in RefsOf(chains[k]);
        assert t[k] == chains[k];
      }
    }
    forall a, b | a in t && b in t && a != b ensures RefsOf(t[a]) !! RefsOf(t[b]) {
      assert forall k :: k in chains ==> RefsOf(chains[k]) <= TableRefs(chains);
    }
  }

  lemma TableReads(h: Heap, g: Heap, chains: map<KeyId, ChainRefs>)
    requires TableSound(h, chains) && |h| <= |g| && forall r :: r in TableRefs(chains) ==> At(g, r) == At(h, r)
    ensures TableSound(g, chains) && TableValue(g, chains) == TableValue(h, chains)
  {
    forall id | id in chains
      ensures ChainSound(g, chains[id]) && ChainValue(g, chains[id]) == ChainValue(h, chains[id])
    {
      forall r | r in RefsOf(chains[id]) ensures At(g, r) == At(h, r) {
        assert r in TableRefs(chains);
      }
      ChainReads(h, g, chains[id]);
    }
    hide ChainSound, ChainValue, RefsOf, At;
  }

  /** An operation on one chain is one on the table. */
  lemma ChainInTable(h: Heap, chains: map<KeyId, ChainRefs>, id: KeyId, g: Heap, d: ChainRefs)
    requires TableSound(h, chains) && id in chains && ChainStep(h, chains[id], g, d)
    ensures TableSound(g, chains[id := d]) && Step(h, TableRefs(chains), g, TableRefs(chains[id := d]))
    ensures TableValue(g, chains[id := d]) == TableValue(h, chains)[id := ChainValue(g, d)]
  {
    Split(h, chains, id);
    hide TableSound, ChainSound, TableRefs, RefsOf, ChainValue, Step, TableValue;
    ChainJoins(h, chains[id], chains - {id}, id, g, d);
    assert (chains - {id})[id := d] == chains[id := d];
    assert (TableValue(h, chains) - {id})[id := ChainValue(g, d)] == TableValue(h, chains)[id := ChainValue(g, d)];
  }

  lemma ChainJoins(h: Heap, c: ChainRefs, rest: map<KeyId, ChainRefs>, id: KeyId, g: Heap, d: ChainRefs)
    requires ChainStep(h, c, g, d) && TableSound(h, rest) && id !in rest && RefsOf(c) !! TableRefs(rest)
    ensures TableSound(g, rest[id := d])
    ensures Step(h, RefsOf(c) + TableRefs(rest), g, TableRefs(rest[id := d]))
    ensures TableValue(g, rest[id := d]) == TableValue(h, rest)[id := ChainValue(g, d)]
  {
    TableInHeap(h, rest);
    hide TableSound, ChainSound, TableRefs, RefsOf, ChainValue, Step, TableValue;
    StepBeside(h, RefsOf(c), g, RefsOf(d), TableRefs(rest));
    Longer(h, RefsOf(c), g, RefsOf(d));
    TableReads(h, g, rest);
    Joins(g, rest, id, d);
    assert TableRefs(rest) + RefsOf(d) == RefsOf(d) + TableRefs(rest);
  }

  lemma Longer(h: Heap, a: set<Ref>, g: Heap, b: set<Ref>)
    requires Step(h, a, g, b)
    ensures |h| <= |g|
  {
  }

  /** An operation on the table is one on the session. */
  lemma TableInEntry(h: Heap, e: Entry, g: Heap, chains: map<KeyId, ChainRefs>, order: seq<KeyId>)
    requires EntrySound(h, e) && TableSound(g, chains) && Step(h, TableRefs(e.chains), g, TableRefs(chains))
    requires chains.Keys == Ids(order) && NoRepeats(order)
    ensures EntryStep(h, e, g, e.(chains := chains, order := order), {})
    ensures EntryValue(g, e.(chains := chains, order := order))
            == EntryValue(h, e).(chains := TableValue(g, chains), order := order)
  {
    EntryInHeap(h, e);
    hide TableSound, TableRefs, Step, Ids, NoRepeats, TableValue;
    var d := e.(chains := chains, order := order);
    StepBeside(h, TableRefs(e.chains), g, TableRefs(chains), RatchetRefs(e));
    assert TableRefs(chains) + RatchetRefs(e) == Refs(d) == Refs(d) + {};
    assert TableRefs(e.chains) + RatchetRefs(e) == Refs(e);
  }

  lemma ChainInEntry(h: Heap, e: Entry, id: KeyId, g: Heap, d: ChainRefs)
    requires EntrySound(h, e) && id in e.chains && ChainStep(h, e.chains[id], g, d)
    ensures EntryStep(h, e, g, e.(chains := e.chains[id := d]), {})
    ensures EntryValue(g, e.(chains := e.chains[id := d]))
            == EntryValue(h, e).(chains := EntryValue(h, e).chains[id := ChainValue(g, d)])
  {
    hide TableSound, TableRefs, Step, Ids, NoRepeats, TableValue, ChainStep, ChainValue, EntryStep, RatchetSound,
         RatchetRefs;
    ChainInTable(h, e.chains, id, g, d);
    assert e.chains[id := d].Keys == e.chains.Keys;
    TableInEntry(h, e, g, e.chains[id := d], e.order);
  }

  lemma SoundChain(h: Heap, e: Entry, id: KeyId)
    requires EntrySound(h, e) && id in e.chains
    ensures ChainSound(h, e.chains[id]) && id in EntryValue(h, e).chains
    ensures EntryValue(h, e).chains[id] == ChainValue(h, e.chains[id])
  {
    hide ChainSound, ChainValue, RefsOf, Ids, NoRepeats, RatchetSound, TableRefs;
  }

  lemma StepSoundEntry(h: Heap, e: Entry, g: Heap, d: Entry, left: set<Ref>)
    requires EntryStep(h, e, g, d, left)
    ensures EntrySound(g, d)
  {
    hide EntrySound, Refs, Step;
  }

  /** fillMessageKeys on one of our chains */
  method FillAt(h: Heap, e: Entry, id: KeyId, target: int) returns (g: Heap, d: Entry, r: Result<(), Error>)
    requires EntrySound(h, e) && id in e.chains
    ensures EntryStep(h, e, g, d, {}) && id in d.chains && d == e.(chains := d.chains)
    ensures match Fill(EntryValue(h, e).chains[id], target)
            case Failure(f) => r == Failure(f) && g == h && d == e
            case Success(c) =>
              r.Success? && EntryValue(g, d) == EntryValue(h, e).(chains := EntryValue(h, e).chains[id := c])
  {
    hide EntrySound, EntryStep, EntryValue, ChainSound, ChainStep, ChainValue, Fill;
    SoundChain(h, e, id);
    EntryStays(h, e);
    var c;
    g, c, r := FillMessageKeys(h, e.chains[id], target);
    if r.Failure? {
      return h, e, r;
    }
    d := e.(chains := e.chains[id := c]);
    ChainInEntry(h, e, id, g, c);
  }

  method CloseAt(h: Heap, e: Entry, id: KeyId) returns (g: Heap, d: Entry)
    requires EntrySound(h, e) && id in e.chains
    ensures EntryStep(h, e, g, d, {})
    ensures EntryValue(g, d)
            == EntryValue(h, e).(chains := EntryValue(h, e).chains[id := EntryValue(h, e).chains[id].(key := None)])
    ensures d.privateKey == e.privateKey
  {
    hide EntrySound, EntryStep, EntryValue, ChainSound, ChainStep;
    SoundChain(h, e, id);
    var c;
    g, c := Close(h, e.chains[id]);
    d := e.(chains := e.chains[id := c]);
    ChainInEntry(h, e, id, g, c);
  }

  lemma SameIds(h: Heap, e: Entry)
    ensures EntryValue(h, e).chains.Keys == e.chains.Keys
  {
  }

  /** The part of maybeStepRatchet that closes the previous remote chain. */
  method ClosePrevious(h: Heap, e: Entry, previousCounter: int) returns (g: Heap, d: Entry, r: Result<(), Error>)
    requires EntrySound(h, e)
    ensures EntryStep(h, e, g, d, {})
    ensures match Ratchet.ClosePrevious(EntryValue(h, e), previousCounter)
            case Failure(f) => r == Failure(f)
            case Success(s) => r.Success? && EntryValue(g, d) == s
    ensures d.privateKey == e.privateKey
  {
    hide EntrySound, EntryStep, Fill, TableValue;
    SameIds(h, e);
    EntryStays(h, e);
    g, d, r := h, e, Success(());
    if e.lastRemote in e.chains {
      g, d, r := FillAt(h, e, e.lastRemote, previousCounter);
      if r.Success? {
        StepSoundEntry(h, e, g, d, {});
        var g', d' := CloseAt(g, d, e.lastRemote);
        EntryThen(h, e, g, d, g', d', {});
        g, d := g', d';
      }
    }
  }

  // The ratchet step.

  /** calculateRatchet. If the chain exists already, the two derived keys stay behind. */
  method CalculateRatchet(h: Heap, e: Entry, remote: KeyId, kind: ChainType)
    returns (g: Heap, d: Entry, r: Result<(), Error>, ghost left: set<Ref>)
    requires EntrySound(h, e)
    ensures EntryStep(h, e, g, d, left) && (left != {} ==> r == Failure(OverwriteAttempt))
    ensures match Ratchet.CalculateRatchet(EntryValue(h, e), remote, kind)
            case Failure(f) => r == Failure(f)
            case Success(s) => r.Success? && EntryValue(g, d) == s
    ensures d.privateKey == e.privateKey
  {
    var sharedSecret := |h|;
    g := h + [Agree(remote, At(h, e.privateKey))];
    var rootKey, chainKey := |g|, |g| + 1;
    g := g + [Hkdf(At(g, sharedSecret), At(g, e.rootKey), WhisperRatchet, 0),
              Hkdf(At(g, sharedSecret), At(g, e.rootKey), WhisperRatchet, 1)];
    g := Wipe(g, sharedSecret);
    var id := if kind.Sending? then e.ephemeral else remote;
    EntryInHeap(h, e);
    if id in e.chains {
      d, r, left := e, Failure(OverwriteAttempt), {rootKey, chainKey};
      DerivedOnly(h, e, g);
      return;
    }
    d := e.(chains := e.chains[id := ChainRefs(kind, -1, Some(chainKey), map[])], order := e.order + [id]);
    var previous := d.rootKey;
    d := d.(rootKey := rootKey);
    g := Wipe(g, previous);
    r, left := Success(()), {};
    RatchetIsStep(h, e, g, d, id, kind);
    RatchetReads(h, e, g, d, id, remote, kind);
  }

  lemma DerivedOnly(h: Heap, e: Entry, g: Heap)
    requires EntrySound(h, e) && |g| == |h| + 3 && g[..|h|] == h && g[|h|] == Zeros
    ensures EntryStep(h, e, g, e, {|h| + 1, |h| + 2})
  {
    assert forall r :: 0 <= r < |h| ==> g[r] == g[..|h|][r];
    EntryInHeap(h, e);
    EntryReads(h, g, e);
    hide EntrySound;
  }

  /** A session reads the same where its buffers are the same. */
  lemma EntryReads(h: Heap, g: Heap, e: Entry)
    requires EntrySound(h, e) && |h| <= |g| && forall r :: r in Refs(e) ==> At(g, r) == At(h, r)
    ensures EntrySound(g, e) && EntryValue(g, e) == EntryValue(h, e)
  {
    hide TableSound, TableRefs, Ids, NoRepeats, TableValue;
    TableReads(h, g, e.chains);
    assert e.rootKey in RatchetRefs(e) && e.privateKey in RatchetRefs(e);
  }

  ghost predicate IsRatchet(h: Heap, e: Entry, g: Heap, d: Entry, id: KeyId, kind: ChainType) {
    && |g| == |h| + 3 && e.rootKey < |h| && id !in e.chains
    && (forall r :: 0 <= r < |h| && r != e.rootKey ==> g[r] == h[r]) && g[|h|] == Zeros && g[e.rootKey] == Zeros
    && d == e.(chains := e.chains[id := ChainRefs(kind, -1, Some(|h| + 2), map[])], order := e.order + [id],
               rootKey := |h| + 1)
  }

  lemma RatchetTable(h: Heap, e: Entry, g: Heap, d: Entry, id: KeyId, kind: ChainType)
    requires EntrySound(h, e) && IsRatchet(h, e, g, d, id, kind)
    ensures TableSound(g, d.chains) && TableRefs(d.chains) == TableRefs(e.chains) + {|h| + 2}
    ensures TableValue(g, d.chains) == TableValue(h, e.chains)[id := Chain(kind, -1, Some(g[|h| + 2]), map[])]
  {
    EntryInHeap(h, e);
    TableReads(h, g, e.chains);
    var c := ChainRefs(kind, -1, Some(|h| + 2), map[]);
    assert RefsOf(c) == {|h| + 2};
    assert ChainValue(g, c) == Chain(kind, -1, Some(g[|h| + 2]), map[]) by { assert ReadAll(g, map[]) == map[]; }
    hide TableSound, TableRefs, TableValue, ChainValue, RefsOf;
    Joins(g, e.chains, id, c);
  }

  lemma RatchetIsStep(h: Heap, e: Entry, g: Heap, d: Entry, id: KeyId, kind: ChainType)
    requires EntrySound(h, e) && IsRatchet(h, e, g, d, id, kind)
    ensures EntryStep(h, e, g, d, {})
  {
    EntryInHeap(h, e);
    RatchetTable(h, e, g, d, id, kind);
    IdAdded(e.order, e.chains.Keys, id);
    assert d.chains.Keys == e.chains.Keys + {id};
    hide TableSound, TableRefs, TableValue, Ids, NoRepeats;
    RatchetCells(h, e, g, d, id, kind);
    hide IsRatchet;
    assert Refs(d) + {} == Refs(d);
  }

  lemma RatchetCells(h: Heap, e: Entry, g: Heap, d: Entry, id: KeyId, kind: ChainType)
    requires IsRatchet(h, e, g, d, id, kind) && InHeap(h, Refs(e)) && e.privateKey != e.rootKey
    requires e.rootKey !in TableRefs(e.chains) && TableRefs(d.chains) == TableRefs(e.chains) + {|h| + 2}
    ensures Step(h, Refs(e), g, Refs(d)) && At(g, e.privateKey) == At(h, e.privateKey)
  {
    assert e.privateKey in RatchetRefs(e) && e.rootKey in RatchetRefs(e);
    hide TableRefs;
  }

  lemma RatchetReads(h: Heap, e: Entry, g: Heap, d: Entry, id: KeyId, remote: KeyId, kind: ChainType)
    requires EntrySound(h, e) && IsRatchet(h, e, g, d, id, kind) && id == if kind.Sending? then e.ephemeral else remote
    requires g[|h| + 1] == NextRoot(remote, e.ephemeral, h[e.rootKey])
    requires g[|h| + 2] == NextSeed(remote, e.ephemeral, h[e.rootKey])
    ensures Ratchet.CalculateRatchet(EntryValue(h, e), remote, kind) == Success(EntryValue(g, d))
  {
    RatchetTable(h, e, g, d, id, kind);
    hide TableSound, TableRefs, EntrySound;
    SameIds(h, e);
  }

  /** deleteChain */
  method DeleteChain(h: Heap, e: Entry, id: KeyId) returns (g: Heap, d: Entry)
    requires EntrySound(h, e)
    ensures EntryStep(h, e, g, d, {}) && EntryValue(g, d) == DeleteChains(EntryValue(h, e), {id})
    ensures d.order == Without(e.order, {id})
    ensures d.privateKey == e.privateKey
  {
    SameIds(h, e);
    EntryStays(h, e);
    if id in e.chains {
      SoundChain(h, e, id);
      hide EntrySound, ChainSound, TableRefs, RefsOf;
      g := WipeChain(h, e.chains[id]);
      d := e.(chains := e.chains - {id}, order := Without(e.order, {id}));
      DeletedInEntry(h, e, id, g);
    } else {
      g, d := h, e;
      NothingDeleted(EntryValue(h, e), id);
    }
    hide EntryStep, EntryValue;
  }

  lemma DeletedInEntry(h: Heap, e: Entry, id: KeyId, g: Heap)
    requires EntrySound(h, e) && id in e.chains && Step(h, RefsOf(e.chains[id]), g, {})
    ensures var d := e.(chains := e.chains - {id}, order := Without(e.order, {id}));
            EntryStep(h, e, g, d, {}) && EntryValue(g, d) == DeleteChains(EntryValue(h, e), {id})
  {
    WipedInTable(h, e.chains, id, g);
    IdDeleted(e.order, e.chains.Keys, id);
    hide TableSound, TableRefs, RefsOf, Step, Ids, NoRepeats, Without, RatchetSound, TableValue;
    TableInEntry(h, e, g, e.chains - {id}, Without(e.order, {id}));
  }

  /** The end of the previous sending chain, and its last counter. */
  method RetireSending(h: Heap, e: Entry) returns (g: Heap, d: Entry)
    requires EntrySound(h, e)
    ensures EntryStep(h, e, g, d, {}) && EntryValue(g, d) == Ratchet.RetireSending(EntryValue(h, e))
    ensures d.privateKey == e.privateKey
  {
    SameIds(h, e);
    EntryStays(h, e);
    g, d := h, e;
    if e.ephemeral in e.chains {
      SoundChain(h, e, e.ephemeral);
      var retired := e.(previousCounter := e.chains[e.ephemeral].counter);
      SameButCounter(h, e, retired.previousCounter);
      hide EntrySound, EntryStep, DeleteChains, ChainSound, TableValue;
      g, d := DeleteChain(h, retired, e.ephemeral);
      FromSameRefs(h, e, retired, g, d, {});
    }
  }

  lemma SameButCounter(h: Heap, e: Entry, previousCounter: int)
    requires EntrySound(h, e)
    ensures EntrySound(h, e.(previousCounter := previousCounter))
    ensures Refs(e.(previousCounter := previousCounter)) == Refs(e)
  {
    hide TableSound, TableRefs, Ids, NoRepeats;
  }

  lemma FromSameRefs(h: Heap, e: Entry, f: Entry, g: Heap, d: Entry, left: set<Ref>)
    requires Refs(e) == Refs(f) && EntryStep(h, f, g, d, left)
    ensures EntryStep(h, e, g, d, left)
  {
    hide EntrySound, Refs, Step;
  }

  /** The session no longer refers to this buffer. */
  ghost predicate Released(h: Heap, r: Ref, d: Entry) {
    r < |h| && r !in Refs(d)
  }

  lemma StaysReleased(h: Heap, r: Ref, g: Heap, d: Entry, k: Heap, f: Entry, left: set<Ref>)
    requires Released(h, r, d) && |h| <= |g| && EntryStep(g, d, k, f, left)
    ensures Released(h, r, f)
  {
    hide EntrySound, Refs;
  }

  /** A new ratchet key pair; the private key it replaces is wiped. */
  method NewKeyPair(h: Heap, e: Entry, newKey: KeyId) returns (g: Heap, d: Entry)
    requires EntrySound(h, e)
    ensures EntryStep(h, e, g, d, {}) && EntryValue(g, d) == EntryValue(h, e).(ephemeral := newKey)
    ensures Released(h, e.privateKey, d)
  {
    var previous := e.privateKey;
    d := e.(ephemeral := newKey, privateKey := |h|);
    g := h + [Private(newKey)];
    g := Wipe(g, previous);
    EntryInHeap(h, e);
    TableReads(h, g, e.chains);
    hide TableSound, TableRefs, TableValue, Ids, NoRepeats;
  }

  /** The receiving chains, oldest first. */
  method Receiving(h: Heap, e: Entry) returns (ids: seq<KeyId>)
    requires EntrySound(h, e)
    ensures ids == ReceivingIds(e.order, EntryValue(h, e).chains)
  {
    ids := [];
    ghost var values := EntryValue(h, e).chains;
    CollectNone(e.order, values);
    SameIds(h, e);
    hide ReceivingIds, NoRepeats, Ids, TableSound, TableRefs, Collected, RatchetSound;
    for i := 0 to |e.order|
      invariant Collected(ids, e.order, i, values)
    {
      CollectNext(ids, e.order, i, values);
      if e.order[i] in e.chains && e.chains[e.order[i]].kind == ChainType.Receiving {
        ids := ids + [e.order[i]];
      }
    }
    CollectAll(ids, e.order, values);
  }

  method DeleteFirst(h: Heap, e: Entry, ids: seq<KeyId>, n: nat) returns (g: Heap, d: Entry)
    requires EntrySound(h, e) && n <= |ids|
    ensures EntryStep(h, e, g, d, {}) && Deleted(EntryValue(h, e), EntryValue(g, d), ids, n)
  {
    DeletedNone(EntryValue(h, e), ids);
    assert Deleted(EntryValue(h, e), EntryValue(h, e), ids, 0);
    EntryStays(h, e);
    hide *;
    g, d := h, e;
    for i := 0 to n
      invariant EntryStep(h, e, g, d, {}) && Deleted(EntryValue(h, e), EntryValue(g, d), ids, i)
    {
      StepSoundEntry(h, e, g, d, {});
      DeletedByOne(EntryValue(h, e), EntryValue(g, d), ids, i);
      var g', d' := DeleteChain(g, d, ids[i]);
      EntryThen(h, e, g, d, g', d', {});
      g, d := g', d';
    }
  }

  method RemoveOldReceiverChains(h: Heap, e: Entry, max: nat) returns (g: Heap, d: Entry)
    requires EntrySound(h, e)
    ensures EntryStep(h, e, g, d, {})
    ensures EntryValue(g, d) == Ratchet.RemoveOldReceiverChains(EntryValue(h, e), max)
  {
    var receiving := Receiving(h, e);
    assert EntryValue(h, e).order == e.order;
    hide *;
    var n := if |receiving| <= max then 0 else |receiving| - max;
    g, d := DeleteFirst(h, e, receiving, n);
    SurplusDeleted(EntryValue(h, e), EntryValue(g, d), receiving, max, n);
  }

  lemma DeletedByOne(before: Session, now: Session, ids: seq<KeyId>, i: nat)
    requires i < |ids| && Deleted(before, now, ids, i)
    ensures Deleted(before, DeleteChains(now, {ids[i]}), ids, i + 1)
  {
    DeletedNext(before, ids, i);
    hide DeleteChains, Ids;
  }

  /** The second half of the step, with the new key pair. */
  method StartSending(h: Heap, e: Entry, remote: KeyId)
    returns (g: Heap, d: Entry, r: Result<(), Error>, ghost left: set<Ref>)
    requires EntrySound(h, e)
    ensures EntryStep(h, e, g, d, left) && (left != {} ==> r == Failure(OverwriteAttempt))
    ensures match Ratchet.CalculateRatchet(EntryValue(h, e), remote, Sending)
            case Failure(f) => r == Failure(f)
            case Success(s) =>
              r.Success? && EntryValue(g, d)
                == Ratchet.RemoveOldReceiverChains(s.(lastRemote := remote), MAX_RECEIVER_CHAINS)
  {
    hide EntrySound, EntryStep, TableValue, Ratchet.CalculateRatchet, Ratchet.RemoveOldReceiverChains;
    g, d, r, left := CalculateRatchet(h, e, remote, ChainType.Sending);
    if r.Success? {
      StepSoundEntry(h, e, g, d, {});
      var stepped := d.(lastRemote := remote);
      SameButRemote(h, e, g, d, remote);
      StepSoundEntry(h, e, g, stepped, {});
      var g', d' := RemoveOldReceiverChains(g, stepped, MAX_RECEIVER_CHAINS);
      EntryThen(h, e, g, stepped, g', d', {});
      g, d := g', d';
    }
  }

  lemma SameButRemote(h: Heap, e: Entry, g: Heap, d: Entry, remote: KeyId)
    requires EntryStep(h, e, g, d, {})
    ensures EntryStep(h, e, g, d.(lastRemote := remote), {})
  {
    hide TableSound, TableRefs, Ids, NoRepeats, Step;
    assert Refs(d.(lastRemote := remote)) == Refs(d);
  }

  /** The part of maybeStepRatchet after the previous chain is closed. */
  method Turn(h: Heap, e: Entry, remote: KeyId, newKey: KeyId)
    returns (g: Heap, d: Entry, r: Result<(), Error>, ghost left: set<Ref>)
    requires EntrySound(h, e)
    ensures EntryStep(h, e, g, d, left) && (left != {} ==> r == Failure(OverwriteAttempt))
    ensures match Ratchet.Turn(EntryValue(h, e), remote, newKey)
            case Failure(f) => r == Failure(f)
            case Success(s) => r.Success? && EntryValue(g, d) == s
    ensures r.Success? ==> e.privateKey !in Refs(d)
  {
    hide EntrySound, EntryStep, EntryValue, Refs, Ratchet.CalculateRatchet, Ratchet.RetireSending,
         Ratchet.RemoveOldReceiverChains;
    g, d, r, left := CalculateRatchet(h, e, remote, ChainType.Receiving);
    if r.Success? {
      StepSoundEntry(h, e, g, d, {});
      var g1, d1 := RetireSending(g, d);
      EntryThen(h, e, g, d, g1, d1, {});
      StepSoundEntry(g, d, g1, d1, {});
      var g2, d2 := NewKeyPair(g1, d1, newKey);
      EntryThen(h, e, g1, d1, g2, d2, {});
      StepSoundEntry(g1, d1, g2, d2, {});
      g, d, r, left := StartSending(g2, d2, remote);
      EntryThen(h, e, g2, d2, g, d, left);
      EntryLonger(g1, d1, g2, d2, {});
      StaysReleased(g1, d1.privateKey, g2, d2, g, d, left);
    }
  }

  lemma EntryLonger(h: Heap, e: Entry, g: Heap, d: Entry, left: set<Ref>)
    requires EntryStep(h, e, g, d, left)
    ensures |h| <= |g|
  {
    hide EntrySound, Refs;
  }

  /** The ratchet step: afterwards the session no longer refers to its old private key. */
  method StepForward(h: Heap, e: Entry, remote: KeyId, previousCounter: int, newKey: KeyId)
    returns (g: Heap, d: Entry, r: Result<(), Error>, ghost left: set<Ref>)
    requires EntrySound(h, e) && remote !in e.chains
    ensures EntryStep(h, e, g, d, left) && (left != {} ==> r == Failure(OverwriteAttempt))
    ensures match StepRatchet(EntryValue(h, e), remote, previousCounter, newKey)
            case Failure(f) => r == Failure(f)
            case Success(s) => r.Success? && EntryValue(g, d) == s
    ensures r.Success? ==> e.privateKey !in Refs(d)
  {
    SameIds(h, e);
    hide EntrySound, EntryStep, EntryValue, Refs, Ratchet.ClosePrevious, Ratchet.Turn;
    left := {};
    g, d, r := ClosePrevious(h, e, previousCounter);
    if r.Success? {
      StepSoundEntry(h, e, g, d, {});
      var g0, d0 := g, d;
      g, d, r, left := Turn(g0, d0, remote, newKey);
      EntryThen(h, e, g0, d0, g, d, left);
    }
  }

  /** maybeStepRatchet */
  method MaybeStepRatchet(h: Heap, e: Entry, remote: KeyId, previousCounter: int, newKey: KeyId)
    returns (g: Heap, d: Entry, r: Result<(), Error>, ghost left: set<Ref>)
    requires EntrySound(h, e)
    ensures EntryStep(h, e, g, d, left) && (left != {} ==> r == Failure(OverwriteAttempt))
    ensures match StepRatchet(EntryValue(h, e), remote, previousCounter, newKey)
            case Failure(f) => r == Failure(f)
            case Success(s) => r.Success? && EntryValue(g, d) == s
    ensures remote !in e.chains && r.Success? ==> e.privateKey !in Refs(d)
  {
    if remote !in e.chains {
      hide *;
      g, d, r, left := StepForward(h, e, remote, previousCounter, newKey);
    } else {
      SameIds(h, e);
      EntryStays(h, e);
      g, d, r, left := h, e, Success(()), {};
      hide EntrySound, EntryStep, EntryValue, Refs, Ratchet.ClosePrevious, Ratchet.Turn;
    }
  }

  // Messages.

  /** A message key is taken out of its chain, used, and wiped: deriveSecrets has made three keys of it. */
  method UseMessageKey(h: Heap, e: Entry, id: KeyId, index: int)
    returns (g: Heap, d: Entry, keys: (Ref, Ref, Ref))
    requires EntrySound(h, e) && id in e.chains && index in e.chains[id].messageKeys
    ensures EntryStep(h, e, g, d, {keys.0, keys.1, keys.2})
    ensures index in EntryValue(h, e).chains[id].messageKeys
    ensures HasKeys(g, keys, EntryValue(h, e).chains[id].messageKeys[index])
    ensures EntryValue(g, d) == WithUsed(EntryValue(h, e), id, EntryValue(h, e).chains[id], index)
  {
    hide EntrySound, EntryStep, EntryValue, ChainSound, ChainStep;
    SoundChain(h, e, id);
    ReadsAt(h, e.chains[id], index);
    var messageKey := e.chains[id].messageKeys[index];
    keys := (|h|, |h| + 1, |h| + 2);
    var derived := h + [CipherKey(At(h, messageKey)), MacKey(At(h, messageKey)), Iv(At(h, messageKey))];
    BesideNew(h, e, derived);
    SoundChain(derived, e, id);
    var c;
    g, c := DropMessageKey(derived, e.chains[id], index);
    d := e.(chains := e.chains[id := c]);
    ChainInEntry(derived, e, id, g, c);
    NewStay(h, e, derived, g, d);
  }

  lemma ReadsAt(h: Heap, c: ChainRefs, index: int)
    requires index in c.messageKeys
    ensures index in ChainValue(h, c).messageKeys && ChainValue(h, c).messageKeys[index] == At(h, c.messageKeys[index])
  {
  }

  lemma BesideNew(h: Heap, e: Entry, g: Heap)
    requires EntrySound(h, e) && |h| <= |g| && g[..|h|] == h
    ensures EntrySound(g, e) && EntryValue(g, e) == EntryValue(h, e)
  {
    EntryInHeap(h, e);
    assert forall r :: 0 <= r < |h| ==> g[r] == g[..|h|][r];
    EntryReads(h, g, e);
    hide EntrySound, EntryValue;
  }

  lemma NewStay(h: Heap, e: Entry, derived: Heap, g: Heap, d: Entry)
    requires EntrySound(h, e) && |derived| == |h| + 3 && derived[..|h|] == h && EntryStep(derived, e, g, d, {})
    ensures EntryStep(h, e, g, d, {|h|, |h| + 1, |h| + 2})
    ensures At(g, |h|) == derived[|h|] && At(g, |h| + 1) == derived[|h| + 1] && At(g, |h| + 2) == derived[|h| + 2]
  {
    EntryInHeap(h, e);
    assert forall r :: 0 <= r < |h| ==> derived[r] == derived[..|h|][r];
    hide EntrySound, Refs;
  }

  /** wipeBuffers on the three keys */
  method WipeKeys(h: Heap, ghost before: Heap, ghost e: Entry, d: Entry, keys: (Ref, Ref, Ref)) returns (g: Heap)
    requires EntryStep(before, e, h, d, {keys.0, keys.1, keys.2})
    ensures EntryStep(before, e, g, d, {}) && EntryValue(g, d) == EntryValue(h, d)
  {
    g := Wipe(Wipe(Wipe(h, keys.0), keys.1), keys.2);
    KeysWiped(h, before, e, d, keys, g);
    hide EntryStep, EntryValue;
  }

  lemma KeysWiped(h: Heap, before: Heap, e: Entry, d: Entry, keys: (Ref, Ref, Ref), g: Heap)
    requires EntryStep(before, e, h, d, {keys.0, keys.1, keys.2})
    requires g == Wipe(Wipe(Wipe(h, keys.0), keys.1), keys.2)
    ensures EntryStep(before, e, g, d, {}) && EntryValue(g, d) == EntryValue(h, d)
  {
    assert keys.0 in {keys.0, keys.1, keys.2} && keys.1 in {keys.0, keys.1, keys.2}
      && keys.2 in {keys.0, keys.1, keys.2};
    EntryReads(h, g, d);
    hide EntrySound, EntryValue, Refs;
  }

  /** The chain is filled up to a message, whose key is taken out. */
  method TakeKey(h: Heap, e: Entry, id: KeyId, counter: int)
    returns (g: Heap, d: Entry, r: Result<(), Error>, keys: (Ref, Ref, Ref))
    requires EntrySound(h, e) && id in e.chains
    ensures EntryStep(h, e, g, d, if r.Success? then {keys.0, keys.1, keys.2} else {})
    ensures match Fill(EntryValue(h, e).chains[id], counter)
            case Failure(f) => r == Failure(f) && f in {TooFarAhead, ChainClosed} && g == h && d == e
            case Success(c) =>
              if counter !in c.messageKeys then r == Failure(KeyUsedOrNeverFilled)
              else r.Success? && HasKeys(g, keys, c.messageKeys[counter])
                   && EntryValue(g, d) == WithUsed(EntryValue(h, e), id, c, counter)
  {
    hide EntrySound, EntryStep, TableValue, Fill, ChainSound, ReadAll, HasKeys;
    SameIds(h, e);
    keys := (0, 0, 0);
    var filled;
    g, d, filled := FillAt(h, e, id, counter);
    if filled.Failure? {
      FillErrors(EntryValue(h, e).chains[id], counter);
      return g, d, Failure(filled.error), keys;
    }
    StepSoundEntry(h, e, g, d, {});
    SoundChain(g, d, id);
    CachedIn(g, d.chains[id], counter);
    if counter !in d.chains[id].messageKeys {
      return g, d, Failure(KeyUsedOrNeverFilled), keys;
    }
    var g0, d0 := g, d;
    g, d, keys := UseMessageKey(g0, d0, id, counter);
    EntryThen(h, e, g0, d0, g, d, {keys.0, keys.1, keys.2});
    r := Success(());
  }

  ghost predicate HasKeys(h: Heap, keys: (Ref, Ref, Ref), messageKey: Key) {
    At(h, keys.0) == CipherKey(messageKey) && At(h, keys.1) == MacKey(messageKey) && At(h, keys.2) == Iv(messageKey)
  }

  /** The rest of doDecryptWhisperMessage, on the chain of the message. The three derived keys stay
      behind exactly when the tag or the ciphertext is wrong. */
  method DecryptOnChain(h: Heap, e: Entry, ourIdentity: KeyId, w: Whisper)
    returns (g: Heap, d: Entry, r: Result<Bytes, Error>, ghost left: set<Ref>)
    requires EntrySound(h, e)
    ensures EntryStep(h, e, g, d, left)
    ensures left != {} <==> r.Failure? && r.error in {BadMac, BadCiphertext}
    ensures match Ratchet.DecryptOnChain(EntryValue(h, e), ourIdentity, w)
            case Failure(f) => r == Failure(f)
            case Success(v) => r == Success(v.1) && EntryValue(g, d) == v.0
  {
    var id, counter := w.message.ephemeral, w.message.counter;
    EntryStays(h, e);
    SameIds(h, e);
    if id !in e.chains {
      return h, e, Failure(NoChain), {};
    }
    SoundChain(h, e, id);
    hide EntrySound, EntryStep, TableValue, Fill, Open, ReadAll;
    if e.chains[id].kind.Sending? {
      return h, e, Failure(WrongDirection), {};
    }
    var taken, keys;
    g, d, taken, keys := TakeKey(h, e, id, counter);
    if taken.Failure? {
      return g, d, Failure(taken.error), {};
    }
    r := OpenWith(At(g, keys.0), At(g, keys.1), At(g, keys.2), ourIdentity, e.remoteIdentity, w);
    OpensWith(Fill(EntryValue(h, e).chains[id], counter).value.messageKeys[counter], ourIdentity, e.remoteIdentity, w);
    if r.Failure? {
      left := {keys.0, keys.1, keys.2};
      return;
    }
    g := WipeKeys(g, h, e, d, keys);
    SameButPending(h, e, g, d);
    d, left := d.(pending := None), {};
  }

  lemma FillErrors(c: Chain, target: int)
    requires Fill(c, target).Failure?
    ensures Fill(c, target).error in {TooFarAhead, ChainClosed}
  {
  }

  lemma CachedIn(h: Heap, c: ChainRefs, index: int)
    ensures index in ChainValue(h, c).messageKeys <==> index in c.messageKeys
  {
  }

  lemma SameButPending(h: Heap, e: Entry, g: Heap, d: Entry)
    requires EntryStep(h, e, g, d, {})
    ensures EntryStep(h, e, g, d.(pending := None), {})
  {
    hide TableSound, TableRefs, Ids, NoRepeats, Step;
    assert Refs(d.(pending := None)) == Refs(d);
  }

  /** verifyMAC and decrypt, from the keys at hand. */
  function OpenWith(cipherKey: Key, macKey: Key, iv: Key, ourIdentity: KeyId, remoteIdentity: KeyId, w: Whisper)
    : Result<Bytes, Error>
  {
    if w.tag != Mac(macKey, MacInput(remoteIdentity, ourIdentity, w.message)) then Failure(BadMac)
    else match w.message.ciphertext
      case Sealed(key, i, plaintext) =>
        if key == cipherKey && i == iv then Success(plaintext) else Failure(BadCiphertext)
      case Noise(_) => Failure(BadCiphertext)
  }

  lemma OpensWith(messageKey: Key, ourIdentity: KeyId, remoteIdentity: KeyId, w: Whisper)
    ensures var r := OpenWith(CipherKey(messageKey), MacKey(messageKey), Iv(messageKey), ourIdentity, remoteIdentity,
                              w);
            r == Open(messageKey, ourIdentity, remoteIdentity, w) && (r.Failure? ==> r.error in {BadMac, BadCiphertext})
  {
  }

  /** doDecryptWhisperMessage on buffers. */
  method DoDecrypt(h: Heap, e: Entry, ourIdentity: KeyId, w: Whisper, newKey: KeyId)
    returns (g: Heap, d: Entry, r: Result<Bytes, Error>, ghost left: set<Ref>)
    requires EntrySound(h, e)
    ensures EntryStep(h, e, g, d, left)
    ensures left != {} ==> r.Failure? && r.error in {OverwriteAttempt, BadMac, BadCiphertext}
    ensures match Decrypt(EntryValue(h, e), ourIdentity, w, newKey)
            case Failure(f) => r == Failure(f)
            case Success(v) => r == Success(v.1) && EntryValue(g, d) == v.0
  {
    hide EntrySound, EntryStep, EntryValue, StepRatchet, Ratchet.DecryptOnChain;
    var stepped;
    g, d, stepped, left := MaybeStepRatchet(h, e, w.message.ephemeral, w.message.previousCounter, newKey);
    if stepped.Failure? {
      return g, d, Failure(stepped.error), left;
    }
    StepSoundEntry(h, e, g, d, {});
    var g', d' := g, d;
    g, d, r, left := DecryptOnChain(g', d', ourIdentity, w);
    EntryThen(h, e, g', d', g, d, left);
  }

  /** The part of encrypt that takes the message key. */
  method SealNext(h: Heap, e: Entry, ourIdentity: KeyId, plaintext: Bytes)
    returns (g: Heap, d: Entry, r: Result<Packet, Error>)
    requires EntrySound(h, e) && e.ephemeral in e.chains && e.chains[e.ephemeral].kind.Sending?
    ensures EntryStep(h, e, g, d, {})
    ensures match Ratchet.Encrypt(EntryValue(h, e), ourIdentity, plaintext)
            case Failure(f) => r == Failure(f) && g == h && d == e
            case Success(v) => r == Success(v.1) && EntryValue(g, d) == v.0
  {
    SameFields(h, e);
    EncryptCases(EntryValue(h, e), ourIdentity, plaintext);
    hide EntrySound, EntryStep, EntryValue, Fill, Seal, SealWith, Ratchet.Encrypt;
    var id, counter := e.ephemeral, e.chains[e.ephemeral].counter + 1;
    var taken, keys;
    g, d, taken, keys := TakeKey(h, e, id, counter);
    NextIsCached(h, e, id);
    if taken.Failure? {
      return g, d, Failure(taken.error);
    }
    var whisper := SealWith(id, counter, e.previousCounter, ourIdentity, e.remoteIdentity,
                            At(g, keys.0), At(g, keys.1), At(g, keys.2), plaintext);
    SealsWith(id, counter, e.previousCounter, ourIdentity, e.remoteIdentity,
              Fill(EntryValue(h, e).chains[id], counter).value.messageKeys[counter], plaintext);
    g := WipeKeys(g, h, e, d, keys);
    r := Success(Packet(if e.pending.Some? then Some(Envelope(ourIdentity, e.pending.value)) else None, whisper));
  }

  /** The key that encrypt fills the chain for is there. */
  lemma NextIsCached(h: Heap, e: Entry, id: KeyId)
    requires EntrySound(h, e) && id in e.chains && id in EntryValue(h, e).chains
    ensures var c := EntryValue(h, e).chains[id];
            Fill(c, e.chains[id].counter + 1).Success? ==>
              e.chains[id].counter + 1 in Fill(c, e.chains[id].counter + 1).value.messageKeys
  {
    SoundChain(h, e, id);
    CachedBelow(h, e.chains[id]);
    SameFields(h, e);
    var c := EntryValue(h, e).chains[id];
    hide EntrySound, EntryValue, ChainSound, ChainValue;
    if Fill(c, c.counter + 1).Success? {
      FillIsFilled(c, c.counter + 1);
    }
  }

  /** encrypt on buffers. */
  method Encrypt(h: Heap, e: Entry, ourIdentity: KeyId, plaintext: Bytes)
    returns (g: Heap, d: Entry, r: Result<Packet, Error>)
    requires EntrySound(h, e)
    ensures EntryStep(h, e, g, d, {})
    ensures match Ratchet.Encrypt(EntryValue(h, e), ourIdentity, plaintext)
            case Failure(f) => r == Failure(f) && g == h && d == e
            case Success(v) => r == Success(v.1) && EntryValue(g, d) == v.0
  {
    SameFields(h, e);
    EntryStays(h, e);
    EncryptCases(EntryValue(h, e), ourIdentity, plaintext);
    hide *;
    if e.ephemeral !in e.chains {
      return h, e, Failure(NoChain);
    }
    if e.chains[e.ephemeral].kind.Receiving? {
      return h, e, Failure(WrongDirection);
    }
    g, d, r := SealNext(h, e, ourIdentity, plaintext);
  }

  lemma SameFields(h: Heap, e: Entry)
    ensures var s := EntryValue(h, e);
            && s.chains.Keys == e.chains.Keys && s.ephemeral == e.ephemeral && s.previousCounter == e.previousCounter
            && s.remoteIdentity == e.remoteIdentity && s.pending == e.pending
            && forall id :: id in e.chains ==>
              s.chains[id].kind == e.chains[id].kind && s.chains[id].counter == e.chains[id].counter
  {
  }

  function SealWith(ephemeral: KeyId, counter: int, previousCounter: int, sender: KeyId, receiver: KeyId,
                    cipherKey: Key, macKey: Key, iv: Key, plaintext: Bytes): Whisper {
    var message := Message(ephemeral, ToUint32(counter), ToUint32(previousCounter), Sealed(cipherKey, iv, plaintext));
    Whisper(message, Mac(macKey, MacInput(sender, receiver, message)))
  }

  lemma SealsWith(ephemeral: KeyId, counter: int, previousCounter: int, sender: KeyId, receiver: KeyId,
                  messageKey: Key, plaintext: Bytes)
    ensures Seal(ephemeral, counter, previousCounter, sender, receiver, messageKey, plaintext)
            == SealWith(ephemeral, counter, previousCounter, sender, receiver,
                        CipherKey(messageKey), MacKey(messageKey), Iv(messageKey), plaintext)
  {
  }

  // Copies.

  /** `i` chains have been copied. */
  ghost predicate CopyingEntry(h: Heap, e: Entry, g: Heap, d: Entry, i: nat) {
    && i <= |e.order| && d.order == e.order[..i] && EntrySound(g, d) && Step(h, {}, g, Refs(d))
    && d == e.(privateKey := d.privateKey, rootKey := d.rootKey, chains := d.chains, order := d.order)
    && At(g, d.rootKey) == At(h, e.rootKey)
    && TableCopied(h, e.chains, g, d.chains)
  }

  ghost predicate TableCopied(h: Heap, chains: map<KeyId, ChainRefs>, g: Heap, copied: map<KeyId, ChainRefs>) {
    forall id :: id in copied ==> id in chains && ChainValue(g, copied[id]) == ChainValue(h, chains[id])
  }

  lemma CopyingEnds(h: Heap, e: Entry, g: Heap, d: Entry)
    requires EntrySound(h, e) && CopyingEntry(h, e, g, d, |e.order|)
    ensures EntrySound(g, d) && Step(h, {}, g, Refs(d)) && EntryValue(g, d) == EntryValue(h, e)
  {
    assert e.order[..|e.order|] == e.order;
    assert d.chains.Keys == e.chains.Keys;
    hide TableSound, TableRefs, ChainValue, RatchetSound, NoRepeats, Ids;
    assert TableValue(g, d.chains) == TableValue(h, e.chains);
  }

  lemma CopyingStarts(h: Heap, e: Entry, g: Heap, d: Entry)
    requires EntrySound(h, e) && g == h + [At(h, e.privateKey), At(h, e.rootKey)]
    requires d == e.(privateKey := |h|, rootKey := |h| + 1, chains := map[], order := [])
    ensures CopyingEntry(h, e, g, d, 0)
  {
    assert e.privateKey in RatchetRefs(e) && e.rootKey in RatchetRefs(e);
    NoTable(g);
  }

  lemma NoTable(h: Heap)
    ensures TableRefs(map[]) == {} && TableSound(h, map[])
  {
  }

  lemma CopiedNext(h: Heap, e: Entry, g: Heap, d: Entry, i: nat, k: Heap, c: ChainRefs)
    requires EntrySound(h, e) && CopyingEntry(h, e, g, d, i) && i < |e.order| && e.order[i] in e.chains
    requires ChainSound(k, c) && Step(g, {}, k, RefsOf(c)) && ChainValue(k, c) == ChainValue(g, e.chains[e.order[i]])
    requires ChainValue(g, e.chains[e.order[i]]) == ChainValue(h, e.chains[e.order[i]])
    ensures CopyingEntry(h, e, k, d.(chains := d.chains[e.order[i] := c], order := d.order + [e.order[i]]), i + 1)
  {
    var id := e.order[i];
    assert e.order[..i + 1] == e.order[..i] + [id] && id !in e.order[..i];
    assert id !in d.chains;
    hide EntrySound, Refs, RefsOf, ChainSound, ChainValue, EntryValue, RatchetSound, Ids, NoRepeats;
    AddedChain(g, d, k, id, c);
    StepThen(h, {}, g, Refs(d), k, Refs(d.(chains := d.chains[id := c], order := d.order + [id])));
    SameCells(g, RefsOf(c), k, d);
    CopiedTable(h, e, g, d, k, id, c);
    hide Step, TableCopied;
  }

  lemma AddedChain(g: Heap, d: Entry, k: Heap, id: KeyId, c: ChainRefs)
    requires EntrySound(g, d) && id !in d.chains && ChainSound(k, c) && Step(g, {}, k, RefsOf(c))
    ensures var f := d.(chains := d.chains[id := c], order := d.order + [id]);
            EntrySound(k, f) && Step(g, Refs(d), k, Refs(f))
  {
    var f := d.(chains := d.chains[id := c], order := d.order + [id]);
    EntryInHeap(g, d);
    IdAdded(d.order, d.chains.Keys, id);
    SameCells(g, RefsOf(c), k, d);
    hide TableSound, TableRefs, Ids, NoRepeats, RefsOf, ChainSound, ChainValue, TableValue, Step;
    Joins(k, d.chains, id, c);
    assert f.chains.Keys == d.chains.Keys + {id};
    assert Refs(f) == RefsOf(c) + Refs(d);
    StepBeside(g, {}, k, RefsOf(c), Refs(d));
    assert Refs(d) == {} + Refs(d);
  }

  lemma SameCells(g: Heap, refs: set<Ref>, k: Heap, d: Entry)
    requires EntrySound(g, d) && Step(g, {}, k, refs)
    ensures EntrySound(k, d) && EntryValue(k, d) == EntryValue(g, d) && Refs(d) !! refs
    ensures RatchetSound(k, d) && RatchetRefs(d) !! refs && TableRefs(d.chains) !! refs
    ensures At(k, d.rootKey) == At(g, d.rootKey)
  {
    EntryInHeap(g, d);
    EntryReads(g, k, d);
    hide TableSound, TableRefs, TableValue;
  }

  lemma CopiedTable(h: Heap, e: Entry, g: Heap, d: Entry, k: Heap, id: KeyId, c: ChainRefs)
    requires TableCopied(h, e.chains, g, d.chains) && EntryValue(k, d) == EntryValue(g, d) && id in e.chains
    requires ChainValue(k, c) == ChainValue(h, e.chains[id])
    ensures TableCopied(h, e.chains, k, d.chains[id := c])
  {
    hide ChainValue;
    forall j | j in d.chains ensures ChainValue(k, d.chains[j]) == ChainValue(h, e.chains[j]) {
      assert EntryValue(k, d).chains[j] == EntryValue(g, d).chains[j];
    }
  }

  method CopyNext(ghost h: Heap, e: Entry, g: Heap, d: Entry, i: nat) returns (k: Heap, f: Entry)
    requires EntrySound(h, e) && CopyingEntry(h, e, g, d, i) && i < |e.order|
    ensures CopyingEntry(h, e, k, f, i + 1)
  {
    StillThere(h, e, g, d, i);
    hide EntrySound, CopyingEntry, ChainSound, ChainValue;
    var c;
    k, c := CopyChain(g, e.chains[e.order[i]]);
    f := d.(chains := d.chains[e.order[i] := c], order := d.order + [e.order[i]]);
    CopiedNext(h, e, g, d, i, k, c);
  }

  lemma StillThere(h: Heap, e: Entry, g: Heap, d: Entry, i: nat)
    requires EntrySound(h, e) && CopyingEntry(h, e, g, d, i) && i < |e.order|
    ensures e.order[i] in e.chains && ChainSound(g, e.chains[e.order[i]])
    ensures ChainValue(g, e.chains[e.order[i]]) == ChainValue(h, e.chains[e.order[i]])
  {
    var id := e.order[i];
    assert id in Ids(e.order);
    SameCells(h, Refs(d), g, e);
    hide EntrySound, EntryValue, Step;
    SoundChain(h, e, id);
    SoundChain(g, e, id);
  }

  /** SessionEntry.deserialize(session.serialize()): the session once more, in new buffers. */
  method CopyEntry(h: Heap, e: Entry) returns (g: Heap, d: Entry)
    requires EntrySound(h, e)
    ensures EntrySound(g, d) && Step(h, {}, g, Refs(d)) && EntryValue(g, d) == EntryValue(h, e)
  {
    g := h + [At(h, e.privateKey), At(h, e.rootKey)];
    d := e.(privateKey := |h|, rootKey := |h| + 1, chains := map[], order := []);
    CopyingStarts(h, e, g, d);
    hide EntrySound, CopyingEntry, Step, Refs;
    for i := 0 to |e.order|
      invariant CopyingEntry(h, e, g, d, i)
    {
      g, d := CopyNext(h, e, g, d, i);
    }
    CopyingEnds(h, e, g, d);
  }

  /** The chains of the table that are not wiped yet. */
  ghost predicate WipingEntry(h: Heap, e: Entry, g: Heap, rest: map<KeyId, ChainRefs>, i: nat) {
    && i <= |e.order| && rest == e.chains - Ids(e.order[..i])
    && TableSound(g, rest) && Step(h, Refs(e), g, TableRefs(rest))
  }

  lemma WipingStarts(h: Heap, e: Entry, g: Heap)
    requires EntrySound(h, e) && g == Wipe(Wipe(h, e.privateKey), e.rootKey)
    ensures WipingEntry(h, e, g, e.chains, 0)
  {
    EntryInHeap(h, e);
    TableReads(h, g, e.chains);
    assert e.order[..0] == [] && e.chains - {} == e.chains;
    hide TableSound, TableRefs;
  }

  method WipeNext(ghost h: Heap, e: Entry, g: Heap, ghost rest: map<KeyId, ChainRefs>, i: nat) returns (k: Heap)
    requires EntrySound(h, e) && WipingEntry(h, e, g, rest, i) && i < |e.order|
    ensures WipingEntry(h, e, k, rest - {e.order[i]}, i + 1)
  {
    NotWipedYet(h, e, g, rest, i);
    hide EntrySound, WipingEntry, ChainSound, TableRefs, RefsOf, TableSound;
    k := WipeChain(g, e.chains[e.order[i]]);
    WipedNext(h, e, g, rest, i, k);
  }

  lemma NotWipedYet(h: Heap, e: Entry, g: Heap, rest: map<KeyId, ChainRefs>, i: nat)
    requires EntrySound(h, e) && WipingEntry(h, e, g, rest, i) && i < |e.order|
    ensures e.order[i] in e.chains && e.order[i] in rest && rest[e.order[i]] == e.chains[e.order[i]]
    ensures ChainSound(g, e.chains[e.order[i]])
  {
    assert e.order[i] in Ids(e.order) && e.order[i] !in e.order[..i];
    hide ChainSound, RatchetSound, Step, TableRefs, RefsOf;
  }

  /** A chain of the table is wiped, and leaves it. */
  lemma WipedInTable(g: Heap, rest: map<KeyId, ChainRefs>, id: KeyId, k: Heap)
    requires TableSound(g, rest) && id in rest && Step(g, RefsOf(rest[id]), k, {})
    ensures TableSound(k, rest - {id}) && Step(g, TableRefs(rest), k, TableRefs(rest - {id}))
    ensures TableValue(k, rest - {id}) == TableValue(g, rest) - {id}
  {
    Split(g, rest, id);
    TableInHeap(g, rest - {id});
    hide TableSound, TableRefs, RefsOf, Step, TableValue;
    StepBeside(g, RefsOf(rest[id]), k, {}, TableRefs(rest - {id}));
    Longer(g, RefsOf(rest[id]), k, {});
    TableReads(g, k, rest - {id});
    assert TableRefs(rest - {id}) == {} + TableRefs(rest - {id});
  }

  lemma WipedNext(h: Heap, e: Entry, g: Heap, rest: map<KeyId, ChainRefs>, i: nat, k: Heap)
    requires EntrySound(h, e) && WipingEntry(h, e, g, rest, i) && i < |e.order|
    requires e.order[i] in rest && Step(g, RefsOf(rest[e.order[i]]), k, {})
    ensures WipingEntry(h, e, k, rest - {e.order[i]}, i + 1)
  {
    hide EntrySound, TableSound, TableRefs, RefsOf, Refs, Step;
    WipedInTable(g, rest, e.order[i], k);
    StepThen(h, Refs(e), g, TableRefs(rest), k, TableRefs(rest - {e.order[i]}));
    assert e.order[..i + 1] == e.order[..i] + [e.order[i]];
    assert Ids(e.order[..i + 1]) == Ids(e.order[..i]) + {e.order[i]};
    hide Ids;
  }

  lemma WipingEnds(h: Heap, e: Entry, g: Heap, rest: map<KeyId, ChainRefs>)
    requires EntrySound(h, e) && WipingEntry(h, e, g, rest, |e.order|)
    ensures Step(h, Refs(e), g, {})
  {
    assert e.order[..|e.order|] == e.order;
    assert rest == map[];
    NoTable(g);
    hide TableRefs, TableSound, EntrySound, Refs, Step;
  }

  /** wipeKeyMaterial: every buffer of the session is zero, and no other has changed. */
  method WipeKeyMaterial(h: Heap, e: Entry) returns (g: Heap)
    requires EntrySound(h, e)
    ensures Step(h, Refs(e), g, {})
  {
    g := Wipe(Wipe(h, e.privateKey), e.rootKey);
    ghost var rest := e.chains;
    WipingStarts(h, e, g);
    hide EntrySound, WipingEntry, Refs, Step;
    for i := 0 to |e.order|
      invariant WipingEntry(h, e, g, rest, i)
    {
      g := WipeNext(h, e, g, rest, i);
      rest := rest - {e.order[i]};
    }
    WipingEnds(h, e, g, rest);
  }
}
