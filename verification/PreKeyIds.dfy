/** Prekey ids: how they wrap, and how a batch of workers generates a range of them. */
module PreKeyIds {
  import opened Wrappers
  import opened StorageContents

  datatype PreKey = PreKey(keyId: int, keyPair: KeyPair)

  datatype BatchError = InvalidCount

  /** JavaScript's remainder takes the sign of the dividend. */
  function JsRemainder(a: int, b: int): int
    requires b > 0
  {
    if a >= 0 then a % b else -((-a) % b)
  }

  function WrapPreKeyId(id: int): int {
    JsRemainder(JsRemainder(id - 1, MAX_KEY_ID) + MAX_KEY_ID, MAX_KEY_ID) + 1
  }

  /** The ids 1 to 0xffffff in a circle, from either side of 1. */
  lemma WrapIsCircular(id: int)
    ensures 1 <= WrapPreKeyId(id) <= 0xffffff
    ensures WrapPreKeyId(id) == (id - 1) % 0xffffff + 1
    ensures 1 <= id <= 0xffffff ==> WrapPreKeyId(id) == id
  {
    assert JsRemainder(id - 1, 0xffffff) == if id >= 1 then (id - 1) % 0xffffff else -((1 - id) % 0xffffff);
  }

  /** Wrapping once and wrapping again after a step is wrapping after the step. */
  lemma WrapAdds(id: int, n: int)
    ensures WrapPreKeyId(WrapPreKeyId(id) + n) == WrapPreKeyId(id + n)
  {
    hide WrapPreKeyId, JsRemainder;
    WrapIsCircular(id);
    WrapIsCircular(WrapPreKeyId(id) + n);
    WrapIsCircular(id + n);
    RemainderAdds(id - 1, n);
  }

  lemma RemainderAdds(a: int, n: int)
    ensures (a % 0xffffff + n) % 0xffffff == (a + n) % 0xffffff
  {
    assert a == 0xffffff * (a / 0xffffff) + a % 0xffffff;
  }

  /** Positions less than 0xffffff apart have different ids. */
  lemma WrapInjective(a: int, b: int)
    requires a < b < a + 0xffffff
    ensures WrapPreKeyId(a) != WrapPreKeyId(b)
  {
    WrapIsCircular(a);
    WrapIsCircular(b);
  }

  // The worker pool of generatePreKeysBatch.

  method GenerateKeyPair() returns (pair: KeyPair)
    ensures IsKeyPair(pair)
  {
    pair := KeyPair(seq(33, _ => 0), seq(32, _ => 0));
  }

  predicate IsSlot(k: PreKey, startId: int, i: int) {
    k.keyId == WrapPreKeyId(startId + i) && IsKeyPair(k.keyPair)
  }

  class Batch {
    const startId: int
    const count: nat
    const results: array<Option<PreKey>>
    var next: nat
    /** The slot that each worker is generating a key for. */
    var working: map<nat, nat>

    /** Every slot handed out is being worked on by one worker, or filled with its id. */
    ghost predicate Valid()
      reads this, results
    {
      && results.Length == count
      && (forall w :: w in working ==> working[w] < next && working[w] < count && results[working[w]] == None)
      && (forall v, w :: v in working && w in working && v != w ==> working[v] != working[w])
      && (forall i :: 0 <= i < count ==>
            match results[i]
            case Some(k) => i < next && IsSlot(k, startId, i)
            case None => i < next ==> i in working.Values)
    }

    constructor (startId: int, count: nat)
      ensures Valid() && fresh(results) && working == map[] && next == 0
      ensures this.startId == startId && this.count == count
    {
      this.startId, this.count, next, working := startId, count, 0, map[];
      results := new Option<PreKey>[count](_ => None);
    }

    /** A worker that is not working takes the next slot, or returns when there is none. */
    method TakeSlot(w: nat)
      requires Valid() && w !in working
      modifies this`next, this`working
      ensures Valid() && next == old(next) + 1
      ensures working == if old(next) < count then old(working)[w := old(next)] else old(working)
    {
      var i := next;
      next := next + 1;
      if i < count {
        ghost var before := working;
        working := working[w := i];
        assert forall j :: j in before.Values ==> j in working.Values by { ValuesKept(before, w, i); }
        assert working[w] == i;
      }
    }

    /** The key pair of a worker is there: its slot, not filled before, is filled. */
    method Fill(w: nat)
      requires Valid() && w in working
      modifies this`working, results
      ensures Valid() && working == old(working) - {w}
      ensures old(results[working[w]]) == None
      ensures forall i :: 0 <= i < count && i != old(working[w]) ==> results[i] == old(results[i])
      ensures results[old(working[w])].Some?
    {
      var i := working[w];
      var pair := GenerateKeyPair();
      ghost var before := working;
      results[i] := Some(PreKey(WrapPreKeyId(startId + i), pair));
      working := working - {w};
      forall j | j in before.Values && j != i ensures j in working.Values {
        var v :| v in before && before[v] == j;
        assert working[v] == j;
      }
    }

    function ToDo(): nat
      reads this
    {
      (if next < count then count - next else 0) + |working|
    }

    /** When no worker is left, every slot is filled. */
    function Results(): (r: seq<PreKey>)
      requires Valid() && working == map[] && next >= count
      reads this, results
      ensures |r| == count && forall i :: 0 <= i < count ==> IsSlot(r[i], startId, i)
    {
      assert forall i :: 0 <= i < count ==> results[i].Some?;
      seq(count, i requires 0 <= i < count && results[i].Some? reads results => results[i].value)
    }

    /** Some worker gets its key pair and goes on to its next slot. */
    method Step()
      requires Valid() && working != map[]
      modifies this`next, this`working, results
      ensures Valid() && ToDo() < old(ToDo())
      ensures working == map[] ==> next >= count
    {
      hide Valid;
      var w: nat :| w in working;
      OneLess(working, w);
      Fill(w);
      TakeSlot(w);
    }
  }

  lemma OneLess<T>(m: map<nat, T>, w: nat)
    requires w in m
    ensures |m - {w}| == |m| - 1
  {
    assert m == (m - {w})[w := m[w]];
  }

  lemma ValuesKept(m: map<nat, nat>, w: nat, i: nat)
    requires w !in m
    ensures forall j :: j in m.Values ==> j in m[w := i].Values
  {
    forall j | j in m.Values ensures j in m[w := i].Values {
      var v :| v in m && m[v] == j;
      assert m[w := i][v] == j;
    }
  }

  /** generatePreKeysBatch. Which worker goes on next is anybody's choice. */
  method GeneratePreKeysBatch(startId: nat, count: nat, concurrency: nat) returns (r: Result<seq<PreKey>, BatchError>)
    ensures r.Failure? <==> count == 0
    ensures r.Success? ==>
              && |r.value| == count
              && forall i :: 0 <= i < count ==>
                   r.value[i].keyId == (startId + i - 1) % 0xffffff + 1 && IsKeyPair(r.value[i].keyPair)
  {
    if count == 0 {
      return Failure(InvalidCount);
    }
    var workers := if concurrency < 1 then 1 else if concurrency < count then concurrency else count;
    var batch := new Batch(startId, count);
    hide Batch.Valid;
    for w := 0 to workers
      invariant batch.Valid() && fresh(batch) && fresh(batch.results) && batch.startId == startId
      invariant batch.count == count
      invariant w > 0 ==> 0 in batch.working
      invariant batch.next == w && forall v :: v in batch.working ==> v < w
    {
      batch.TakeSlot(w);
    }
    while batch.working != map[]
      invariant batch.Valid() && fresh(batch) && fresh(batch.results)
      invariant batch.working == map[] ==> batch.next >= count
      invariant batch.startId == startId && batch.count == count
      decreases batch.ToDo()
    {
      batch.Step();
    }
    r := Success(batch.Results());
    SlotIds(r.value, startId);
  }

  lemma SlotIds(slots: seq<PreKey>, startId: int)
    requires forall i :: 0 <= i < |slots| ==> IsSlot(slots[i], startId, i)
    ensures forall i :: 0 <= i < |slots| ==>
              slots[i].keyId == (startId + i - 1) % 0xffffff + 1 && IsKeyPair(slots[i].keyPair)
  {
    forall i | 0 <= i < |slots| ensures slots[i].keyId == (startId + i - 1) % 0xffffff + 1 {
      WrapIsCircular(startId + i);
    }
    hide WrapPreKeyId;
  }
}
