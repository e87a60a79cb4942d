/** The search of createBundle for a prekey that it can reserve, while other callers may change
    the store at every await. */
module PreKeyBundles {
  import opened Wrappers
  import opened IntSets
  import opened StorageContents
  import PreKeyPools

  datatype Bundle = Bundle(preKeyId: int, publicKey: Bytes)

  datatype BundleError = NoPreKey(id: int) | NoneAvailable

  /** A change of the store, by this call or by another caller. */
  datatype Step = Step(mine: bool, after: Contents)

  /** listAvailablePreKeyIds */
  function Available(c: Contents): set<int> {
    c.preKeys.Keys - c.published
  }

  /** The prekey was there, it had not been published, and now it is. */
  ghost predicate Reserved(before: Contents, after: Contents, id: int) {
    && id in before.preKeys && id !in before.published
    && after == before.(published := before.published + {id})
  }

  /** A reservation is what the runs of the pool call a publication. */
  lemma ReservationIsPublication(before: Contents, after: Contents, id: int)
    ensures Reserved(before, after, id) <==> Apply(before, ReservePreKey(id)) == (after, true)
    ensures Reserved(before, after, id) ==> PreKeyPools.Changed(before, PreKeyPools.Publish(id)) == after
  {
  }

  /** The steps since `before`; those of this call have changed nothing. */
  ghost predicate Waited(before: seq<Step>, now: seq<Step>) {
    && before <= now && before != []
    && forall i :: |before| <= i < |now| && now[i].mine ==> now[i].after == now[i - 1].after
  }

  /** The last step is a reservation by this call, and its only one. */
  ghost predicate ReservedByThis(before: seq<Step>, now: seq<Step>, id: int) {
    && |now| > |before| && Waited(before, now[..|now| - 1])
    && now[|now| - 1].mine && Reserved(now[|now| - 2].after, now[|now| - 1].after, id)
  }

  /** The public key is that of the prekey at some time since `before`. */
  ghost predicate HadKey(before: seq<Step>, now: seq<Step>, b: Bundle, k: nat) {
    && |before| - 1 <= k < |now| - 1
    && b.preKeyId in now[k].after.preKeys && b.publicKey == now[k].after.preKeys[b.preKeyId].pubKey
  }

  /** At some time since `before` the prekey could not be reserved. */
  ghost predicate WasTaken(before: seq<Step>, now: seq<Step>, id: int) {
    exists j :: 0 <= j < |now| && |before| - 1 <= j && id !in Available(now[j].after)
  }

  ghost predicate AllWereTaken(before: seq<Step>, now: seq<Step>, ids: set<int>) {
    forall id :: id in ids ==> WasTaken(before, now, id)
  }

  lemma StillTaken(before: seq<Step>, now: seq<Step>, later: seq<Step>, ids: set<int>)
    requires before != [] && now <= later && AllWereTaken(before, now, ids)
    ensures AllWereTaken(before, later, ids)
  {
    forall id | id in ids ensures WasTaken(before, later, id) {
      var j :| 0 <= j < |now| && |before| - 1 <= j && id !in Available(now[j].after);
      assert later[j] == now[j];
    }
  }

  /** What was taken since a later time was taken since an earlier one. */
  lemma TakenSince(before: seq<Step>, was: seq<Step>, now: seq<Step>, ids: set<int>)
    requires before != [] && |before| <= |was| && AllWereTaken(was, now, ids)
    ensures AllWereTaken(before, now, ids)
  {
    forall id | id in ids ensures WasTaken(before, now, id) {
      var j :| 0 <= j < |now| && |was| - 1 <= j && id !in Available(now[j].after);
    }
  }

  lemma AllTaken(before: seq<Step>, was: seq<Step>, now: seq<Step>, ids: set<int>, more: set<int>)
    requires before != [] && |before| <= |was| && was <= now
    requires AllWereTaken(before, was, ids) && AllWereTaken(was, now, more - ids)
    ensures AllWereTaken(before, now, ids + more)
  {
    StillTaken(before, was, now, ids);
    TakenSince(before, was, now, more - ids);
    hide WasTaken;
  }

  lemma FewerTaken(before: seq<Step>, now: seq<Step>, ids: set<int>, fewer: set<int>)
    requires AllWereTaken(before, now, ids) && fewer <= ids
    ensures AllWereTaken(before, now, fewer)
  {
  }

  lemma ThenReserved(a: seq<Step>, b: seq<Step>, c: seq<Step>, bundle: Bundle, k: nat)
    requires Waited(a, b) && ReservedByThis(b, c, bundle.preKeyId) && HadKey(b, c, bundle, k)
    ensures ReservedByThis(a, c, bundle.preKeyId) && HadKey(a, c, bundle, k)
  {
    WaitedMore(a, b, c[..|c| - 1]);
  }

  lemma Reserving(before: seq<Step>, found: seq<Step>, was: seq<Step>, now: seq<Step>, b: Bundle, reserved: bool)
    requires Waited(before, found) && Waited(found, was) && |now| == |was| + 1 && was == now[..|was|] && now[|was|].mine
    requires b.preKeyId in found[|found| - 1].after.preKeys
    requires b.publicKey == found[|found| - 1].after.preKeys[b.preKeyId].pubKey
    requires if reserved then Reserved(was[|was| - 1].after, now[|was|].after, b.preKeyId)
             else now[|was|].after == was[|was| - 1].after
    ensures if reserved then ReservedByThis(before, now, b.preKeyId) && HadKey(before, now, b, |found| - 1)
            else Waited(before, now)
  {
    WaitedMore(before, found, was);
  }

  lemma NotYetWaited(h: seq<Step>)
    requires h != []
    ensures Waited(h, h) && AllWereTaken(h, h, {})
  {
  }

  lemma OneMoreTaken(before: seq<Step>, now: seq<Step>, ids: set<int>, id: int)
    requires before != [] && before <= now && AllWereTaken(before, now, ids)
    requires id !in Available(now[|now| - 1].after)
    ensures AllWereTaken(before, now, ids + {id})
  {
  }

  lemma WaitedMore(a: seq<Step>, b: seq<Step>, c: seq<Step>)
    requires Waited(a, b) && Waited(b, c)
    ensures Waited(a, c) && a != [] && a <= b <= c
  {
  }

  lemma LeastIsFirst(s: set<int>)
    requires s != {}
    ensures SortedKeys(s) != [] && SortedKeys(s)[0] == Least(s) && SortedKeys(s)[0] in s
  {
  }

  lemma MembersAppend(r: seq<int>, i: nat)
    requires i < |r|
    ensures Members(r[..i + 1]) == Members(r[..i]) + {r[i]}
  {
    assert r[..i + 1] == r[..i] + [r[i]];
  }

  /** What a replenishment adds to the pool: those of its ids that are not taken for published. */
  function Fresh(ids: seq<int>, published: set<int>): set<int> {
    set id | id in ids && id !in published
  }

  lemma Refilled(was: Contents, now: Contents, ids: seq<int>)
    requires Available(was) == {} && now.published == was.published
    requires now.preKeys.Keys == was.preKeys.Keys + Members(ids)
    ensures Available(now) == Fresh(ids, was.published)
  {
    assert forall id :: id in was.preKeys ==> id in was.published || id in Available(was);
  }

  class PreKeyPoolManager {
    var data: Contents
    /** All that has happened to the store. */
    ghost var history: seq<Step>
    /** Whether no other caller uses the store meanwhile. */
    const alone: bool

    ghost predicate Valid()
      reads this
    {
      history != [] && history[|history| - 1].after == data
    }

    /** An await. All that CreateBundle knows is this contract: unless it is alone, others may have
        done anything to the store. */
    method Await()
      requires Valid()
      modifies this`data, this`history
      ensures Valid() && old(history) <= history
      ensures forall i :: |old(history)| <= i < |history| ==> !history[i].mine
      ensures alone ==> history == old(history)
    {
    }

    /** reservePreKey, which is atomic */
    method Reserve(id: int) returns (reserved: bool)
      requires Valid()
      modifies this`data, this`history
      ensures Valid() && history == old(history) + [Step(true, data)]
      ensures if reserved then Reserved(old(data), data, id) else data == old(data)
      ensures id in Available(old(data)) ==> reserved
    {
      var applied := Apply(data, ReservePreKey(id));
      data, reserved := applied.0, applied.1;
      history := history + [Step(true, data)];
    }

    /** One candidate: its bundle is built, and then it is reserved, if it still can be. */
    method TryCandidate(id: int) returns (r: Result<Option<Bundle>, BundleError>, ghost k: nat)
      requires Valid()
      modifies this`data, this`history
      ensures Valid()
      ensures match r
              case Success(Some(b)) =>
                b.preKeyId == id && ReservedByThis(old(history), history, id) && HadKey(old(history), history, b, k)
              case _ => Waited(old(history), history)
      ensures r == Success(None) ==> id !in Available(data)
      ensures r.Failure? ==> r == Failure(NoPreKey(id)) && id !in data.preKeys
      ensures alone && id in Available(old(data)) ==>
                r == Success(Some(Bundle(id, old(data).preKeys[id].pubKey))) && Reserved(old(data), data, id)
    {
      k := 0;
      Await();
      if id !in data.preKeys {
        return Failure(NoPreKey(id)), 0;
      }
      k := |history| - 1;
      ghost var found := history;
      var bundle := Bundle(id, data.preKeys[id].pubKey);
      Await();
      ghost var was := history;
      var reserved := Reserve(id);
      Reserving(old(history), found, was, history, bundle, reserved);
      hide Waited, ReservedByThis, HadKey;
      r := Success(if reserved then Some(bundle) else None);
    }

    /** replenishPreKeys: a pair is stored under each of the ids. */
    method Replenish(ids: seq<int>, pair: KeyPair)
      requires Valid()
      modifies this`data, this`history
      ensures Valid() && Waited(old(history), history)
      ensures alone ==>
                data.published == old(data).published && data.preKeys.Keys == old(data).preKeys.Keys + Members(ids)
    {
      for i := 0 to |ids|
        invariant Valid() && Waited(old(history), history)
        invariant alone ==> data.published == old(data).published
        invariant alone ==> data.preKeys.Keys == old(data).preKeys.Keys + Members(ids[..i])
      {
        ghost var was := history;
        Await();
        data := Apply(data, StorePreKey(ids[i], pair)).0;
        history := history + [Step(false, data)];
        WaitedMore(old(history), was, history);
        MembersAppend(ids, i);
      }
      assert ids[..|ids|] == ids;
    }

    /** listCandidatePreKeyIds */
    method Candidates() returns (ids: seq<int>)
      ensures Members(ids) == Available(data)
      ensures Available(data) == {} <==> ids == []
      ensures Available(data) != {} ==> ids[0] == Least(Available(data)) && ids[0] in Available(data)
    {
      ids := SortedKeys(Available(data));
      SortedMembers(Available(data));
      if Available(data) != {} {
        LeastIsFirst(Available(data));
      }
    }

    /** The candidates of one round, in their order, but for those of the round before. */
    method TryCandidates(candidates: seq<int>, attempted: set<int>)
      returns (r: Result<Option<Bundle>, BundleError>, ghost k: nat)
      requires Valid()
      modifies this`data, this`history
      ensures Valid()
      ensures match r
              case Success(Some(b)) =>
                ReservedByThis(old(history), history, b.preKeyId) && HadKey(old(history), history, b, k)
              case _ => Waited(old(history), history)
      ensures r == Success(None) ==> AllWereTaken(old(history), history, Members(candidates) - attempted)
      ensures r.Failure? ==> r.error.NoPreKey? && r.error.id in candidates && r.error.id !in data.preKeys
      ensures alone && attempted == {} && candidates != [] && candidates[0] in Available(old(data)) ==>
                r == Success(Some(Bundle(candidates[0], old(data).preKeys[candidates[0]].pubKey)))
                && Reserved(old(data), data, candidates[0])
      ensures candidates == [] ==> r == Success(None) && history == old(history)
    {
      ghost var tried: set<int> := {};
      for i := 0 to |candidates|
        invariant Valid() && Waited(old(history), history)
        invariant Members(candidates[..i]) - attempted <= tried && AllWereTaken(old(history), history, tried)
        invariant alone && attempted == {} && candidates != [] && candidates[0] in Available(old(data)) ==>
                    i == 0 && data == old(data)
        invariant i == 0 ==> history == old(history)
      {
        MembersAppend(candidates, i);
        if candidates[i] !in attempted {
          ghost var was := history;
          r, k := TryCandidate(candidates[i]);
          if r.Failure? {
            WaitedMore(old(history), was, history);
            return;
          }
          if r.value.Some? {
            ThenReserved(old(history), was, history, r.value.value, k);
            return;
          }
          WaitedMore(old(history), was, history);
          StillTaken(old(history), was, history, tried);
          OneMoreTaken(old(history), history, tried, candidates[i]);
          tried := tried + {candidates[i]};
        }
      }
      assert candidates[..|candidates|] == candidates;
      r, k := Success(None), 0;
    }
    /** createBundle with reservation, once the pool and the signed prekey are there; `newIds` are the ids of
        the replenishment, if it comes to one. A bundle is returned only when the last thing that has happened to
        the store is that this call reserved its prekey, and no other; without a bundle this call has reserved
        nothing, and each prekey that was available after the replenishment was at some time taken by others.
        Alone, the lowest available prekey is taken, or else the lowest new one. */
    method CreateBundle(newIds: seq<int>, pair: KeyPair)
      returns (r: Result<Bundle, BundleError>, ghost k: nat, ghost listed: nat)
      requires Valid()
      modifies this`data, this`history
      ensures Valid()
      ensures match r
              case Success(b) =>
                ReservedByThis(old(history), history, b.preKeyId) && HadKey(old(history), history, b, k)
              case Failure(NoPreKey(id)) => Waited(old(history), history) && id !in data.preKeys
              case Failure(NoneAvailable) =>
                && Waited(old(history), history) && |old(history)| - 1 <= listed < |history|
                && AllWereTaken(old(history), history, Available(history[listed].after))
      ensures alone && Available(old(data)) != {} ==>
                var id := Least(Available(old(data)));
                r == Success(Bundle(id, old(data).preKeys[id].pubKey)) && Reserved(old(data), data, id)
      ensures alone && Available(old(data)) == {} ==>
                var added := Fresh(newIds, old(data).published);
                if added == {} then r == Failure(NoneAvailable)
                else r.Success? && r.value.preKeyId == Least(added)
    {
      hide Waited, ReservedByThis, HadKey, Reserved, AllWereTaken, Members;
      NotYetWaited(history);
      var attempted: set<int> := {};
      listed := 0;
      for round := 0 to 2
        invariant Valid() && Waited(old(history), history)
        invariant AllWereTaken(old(history), history, attempted)
        invariant alone && Available(old(data)) != {} ==> round == 0
        invariant alone && round > 0 ==> Available(data) == Fresh(newIds, old(data).published)
        invariant alone && round == 1 ==> attempted == {}
        invariant alone && round == 2 ==> Fresh(newIds, old(data).published) == {}
        invariant round == 0 ==> history == old(history) && attempted == {}
        invariant round == 2 ==>
                    |old(history)| - 1 <= listed < |history| && Available(history[listed].after) <= attempted
      {
        ghost var was, before := history, attempted;
        listed := |history| - 1;
        var candidates := Candidates();
        var tried;
        tried, k := TryCandidates(candidates, attempted);
        if tried.Failure? {
          WaitedMore(old(history), was, history);
          return Failure(tried.error), 0, listed;
        }
        if tried.value.Some? {
          ThenReserved(old(history), was, history, tried.value.value, k);
          return Success(tried.value.value), k, listed;
        }
        attempted := attempted + Members(candidates);
        WaitedMore(old(history), was, history);
        AllTaken(old(history), was, history, before, Members(candidates));
        if round == 0 {
          ghost var unfilled, contents := history, data;
          Replenish(newIds, pair);
          if alone {
            Refilled(contents, data, newIds);
          }
          WaitedMore(old(history), unfilled, history);
          StillTaken(old(history), unfilled, history, attempted);
        }
      }
      FewerTaken(old(history), history, attempted, Available(history[listed].after));
      r, k := Failure(NoneAvailable), 0;
    }
  }
}
