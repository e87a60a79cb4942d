/** Which prekeys the pools of a store publish: only ids that have their key pair, and none twice
    unless it was released in between. */
module PreKeyPublications {
  import opened StorageContents
  import opened PreKeyIds
  import opened PreKeyPools
  import opened PreKeyRanges

  // Published ids are ids of stored prekeys, in every run.

  ghost predicate HasPairs(c: Contents) {
    c.published <= c.preKeys.Keys
  }

  ghost predicate AllHavePairs(w: Pool) {
    (w.latest.Some? ==> HasPairs(w.latest.value)) && forall p :: p in w.members ==> HasPairs(w.members[p].data)
  }

  lemma ChangedHasPairs(w: Pool, p: nat, op: Saving)
    requires p in w.members && HasPairs(w.members[p].data)
    ensures HasPairs(ChangedBy(w, p, op))
  {
    hide NextAfter;
  }

  lemma PerformHasPairs(w: Pool, p: nat, op: Saving, end: End, committed: bool)
    requires AllHavePairs(w) && p in w.members
    ensures AllHavePairs(Performed(w, p, op, end, committed))
  {
    var v := Performed(w, p, op, end, committed);
    PerformedStore(w, p, op, end, committed);
    ChangedHasPairs(w, p, op);
    hide Performed, HasPairs, ChangedBy, PositionAfter;
    forall r | r in v.members ensures HasPairs(v.members[r].data) {
      SavedMember(w, p, op, end, committed, r);
      assert HasPairs(w.members[r].data);
    }
  }

  lemma NextHasPairs(w: Pool, e: Event)
    requires AllHavePairs(w)
    ensures AllHavePairs(Next(w, e))
  {
    match e
    case Perform(p, op, end, committed) =>
      hide Performed, AllHavePairs;
      if Enabled(w, e) {
        PerformHasPairs(w, p, op, end, committed);
      }
    case StoreNext(p, _, _) =>
      if p in w.members {
        assert HasPairs(w.members[p].data);
      }
    case Change(p, _) =>
      if p in w.members {
        assert HasPairs(w.members[p].data);
      }
    case _ =>
  }

  /** Every published id in the latest snapshot has its key pair there, and so it is in the memory of
      every process: over all runs, however many ids are reserved and whoever overtakes whom. */
  lemma {:induction false} PublishedAreStored(w: Pool, events: seq<Event>)
    requires AllHavePairs(w)
    ensures AllHavePairs(Run(w, events))
  {
    if events != [] {
      PublishedAreStored(w, events[..|events| - 1]);
      hide AllHavePairs, Next;
      NextHasPairs(Run(w, events[..|events| - 1]), events[|events| - 1]);
    }
  }

  // What is published and not released is not published again.

  ghost predicate Taken(log: seq<Entry>, id: int) {
    log != [] &&
    var last := log[|log| - 1];
    last == Published(id) || (last != Released(id) && Taken(log[..|log| - 1], id))
  }

  ghost predicate PublishedOnce(log: seq<Entry>) {
    log != [] ==>
      && PublishedOnce(log[..|log| - 1])
      && (log[|log| - 1].Published? ==> !Taken(log[..|log| - 1], log[|log| - 1].id))
  }

  ghost predicate IsStored(stored: set<nat>, id: int) {
    exists q: nat :: q in stored && WrapPreKeyId(q) == id
  }

  /** Published ids are ids of stored prekeys, and taken ids are published or gone. */
  ghost predicate Respects(c: Contents, stored: set<nat>, log: seq<Entry>) {
    && c.published <= c.preKeys.Keys
    && (forall id :: id in c.preKeys ==> IsStored(stored, id))
    && forall id {:trigger Taken(log, id)} :: Taken(log, id) ==> id in c.published || id !in c.preKeys
  }

  ghost predicate TakenStored(stored: set<nat>, log: seq<Entry>) {
    forall id :: Taken(log, id) ==> IsStored(stored, id)
  }

  predicate Covers(s: Slot, position: nat) {
    s.Storing? && s.from <= position < s.from + |s.ids|
  }

  /** What is still to be stored has been stored by nobody and is to be stored by nobody else. */
  ghost predicate Apart(slots: map<Manager, Slot>, stored: set<nat>) {
    && (forall k, q :: k in slots && q in stored ==> !Covers(slots[k], q))
    && forall j, k, q :: j in slots && k in slots && j != k && Covers(slots[j], q) ==> !Covers(slots[k], q)
  }

  ghost predicate StoredBelow(stored: set<nat>, origin: nat, reserved: nat) {
    forall q :: q in stored ==> origin <= q < reserved
  }

  ghost predicate AllRespect(w: Pool) {
    && (w.latest.Some? ==> Respects(w.latest.value, w.stored, w.log))
    && forall p :: p in w.members && w.members[p].current ==> Respects(w.members[p].data, w.stored, w.log)
  }

  ghost predicate Sound(w: Pool) {
    && StoredBelow(w.stored, w.origin, w.reserved) && Apart(w.slots, w.stored)
    && TakenStored(w.stored, w.log) && PublishedOnce(w.log) && AllRespect(w)
  }

  // Each operation, on the contents of the process that has the latest snapshot.

  /** The log entry that a committed operation adds. A crash hides a publication, not a release. */
  ghost function Logged(log: seq<Entry>, op: Saving, returned: bool): seq<Entry> {
    if op.Publish? && returned then log + [Published(op.id)]
    else if op.Release? then log + [Released(op.id)]
    else log
  }

  lemma TakenAfter(log: seq<Entry>, e: Entry, id: int)
    ensures Taken(log + [e], id) == (e == Published(id) || (e != Released(id) && Taken(log, id)))
  {
    assert (log + [e])[..|log|] == log;
  }

  /** Whether `id` is taken after the entry of an operation, if it makes one. */
  ghost predicate TakenBy(log: seq<Entry>, op: Saving, returned: bool, id: int) {
    if op.Publish? && returned && op.id == id then true
    else if op.Release? && op.id == id then false
    else Taken(log, id)
  }

  lemma LoggedTaken(log: seq<Entry>, op: Saving, returned: bool, id: int)
    ensures Taken(Logged(log, op, returned), id) == TakenBy(log, op, returned, id)
  {
    if op.Publish? && returned {
      TakenAfter(log, Published(op.id), id);
    } else if op.Release? {
      TakenAfter(log, Released(op.id), id);
    }
  }

  lemma OperationRespects(w: Pool, p: nat, op: Saving, returned: bool)
    requires p in w.members && Respects(w.members[p].data, w.stored, w.log) && Goes(w, p, op)
    ensures Respects(ChangedBy(w, p, op), w.stored, Logged(w.log, op, returned))
  {
    var after, d := Logged(w.log, op, returned), ChangedBy(w, p, op);
    hide IsStored, WrapPreKeyId, Logged, Taken, NextAfter;
    forall id | Taken(after, id) ensures id in d.published || id !in d.preKeys {
      LoggedTaken(w.log, op, returned, id);
    }
  }

  lemma OperationLogged(w: Pool, p: nat, op: Saving, returned: bool)
    requires p in w.members && Respects(w.members[p].data, w.stored, w.log) && Goes(w, p, op)
    requires TakenStored(w.stored, w.log) && PublishedOnce(w.log)
    ensures TakenStored(w.stored, Logged(w.log, op, returned)) && PublishedOnce(Logged(w.log, op, returned))
  {
    var after := Logged(w.log, op, returned);
    assert after != w.log ==> after[..|w.log|] == w.log;
    hide IsStored, WrapPreKeyId, Taken;
    forall id | Taken(after, id) ensures IsStored(w.stored, id) {
      LoggedTaken(w.log, op, returned, id);
    }
    if op.Publish? {
      LoggedTaken(w.log, op, false, op.id);
    }
  }

  lemma PerformedLog(w: Pool, p: nat, op: Saving, end: End, committed: bool)
    requires Enabled(w, Perform(p, op, end, committed))
    ensures Performed(w, p, op, end, committed).log == if committed then Logged(w.log, op, end.Returned?) else w.log
  {
    SavedStore(w, p, op, end, committed);
    hide Saved, Changed, BatchIds, Numbered;
  }

  lemma PerformRespects(w: Pool, p: nat, op: Saving, end: End, committed: bool, r: nat)
    requires AllRespect(w) && Enabled(w, Perform(p, op, end, committed))
    requires var v := Performed(w, p, op, end, committed); r in v.members && v.members[r].current
    ensures var v := Performed(w, p, op, end, committed); Respects(v.members[r].data, v.stored, v.log)
  {
    PerformedStore(w, p, op, end, committed);
    PerformedLog(w, p, op, end, committed);
    SavedMember(w, p, op, end, committed, r);
    hide Performed, Saved, ChangedBy, PositionAfter, Respects;
    if r == p {
      assert w.members[p].current;
      OperationRespects(w, p, op, end.Returned?);
    }
  }

  lemma PerformAllRespect(w: Pool, p: nat, op: Saving, end: End, committed: bool)
    requires AllRespect(w) && Enabled(w, Perform(p, op, end, committed))
    ensures AllRespect(Performed(w, p, op, end, committed))
  {
    var v := Performed(w, p, op, end, committed);
    PerformedStore(w, p, op, end, committed);
    PerformedLog(w, p, op, end, committed);
    hide Performed, ChangedBy, PositionAfter, Respects, Logged;
    if committed {
      OperationRespects(w, p, op, end.Returned?);
    }
    forall r | r in v.members && v.members[r].current ensures Respects(v.members[r].data, v.stored, v.log) {
      PerformRespects(w, p, op, end, committed, r);
    }
  }

  lemma RangeApart(slots: map<Manager, Slot>, stored: set<nat>, origin: nat, reserved: nat, k: Manager, s: Slot)
    requires Apart(slots, stored) && StoredBelow(stored, origin, reserved) && s.Storing? && reserved <= s.from
    requires forall j :: j in slots ==> Below(slots[j], origin, reserved)
    ensures Apart(slots[k := s], stored)
  {
  }

  lemma FewerApart(slots: map<Manager, Slot>, stored: set<nat>, fewer: map<Manager, Slot>)
    requires Apart(slots, stored) && forall j :: j in fewer ==> j in slots && fewer[j] == slots[j]
    ensures Apart(fewer, stored)
  {
    hide Covers;
  }

  lemma PerformedApart(w: Pool, p: nat, op: Saving, end: End, committed: bool)
    requires Orderly(w) && StoredBelow(w.stored, w.origin, w.reserved) && Apart(w.slots, w.stored)
    requires Enabled(w, Perform(p, op, end, committed))
    ensures Apart(Performed(w, p, op, end, committed).slots, w.stored)
  {
    SavedStore(w, p, op, end, committed);
    hide Saved, Numbered, NotBehind, OneReading, Rising, WrapPreKeyId, Apart, StoredBelow, Below;
    if op.Reserve? && end.Returned? {
      ReservedRange(w, p, op.m);
      var s := w.slots[Manager(p, op.m)];
      RangeApart(w.slots, w.stored, w.origin, w.reserved, Manager(p, op.m), Storing(BatchIds(s.start, s.count), s.at));
    } else {
      FewerApart(w.slots, w.stored, Performed(w, p, op, end, committed).slots);
    }
  }

  lemma PerformSound(w: Pool, p: nat, op: Saving, end: End, committed: bool)
    requires Orderly(w) && Sound(w) && Enabled(w, Perform(p, op, end, committed))
    ensures Sound(Performed(w, p, op, end, committed))
  {
    PerformAllRespect(w, p, op, end, committed);
    PerformedApart(w, p, op, end, committed);
    PerformedStore(w, p, op, end, committed);
    PerformedLog(w, p, op, end, committed);
    SavedNotBehind(w, p, op, end, committed);
    hide Performed, Saved, AllBelow, Rising, OneReading, Apart, TakenStored, PublishedOnce, Respects, Logged;
    if committed {
      OperationLogged(w, p, op, end.Returned?);
    }
    hide AllRespect;
  }

  // Storing the next id of a replenishment: before a full wrap it is a new one.

  lemma StoringRespects(c: Contents, stored: set<nat>, log: seq<Entry>, s: Slot, pair: KeyPair, origin: nat,
                        reserved: nat)
    requires Respects(c, stored, log) && TakenStored(stored, log) && StoredBelow(stored, origin, reserved)
    requires s.Storing? && s.ids != [] && SlotAt(s) && Below(s, origin, reserved) && s.from !in stored
    requires reserved - origin <= 0xffffff
    ensures Respects(Apply(c, StorePreKey(s.ids[0], pair)).0, stored + {s.from}, log)
  {
    var id := s.ids[0];
    assert IsStored(stored + {s.from}, id) by {
      assert s.from in stored + {s.from} && WrapPreKeyId(s.from) == id;
    }
    if Taken(log, id) {
      var r: nat :| r in stored && WrapPreKeyId(r) == id;
      WrapInjective(if r < s.from then r else s.from, if r < s.from then s.from else r);
      assert false;
    }
    MoreStored(stored, s.from);
    hide Taken, WrapPreKeyId;
    forall j | j in c.preKeys ensures IsStored(stored + {s.from}, j) {
      assert IsStored(stored, j);
    }
  }

  lemma MoreStored(stored: set<nat>, q: nat)
    ensures forall id :: IsStored(stored, id) ==> IsStored(stored + {q}, id)
  {
    hide WrapPreKeyId;
    forall id | IsStored(stored, id) ensures IsStored(stored + {q}, id) {
      var r: nat :| r in stored && WrapPreKeyId(r) == id;
      assert r in stored + {q};
    }
  }

  lemma StillRespects(c: Contents, stored: set<nat>, log: seq<Entry>, q: nat)
    requires Respects(c, stored, log)
    ensures Respects(c, stored + {q}, log)
  {
    MoreStored(stored, q);
    hide IsStored, Taken;
  }

  lemma StoreApart(slots: map<Manager, Slot>, stored: set<nat>, k: Manager)
    requires Apart(slots, stored) && k in slots && slots[k].Storing? && slots[k].ids != []
    ensures slots[k].from !in stored
    ensures Apart(slots[k := Storing(slots[k].ids[1..], slots[k].from + 1)], stored + {slots[k].from})
  {
    var s := slots[k];
    assert Covers(s, s.from);
    assert forall q :: Covers(Storing(s.ids[1..], s.from + 1), q) ==> Covers(s, q) && q != s.from;
    assert forall j :: j in slots && j != k ==> !Covers(slots[j], s.from);
  }

  lemma StoreSound(w: Pool, p: nat, m: nat, pair: KeyPair)
    requires SlotsAt(w) && Orderly(w) && Sound(w) && Enabled(w, StoreNext(p, m, pair))
    requires w.reserved - w.origin <= 0xffffff
    ensures Sound(StoredNext(w, p, m, pair))
  {
    var k, v := Manager(p, m), StoredNext(w, p, m, pair);
    var s := w.slots[k];
    assert SlotAt(s) && Below(s, w.origin, w.reserved);
    StoreApart(w.slots, w.stored, k);
    MoreStored(w.stored, s.from);
    hide Respects, SlotAt, Apart, PublishedOnce, Rising, OneReading, NotBehind, IsStored, Apply, Taken, WrapPreKeyId;
    forall r | r in v.members && v.members[r].current ensures Respects(v.members[r].data, v.stored, v.log) {
      if r == p {
        StoringRespects(w.members[p].data, w.stored, w.log, s, pair, w.origin, w.reserved);
      } else {
        StillRespects(w.members[r].data, w.stored, w.log, s.from);
      }
    }
    if w.latest.Some? {
      StillRespects(w.latest.value, w.stored, w.log, s.from);
    }
  }

  lemma OpenSound(w: Pool, p: nat, initial: Contents, committed: bool, returned: bool)
    requires LatestAt(w) && Sound(w) && Enabled(w, Open(p, initial, committed, returned))
    ensures Sound(Opened(w, p, initial, committed, returned))
  {
    assert Respects(initial, w.stored, w.log);
    hide Respects, Apart, TakenStored, PublishedOnce, IsNew;
  }

  lemma OtherSound(w: Pool, e: Event)
    requires Sound(w) && Enabled(w, e) && (e.ReadNext? || e.Abandon? || e.Change? || e.Exit?)
    ensures Sound(Next(w, e))
  {
    if e.Change? {
      SameRespects(w.members[e.p].data, e.data, w.stored, w.log);
    }
    hide Respects, TakenStored, PublishedOnce, HasReading;
  }

  lemma SameRespects(c: Contents, data: Contents, stored: set<nat>, log: seq<Entry>)
    requires data.preKeys == c.preKeys && data.published == c.published
    ensures Respects(c, stored, log) ==> Respects(data, stored, log)
  {
  }

  lemma NextSound(w: Pool, e: Event)
    requires Positioned(w) && Orderly(w) && Sound(w) && w.reserved - w.origin <= 0xffffff
    ensures Sound(Next(w, e))
  {
    hide Sound, Orderly, Performed, StoredNext, Opened;
    if Enabled(w, e) {
      match e
      case Open(p, initial, committed, returned) => OpenSound(w, p, initial, committed, returned);
      case Perform(p, op, end, committed) => PerformSound(w, p, op, end, committed);
      case StoreNext(p, m, pair) => StoreSound(w, p, m, pair);
      case _ => OtherSound(w, e);
    }
  }

  /** A store whose prekeys have been generated in the range before `reserved`. */
  ghost predicate StartsSound(w: Pool) {
    Starts(w) && StoredBelow(w.stored, w.origin, w.reserved)
      && (w.latest.Some? ==> Respects(w.latest.value, w.stored, []))
  }

  lemma ReservedGrows(w: Pool, e: Event)
    requires Orderly(w)
    ensures w.reserved <= Next(w, e).reserved
  {
    hide Performed, Saved, OneReading, AllBelow, Rising;
    if e.Perform? && Enabled(w, e) {
      PerformedStore(w, e.p, e.op, e.end, e.committed);
      SavedNotBehind(w, e.p, e.op, e.end, e.committed);
    }
  }

  lemma {:induction false} RunSound(w: Pool, events: seq<Event>)
    requires StartsSound(w) && !Run(w, events).overlapped && Run(w, events).reserved - w.origin <= 0xffffff
    ensures Sound(Run(w, events))
  {
    if events != [] {
      var before, e := Run(w, events[..|events| - 1]), events[|events| - 1];
      OverlapStays(before, e);
      RunPositioned(w, events[..|events| - 1]);
      RunOrderly(w, events[..|events| - 1]);
      ReservedGrows(before, e);
      hide Positioned, Orderly, Sound, Next;
      RunSound(w, events[..|events| - 1]);
      NextSound(before, e);
    }
  }

  lemma {:induction false} TakenUntilReleased(log: seq<Entry>, i: nat)
    requires i < |log| && log[i].Published? && forall k :: i < k < |log| ==> log[k] != Released(log[i].id)
    ensures Taken(log, log[i].id)
  {
    if i < |log| - 1 {
      TakenUntilReleased(log[..|log| - 1], i);
    }
  }

  lemma {:induction false} ReleasedInBetween(log: seq<Entry>, i: nat, j: nat)
    requires PublishedOnce(log) && i < j < |log| && log[i].Published? && log[j] == log[i]
    ensures exists k :: i < k < j && log[k] == Released(log[i].id)
    decreases |log|
  {
    if j < |log| - 1 {
      ReleasedInBetween(log[..|log| - 1], i, j);
    } else if forall k :: i < k < j ==> log[k] != Released(log[i].id) {
      TakenUntilReleased(log[..j], i);
      assert false;
    }
  }

  /** Over every run, with bundles made in several processes, crashes and reloads, in which no reading
      falls into another one's open window: within one wrap of ids none is published a second time
      unless it has been released in between. */
  lemma PublishedOnceUnlessReleased(w: Pool, events: seq<Event>, i: nat, j: nat)
    requires StartsSound(w) && !Run(w, events).overlapped && Run(w, events).reserved - w.origin <= 0xffffff
    requires var log := Run(w, events).log; i < j < |log| && log[i].Published? && log[j] == log[i]
    ensures var log := Run(w, events).log;
            exists k :: i < k < j && log[k] == Released(log[i].id)
  {
    RunSound(w, events);
    hide Run;
    ReleasedInBetween(Run(w, events).log, i, j);
  }

  // With overlap an id can be published twice.

  /** A publication of an id that has been published before, with no release in between. */
  ghost predicate PublishedTwice(log: seq<Entry>) {
    exists i, j :: 0 <= i < j < |log| && log[i].Published? && log[j] == log[i]
                   && forall k :: i < k < j ==> log[k] != Released(log[i].id)
  }

  /** Without another reading, and within one wrap, some id can still come to be published twice. */
  ghost predicate CanPublishTwice(w: Pool) {
    exists more :: NoReadings(more) && Run(w, more).reserved - w.origin <= 0xffffff
      && PublishedTwice(Run(w, more).log)
  }

  /** Neither stored nor published. */
  ghost predicate Absent(w: Pool, p: nat, id: int) {
    p in w.members && id !in w.members[p].data.preKeys && id !in w.members[p].data.published
  }

  ghost predicate Available(w: Pool, p: nat, id: int) {
    p in w.members && id in w.members[p].data.preKeys && id !in w.members[p].data.published
  }

  ghost predicate HasPair(w: Pool, p: nat, id: int, pair: KeyPair) {
    p in w.members && id in w.members[p].data.preKeys && w.members[p].data.preKeys[id] == pair
  }

  ghost predicate IsPublished(w: Pool, p: nat, id: int) {
    p in w.members && id in w.members[p].data.published
  }

  /** What these steps leave alone. */
  ghost predicate SameBeside(w: Pool, v: Pool, p: nat, m: nat) {
    && v.origin == w.origin && forall k :: k in w.slots && k != Manager(p, m) ==>
      k in v.slots && v.slots[k] == w.slots[k]
  }

  lemma RemoveMakesAbsent(w: Pool, p: nat, position: nat, id: int)
    requires HasLatest(w, p, position)
    ensures var v := Next(w, Perform(p, Remove(id), Returned, true));
            && HasLatest(v, p, position) && v.reserved == position && Absent(v, p, id)
            && v.log == w.log && v.slots == w.slots && v.origin == w.origin
  {
  }

  lemma StoreMakesAvailable(w: Pool, p: nat, m: nat, position: nat, id: int, pair: KeyPair)
    requires HasLatest(w, p, position) && Absent(w, p, id) && WillStore(w, p, m, id)
    ensures var v := Next(w, StoreNext(p, m, pair));
            && HasLatest(v, p, position) && v.reserved == w.reserved && Available(v, p, id) && HasPair(v, p, id, pair)
            && v.log == w.log && SameBeside(w, v, p, m)
  {
  }

  lemma PublishIsLogged(w: Pool, p: nat, position: nat, id: int)
    requires HasLatest(w, p, position) && Available(w, p, id)
    ensures var v := Next(w, Perform(p, Publish(id), Returned, true));
            && HasLatest(v, p, position) && v.reserved == position && IsPublished(v, p, id)
            && v.members[p].data.preKeys == w.members[p].data.preKeys
            && v.log == w.log + [Published(id)] && v.slots == w.slots && v.origin == w.origin
  {
  }

  lemma StoresOver(w: Pool, p: nat, m: nat, id: int, pair: KeyPair)
    requires IsPublished(w, p, id) && WillStore(w, p, m, id)
    ensures var v := Next(w, StoreNext(p, m, pair)); IsPublished(v, p, id) && HasPair(v, p, id, pair)
  {
  }

  /** One manager stores and publishes the id, the prekey is consumed, and the other one does it again. */
  function PublishAgain(p: nat, i: nat, m: nat, id: int, first: KeyPair, second: KeyPair): seq<Event> {
    [StoreNext(p, i, first), Perform(p, Publish(id), Returned, true), Perform(p, Remove(id), Returned, true),
     StoreNext(p, m, second), Perform(p, Publish(id), Returned, true)]
  }

  lemma FiveEvents(w: Pool, a: Event, b: Event, c: Event, d: Event, e: Event)
    ensures Run(w, [a, b, c, d, e]) == Next(Next(Next(Next(Next(w, a), b), c), d), e)
  {
    assert Run(w, []) == w;
    assert [] + [a] == [a] && [a] + [b] == [a, b] && [a, b] + [c] == [a, b, c];
    assert [a, b, c] + [d] == [a, b, c, d] && [a, b, c, d] + [e] == [a, b, c, d, e];
    hide *;
    LastEvent(w, [], a);
    LastEvent(w, [a], b);
    LastEvent(w, [a, b], c);
    LastEvent(w, [a, b, c], d);
    LastEvent(w, [a, b, c, d], e);
  }

  lemma PublishesAgain(w: Pool, p: nat, i: nat, m: nat, position: nat, id: int, first: KeyPair, second: KeyPair)
    requires HasLatest(w, p, position) && Absent(w, p, id) && i != m && WillStore(w, p, i, id) && WillStore(w, p, m, id)
    ensures var v := Run(w, PublishAgain(p, i, m, id, first, second));
            v.log == w.log + [Published(id), Published(id)] && v.reserved == position && v.origin == w.origin
  {
    var publish, remove := Perform(p, Publish(id), Returned, true), Perform(p, Remove(id), Returned, true);
    var w1 := Next(w, StoreNext(p, i, first));
    var w2, w3 := Next(w1, publish), Next(Next(w1, publish), remove);
    var w4 := Next(w3, StoreNext(p, m, second));
    hide Next, Run, HasLatest, Absent, Available;
    StoreMakesAvailable(w, p, i, position, id, first);
    PublishIsLogged(w1, p, position, id);
    RemoveMakesAbsent(w2, p, position, id);
    StoreMakesAvailable(w3, p, m, position, id, second);
    PublishIsLogged(w4, p, position, id);
    FiveEvents(w, StoreNext(p, i, first), publish, remove, StoreNext(p, m, second), publish);
  }

  function BothReserved(c: Contents): seq<Event> {
    [Open(0, c, true, true), ReadNext(0, 0, 1), ReadNext(0, 1, 1), ReserveBy(0, 0), ReserveBy(0, 1)]
  }

  /** Two managers have both read the id 1 of a new store and reserved it. */
  lemma BothAboutToStore(c: Contents)
    requires IsNew(c)
    ensures var w := Run(NO_STORE, BothReserved(c));
            && HasLatest(w, 0, 2) && Absent(w, 0, 1) && WillStore(w, 0, 0, 1) && WillStore(w, 0, 1, 1) && w.log == []
  {
    var both := [Open(0, c, true, true), ReadNext(0, 0, 1), ReadNext(0, 1, 1)];
    assert both + [ReserveBy(0, 0)] + [ReserveBy(0, 1)] == BothReserved(c);
    assert BothReading(Both(c, 1, 1), 0, 0, 1);
    WrapIsCircular(1);
    hide Run, Next, WrapPreKeyId, BothReading, AllDistinct;
    BothRead(c, 1, 1);
    BothGenerate(Both(c, 1, 1), 0, 0, 1);
    LastEvent(NO_STORE, both, ReserveBy(0, 0));
    LastEvent(NO_STORE, both + [ReserveBy(0, 0)], ReserveBy(0, 1));
  }

  /** What comes of two managers that collide: the second one stores its key pair over the one whose
      public key has been published. */
  lemma TwoManagersOverwrite(c: Contents, first: KeyPair, second: KeyPair)
    requires IsNew(c)
    ensures var stored := BothReserved(c) + [StoreNext(0, 0, first)];
            var published := stored + [Perform(0, Publish(1), Returned, true)];
            var over := published + [StoreNext(0, 1, second)];
            && Run(NO_STORE, published).log == [Published(1)] && HasPair(Run(NO_STORE, published), 0, 1, first)
            && IsPublished(Run(NO_STORE, over), 0, 1) && HasPair(Run(NO_STORE, over), 0, 1, second)
  {
    var w := Run(NO_STORE, BothReserved(c));
    BothAboutToStore(c);
    hide Run, Next, HasLatest, Absent, Available;
    var stored := BothReserved(c) + [StoreNext(0, 0, first)];
    LastEvent(NO_STORE, BothReserved(c), StoreNext(0, 0, first));
    StoreMakesAvailable(w, 0, 0, 2, 1, first);
    var published := stored + [Perform(0, Publish(1), Returned, true)];
    LastEvent(NO_STORE, stored, Perform(0, Publish(1), Returned, true));
    PublishIsLogged(Run(NO_STORE, stored), 0, 2, 1);
    LastEvent(NO_STORE, published, StoreNext(0, 1, second));
    StoresOver(Run(NO_STORE, published), 0, 1, 1, second);
  }

  /** And when the first prekey is consumed before the second one is stored, the id is published once
      more, though nobody has released it. */
  lemma TwoManagersPublishTwice(c: Contents, first: KeyPair, second: KeyPair)
    requires IsNew(c)
    ensures var log := Run(NO_STORE, BothReserved(c) + PublishAgain(0, 0, 1, 1, first, second)).log;
            log == [Published(1), Published(1)] && PublishedTwice(log)
  {
    BothAboutToStore(c);
    hide *;
    PublishesAgain(Run(NO_STORE, BothReserved(c)), 0, 0, 1, 2, 1, first, second);
    RunOn(NO_STORE, BothReserved(c), PublishAgain(0, 0, 1, 1, first, second));
    TwiceInARow([], 1);
  }

  lemma TwiceInARow(log: seq<Entry>, id: int)
    ensures PublishedTwice(log + [Published(id), Published(id)])
  {
    var all := log + [Published(id), Published(id)];
    assert all[|log|] == all[|log| + 1] == Published(id);
  }

  /** What the contents are without the id, then both managers publish it. */
  lemma CarriedOnTwice(w: Pool, p: nat, i: nat, m: nat)
    requires BothReading(w, p, i, m)
    requires w.slots[Manager(p, m)].at + w.slots[Manager(p, m)].count - w.origin <= 0xffffff
    ensures CanPublishTwice(w)
  {
    var s := w.slots[Manager(p, m)];
    var id, position := WrapPreKeyId(s.start), s.at + s.count;
    var pair := KeyPair([], []);
    var v := Next(Next(w, ReserveBy(p, i)), ReserveBy(p, m));
    var remove := Perform(p, Remove(id), Returned, true);
    BothGenerate(w, p, i, m);
    RemoveMakesAbsent(v, p, position, id);
    assert WillStore(Next(v, remove), p, i, id) && WillStore(Next(v, remove), p, m, id);
    assert i != m;
    hide *;
    PublishesAgain(Next(v, remove), p, i, m, position, id, pair, pair);
    TwoEvents(w, ReserveBy(p, i), ReserveBy(p, m));
    LastEvent(w, [ReserveBy(p, i), ReserveBy(p, m)], remove);
    RunOn(w, [ReserveBy(p, i), ReserveBy(p, m)] + [remove], PublishAgain(p, i, m, id, pair, pair));
    TwiceInARow(v.log, id);
    NoneReads(p, i, m, id, pair);
    PublishesTwice(w, [ReserveBy(p, i), ReserveBy(p, m)] + [remove] + PublishAgain(p, i, m, id, pair, pair));
  }

  lemma NoneReads(p: nat, i: nat, m: nat, id: int, pair: KeyPair)
    ensures NoReadings([ReserveBy(p, i), ReserveBy(p, m)] + [Perform(p, Remove(id), Returned, true)]
                       + PublishAgain(p, i, m, id, pair, pair))
  {
  }

  lemma PublishesTwice(w: Pool, more: seq<Event>)
    requires NoReadings(more) && Run(w, more).reserved - w.origin <= 0xffffff && PublishedTwice(Run(w, more).log)
    ensures CanPublishTwice(w)
  {
    hide Run, PublishedTwice;
  }

  lemma NotTwice(w: Pool, events: seq<Event>)
    requires StartsSound(w) && !Run(w, events).overlapped && Run(w, events).reserved - w.origin <= 0xffffff
    ensures !PublishedTwice(Run(w, events).log)
  {
    var log := Run(w, events).log;
    if PublishedTwice(log) {
      var i, j :| 0 <= i < j < |log| && log[i].Published? && log[j] == log[i]
                  && forall k :: i < k < j ==> log[k] != Released(log[i].id);
      hide Run, StartsSound;
      PublishedOnceUnlessReleased(w, events, i, j);
      assert false;
    }
  }

  /** Exactly when a reading is safe for publications: from any point of a run without overlap, a reading
      can lead to an id published twice without a release in between if and only if its process has the
      latest snapshot and another manager of the process is reading. */
  lemma PublishesTwiceExactlyWhen(w: Pool, events: seq<Event>, p: nat, m: nat, count: nat)
    requires StartsSound(w)
    requires var v := Run(w, events);
             && !v.overlapped && Enabled(v, ReadNext(p, m, count))
             && (IsCurrent(v, p) ==> v.members[p].position + count - v.origin <= 0xffffff)
    ensures var v := Run(w, events);
            CanPublishTwice(Run(w, events + [ReadNext(p, m, count)])) <==> IsCurrent(v, p) && HasReading(v, p)
  {
    var v, u := Run(w, events), Run(w, events + [ReadNext(p, m, count)]);
    LastEvent(w, events, ReadNext(p, m, count));
    RunPositioned(w, events);
    RunOrderly(w, events);
    hide Run, Positioned, Orderly, StartsSound, PublishedTwice;
    if IsCurrent(v, p) && HasReading(v, p) {
      var i := ReadsTheSame(v, p, m, count);
      CarriedOnTwice(u, p, i, m);
    } else if CanPublishTwice(u) {
      var more :|
        && NoReadings(more) && Run(u, more).reserved - u.origin <= 0xffffff && PublishedTwice(Run(u, more).log);
      NoneOverlaps(u, more);
      RunOn(w, events + [ReadNext(p, m, count)], more);
      NotTwice(w, events + [ReadNext(p, m, count)] + more);
      assert false;
    }
  }
}
