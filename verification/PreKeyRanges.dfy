/** Which ids the managers of a store generate: each at a position of its own, as long as no manager
    of the process with the latest snapshot reads the next id while another one of it has read it and
    not yet reserved; and exactly then, when every reading leads to a reservation that is saved. */
module PreKeyRanges {
  import opened Wrappers
  import opened StorageContents
  import opened PreKeyIds
  import opened PreKeyPools

  // What is true of every run: ids and positions go together.

  ghost predicate AtPosition(c: Contents, position: nat) {
    1 <= position && c.nextPreKeyId == WrapPreKeyId(position)
  }

  ghost predicate SlotAt(s: Slot) {
    match s
    case Reading(start, at, count) => 1 <= at && start == WrapPreKeyId(at) && count > 0
    case Storing(ids, from) => 1 <= from && forall j :: 0 <= j < |ids| ==> ids[j] == WrapPreKeyId(from + j)
  }

  ghost predicate LatestAt(w: Pool) {
    && 1 <= w.reserved
    && if w.latest.None? then w.reserved == 1 && w.members == map[] else AtPosition(w.latest.value, w.reserved)
  }

  ghost predicate MemberAt(m: Member) {
    AtPosition(m.data, m.position)
  }

  ghost predicate MembersAt(w: Pool) {
    forall p :: p in w.members ==> MemberAt(w.members[p])
  }

  ghost predicate SlotsAt(w: Pool) {
    forall k :: k in w.slots ==> k.p in w.members && SlotAt(w.slots[k])
  }

  ghost predicate GeneratedAt(generated: seq<Generated>) {
    forall g :: g in generated ==> 1 <= g.position && g.id == WrapPreKeyId(g.position)
  }

  ghost predicate Positioned(w: Pool) {
    LatestAt(w) && MembersAt(w) && SlotsAt(w) && GeneratedAt(w.generated)
  }

  lemma BatchAt(start: int, at: nat, count: nat)
    requires 1 <= at && start == WrapPreKeyId(at)
    ensures SlotAt(Storing(BatchIds(start, count), at)) && WrapPreKeyId(start + count) == WrapPreKeyId(at + count)
    ensures GeneratedAt(Numbered(BatchIds(start, count), at))
  {
    hide WrapPreKeyId;
    WrapAdds(at, count);
    var ids := BatchIds(start, count);
    forall j | 0 <= j < count ensures ids[j] == WrapPreKeyId(at + j) {
      WrapAdds(at, j);
    }
  }

  /** What is changed and saved is at its position again. */
  lemma ChangedAt(w: Pool, p: nat, op: Saving)
    requires MembersAt(w) && SlotsAt(w) && p in w.members && Goes(w, p, op)
    ensures AtPosition(ChangedBy(w, p, op), PositionAfter(w, p, op))
  {
    assert MemberAt(w.members[p]);
    hide WrapPreKeyId, AtPosition;
    if op.Reserve? {
      var s := w.slots[Manager(p, op.m)];
      assert SlotAt(s);
      ReservedAt(s, w.members[p].data);
    } else {
      SameNextId(w.members[p].data, op, w.members[p].position);
    }
  }

  lemma ReservedAt(s: Slot, c: Contents)
    requires s.Reading? && SlotAt(s)
    ensures AtPosition(c.(nextPreKeyId := WrapPreKeyId(s.start + s.count)), s.at + s.count)
  {
    BatchAt(s.start, s.at, s.count);
    hide WrapPreKeyId;
  }

  lemma SameNextId(c: Contents, op: Saving, at: nat)
    requires AtPosition(c, at)
    ensures AtPosition(Changed(c, op), at)
  {
    hide WrapPreKeyId;
  }

  lemma SavedMembersAt(w: Pool, p: nat, op: Saving, end: End, committed: bool)
    requires MembersAt(w) && SlotsAt(w) && p in w.members && Goes(w, p, op)
    ensures MembersAt(Saved(w, p, op, end, committed))
  {
    ChangedAt(w, p, op);
    hide Saved, Goes, ChangedBy, SlotsAt, AtPosition, PositionAfter;
    forall r | r in Saved(w, p, op, end, committed).members
      ensures MemberAt(Saved(w, p, op, end, committed).members[r])
    {
      SavedMember(w, p, op, end, committed, r);
      assert MemberAt(w.members[r]);
      KeptAt(w, p, op);
    }
  }

  lemma KeptAt(w: Pool, p: nat, op: Saving)
    requires p in w.members && MemberAt(w.members[p])
    ensures !op.Reserve? ==> AtPosition(w.members[p].data, PositionAfter(w, p, op))
  {
  }

  lemma SavedLatestAt(w: Pool, p: nat, op: Saving, end: End, committed: bool)
    requires Positioned(w) && Enabled(w, Perform(p, op, end, committed))
    ensures LatestAt(Saved(w, p, op, end, committed))
  {
    ChangedAt(w, p, op);
    hide SlotsAt, GeneratedAt, ChangedBy, PositionAfter, AtPosition, Goes;
    assert MemberAt(w.members[p]);
    PositiveAfter(w, p, op);
  }

  lemma PositiveAfter(w: Pool, p: nat, op: Saving)
    requires p in w.members && AtPosition(ChangedBy(w, p, op), PositionAfter(w, p, op))
    ensures PositionAfter(w, p, op) >= 1
  {
  }

  /** What a save makes of the slots and of the ids generated. */
  lemma PerformedSlots(w: Pool, p: nat, op: Saving, end: End, committed: bool)
    requires SlotsAt(w) && GeneratedAt(w.generated) && Enabled(w, Perform(p, op, end, committed))
    ensures var v := Performed(w, p, op, end, committed);
            GeneratedAt(v.generated) && forall k :: k in v.slots ==> k.p in w.members && SlotAt(v.slots[k])
    ensures var v := Performed(w, p, op, end, committed);
            end.Crashed? ==> forall k :: k in v.slots ==> k.p != p
  {
    if op.Reserve? {
      var s := w.slots[Manager(p, op.m)];
      assert SlotAt(s);
      BatchAt(s.start, s.at, s.count);
    }
    hide WrapPreKeyId, SlotAt, BatchIds, Saved, Numbered;
  }

  lemma OthersStay(w: Pool, p: nat, op: Saving, end: End, committed: bool, r: nat)
    requires p in w.members && r in w.members && (r != p || !end.Crashed?)
    ensures r in Saved(w, p, op, end, committed).members
  {
    hide ChangedBy;
  }

  lemma PerformSlotsAt(w: Pool, p: nat, op: Saving, end: End, committed: bool)
    requires SlotsAt(w) && GeneratedAt(w.generated) && Enabled(w, Perform(p, op, end, committed))
    ensures var v := Performed(w, p, op, end, committed); SlotsAt(v) && GeneratedAt(v.generated)
  {
    hide Performed, Saved, SlotAt, GeneratedAt, Goes;
    PerformedStore(w, p, op, end, committed);
    PerformedSlots(w, p, op, end, committed);
    forall k | k in Performed(w, p, op, end, committed).slots
      ensures k.p in Performed(w, p, op, end, committed).members
    {
      OthersStay(w, p, op, end, committed, k.p);
    }
  }

  lemma PerformPositioned(w: Pool, p: nat, op: Saving, end: End, committed: bool)
    requires Positioned(w) && Enabled(w, Perform(p, op, end, committed))
    ensures Positioned(Performed(w, p, op, end, committed))
  {
    hide Performed, Saved, SlotsAt, GeneratedAt, MemberAt, Goes;
    PerformedStore(w, p, op, end, committed);
    SavedMembersAt(w, p, op, end, committed);
    SavedLatestAt(w, p, op, end, committed);
    PerformSlotsAt(w, p, op, end, committed);
  }

  lemma OpenPositioned(w: Pool, p: nat, initial: Contents, committed: bool, returned: bool)
    requires Positioned(w) && Enabled(w, Open(p, initial, committed, returned))
    ensures Positioned(Opened(w, p, initial, committed, returned))
  {
    WrapIsCircular(1);
    hide WrapPreKeyId, SlotAt, GeneratedAt;
    assert AtPosition(initial, 1);
    hide IsNew;
  }

  lemma ReadPositioned(w: Pool, p: nat, m: nat, count: nat)
    requires Positioned(w) && p in w.members && count > 0
    ensures Positioned(ReadBy(w, p, m, count))
  {
    assert MemberAt(w.members[p]);
    hide WrapPreKeyId, GeneratedAt, HasReading, LatestAt;
  }

  lemma StoreMembersAt(w: Pool, p: nat, m: nat, pair: KeyPair)
    requires MembersAt(w) && Enabled(w, StoreNext(p, m, pair))
    ensures MembersAt(StoredNext(w, p, m, pair))
  {
    StoredMemberAt(w.members[p], w.slots[Manager(p, m)].ids[0], pair);
    hide MemberAt, Apply;
  }

  lemma StoreSlotsAt(w: Pool, p: nat, m: nat, pair: KeyPair)
    requires SlotsAt(w) && Enabled(w, StoreNext(p, m, pair))
    ensures SlotsAt(StoredNext(w, p, m, pair))
  {
    StoredAt(w.slots[Manager(p, m)]);
    hide SlotAt, Apply;
  }

  lemma StorePositioned(w: Pool, p: nat, m: nat, pair: KeyPair)
    requires Positioned(w) && Enabled(w, StoreNext(p, m, pair))
    ensures Positioned(StoredNext(w, p, m, pair))
  {
    hide MembersAt, SlotsAt, GeneratedAt;
    StoreMembersAt(w, p, m, pair);
    StoreSlotsAt(w, p, m, pair);
  }

  lemma StoredMemberAt(m: Member, id: int, pair: KeyPair)
    requires MemberAt(m)
    ensures MemberAt(m.(data := Apply(m.data, StorePreKey(id, pair)).0))
  {
    hide WrapPreKeyId;
  }

  lemma StoredAt(s: Slot)
    requires s.Storing? && s.ids != [] && SlotAt(s)
    ensures SlotAt(Storing(s.ids[1..], s.from + 1))
  {
    hide WrapPreKeyId;
    forall j | 0 <= j < |s.ids[1..]| ensures s.ids[1..][j] == WrapPreKeyId(s.from + 1 + j) {
      assert s.ids[1..][j] == s.ids[j + 1];
    }
  }

  lemma ChangePositioned(w: Pool, p: nat, data: Contents)
    requires Positioned(w) && p in w.members && data.nextPreKeyId == w.members[p].data.nextPreKeyId
    ensures Positioned(w.(members := w.members[p := w.members[p].(data := data)]))
  {
    assert MemberAt(w.members[p]);
    hide SlotAt, GeneratedAt, WrapPreKeyId;
  }

  lemma ExitPositioned(w: Pool, p: nat)
    requires Positioned(w)
    ensures Positioned(Next(w, Exit(p)))
  {
    hide MemberAt, SlotAt, GeneratedAt, HasReading;
  }

  lemma AbandonPositioned(w: Pool, k: Manager)
    requires Positioned(w)
    ensures Positioned(w.(slots := w.slots - {k}))
  {
    hide MemberAt, SlotAt, GeneratedAt;
  }

  lemma NextPositioned(w: Pool, e: Event)
    requires Positioned(w)
    ensures Positioned(Next(w, e))
  {
    match e
    case Exit(p) => ExitPositioned(w, p);
    case Abandon(p, m) => AbandonPositioned(w, Manager(p, m));
    case _ =>
      hide Performed, Opened, ReadBy, StoredNext, Positioned;
      if Enabled(w, e) {
        match e
        case Open(p, initial, committed, returned) => OpenPositioned(w, p, initial, committed, returned);
        case ReadNext(p, m, count) => ReadPositioned(w, p, m, count);
        case Perform(p, op, end, committed) => PerformPositioned(w, p, op, end, committed);
        case StoreNext(p, m, pair) => StorePositioned(w, p, m, pair);
        case Change(p, data) => ChangePositioned(w, p, data);
      }
  }

  // As long as no reading falls into another one's open window.

  /** No process has gone back behind the latest snapshot that it has itself. */
  ghost predicate NotBehind(w: Pool) {
    w.origin <= w.reserved && forall p :: p in w.members && w.members[p].current ==> w.reserved <= w.members[p].position
  }

  ghost predicate IsCurrent(w: Pool, p: nat) {
    p in w.members && w.members[p].current
  }

  /** At most one manager of a process that has the latest snapshot has read the next id, and it is still
      the next id. */
  ghost predicate OneReading(w: Pool) {
    && (forall k :: IsReading(w, k) && IsCurrent(w, k.p) ==> w.slots[k].at == w.members[k.p].position)
    && forall j, k :: IsReading(w, j) && IsReading(w, k) && j.p == k.p && IsCurrent(w, k.p) ==> j == k
  }

  ghost predicate Below(s: Slot, origin: nat, reserved: nat) {
    s.Storing? ==> origin <= s.from && s.from + |s.ids| <= reserved
  }

  ghost predicate AllBelow(w: Pool) {
    forall k :: k in w.slots ==> Below(w.slots[k], w.origin, w.reserved)
  }

  ghost predicate Rising(generated: seq<Generated>, origin: nat, reserved: nat) {
    && (forall i :: 0 <= i < |generated| ==> origin <= generated[i].position < reserved)
    && forall i, j :: 0 <= i < j < |generated| ==> generated[i].position < generated[j].position
  }

  ghost predicate Orderly(w: Pool) {
    NotBehind(w) && OneReading(w) && AllBelow(w) && Rising(w.generated, w.origin, w.reserved)
  }

  /** A reservation follows on the position of its process, and every other save is at it. */
  lemma PositionGrows(w: Pool, p: nat, op: Saving)
    requires OneReading(w) && IsCurrent(w, p) && Goes(w, p, op)
    ensures PositionAfter(w, p, op)
            == w.members[p].position + if op.Reserve? then w.slots[Manager(p, op.m)].count else 0
  {
  }

  lemma SavedNotBehind(w: Pool, p: nat, op: Saving, end: End, committed: bool)
    requires NotBehind(w) && OneReading(w) && Enabled(w, Perform(p, op, end, committed))
    ensures NotBehind(Saved(w, p, op, end, committed)) && w.reserved <= Saved(w, p, op, end, committed).reserved
    ensures committed ==> Saved(w, p, op, end, committed).reserved == PositionAfter(w, p, op)
  {
    if IsCurrent(w, p) {
      PositionGrows(w, p, op);
    }
    hide PositionAfter, ChangedBy, OneReading, Goes;
  }

  lemma SavedOneReading(w: Pool, p: nat, op: Saving, end: End, committed: bool)
    requires SlotsAt(w) && OneReading(w) && Enabled(w, Perform(p, op, end, committed))
    ensures OneReading(Performed(w, p, op, end, committed))
  {
    var v := Performed(w, p, op, end, committed);
    PerformedReadings(w, p, op, end, committed);
    PerformedStore(w, p, op, end, committed);
    if IsCurrent(w, p) {
      PositionGrows(w, p, op);
    }
    hide Performed, Saved, PositionAfter, SlotAt;
    forall k | IsReading(v, k) && IsCurrent(v, k.p)
      ensures IsCurrent(w, k.p) && v.slots[k].at == v.members[k.p].position
    {
      SavedMember(w, p, op, end, committed, k.p);
    }
  }

  /** A save opens no reading, and a reservation ends its own. */
  lemma PerformedReadings(w: Pool, p: nat, op: Saving, end: End, committed: bool)
    requires Enabled(w, Perform(p, op, end, committed))
    ensures var v := Performed(w, p, op, end, committed);
            forall k :: IsReading(v, k) ==>
              IsReading(w, k) && v.slots[k] == w.slots[k] && (op.Reserve? ==> k != Manager(p, op.m))
                && (end.Crashed? ==> k.p != p)
  {
    SavedStore(w, p, op, end, committed);
    hide Saved, BatchIds, Numbered;
  }

  lemma MoreRising(generated: seq<Generated>, origin: nat, reserved: nat, ids: seq<int>, from: nat)
    requires Rising(generated, origin, reserved) && origin <= reserved <= from
    ensures Rising(generated + Numbered(ids, from), origin, from + |ids|)
  {
  }

  lemma StillBelow(w: Pool, reserved: nat)
    requires AllBelow(w) && Rising(w.generated, w.origin, w.reserved) && w.reserved <= reserved
    ensures Rising(w.generated, w.origin, reserved) && forall k :: k in w.slots ==>
              Below(w.slots[k], w.origin, reserved)
  {
    forall k | k in w.slots ensures Below(w.slots[k], w.origin, reserved) {
      assert Below(w.slots[k], w.origin, w.reserved);
    }
  }

  lemma PerformedBelow(w: Pool, p: nat, op: Saving, end: End, committed: bool)
    requires Orderly(w) && Enabled(w, Perform(p, op, end, committed))
    ensures AllBelow(Performed(w, p, op, end, committed))
    ensures var v := Performed(w, p, op, end, committed); Rising(v.generated, v.origin, v.reserved)
  {
    var v := Performed(w, p, op, end, committed);
    PerformedStore(w, p, op, end, committed);
    SavedNotBehind(w, p, op, end, committed);
    hide Saved, NotBehind, Below, Rising, AllBelow, BatchIds, Numbered;
    StillBelow(w, v.reserved);
    if op.Reserve? && end.Returned? {
      var s := w.slots[Manager(p, op.m)];
      ReservedRange(w, p, op.m);
      MoreRising(w.generated, w.origin, w.reserved, BatchIds(s.start, s.count), s.at);
      NewBelow(BatchIds(s.start, s.count), s.at, w.origin);
    }
    PerformedAllBelow(w, p, op, end, committed);
  }

  lemma NewBelow(ids: seq<int>, from: nat, origin: nat)
    requires origin <= from
    ensures Below(Storing(ids, from), origin, from + |ids|)
  {
  }

  lemma ReservedRange(w: Pool, p: nat, m: nat)
    requires NotBehind(w) && OneReading(w) && p in w.members && w.members[p].current && IsReading(w, Manager(p, m))
    ensures w.origin <= w.reserved <= w.slots[Manager(p, m)].at
  {
  }

  lemma PerformedAllBelow(w: Pool, p: nat, op: Saving, end: End, committed: bool)
    requires Enabled(w, Perform(p, op, end, committed))
    requires var v := Performed(w, p, op, end, committed);
             && v.origin == w.origin && (forall k :: k in w.slots ==> Below(w.slots[k], w.origin, v.reserved))
             && (op.Reserve? && end.Returned? ==>
                   var s := w.slots[Manager(p, op.m)];
                   Below(Storing(BatchIds(s.start, s.count), s.at), w.origin, v.reserved))
    ensures AllBelow(Performed(w, p, op, end, committed))
  {
    SavedStore(w, p, op, end, committed);
    hide Saved, Below, BatchIds, Numbered;
  }

  lemma PerformOrderly(w: Pool, p: nat, op: Saving, end: End, committed: bool)
    requires Positioned(w) && Orderly(w) && Enabled(w, Perform(p, op, end, committed))
    ensures Orderly(Performed(w, p, op, end, committed))
  {
    PerformedBelow(w, p, op, end, committed);
    SavedOneReading(w, p, op, end, committed);
    SavedNotBehind(w, p, op, end, committed);
    PerformedStore(w, p, op, end, committed);
    hide Performed, Saved, AllBelow, Rising, OneReading;
  }

  lemma ReadOrderly(w: Pool, p: nat, m: nat, count: nat)
    requires Orderly(w) && Enabled(w, ReadNext(p, m, count)) && !ReadBy(w, p, m, count).overlapped
    ensures Orderly(ReadBy(w, p, m, count))
  {
    var v := ReadBy(w, p, m, count);
    assert forall k :: IsReading(v, k) ==>
      k == Manager(p, m) || (IsReading(w, k) && (IsCurrent(w, p) ==> k.p != p) && v.slots[k] == w.slots[k]);
    hide Rising, Below, HasReading;
  }

  lemma StoreOrderly(w: Pool, p: nat, m: nat, pair: KeyPair)
    requires Orderly(w) && Enabled(w, StoreNext(p, m, pair))
    ensures Orderly(StoredNext(w, p, m, pair))
  {
    assert Below(w.slots[Manager(p, m)], w.origin, w.reserved);
    hide Rising, Apply;
  }

  lemma OpenOrderly(w: Pool, p: nat, initial: Contents, committed: bool, returned: bool)
    requires Positioned(w) && Orderly(w) && Enabled(w, Open(p, initial, committed, returned))
    ensures Orderly(Opened(w, p, initial, committed, returned))
  {
    hide Rising, SlotAt, GeneratedAt, LatestAt, MemberAt, IsNew;
  }

  lemma ExitOrderly(w: Pool, p: nat)
    requires Orderly(w)
    ensures Orderly(Next(w, Exit(p)))
  {
    hide Rising, HasReading, Below;
  }

  lemma AbandonOrderly(w: Pool, k: Manager)
    requires Orderly(w)
    ensures Orderly(w.(slots := w.slots - {k}))
  {
    hide Rising, Below;
  }

  lemma ChangeOrderly(w: Pool, p: nat, data: Contents)
    requires Orderly(w) && p in w.members
    ensures Orderly(w.(members := w.members[p := w.members[p].(data := data)]))
  {
    hide Rising, Below;
  }

  lemma SlotOrderly(w: Pool, e: Event)
    requires e.Abandon? || e.Change? || e.StoreNext?
    requires Orderly(w)
    ensures Orderly(Next(w, e))
  {
    hide StoredNext, Orderly;
    if Enabled(w, e) {
      match e
      case StoreNext(p, m, pair) => StoreOrderly(w, p, m, pair);
      case Abandon(p, m) => AbandonOrderly(w, Manager(p, m));
      case Change(p, data) => ChangeOrderly(w, p, data);
    }
  }

  lemma NextOrderly(w: Pool, e: Event)
    requires Positioned(w) && Orderly(w) && !Next(w, e).overlapped
    ensures Orderly(Next(w, e))
  {
    match e
    case Exit(p) => ExitOrderly(w, p);
    case Open(_, _, _, _) =>
      hide Opened, Positioned, Orderly;
      if Enabled(w, e) {
        OpenOrderly(w, e.p, e.initial, e.committed, e.returned);
      }
    case ReadNext(_, _, _) =>
      hide ReadBy, Positioned, Orderly;
      if Enabled(w, e) {
        ReadOrderly(w, e.p, e.m, e.count);
      }
    case Perform(_, _, _, _) =>
      hide Performed, Positioned, Orderly;
      if Enabled(w, e) {
        PerformOrderly(w, e.p, e.op, e.end, e.committed);
      }
    case _ => SlotOrderly(w, e);
  }

  lemma OverlapStays(w: Pool, e: Event)
    ensures w.overlapped ==> Next(w, e).overlapped
    ensures w.failed ==> Next(w, e).failed
    ensures Next(w, e).origin == w.origin
  {
    hide Saved, BatchIds, Numbered, Changed;
    if e.Perform? && e.p in w.members {
      SavedStore(w, e.p, e.op, e.end, e.committed);
    }
  }

  // Runs.

  /** Nobody has opened the store; if there is one, its next id is at the position `reserved`. */
  ghost predicate Starts(w: Pool) {
    && w.members == map[] && w.slots == map[] && w.generated == [] && w.log == [] && !w.overlapped && !w.failed
    && 1 <= w.origin <= w.reserved
    && if w.latest.None? then w.reserved == 1 else AtPosition(w.latest.value, w.reserved)
  }

  lemma {:induction false} RunPositioned(w: Pool, events: seq<Event>)
    requires Starts(w)
    ensures Positioned(Run(w, events))
  {
    if events != [] {
      RunPositioned(w, events[..|events| - 1]);
      NextPositioned(Run(w, events[..|events| - 1]), events[|events| - 1]);
      hide Positioned, Next;
    }
  }

  lemma {:induction false} RunOrderly(w: Pool, events: seq<Event>)
    requires Starts(w) && !Run(w, events).overlapped
    ensures Orderly(Run(w, events)) && Run(w, events).origin == w.origin
  {
    if events != [] {
      var before, e := Run(w, events[..|events| - 1]), events[|events| - 1];
      OverlapStays(before, e);
      hide Positioned, Orderly, Next;
      RunOrderly(w, events[..|events| - 1]);
      RunPositioned(w, events[..|events| - 1]);
      NextOrderly(before, e);
    }
  }

  /** No id has been generated twice. */
  ghost predicate AllDistinct(generated: seq<Generated>) {
    forall i, j :: 0 <= i < j < |generated| ==> generated[i].id != generated[j].id
  }

  /** Over every run of processes that replenish, fail, crash and reload, every id is in range; and as
      long as no reading falls into the open window of another manager of the same process, ids are
      pairwise distinct until more than 0xffffff have been reserved. Managers of different processes
      need not care about each other. */
  lemma IdsDistinct(w: Pool, events: seq<Event>)
    requires Starts(w)
    ensures forall g :: g in Run(w, events).generated ==> 1 <= g.id <= 0xffffff
    ensures !Run(w, events).overlapped && Run(w, events).reserved - w.origin <= 0xffffff ==>
              AllDistinct(Run(w, events).generated)
  {
    RunPositioned(w, events);
    var v := Run(w, events);
    hide Run;
    forall g | g in v.generated ensures 1 <= g.id <= 0xffffff {
      WrapIsCircular(g.position);
    }
    if !v.overlapped && v.reserved - w.origin <= 0xffffff {
      RunOrderly(w, events);
      hide WrapPreKeyId, Starts;
      RisingDistinct(v.generated, v.origin, v.reserved);
    }
  }

  lemma RisingDistinct(generated: seq<Generated>, origin: nat, reserved: nat)
    requires GeneratedAt(generated) && Rising(generated, origin, reserved) && reserved - origin <= 0xffffff
    ensures AllDistinct(generated)
  {
    hide WrapPreKeyId;
    forall i, j | 0 <= i < j < |generated| ensures generated[i].id != generated[j].id {
      assert generated[i] in generated && generated[j] in generated;
      WrapInjective(generated[i].position, generated[j].position);
    }
  }

  // A manager on its own is never overtaken.

  ghost predicate OnlyManager(w: Pool) {
    !w.overlapped && forall k :: k in w.slots ==> k.m == 0
  }

  lemma NextOnlyManager(w: Pool, e: Event)
    requires OnlyManager(w) && (e.ReadNext? ==> e.m == 0)
    ensures OnlyManager(Next(w, e))
  {
    hide Saved, BatchIds, Numbered, Changed;
    if e.Perform? && e.p in w.members {
      SavedStore(w, e.p, e.op, e.end, e.committed);
    }
  }

  /** Because a manager that has read the next id does not read it again before it has reserved, one
      manager for each process is enough for distinct ids. */
  lemma {:induction false} OneManagerEach(w: Pool, events: seq<Event>)
    requires Starts(w) && forall i :: 0 <= i < |events| && events[i].ReadNext? ==> events[i].m == 0
    ensures OnlyManager(Run(w, events))
  {
    if events != [] {
      OneManagerEach(w, events[..|events| - 1]);
      hide OnlyManager, Next;
      NextOnlyManager(Run(w, events[..|events| - 1]), events[|events| - 1]);
    }
  }

  // When a reading does fall into an open window, and all readings come to their end, ids repeat.

  ghost predicate GeneratedBefore(generated: seq<Generated>, position: nat) {
    exists g :: g in generated && g.position == position
  }

  ghost predicate IsLate(w: Pool, k: Manager) {
    IsReading(w, k) && GeneratedBefore(w.generated, w.slots[k].at)
  }

  ghost predicate IsTied(w: Pool, j: Manager, k: Manager) {
    && IsReading(w, j) && IsReading(w, k) && j != k && j.p == k.p && k.p in w.members
    && w.slots[j].at == w.members[k.p].position == w.slots[k].at
  }

  /** A reading is still at the next id, or the id it has read has been generated. */
  ghost predicate NextOrLate(w: Pool) {
    forall k :: IsReading(w, k) && k.p in w.members ==> w.slots[k].at == w.members[k.p].position || IsLate(w, k)
  }

  ghost predicate WillRepeat(w: Pool) {
    (exists k :: IsLate(w, k)) || (exists j, k :: IsTied(w, j, k))
  }

  ghost predicate RepeatsOrMay(w: Pool) {
    !AllDistinct(w.generated) || (NextOrLate(w) && (w.overlapped ==> WillRepeat(w)))
  }

  lemma GrownRepeats(generated: seq<Generated>, more: seq<Generated>)
    requires !AllDistinct(generated)
    ensures !AllDistinct(generated + more)
  {
    var i, j :| 0 <= i < j < |generated| && generated[i].id == generated[j].id;
    assert (generated + more)[i] == generated[i] && (generated + more)[j] == generated[j];
  }

  lemma LateRepeats(w: Pool, k: Manager)
    requires SlotsAt(w) && GeneratedAt(w.generated) && IsLate(w, k)
    ensures var s := w.slots[k];
            !AllDistinct(w.generated + Numbered(BatchIds(s.start, s.count), s.at))
  {
    var s := w.slots[k];
    assert SlotAt(s);
    var g :| g in w.generated && g.position == s.at;
    var i :| 0 <= i < |w.generated| && w.generated[i] == g;
    var ids := BatchIds(s.start, s.count);
    assert ids[0] == WrapPreKeyId(s.start + 0) == g.id by {
      BatchAt(s.start, s.at, s.count);
      assert WrapPreKeyId(s.at) == g.id;
      assert ids[0] == WrapPreKeyId(s.at + 0);
    }
    hide WrapPreKeyId, SlotAt, GeneratedAt, IsLate, BatchIds;
    RepeatsAt(w.generated, i, ids, s.at);
  }

  lemma RepeatsAt(generated: seq<Generated>, i: nat, ids: seq<int>, at: nat)
    requires i < |generated| && ids != [] && ids[0] == generated[i].id
    ensures !AllDistinct(generated + Numbered(ids, at))
  {
    var all := generated + Numbered(ids, at);
    assert all[i].id == all[|generated|].id;
  }

  lemma NowGenerated(generated: seq<Generated>, ids: seq<int>, at: nat)
    requires ids != []
    ensures GeneratedBefore(generated + Numbered(ids, at), at)
    ensures forall q :: GeneratedBefore(generated, q) ==> GeneratedBefore(generated + Numbered(ids, at), q)
  {
    assert (generated + Numbered(ids, at))[|generated|].position == at;
  }

  /** Slots and members that stay, with nothing new generated. */
  lemma QuietRepeats(w: Pool, v: Pool)
    requires RepeatsOrMay(w) && v.generated == w.generated && (v.overlapped ==> w.overlapped)
    requires forall k :: IsReading(v, k) <==> IsReading(w, k)
    requires forall k :: IsReading(w, k) ==> k in v.slots && v.slots[k] == w.slots[k]
    requires SlotsAt(w) && forall p :: p in w.members && p in v.members ==>
              v.members[p].position == w.members[p].position
    requires forall k :: IsReading(w, k) ==> k.p in v.members
    ensures RepeatsOrMay(v)
  {
    hide SlotAt, GeneratedBefore;
    if AllDistinct(w.generated) {
      hide AllDistinct;
      if w.overlapped && exists k :: IsLate(w, k) {
        var k :| IsLate(w, k);
        assert IsLate(v, k);
      } else if w.overlapped {
        var j, k :| IsTied(w, j, k);
        assert IsTied(v, j, k);
      }
      forall k | IsReading(v, k) && k.p in v.members ensures v.slots[k].at == v.members[k.p].position || IsLate(v, k) {
        assert IsLate(w, k) ==> IsLate(v, k);
      }
    }
  }

  /** A reading at the next id, when others are open: it is tied with one of them, or one is late. */
  lemma ReadRepeats(w: Pool, p: nat, m: nat, count: nat)
    requires SlotsAt(w) && RepeatsOrMay(w) && Enabled(w, ReadNext(p, m, count))
    ensures RepeatsOrMay(ReadBy(w, p, m, count))
  {
    var v, read := ReadBy(w, p, m, count), Manager(p, m);
    hide SlotAt, GeneratedBefore;
    if AllDistinct(w.generated) {
      hide AllDistinct;
      assert forall k :: k != read ==> IsReading(v, k) == IsReading(w, k) && IsLate(v, k) == IsLate(w, k);
      if HasReading(w, p) {
        var k :| IsReading(w, k) && k.p == p;
        assert IsLate(v, k) || IsTied(v, k, read);
      } else if w.overlapped {
        RepeatSurvives(w, v);
      }
    }
  }

  lemma RepeatSurvives(w: Pool, v: Pool)
    requires WillRepeat(w)
    requires forall k :: IsReading(w, k) ==> IsReading(v, k) && v.slots[k] == w.slots[k]
    requires forall p :: p in w.members ==> p in v.members && v.members[p].position == w.members[p].position
    requires forall q :: GeneratedBefore(w.generated, q) ==> GeneratedBefore(v.generated, q)
    ensures WillRepeat(v)
  {
    hide GeneratedBefore;
    if exists k :: IsLate(w, k) {
      var k :| IsLate(w, k);
      assert IsLate(v, k);
    } else {
      var j, k :| IsTied(w, j, k);
      assert IsTied(v, j, k);
    }
  }

  /** What a reservation that is saved leaves of the readings. */
  ghost predicate ReservedFacts(w: Pool, v: Pool, done: Manager)
    requires IsReading(w, done)
  {
    var s := w.slots[done];
    && v.overlapped == w.overlapped && v.generated == w.generated + Numbered(BatchIds(s.start, s.count), s.at)
    && (forall k :: IsReading(v, k) <==> IsReading(w, k) && k != done)
    && (forall k :: IsReading(v, k) && k in w.slots ==> v.slots[k] == w.slots[k])
    && v.members.Keys == w.members.Keys
    && forall p :: p in w.members && p != done.p ==> v.members[p].position == w.members[p].position
  }

  lemma ReservedGives(w: Pool, p: nat, m: nat, committed: bool)
    requires Enabled(w, Perform(p, Reserve(m), Returned, committed))
    ensures ReservedFacts(w, Performed(w, p, Reserve(m), Returned, committed), Manager(p, m))
  {
    hide BatchIds, Numbered, ChangedBy, PositionAfter;
  }

  lemma ReserveRepeats(w: Pool, v: Pool, done: Manager)
    requires SlotsAt(w) && GeneratedAt(w.generated) && RepeatsOrMay(w) && IsReading(w, done)
    requires ReservedFacts(w, v, done)
    ensures RepeatsOrMay(v)
  {
    var s := w.slots[done];
    var ids := BatchIds(s.start, s.count);
    assert SlotAt(s) && done.p in w.members;
    NowGenerated(w.generated, ids, s.at);
    if !AllDistinct(w.generated) {
      GrownRepeats(w.generated, Numbered(ids, s.at));
    } else if IsLate(w, done) {
      LateRepeats(w, done);
    } else {
      hide AllDistinct, GeneratedBefore, SlotAt, GeneratedAt, BatchIds, Numbered;
      ReservedNextOrLate(w, v, done);
      if w.overlapped {
        ReservedWillRepeat(w, v, done);
      }
    }
  }

  lemma ReservedNextOrLate(w: Pool, v: Pool, done: Manager)
    requires NextOrLate(w) && IsReading(w, done) && done.p in w.members && !IsLate(w, done)
    requires ReservedFacts(w, v, done) && GeneratedBefore(v.generated, w.slots[done].at)
    requires forall q :: GeneratedBefore(w.generated, q) ==> GeneratedBefore(v.generated, q)
    ensures NextOrLate(v)
  {
    hide GeneratedBefore, BatchIds, Numbered;
    forall k | IsReading(v, k) && k.p in v.members ensures v.slots[k].at == v.members[k.p].position || IsLate(v, k) {
      assert IsReading(w, k);
    }
  }

  lemma ReservedWillRepeat(w: Pool, v: Pool, done: Manager)
    requires WillRepeat(w) && NextOrLate(w) && IsReading(w, done) && done.p in w.members && !IsLate(w, done)
    requires ReservedFacts(w, v, done) && GeneratedBefore(v.generated, w.slots[done].at)
    requires forall q :: GeneratedBefore(w.generated, q) ==> GeneratedBefore(v.generated, q)
    ensures WillRepeat(v)
  {
    hide GeneratedBefore, BatchIds, Numbered;
    if exists k :: IsLate(w, k) {
      var k :| IsLate(w, k);
      assert IsLate(v, k);
    } else {
      var j, k :| IsTied(w, j, k);
      if k.p == done.p {
        assert IsLate(v, if k == done then j else k);
      } else {
        assert IsTied(v, j, k);
      }
    }
  }

  lemma QuietPerform(w: Pool, p: nat, op: Saving, end: End, committed: bool)
    requires SlotsAt(w) && Enabled(w, Perform(p, op, end, committed)) && !Performed(w, p, op, end, committed).failed
    requires !(op.Reserve? && end.Returned?)
    ensures var v := Performed(w, p, op, end, committed);
            && v.generated == w.generated && v.overlapped == w.overlapped
            && (forall k :: IsReading(v, k) <==> IsReading(w, k))
            && (forall k :: IsReading(w, k) ==> k in v.slots && v.slots[k] == w.slots[k])
            && (forall r :: r in w.members && r in v.members ==> v.members[r].position == w.members[r].position)
            && (forall k :: IsReading(w, k) ==> k.p in v.members)
  {
    hide ChangedBy, SlotAt;
  }

  lemma PerformRepeats(w: Pool, p: nat, op: Saving, end: End, committed: bool)
    requires Positioned(w) && RepeatsOrMay(w)
    requires Enabled(w, Perform(p, op, end, committed)) && !Performed(w, p, op, end, committed).failed
    ensures RepeatsOrMay(Performed(w, p, op, end, committed))
  {
    if op.Reserve? && end.Returned? {
      ReservedGives(w, p, op.m, committed);
      hide RepeatsOrMay, ReservedFacts, LatestAt, MembersAt, SlotsAt, GeneratedAt;
      ReserveRepeats(w, Performed(w, p, op, end, committed), Manager(p, op.m));
    } else {
      hide RepeatsOrMay, LatestAt, MembersAt, GeneratedAt, SlotAt;
      QuietPerform(w, p, op, end, committed);
      QuietRepeats(w, Performed(w, p, op, end, committed));
    }
  }

  lemma OtherRepeats(w: Pool, e: Event)
    requires SlotsAt(w) && RepeatsOrMay(w) && Enabled(w, e) && !e.Perform? && !e.ReadNext? && !Next(w, e).failed
    ensures RepeatsOrMay(Next(w, e))
  {
    hide RepeatsOrMay, SlotAt, Apply;
    QuietRepeats(w, Next(w, e));
  }

  lemma NextRepeats(w: Pool, e: Event)
    requires Positioned(w) && RepeatsOrMay(w) && !Next(w, e).failed
    ensures RepeatsOrMay(Next(w, e))
  {
    hide RepeatsOrMay, LatestAt, MembersAt, GeneratedAt, SlotAt, Performed, ReadBy;
    if Enabled(w, e) {
      match e
      case Perform(p, op, end, committed) => PerformRepeats(w, p, op, end, committed);
      case ReadNext(p, m, count) => ReadRepeats(w, p, m, count);
      case _ => OtherRepeats(w, e);
    }
  }

  lemma {:induction false} RunRepeats(w: Pool, events: seq<Event>)
    requires Starts(w) && !Run(w, events).failed
    ensures RepeatsOrMay(Run(w, events))
  {
    if events != [] {
      var before, e := Run(w, events[..|events| - 1]), events[|events| - 1];
      OverlapStays(before, e);
      RunPositioned(w, events[..|events| - 1]);
      hide Positioned, RepeatsOrMay, Next;
      RunRepeats(w, events[..|events| - 1]);
      NextRepeats(before, e);
    }
  }

  /** Exactly when ids are distinct: within one wrap, and when every reading has led to a reservation
      that was saved, if and only if no reading fell into another one's open window. */
  lemma DistinctExactlyWhen(w: Pool, events: seq<Event>)
    requires Starts(w) && !Run(w, events).failed && Run(w, events).reserved - w.origin <= 0xffffff
    requires forall k :: k in Run(w, events).slots ==> Run(w, events).slots[k].Storing?
    ensures AllDistinct(Run(w, events).generated) <==> !Run(w, events).overlapped
  {
    IdsDistinct(w, events);
    RunRepeats(w, events);
    hide Run, AllDistinct;
  }

  // The same seen from one reading: what can come of it when it is carried on.

  ghost predicate NoReadings(events: seq<Event>) {
    forall i :: 0 <= i < |events| ==> !events[i].ReadNext?
  }

  /** Without another reading, and within one wrap, some id can still come to be generated twice. */
  ghost predicate CanRepeat(w: Pool) {
    exists more :: NoReadings(more) && Run(w, more).reserved - w.origin <= 0xffffff
                   && !AllDistinct(Run(w, more).generated)
  }

  lemma {:induction false} RunOn(w: Pool, events: seq<Event>, more: seq<Event>)
    ensures Run(w, events + more) == Run(Run(w, events), more)
  {
    hide Next;
    if more == [] {
      assert events + more == events;
    } else {
      RunOn(w, events, more[..|more| - 1]);
      assert (events + more)[..|events + more| - 1] == events + more[..|more| - 1];
    }
  }

  lemma {:induction false} NoneOverlaps(w: Pool, more: seq<Event>)
    requires NoReadings(more)
    ensures Run(w, more).overlapped == w.overlapped && Run(w, more).origin == w.origin
  {
    if more != [] {
      NoneOverlaps(w, more[..|more| - 1]);
      OverlapStays(Run(w, more[..|more| - 1]), more[|more| - 1]);
      OthersDoNot(Run(w, more[..|more| - 1]), more[|more| - 1]);
      hide Next;
    }
  }

  lemma OthersDoNot(w: Pool, e: Event)
    requires !e.ReadNext?
    ensures Next(w, e).overlapped == w.overlapped
  {
    hide Saved, BatchIds, Numbered, Changed;
    if e.Perform? && e.p in w.members {
      SavedStore(w, e.p, e.op, e.end, e.committed);
    }
  }

  /** Two managers of one process have read the same next id. */
  ghost predicate BothReading(w: Pool, p: nat, i: nat, m: nat) {
    && p in w.members && w.members[p].current && i != m
    && IsReading(w, Manager(p, i)) && IsReading(w, Manager(p, m))
    && var a, b := w.slots[Manager(p, i)], w.slots[Manager(p, m)];
       a.start == b.start && a.at == b.at && a.count > 0 && b.count > 0
  }

  /** A process that has the latest snapshot, at this position. */
  ghost predicate HasLatest(w: Pool, p: nat, position: nat) {
    p in w.members && w.members[p].current && w.members[p].position == position
  }

  ghost predicate WillStore(w: Pool, p: nat, m: nat, id: int) {
    IsStoring(w, Manager(p, m)) && w.slots[Manager(p, m)].ids != [] && w.slots[Manager(p, m)].ids[0] == id
  }

  /** A reservation changes no prekey. */
  ghost predicate SameKeys(w: Pool, v: Pool, p: nat) {
    && p in w.members && p in v.members && v.members[p].data.preKeys == w.members[p].data.preKeys
    && v.members[p].data.published == w.members[p].data.published
  }

  function ReserveBy(p: nat, m: nat): Event {
    Perform(p, Reserve(m), Returned, true)
  }

  lemma OneReserves(w: Pool, p: nat, m: nat)
    requires p in w.members && w.members[p].current && IsReading(w, Manager(p, m)) && w.slots[Manager(p, m)].count > 0
    ensures var s, v := w.slots[Manager(p, m)], Next(w, ReserveBy(p, m));
            && v.generated == w.generated + Numbered(BatchIds(s.start, s.count), s.at)
            && HasLatest(v, p, s.at + s.count) && v.reserved == s.at + s.count && v.log == w.log && v.origin == w.origin
            && WillStore(v, p, m, WrapPreKeyId(s.start)) && SameKeys(w, v, p)
            && forall k :: k in w.slots && k != Manager(p, m) ==> k in v.slots && v.slots[k] == w.slots[k]
  {
    hide WrapPreKeyId, Numbered;
  }

  /** Both reserve, one after the other: they generate the same id. */
  lemma BothGenerate(w: Pool, p: nat, i: nat, m: nat)
    requires BothReading(w, p, i, m)
    ensures var s := w.slots[Manager(p, m)];
            var v := Next(Next(w, ReserveBy(p, i)), ReserveBy(p, m));
            && !AllDistinct(v.generated) && v.origin == w.origin
            && HasLatest(v, p, s.at + s.count) && v.reserved == s.at + s.count && v.log == w.log && SameKeys(w, v, p)
            && WillStore(v, p, i, WrapPreKeyId(s.start)) && WillStore(v, p, m, WrapPreKeyId(s.start))
  {
    var a, b := w.slots[Manager(p, i)], w.slots[Manager(p, m)];
    var u := Next(w, ReserveBy(p, i));
    OneReserves(w, p, i);
    OneReserves(u, p, m);
    hide Next, WrapPreKeyId;
    var all := w.generated + Numbered(BatchIds(a.start, a.count), a.at) + Numbered(BatchIds(b.start, b.count), b.at);
    assert all[|w.generated|].id == WrapPreKeyId(a.start + 0) == WrapPreKeyId(b.start + 0)
        == all[|w.generated| + a.count].id;
  }

  lemma TwoEvents(w: Pool, a: Event, b: Event)
    ensures Run(w, [a, b]) == Next(Next(w, a), b)
  {
    assert [a, b][..1] == [a] && [a][..0] == [];
    hide Next;
    assert Run(w, []) == w && Run(w, [a]) == Next(w, a);
  }

  /** A manager that reads while another one of its process is reading has read the same id. */
  lemma ReadsTheSame(w: Pool, p: nat, m: nat, count: nat) returns (i: nat)
    requires Positioned(w) && Orderly(w) && p in w.members && w.members[p].current && HasReading(w, p)
    requires Enabled(w, ReadNext(p, m, count))
    ensures BothReading(ReadBy(w, p, m, count), p, i, m)
  {
    var k :| IsReading(w, k) && k.p == p;
    i := k.m;
    assert k == Manager(p, i) && SlotAt(w.slots[k]) && MemberAt(w.members[p]);
    hide WrapPreKeyId;
  }

  /** Exactly when a reading is safe: from any point of a run without overlap, whatever has failed, a
      reading can lead to an id generated twice if and only if its process has the latest snapshot and
      another manager of the process is reading. */
  lemma RepeatsExactlyWhen(w: Pool, events: seq<Event>, p: nat, m: nat, count: nat)
    requires Starts(w)
    requires var v := Run(w, events);
             && !v.overlapped && Enabled(v, ReadNext(p, m, count))
             && (IsCurrent(v, p) ==> v.members[p].position + count - v.origin <= 0xffffff)
    ensures var v := Run(w, events);
            CanRepeat(Run(w, events + [ReadNext(p, m, count)])) <==> IsCurrent(v, p) && HasReading(v, p)
  {
    var v, u := Run(w, events), Run(w, events + [ReadNext(p, m, count)]);
    LastEvent(w, events, ReadNext(p, m, count));
    RunPositioned(w, events);
    RunOrderly(w, events);
    if IsCurrent(v, p) && HasReading(v, p) {
      CarriedOn(v, p, m, count);
    } else if CanRepeat(u) {
      var more :|
        && NoReadings(more) && Run(u, more).reserved - u.origin <= 0xffffff && !AllDistinct(Run(u, more).generated);
      NoneOverlaps(u, more);
      RunOn(w, events + [ReadNext(p, m, count)], more);
      IdsDistinct(w, events + [ReadNext(p, m, count)] + more);
      assert false;
    }
  }

  lemma CarriedOn(v: Pool, p: nat, m: nat, count: nat)
    requires Positioned(v) && Orderly(v) && HasReading(v, p)
    requires Enabled(v, ReadNext(p, m, count)) && v.members[p].current
    requires v.members[p].position + count - v.origin <= 0xffffff
    ensures CanRepeat(Next(v, ReadNext(p, m, count)))
  {
    var u := ReadBy(v, p, m, count);
    var i := ReadsTheSame(v, p, m, count);
    BothGenerate(u, p, i, m);
    assert u == Next(v, ReadNext(p, m, count)) && u.slots[Manager(p, m)].at == v.members[p].position
        && u.slots[Manager(p, m)].count == count && u.origin == v.origin;
    assert NoReadings([ReserveBy(p, i), ReserveBy(p, m)]);
    hide *;
    TwoEvents(u, ReserveBy(p, i), ReserveBy(p, m));
    Repeats(u, [ReserveBy(p, i), ReserveBy(p, m)]);
  }

  lemma Repeats(w: Pool, more: seq<Event>)
    requires NoReadings(more) && Run(w, more).reserved - w.origin <= 0xffffff && !AllDistinct(Run(w, more).generated)
    ensures CanRepeat(w)
  {
    hide Run, AllDistinct;
  }

  const NO_STORE := Pool(None, map[], 1, 1, map[], {}, [], [], false, false)

  /** Two managers of one process have read the id 1 of a new store, for so many ids. */
  ghost function Both(c: Contents, i: nat, m: nat): Pool {
    Pool(Some(c), map[0 := Member(c, true, 1)], 1, 1,
         map[Manager(0, 0) := Reading(1, 1, i), Manager(0, 1) := Reading(1, 1, m)], {}, [], [], true, false)
  }

  lemma BothRead(c: Contents, i: nat, m: nat)
    requires IsNew(c) && i > 0 && m > 0
    ensures Run(NO_STORE, [Open(0, c, true, true), ReadNext(0, 0, i), ReadNext(0, 1, m)]) == Both(c, i, m)
  {
    var o, a, b := Open(0, c, true, true), ReadNext(0, 0, i), ReadNext(0, 1, m);
    LastEvent(NO_STORE, [], o);
    LastEvent(NO_STORE, [o], a);
    LastEvent(NO_STORE, [o, a], b);
    var alone := Run(NO_STORE, [o]);
    assert [] + [o] == [o] && [o] + [a] == [o, a] && [o, a] + [b] == [o, a, b];
    assert alone == Pool(Some(c), map[0 := Member(c, true, 1)], 1, 1, map[], {}, [], [], false, false);
    var once := Run(NO_STORE, [o, a]);
    assert once == alone.(slots := map[Manager(0, 0) := Reading(1, 1, i)]) by {
      assert !HasReading(alone, 0);
    }
    assert IsReading(once, Manager(0, 0));
    hide Run;
  }

  lemma BothReserve(c: Contents)
    requires IsNew(c)
    ensures var first := Next(Both(c, 1, 1), ReserveBy(0, 0));
            Next(first, ReserveBy(0, 1)).generated == [Generated(1, 1), Generated(1, 1)]
  {
    var w := Both(c, 1, 1);
    OneReserves(w, 0, 0);
    OneReserves(Next(w, ReserveBy(0, 0)), 0, 1);
    WrapIsCircular(1);
    assert Numbered(BatchIds(1, 1), 1) == [Generated(1, 1)];
    hide WrapPreKeyId, Next;
  }

  /** Why it takes the condition: two managers of one process that both read before either reserves
      generate the same id, in a run in which nothing fails. */
  lemma TwoManagersCollide(c: Contents)
    requires IsNew(c)
    ensures var events := [Open(0, c, true, true), ReadNext(0, 0, 1), ReadNext(0, 1, 1), ReserveBy(0, 0),
                           ReserveBy(0, 1)];
            Starts(NO_STORE) && Run(NO_STORE, events).generated == [Generated(1, 1), Generated(1, 1)]
  {
    var both := [Open(0, c, true, true), ReadNext(0, 0, 1), ReadNext(0, 1, 1)];
    var a, b := ReserveBy(0, 0), ReserveBy(0, 1);
    BothRead(c, 1, 1);
    BothReserve(c);
    LastEvent(NO_STORE, both, a);
    LastEvent(NO_STORE, both + [a], b);
    hide Run, Next;
    assert both + [a] + [b] == [Open(0, c, true, true), ReadNext(0, 0, 1), ReadNext(0, 1, 1), a, b];
  }

  ghost function AfterFirst(c: Contents): Pool {
    Pool(Some(c.(nextPreKeyId := 3)), map[0 := Member(c.(nextPreKeyId := 3), true, 3)], 1, 3,
         map[Manager(0, 0) := Storing([1, 2], 1), Manager(0, 1) := Reading(1, 1, 1)], {},
         [Generated(1, 1), Generated(2, 2)], [], true, false)
  }

  lemma FirstReservesTwo(c: Contents)
    requires IsNew(c)
    ensures Next(Both(c, 2, 1), ReserveBy(0, 0)) == AfterFirst(c)
  {
    WrapIsCircular(1);
    WrapIsCircular(2);
    WrapIsCircular(3);
    assert BatchIds(1, 2) == [1, 2];
    assert Numbered([1, 2], 1) == [Generated(1, 1), Generated(2, 2)];
    hide WrapPreKeyId, BatchIds, Numbered, Alive, HasReading;
    assert Saved(Both(c, 2, 1), 0, Reserve(0), Returned, true).members == AfterFirst(c).members;
  }

  ghost function AfterFailure(c: Contents): Pool {
    AfterFirst(c).(members := map[0 := Member(c.(nextPreKeyId := 2), true, 2)],
                   slots := map[Manager(0, 0) := Storing([1, 2], 1)], failed := true)
  }

  lemma SecondFails(c: Contents)
    ensures Next(AfterFirst(c), Perform(0, Reserve(1), Failed, false)) == AfterFailure(c)
  {
    var w := AfterFirst(c);
    WrapIsCircular(2);
    hide WrapPreKeyId, BatchIds, Numbered, Alive, HasReading;
    FailureSaves(c);
    SavedStore(w, 0, Reserve(1), Failed, false);
    assert w.slots - {Manager(0, 1)} == AfterFailure(c).slots;
    hide Saved;
  }

  lemma FailureSaves(c: Contents)
    ensures var v := Saved(AfterFirst(c), 0, Reserve(1), Failed, false);
            && v.members == AfterFailure(c).members && v.latest == AfterFirst(c).latest
            && v.reserved == AfterFirst(c).reserved
  {
    WrapIsCircular(2);
    hide WrapPreKeyId;
  }

  lemma SecondReadsAgain(c: Contents)
    ensures Next(Next(AfterFailure(c), ReadNext(0, 1, 1)), ReserveBy(0, 1)).generated
            == [Generated(1, 1), Generated(2, 2), Generated(2, 2)]
  {
    var w := AfterFailure(c);
    assert !HasReading(w, 0);
    var u := Next(w, ReadNext(0, 1, 1));
    assert u.slots[Manager(0, 1)] == Reading(2, 2, 1);
    WrapIsCircular(2);
    assert BatchIds(2, 1) == [2] && Numbered([2], 2) == [Generated(2, 2)];
    hide WrapPreKeyId;
  }

  /** An overlapping reading does harm also if it fails: setNextPreKeyId leaves its number in memory,
      behind what the other manager has reserved, and the next reading starts from there. */
  lemma FailedReadingRepeats(c: Contents)
    requires IsNew(c)
    ensures var events := [Open(0, c, true, true), ReadNext(0, 0, 2), ReadNext(0, 1, 1), ReserveBy(0, 0),
                           Perform(0, Reserve(1), Failed, false), ReadNext(0, 1, 1), ReserveBy(0, 1)];
            Run(NO_STORE, events).generated == [Generated(1, 1), Generated(2, 2), Generated(2, 2)]
  {
    var both := [Open(0, c, true, true), ReadNext(0, 0, 2), ReadNext(0, 1, 1)];
    var a, f, r, b := ReserveBy(0, 0), Perform(0, Reserve(1), Failed, false), ReadNext(0, 1, 1), ReserveBy(0, 1);
    BothRead(c, 2, 1);
    FirstReservesTwo(c);
    SecondFails(c);
    SecondReadsAgain(c);
    hide *;
    LastEvent(NO_STORE, both, a);
    LastEvent(NO_STORE, both + [a], f);
    LastEvent(NO_STORE, both + [a] + [f], r);
    LastEvent(NO_STORE, both + [a] + [f] + [r], b);
    assert both + [a] + [f] + [r] + [b]
        == [Open(0, c, true, true), ReadNext(0, 0, 2), ReadNext(0, 1, 1), a, f, r, b];
  }
}
