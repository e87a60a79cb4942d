/** Which sessions a record holds, in what order, and which of them are open: the operations of
    src/session-record.ts on values, and what every sequence of their callers keeps. */
module SessionTable {
  import opened Wrappers
  import opened Keys
  import opened Ratchet
  import opened ChainIds

  const CLOSED_SESSIONS_MAX := 40

  /** indexInfo: `closed` is -1 while the session is open, a time otherwise. `ours` is the base key
      type: whether we made the base key, as the initiator. */
  datatype IndexInfo = IndexInfo(closed: int, used: int, created: int, ours: bool)

  /** `order` is the insertion order of the sessions dictionary. */
  datatype Table = Table(order: seq<KeyId>, infos: map<KeyId, IndexInfo>)

  datatype RecordError = CorruptSessions | NoMatchingSession | UntrustedIdentity

  predicate IsOpen(infos: map<KeyId, IndexInfo>, k: KeyId) {
    k in infos && infos[k].closed == -1
  }

  predicate IsClosed(infos: map<KeyId, IndexInfo>, k: KeyId) {
    k in infos && infos[k].closed != -1
  }

  /** getOpenSession */
  function FirstOpen(order: seq<KeyId>, infos: map<KeyId, IndexInfo>): Option<KeyId> {
    if order == [] then None
    else if IsOpen(infos, order[0]) then Some(order[0])
    else FirstOpen(order[1..], infos)
  }

  /** setSession */
  function Put(t: Table, k: KeyId, info: IndexInfo): Table {
    Table(if k in t.infos then t.order else t.order + [k], t.infos[k := info])
  }

  /** closeSession on what getOpenSession returns */
  function Close(t: Table, now: int): Table {
    match FirstOpen(t.order, t.infos)
    case None => t
    case Some(k) => if k in t.infos then t.(infos := t.infos[k := t.infos[k].(closed := now)]) else t
  }

  function Remove(t: Table, gone: set<KeyId>): Table {
    Table(Without(t.order, gone), t.infos - gone)
  }

  /** One iteration of the search in removeOldSessions. */
  predicate Replaces(infos: map<KeyId, IndexInfo>, k: KeyId, best: Option<KeyId>) {
    IsClosed(infos, k)
    && (best.None? || (best.value in infos && infos[k].closed < infos[best.value].closed))
  }

  function Oldest(order: seq<KeyId>, infos: map<KeyId, IndexInfo>, best: Option<KeyId>): (r: Option<KeyId>)
    ensures r.Some? ==> r == best || r.value in infos
  {
    if order == [] then best
    else Oldest(order[1..], infos, if Replaces(infos, order[0], best) then Some(order[0]) else best)
  }

  /** removeOldSessions */
  function RemoveOldSessions(t: Table): Result<Table, RecordError>
    decreases t.infos.Keys
  {
    if |t.order| <= CLOSED_SESSIONS_MAX then Success(t)
    else match Oldest(t.order, t.infos, None)
      case None => Failure(CorruptSessions)
      case Some(k) => RemoveOldSessions(Remove(t, {k}))
  }

  /** `used || created || 0`, where 0 is false */
  function LastUsed(info: IndexInfo): int {
    if info.used != 0 then info.used else info.created
  }

  predicate IsStale(infos: map<KeyId, IndexInfo>, k: KeyId, cutoff: int) {
    IsClosed(infos, k) && LastUsed(infos[k]) < cutoff
  }

  /** removeStaleSessions */
  function RemoveStaleSessions(t: Table, cutoff: int): Table {
    Remove(t, set k | k in t.infos && IsStale(t.infos, k, cutoff))
  }

  /** storeRecord: an age of 0 stands for no limit. */
  function StoreRecord(t: Table, now: int, maxAge: int): Result<Table, RecordError> {
    var kept :- RemoveOldSessions(t);
    Success(if maxAge == 0 then kept else RemoveStaleSessions(kept, now - maxAge))
  }

  // What the callers do between loading a record and storing it.

  datatype Op =
    | InitOutgoing(baseKey: KeyId)
    | DecryptPreKeyMessage(baseKey: KeyId)
    | DecryptMessage(baseKey: KeyId)
    | Encrypt
    | CloseOpenSession

  function Start(t: Table, k: KeyId, now: int, ours: bool): Table {
    Put(Close(t, now), k, IndexInfo(-1, now, now, ours))
  }

  /** The record that is stored. When the caller throws for another reason nothing is. */
  function Apply(t: Table, op: Op, now: int, maxAge: int): Result<Table, RecordError> {
    match op
    case InitOutgoing(k) => RemoveOldSessions(Start(t, k, now, true))
    case DecryptPreKeyMessage(k) =>
      if k in t.infos && t.infos[k].ours then Success(t)
      else StoreRecord(if k in t.infos then t else Start(t, k, now, false), now, maxAge)
    case DecryptMessage(k) =>
      if k !in t.infos then Success(t) else StoreRecord(Put(t, k, t.infos[k].(used := now)), now, maxAge)
    case Encrypt => if FirstOpen(t.order, t.infos).None? then Success(t) else StoreRecord(t, now, maxAge)
    case CloseOpenSession =>
      if FirstOpen(t.order, t.infos).None? then Success(t) else StoreRecord(Close(t, now), now, maxAge)
  }

  /** Clocks may stand still or go back. */
  datatype Call = Call(op: Op, now: nat)

  function ApplyAll(t: Table, calls: seq<Call>, maxAge: int): Result<Table, RecordError> {
    if calls == [] then Success(t)
    else
      var before :- ApplyAll(t, calls[..|calls| - 1], maxAge);
      var last := calls[|calls| - 1];
      Apply(before, last.op, last.now, maxAge)
  }

  // Which sessions are evicted.

  function OpenIds(infos: map<KeyId, IndexInfo>): set<KeyId> {
    set k | k in infos && IsOpen(infos, k)
  }

  ghost predicate Proper(t: Table) {
    t.infos.Keys == Ids(t.order) && NoRepeats(t.order)
  }

  ghost predicate Precedes(order: seq<KeyId>, a: KeyId, b: KeyId) {
    order != [] && if order[0] == a then b in order[1..] else Precedes(order[1..], a, b)
  }

  /** `a` was closed before `b`; among equal times the earlier entry counts as older. */
  ghost predicate Older(t: Table, a: KeyId, b: KeyId) {
    && a in t.infos && b in t.infos
    && (t.infos[a].closed < t.infos[b].closed
        || (t.infos[a].closed == t.infos[b].closed && Precedes(t.order, a, b)))
  }

  /** `k` is the closed session that goes first. */
  ghost predicate GoesFirst(t: Table, k: KeyId) {
    IsClosed(t.infos, k) && forall b :: b in t.order && IsClosed(t.infos, b) && b != k ==> Older(t, k, b)
  }

  lemma PrecedesInList(order: seq<KeyId>, a: KeyId, b: KeyId)
    requires Precedes(order, a, b)
    ensures a in order && b in order
  {
  }

  lemma {:induction false} PrecedesThrough(order: seq<KeyId>, gone: set<KeyId>, a: KeyId, b: KeyId)
    requires Precedes(Without(order, gone), a, b)
    ensures Precedes(order, a, b)
  {
    WithoutMembers(order[1..], gone);
    if order[0] in gone {
      PrecedesThrough(order[1..], gone, a, b);
      PrecedesInList(order[1..], a, b);
      PrecedesInList(Without(order, gone), a, b);
      WithoutMembers(order, gone);
      assert order[0] != a;
    } else if order[0] != a {
      PrecedesThrough(order[1..], gone, a, b);
    }
  }

  /** What the search knows: `best` is the first of the least times seen so far. */
  lemma {:induction false} OldestIsLeast(order: seq<KeyId>, infos: map<KeyId, IndexInfo>, best: Option<KeyId>)
    requires NoRepeats(order)
    requires best.Some? ==> IsClosed(infos, best.value) && best.value !in order
    ensures match Oldest(order, infos, best)
            case None => best.None? && forall b :: b in order ==> !IsClosed(infos, b)
            case Some(k) =>
              && IsClosed(infos, k) && (Some(k) == best || k in order)
              && (best.Some? && Some(k) != best ==> infos[k].closed < infos[best.value].closed)
              && forall b :: b in order && IsClosed(infos, b) && b != k ==>
                   infos[k].closed < infos[b].closed
                   || (infos[k].closed == infos[b].closed && (Some(k) == best || Precedes(order, k, b)))
  {
    if order != [] {
      assert order[0] !in order[1..];
      OldestIsLeast(order[1..], infos, if Replaces(infos, order[0], best) then Some(order[0]) else best);
    }
  }

  lemma OldestGoesFirst(t: Table)
    requires Proper(t)
    ensures match Oldest(t.order, t.infos, None)
            case None => forall b :: b in t.order ==> !IsClosed(t.infos, b)
            case Some(k) => k in t.order && GoesFirst(t, k)
  {
    OldestIsLeast(t.order, t.infos, None);
  }

  lemma {:induction false} DistinctCount(order: seq<KeyId>)
    requires NoRepeats(order)
    ensures |Ids(order)| == |order|
  {
    if order != [] {
      DistinctCount(order[1..]);
      assert Ids(order) == Ids(order[1..]) + {order[0]};
    }
  }

  lemma RemoveIsProper(t: Table, gone: set<KeyId>)
    requires Proper(t)
    ensures Proper(Remove(t, gone))
  {
    WithoutKeepsDistinct(t.order, gone);
    WithoutMembers(t.order, gone);
  }

  lemma RemoveOneCount(t: Table, k: KeyId)
    requires Proper(t) && k in t.infos
    ensures Proper(Remove(t, {k})) && |Remove(t, {k}).order| == |t.order| - 1
  {
    RemoveIsProper(t, {k});
    DistinctCount(t.order);
    DistinctCount(Remove(t, {k}).order);
    assert Remove(t, {k}).infos.Keys == t.infos.Keys - {k};
    hide NoRepeats, Ids;
  }

  lemma EvictOne(t: Table)
    requires Proper(t) && |t.order| > 40
    ensures match Oldest(t.order, t.infos, None)
            case None => RemoveOldSessions(t) == Failure(CorruptSessions)
            case Some(k) => k in t.infos && RemoveOldSessions(t) == RemoveOldSessions(Remove(t, {k}))
                            && |Remove(t, {k}).order| < |t.order|
  {
    var oldest := Oldest(t.order, t.infos, None);
    if oldest.Some? {
      RemoveOneCount(t, oldest.value);
    }
  }

  /** The stale ones of the first `n` sessions. */
  function StaleAmong(t: Table, cutoff: int, n: nat): set<KeyId>
    requires n <= |t.order|
  {
    set k | k in t.order[..n] && IsStale(t.infos, k, cutoff)
  }

  lemma StaleNone(t: Table, cutoff: int)
    requires Proper(t)
    ensures Remove(t, StaleAmong(t, cutoff, 0)) == t
  {
    EvictedNothing(t);
    assert StaleAmong(t, cutoff, 0) == t.infos.Keys - t.infos.Keys;
  }

  lemma StaleAll(t: Table, cutoff: int)
    requires Proper(t)
    ensures Remove(t, StaleAmong(t, cutoff, |t.order|)) == RemoveStaleSessions(t, cutoff)
  {
    assert t.order[..|t.order|] == t.order;
    assert forall k :: k in t.infos <==> k in Ids(t.order);
    assert StaleAmong(t, cutoff, |t.order|) == set k | k in t.infos && IsStale(t.infos, k, cutoff);
  }

  lemma StaleNext(t: Table, cutoff: int, n: nat)
    requires Proper(t) && n < |t.order|
    ensures var rest, k := Remove(t, StaleAmong(t, cutoff, n)), t.order[n];
            && k in rest.infos && k in t.infos && rest.infos[k] == t.infos[k]
            && Remove(t, StaleAmong(t, cutoff, n + 1)) == if IsStale(t.infos, k, cutoff) then Remove(rest, {k})
              else rest
  {
    var k := t.order[n];
    assert k !in t.order[..n];
    assert k in Ids(t.order);
    assert t.order[..n + 1] == t.order[..n] + [k];
    if IsStale(t.infos, k, cutoff) {
      RemoveTwice(t, StaleAmong(t, cutoff, n), {k});
      assert StaleAmong(t, cutoff, n + 1) == StaleAmong(t, cutoff, n) + {k};
    } else {
      assert StaleAmong(t, cutoff, n + 1) == StaleAmong(t, cutoff, n);
    }
  }

  /** What eviction makes of `t`: the sessions that stay are as they were, in their order; every
      evicted session was closed, and is older than every closed session that stays. */
  ghost predicate EvictedTo(t: Table, u: Table) {
    && u.infos.Keys <= t.infos.Keys
    && u == Remove(t, t.infos.Keys - u.infos.Keys)
    && forall g :: g in t.infos && g !in u.infos ==> IsClosed(t.infos, g) && OlderThanClosed(t, g, u.infos.Keys)
  }

  ghost predicate OlderThanClosed(t: Table, g: KeyId, kept: set<KeyId>) {
    forall k :: k in kept && IsClosed(t.infos, k) ==> Older(t, g, k)
  }

  lemma EvictedNothing(t: Table)
    requires Proper(t)
    ensures EvictedTo(t, t)
  {
    WithoutNone(t.order, {});
    assert t.infos.Keys - t.infos.Keys == {};
    assert t.infos - {} == t.infos;
  }

  lemma RemoveTwice(t: Table, a: set<KeyId>, b: set<KeyId>)
    ensures Remove(Remove(t, a), b) == Remove(t, a + b)
  {
    WithoutTwice(t.order, a, b);
    assert t.infos - a - b == t.infos - (a + b);
  }

  lemma OlderThrough(t: Table, gone: set<KeyId>, a: KeyId, b: KeyId)
    requires Older(Remove(t, gone), a, b)
    ensures Older(t, a, b)
  {
    hide Precedes;
    if Precedes(Remove(t, gone).order, a, b) {
      PrecedesThrough(t.order, gone, a, b);
    }
  }

  lemma OlderThanClosedThrough(t: Table, gone: set<KeyId>, g: KeyId, kept: set<KeyId>)
    requires OlderThanClosed(Remove(t, gone), g, kept) && kept <= Remove(t, gone).infos.Keys
    ensures OlderThanClosed(t, g, kept)
  {
    hide Older, Without;
    forall k | k in kept && IsClosed(t.infos, k) ensures Older(t, g, k) {
      assert IsClosed(Remove(t, gone).infos, k);
      OlderThrough(t, gone, g, k);
    }
  }

  lemma EvictedOneMore(t: Table, k: KeyId, u: Table)
    requires Proper(t) && k in t.infos && GoesFirst(t, k)
    requires EvictedTo(Remove(t, {k}), u)
    ensures EvictedTo(t, u)
  {
    var rest := Remove(t, {k});
    RemoveTwice(t, {k}, rest.infos.Keys - u.infos.Keys);
    assert {k} + (rest.infos.Keys - u.infos.Keys) == t.infos.Keys - u.infos.Keys;
    forall g | g in t.infos && g !in u.infos ensures IsClosed(t.infos, g) && OlderThanClosed(t, g, u.infos.Keys) {
      hide Older, Without, Ids;
      if g != k {
        OlderThanClosedThrough(t, {k}, g, u.infos.Keys);
      }
    }
  }

  lemma OpenSurvives(t: Table, k: KeyId)
    requires IsClosed(t.infos, k)
    ensures OpenIds(Remove(t, {k}).infos) == OpenIds(t.infos)
  {
  }

  /** removeOldSessions throws exactly when more than 40 sessions are open. Otherwise it leaves
      40 sessions, or all if there are fewer, and evicts the oldest closed ones. */
  lemma {:induction false} EvictsTheOldest(t: Table)
    requires Proper(t)
    ensures RemoveOldSessions(t).Failure? <==> |OpenIds(t.infos)| > 40
    ensures RemoveOldSessions(t).Success? ==>
              && EvictedTo(t, RemoveOldSessions(t).value) && Proper(RemoveOldSessions(t).value)
              && |RemoveOldSessions(t).value.order| == if |t.order| <= 40 then |t.order|
                else 40
    decreases t.infos.Keys
  {
    DistinctCount(t.order);
    CountOpen(t);
    if |t.order| <= 40 {
      EvictedNothing(t);
    } else {
      OldestGoesFirst(t);
      var oldest := Oldest(t.order, t.infos, None);
      if oldest.Some? {
        RemoveOneCount(t, oldest.value);
        OpenSurvives(t, oldest.value);
        hide Oldest, GoesFirst, Remove, EvictedTo, Proper;
        EvictsTheOldest(Remove(t, {oldest.value}));
        if RemoveOldSessions(t).Success? {
          EvictedOneMore(t, oldest.value, RemoveOldSessions(t).value);
        }
      }
    }
  }

  lemma SmallerSet<T>(a: set<T>, b: set<T>)
    requires a <= b
    ensures |a| <= |b| && (|a| == |b| ==> a == b)
  {
    assert b == a + (b - a);
  }

  lemma CountOpen(t: Table)
    requires Proper(t)
    ensures |OpenIds(t.infos)| <= |t.order|
    ensures (forall b :: b in t.order ==> !IsClosed(t.infos, b)) ==> |OpenIds(t.infos)| == |t.order|
  {
    DistinctCount(t.order);
    SmallerSet(OpenIds(t.infos), t.infos.Keys);
    if forall b :: b in t.order ==> !IsClosed(t.infos, b) {
      assert OpenIds(t.infos) == t.infos.Keys;
    }
  }

  // getSessions: the most recently used first.

  function Used(infos: map<KeyId, IndexInfo>, k: KeyId): int {
    if k in infos then infos[k].used else 0
  }

  function InsertByUse(sorted: seq<KeyId>, k: KeyId, infos: map<KeyId, IndexInfo>): seq<KeyId> {
    if sorted == [] || Used(infos, sorted[|sorted| - 1]) >= Used(infos, k) then sorted + [k]
    else InsertByUse(sorted[..|sorted| - 1], k, infos) + [sorted[|sorted| - 1]]
  }

  function ByUse(order: seq<KeyId>, infos: map<KeyId, IndexInfo>): seq<KeyId> {
    if order == [] then []
    else InsertByUse(ByUse(order[..|order| - 1], infos), order[|order| - 1], infos)
  }

  /** More recently used, or as recently and earlier in the record. */
  ghost predicate Sooner(order: seq<KeyId>, infos: map<KeyId, IndexInfo>, a: KeyId, b: KeyId) {
    var u, v := if a in infos then infos[a].used else 0, if b in infos then infos[b].used else 0;
    u > v || (u == v && Precedes(order, a, b))
  }

  ghost predicate SortedByUse(sorted: seq<KeyId>, order: seq<KeyId>, infos: map<KeyId, IndexInfo>) {
    forall i, j :: 0 <= i < j < |sorted| ==> Sooner(order, infos, sorted[i], sorted[j])
  }

  lemma {:induction false} PrecedesAppend(order: seq<KeyId>, x: KeyId, a: KeyId)
    ensures a in order ==> Precedes(order + [x], a, x)
    ensures forall b :: Precedes(order, a, b) ==> Precedes(order + [x], a, b)
  {
    if order != [] {
      assert (order + [x])[1..] == order[1..] + [x];
      PrecedesAppend(order[1..], x, a);
    }
  }

  lemma SortedInLonger(sorted: seq<KeyId>, order: seq<KeyId>, x: KeyId, infos: map<KeyId, IndexInfo>)
    requires SortedByUse(sorted, order, infos)
    ensures SortedByUse(sorted, order + [x], infos)
  {
    hide Precedes;
    forall i, j | 0 <= i < j < |sorted| ensures Sooner(order + [x], infos, sorted[i], sorted[j]) {
      assert Sooner(order, infos, sorted[i], sorted[j]);
      PrecedesAppend(order, x, sorted[i]);
    }
  }

  lemma InsertedSooner(sorted: seq<KeyId>, k: KeyId, front: seq<KeyId>, order: seq<KeyId>, infos: map<KeyId, IndexInfo>)
    requires sorted != [] && SortedByUse(sorted, order, infos)
    requires Used(infos, sorted[|sorted| - 1]) < Used(infos, k)
    requires multiset(front) == multiset(sorted[..|sorted| - 1]) + multiset{k}
    ensures forall i :: 0 <= i < |front| ==> Sooner(order, infos, front[i], sorted[|sorted| - 1])
  {
    var n := |sorted| - 1;
    hide Precedes;
    forall i | 0 <= i < |front| ensures Sooner(order, infos, front[i], sorted[n]) {
      assert front[i] in multiset(front);
      if front[i] != k {
        assert front[i] in sorted[..n];
        var p :| 0 <= p < n && sorted[p] == front[i];
      }
    }
  }

  lemma {:induction false} InsertSorts(sorted: seq<KeyId>, k: KeyId, order: seq<KeyId>, infos: map<KeyId, IndexInfo>)
    requires SortedByUse(sorted, order, infos)
    requires forall a :: a in sorted ==> Precedes(order, a, k)
    ensures SortedByUse(InsertByUse(sorted, k, infos), order, infos)
    ensures multiset(InsertByUse(sorted, k, infos)) == multiset(sorted) + multiset{k}
  {
    hide Precedes;
    if sorted != [] {
      var n := |sorted| - 1;
      assert sorted == sorted[..n] + [sorted[n]];
      if Used(infos, sorted[n]) >= Used(infos, k) {
        forall i | 0 <= i < |sorted| ensures Sooner(order, infos, sorted[i], k) {
          assert sorted[i] in sorted;
          assert i < n ==> Sooner(order, infos, sorted[i], sorted[n]);
        }
      } else {
        InsertSorts(sorted[..n], k, order, infos);
        var front := InsertByUse(sorted[..n], k, infos);
        InsertedSooner(sorted, k, front, order, infos);
        hide Sooner;
      }
    }
  }

  /** getSessions lists the sessions of the record, each as often as it is there, most recently
      used first, and equally recent ones in the order of the record. */
  lemma {:induction false} ByUseSorts(order: seq<KeyId>, infos: map<KeyId, IndexInfo>)
    ensures SortedByUse(ByUse(order, infos), order, infos)
    ensures multiset(ByUse(order, infos)) == multiset(order)
  {
    if order != [] {
      var n := |order| - 1;
      var front := order[..n];
      ByUseSorts(front, infos);
      assert order == front + [order[n]];
      SortedInLonger(ByUse(front, infos), front, order[n], infos);
      hide Precedes, SortedByUse;
      forall a | a in ByUse(front, infos) ensures Precedes(order, a, order[n]) {
        assert a in multiset(front);
        PrecedesAppend(front, order[n], a);
      }
      InsertSorts(ByUse(front, infos), order[n], order, infos);
    }
  }

  // What every sequence of calls keeps.

  /** A stored record: at most 40 sessions, at most one of them open. */
  ghost predicate Stored(t: Table) {
    && Proper(t) && |t.order| <= 40 && OneOpen(t.infos)
  }

  ghost predicate OneOpen(infos: map<KeyId, IndexInfo>) {
    forall a, b :: IsOpen(infos, a) && IsOpen(infos, b) ==> a == b
  }

  lemma {:induction false} FirstOpenIsOpen(order: seq<KeyId>, infos: map<KeyId, IndexInfo>)
    ensures match FirstOpen(order, infos)
            case None => forall k :: k in order ==> !IsOpen(infos, k)
            case Some(k) => k in order && IsOpen(infos, k)
  {
    if order != [] {
      FirstOpenIsOpen(order[1..], infos);
    }
  }

  lemma FewOpen(infos: map<KeyId, IndexInfo>)
    requires OneOpen(infos)
    ensures |OpenIds(infos)| <= 1
  {
    if OpenIds(infos) != {} {
      var a :| a in OpenIds(infos);
      assert OpenIds(infos) == {a};
    }
  }

  lemma CloseClosesAll(t: Table, now: nat)
    requires Proper(t) && OneOpen(t.infos)
    ensures Proper(Close(t, now)) && Close(t, now).order == t.order
    ensures forall k :: k in t.infos ==> IsClosed(Close(t, now).infos, k)
  {
    FirstOpenIsOpen(t.order, t.infos);
    forall k | k in t.infos ensures IsClosed(Close(t, now).infos, k) {
      assert k in Ids(t.order) && (IsOpen(t.infos, k) || IsClosed(t.infos, k));
    }
  }

  lemma StartKeepsOneOpen(t: Table, k: KeyId, now: nat, ours: bool)
    requires Proper(t) && OneOpen(t.infos)
    ensures var u := Start(t, k, now, ours);
            Proper(u) && OneOpen(u.infos) && IsOpen(u.infos, k)
  {
    CloseClosesAll(t, now);
    hide Close, NoRepeats, Ids;
    if k !in t.infos {
      IdAdded(t.order, t.infos.Keys, k);
    }
  }

  lemma RemoveKeepsOneOpen(t: Table, gone: set<KeyId>)
    requires Proper(t) && OneOpen(t.infos)
    ensures Proper(Remove(t, gone)) && OneOpen(Remove(t, gone).infos)
    ensures |Remove(t, gone).order| <= |t.order|
  {
    RemoveIsProper(t, gone);
    DistinctCount(t.order);
    DistinctCount(Remove(t, gone).order);
    assert forall a :: IsOpen(Remove(t, gone).infos, a) ==> IsOpen(t.infos, a);
    hide NoRepeats, Ids, Without;
    SmallerSet(Remove(t, gone).infos.Keys, t.infos.Keys);
  }

  lemma StoreKeeps(t: Table, now: int, maxAge: int)
    requires Proper(t) && OneOpen(t.infos)
    ensures RemoveOldSessions(t).Success? && Stored(RemoveOldSessions(t).value)
    ensures StoreRecord(t, now, maxAge).Success? && Stored(StoreRecord(t, now, maxAge).value)
  {
    FewOpen(t.infos);
    EvictsTheOldest(t);
    var kept := RemoveOldSessions(t).value;
    RemoveKeepsOneOpen(t, t.infos.Keys - kept.infos.Keys);
    hide Proper, OneOpen, RemoveOldSessions, Remove, IsStale;
    RemoveKeepsOneOpen(kept, set k | k in kept.infos && IsStale(kept.infos, k, now - maxAge));
  }

  lemma ApplyKeeps(t: Table, op: Op, now: nat, maxAge: int)
    requires Stored(t)
    ensures Apply(t, op, now, maxAge).Success? && Stored(Apply(t, op, now, maxAge).value)
  {
    hide StoreRecord, RemoveOldSessions, NoRepeats, Ids, Start, Close, FirstOpen;
    StoreKeeps(t, now, maxAge);
    CloseClosesAll(t, now);
    assert Proper(Close(t, now)) && OneOpen(Close(t, now).infos);
    StoreKeeps(Close(t, now), now, maxAge);
    if op.InitOutgoing? || op.DecryptPreKeyMessage? {
      StartKeepsOneOpen(t, op.baseKey, now, op.InitOutgoing?);
      StoreKeeps(Start(t, op.baseKey, now, op.InitOutgoing?), now, maxAge);
    }
    if op.DecryptMessage? && op.baseKey in t.infos {
      var u := Put(t, op.baseKey, t.infos[op.baseKey].(used := now));
      assert forall k :: IsOpen(u.infos, k) <==> IsOpen(t.infos, k);
      StoreKeeps(u, now, maxAge);
    }
  }

  /** Over every sequence of calls, with any clock: "Corrupt sessions object" is never thrown,
      and every stored record has at most 40 sessions, at most one of them open. */
  lemma {:induction false} RecordsStayStored(t: Table, calls: seq<Call>, maxAge: int)
    requires Stored(t)
    ensures ApplyAll(t, calls, maxAge).Success? && Stored(ApplyAll(t, calls, maxAge).value)
  {
    if calls != [] {
      RecordsStayStored(t, calls[..|calls| - 1], maxAge);
      hide Apply, Stored;
      var last := calls[|calls| - 1];
      ApplyKeeps(ApplyAll(t, calls[..|calls| - 1], maxAge).value, last.op, last.now, maxAge);
    }
  }

  lemma EvictionKeepsOpen(t: Table, u: Table, k: KeyId)
    requires EvictedTo(t, u) && IsOpen(t.infos, k)
    ensures IsOpen(u.infos, k)
  {
  }

  ghost predicate IsCurrent(r: Result<Table, RecordError>, k: KeyId) {
    r.Success? && FirstOpen(r.value.order, r.value.infos) == Some(k)
  }

  lemma StartIsCurrent(t: Table, k: KeyId, now: nat, ours: bool, maxAge: int)
    requires Proper(t) && OneOpen(t.infos)
    ensures IsCurrent(RemoveOldSessions(Start(t, k, now, ours)), k)
    ensures IsCurrent(StoreRecord(Start(t, k, now, ours), now, maxAge), k)
  {
    var s := Start(t, k, now, ours);
    StartKeepsOneOpen(t, k, now, ours);
    FewOpen(s.infos);
    EvictsTheOldest(s);
    StoreKeeps(s, now, maxAge);
    var kept := RemoveOldSessions(s).value;
    EvictionKeepsOpen(s, kept, k);
    hide Start, RemoveOldSessions, EvictedTo, Stored;
    StoredHas(kept);
    OnlyOpen(kept, k);
    var last := StoreRecord(s, now, maxAge).value;
    assert IsOpen(last.infos, k);
    StoredHas(last);
    OnlyOpen(last, k);
  }

  /** The session a handshake opens is the one that encrypt finds in the stored record. */
  lemma HandshakeIsCurrent(t: Table, k: KeyId, now: nat, maxAge: int)
    requires Stored(t)
    ensures IsCurrent(Apply(t, InitOutgoing(k), now, maxAge), k)
    ensures k !in t.infos ==> IsCurrent(Apply(t, DecryptPreKeyMessage(k), now, maxAge), k)
  {
    hide Start, RemoveOldSessions, StoreRecord, IsCurrent;
    StartIsCurrent(t, k, now, true, maxAge);
    StartIsCurrent(t, k, now, false, maxAge);
  }

  lemma StoredHas(t: Table)
    ensures Stored(t) ==> Proper(t) && OneOpen(t.infos)
  {
  }

  lemma OnlyOpen(t: Table, k: KeyId)
    requires Proper(t) && OneOpen(t.infos) && IsOpen(t.infos, k)
    ensures FirstOpen(t.order, t.infos) == Some(k)
  {
    FirstOpenIsOpen(t.order, t.infos);
  }
}
