/** Prekey pools over one store, in one or several processes that may crash anywhere: which ids
    are ever generated, and which are published. A process may have several pool managers. Of the
    store only this matters: a process can commit when it has the latest snapshot, and then no
    other process has it. PreKeyFiles.dfy shows that the files are such a store. */
module PreKeyPools {
  import opened Wrappers
  import opened StorageContents
  import opened PreKeyIds

  datatype Generated = Generated(id: int, position: nat)

  /** A bundle with reservation was returned, or its prekey was released. */
  datatype Entry = Published(id: int) | Released(id: int)

  /** A process that has opened the store. `position` is its next id, counted without wrapping. */
  datatype Member = Member(data: Contents, current: bool, position: nat)

  datatype Manager = Manager(p: nat, m: nat)

  /** What a manager's `replenishing` stands for: it has read the next id and has not reserved yet,
      or it has reserved ids, of which these are still to be stored. */
  datatype Slot = Reading(start: int, at: nat, count: nat) | Storing(ids: seq<int>, from: nat)

  /** Positions below `reserved` are reserved in the latest snapshot, `stored` are those whose keys
      some process has put into its store. `overlapped` records whether, in a process with the latest
      snapshot, a manager has read the next id while another had read it and not yet reserved,
      `failed` whether a reading has come to anything else than a reservation that was saved. */
  datatype Pool = Pool(
    latest: Option<Contents>, members: map<nat, Member>, origin: nat, reserved: nat, slots: map<Manager, Slot>,
    stored: set<nat>, generated: seq<Generated>, log: seq<Entry>, overlapped: bool, failed: bool)

  /** What saves at once, or what a debounced save does. */
  datatype Saving = Reserve(m: nat) | Publish(id: int) | Release(id: int) | Remove(id: int) | Flush

  datatype End = Returned | Failed | Crashed

  datatype Event =
    | Open(p: nat, initial: Contents, committed: bool, returned: bool)
    | ReadNext(p: nat, m: nat, count: nat)
    | Perform(p: nat, op: Saving, end: End, committed: bool)
    | StoreNext(p: nat, m: nat, pair: KeyPair)
    | Abandon(p: nat, m: nat)
    | Change(p: nat, data: Contents)
    | Exit(p: nat)

  /** The ids of a replenishment: generatePreKeysBatch from `startId`. */
  function BatchIds(startId: int, count: nat): (r: seq<int>)
    ensures |r| == count && forall i :: 0 <= i < count ==> r[i] == WrapPreKeyId(startId + i)
  {
    seq(count, i => WrapPreKeyId(startId + i))
  }

  ghost predicate IsNew(c: Contents) {
    c.nextPreKeyId == 1 && c.preKeys == map[] && c.published == {}
  }

  predicate IsReading(w: Pool, k: Manager) {
    k in w.slots && w.slots[k].Reading?
  }

  predicate IsStoring(w: Pool, k: Manager) {
    k in w.slots && w.slots[k].Storing?
  }

  /** The next id that a reservation leaves behind: its range follows on what its manager has read. */
  function NextAfter(w: Pool, k: Manager): int {
    if IsReading(w, k) then WrapPreKeyId(w.slots[k].start + w.slots[k].count) else 0
  }

  /** The change that an operation makes in memory before it saves. */
  function Changed(c: Contents, op: Saving): Contents {
    match op
    case Reserve(_) => c
    case Publish(id) => Apply(c, ReservePreKey(id)).0
    case Release(id) => Apply(c, ReleasePreKey(id)).0
    case Remove(id) => Apply(c, RemovePreKey(id)).0
    case Flush => c
  }

  function ChangedBy(w: Pool, p: nat, op: Saving): Contents
    requires p in w.members
  {
    var c := w.members[p].data;
    if op.Reserve? then c.(nextPreKeyId := NextAfter(w, Manager(p, op.m))) else Changed(c, op)
  }

  /** Whether the operation comes to saving at all. */
  predicate Goes(w: Pool, p: nat, op: Saving)
    requires p in w.members
  {
    match op
    case Reserve(m) => IsReading(w, Manager(p, m))
    case Publish(id) => Apply(w.members[p].data, ReservePreKey(id)).1
    case Release(id) => Apply(w.members[p].data, ReleasePreKey(id)).1
    case Remove(_) => true
    case Flush => true
  }

  /** A manager reads the next id only when its own replenishment is over: until then a call gets
      the promise of the one that is running. */
  ghost predicate Enabled(w: Pool, e: Event) {
    match e
    case Open(p, initial, committed, returned) =>
      && p !in w.members && IsNew(initial) && (returned ==> committed || w.latest.Some?)
    case ReadNext(p, m, count) => p in w.members && Manager(p, m) !in w.slots && count > 0
    case Perform(p, op, end, committed) =>
      && p in w.members && Goes(w, p, op)
      && (committed ==> w.members[p].current) && (end.Returned? ==> committed) && (end.Failed? ==> !committed)
    case StoreNext(p, m, _) =>
      p in w.members && IsStoring(w, Manager(p, m)) && w.slots[Manager(p, m)].ids != []
    case Abandon(p, m) => IsStoring(w, Manager(p, m))
    case Change(p, data) =>
      p in w.members
      && var c := w.members[p].data;
         data.preKeys == c.preKeys && data.published == c.published && data.nextPreKeyId == c.nextPreKeyId
    case Exit(p) => p in w.members
  }

  /** After a commit, only who made it has the latest snapshot. */
  function Behind(members: map<nat, Member>, committed: bool): map<nat, Member> {
    map p | p in members :: members[p].(current := members[p].current && !committed)
  }

  function Opened(w: Pool, p: nat, initial: Contents, committed: bool, returned: bool): Pool {
    var latest := if w.latest.None? && committed then Some(initial) else w.latest;
    var members := Behind(w.members, committed);
    w.(latest := latest,
       members := if returned && latest.Some? then members[p := Member(latest.value, true, w.reserved)] else members)
  }

  /** Managers die with their process. */
  function Alive(slots: map<Manager, Slot>, p: nat): map<Manager, Slot> {
    map k | k in slots && k.p != p :: slots[k]
  }

  ghost predicate HasReading(w: Pool, p: nat) {
    exists k :: IsReading(w, k) && k.p == p
  }

  function PositionAfter(w: Pool, p: nat, op: Saving): nat
    requires p in w.members
  {
    if op.Reserve? && IsReading(w, Manager(p, op.m))
    then w.slots[Manager(p, op.m)].at + w.slots[Manager(p, op.m)].count
    else w.members[p].position
  }

  /** The store after an operation. A reservation of a prekey or a release that fails is taken back. */
  function Saved(w: Pool, p: nat, op: Saving, end: End, committed: bool): Pool
    requires p in w.members
  {
    var c, data := w.members[p].data, ChangedBy(w, p, op);
    var others, at := Behind(w.members, committed), PositionAfter(w, p, op);
    w.(latest := if committed then Some(data) else w.latest, reserved := if committed then at else w.reserved,
       members := match end
                  case Returned => others[p := Member(data, true, at)]
                  case Failed =>
                    others[p := Member(if op.Publish? || op.Release? then c else data, w.members[p].current, at)]
                  case Crashed => others - {p})
  }

  ghost function Performed(w: Pool, p: nat, op: Saving, end: End, committed: bool): Pool
    requires p in w.members
  {
    var v := Saved(w, p, op, end, committed);
    if end.Crashed? then
      v.(slots := Alive(w.slots, p), failed := w.failed || HasReading(w, p),
         log := if op.Release? && committed then w.log + [Released(op.id)] else w.log)
    else match op
      case Reserve(m) =>
        var k := Manager(p, m);
        if !IsReading(w, k) then v
        else if end.Returned? then
          var ids := BatchIds(w.slots[k].start, w.slots[k].count);
          v.(slots := w.slots[k := Storing(ids, w.slots[k].at)],
             generated := w.generated + Numbered(ids, w.slots[k].at))
        else v.(slots := w.slots - {k}, failed := true)
      case Publish(id) => if end.Returned? then v.(log := w.log + [Published(id)]) else v
      case Release(id) => if committed then v.(log := w.log + [Released(id)]) else v
      case Remove(_) => v
      case Flush => v
  }

  ghost function Numbered(ids: seq<int>, from: nat): (r: seq<Generated>)
    ensures |r| == |ids| && forall i :: 0 <= i < |r| ==> r[i] == Generated(ids[i], from + i)
  {
    seq(|ids|, i requires 0 <= i < |ids| => Generated(ids[i], from + i))
  }

  ghost function ReadBy(w: Pool, p: nat, m: nat, count: nat): Pool
    requires p in w.members
  {
    w.(slots := w.slots[Manager(p, m) := Reading(w.members[p].data.nextPreKeyId, w.members[p].position, count)],
       overlapped := w.overlapped || (w.members[p].current && HasReading(w, p)))
  }

  function StoredNext(w: Pool, p: nat, m: nat, pair: KeyPair): Pool
    requires p in w.members && IsStoring(w, Manager(p, m)) && w.slots[Manager(p, m)].ids != []
  {
    var k, s := Manager(p, m), w.slots[Manager(p, m)];
    w.(members := w.members[p := w.members[p].(data := Apply(w.members[p].data, StorePreKey(s.ids[0], pair)).0)],
       slots := w.slots[k := Storing(s.ids[1..], s.from + 1)], stored := w.stored + {s.from})
  }

  /** Events that cannot happen change nothing. */
  ghost function Next(w: Pool, e: Event): Pool {
    if !Enabled(w, e) then w
    else match e
      case Open(p, initial, committed, returned) => Opened(w, p, initial, committed, returned)
      case ReadNext(p, m, count) => ReadBy(w, p, m, count)
      case Perform(p, op, end, committed) => Performed(w, p, op, end, committed)
      case StoreNext(p, m, pair) => StoredNext(w, p, m, pair)
      case Abandon(p, m) => w.(slots := w.slots - {Manager(p, m)})
      case Change(p, data) => w.(members := w.members[p := w.members[p].(data := data)])
      case Exit(p) =>
        w.(members := w.members - {p}, slots := Alive(w.slots, p), failed := w.failed || HasReading(w, p))
  }

  ghost function Run(w: Pool, events: seq<Event>): Pool {
    if events == [] then w else Next(Run(w, events[..|events| - 1]), events[|events| - 1])
  }

  // One event at a time.

  lemma LastEvent(w: Pool, events: seq<Event>, e: Event)
    ensures Run(w, events + [e]) == Next(Run(w, events), e)
  {
    assert (events + [e])[..|events|] == events;
  }

  lemma PerformedStore(w: Pool, p: nat, op: Saving, end: End, committed: bool)
    requires p in w.members
    ensures var v, u := Performed(w, p, op, end, committed), Saved(w, p, op, end, committed);
            && v.latest == u.latest && v.members == u.members && v.reserved == u.reserved && v.stored == w.stored
            && v.origin == w.origin && v.overlapped == w.overlapped
  {
    hide Changed, BatchIds, Saved;
    SavedStore(w, p, op, end, committed);
  }

  lemma SavedStore(w: Pool, p: nat, op: Saving, end: End, committed: bool)
    requires p in w.members
    ensures var v := Saved(w, p, op, end, committed);
            v == w.(latest := v.latest, members := v.members, reserved := v.reserved)
  {
    hide Changed;
  }

  /** What a save makes of the members. */
  lemma SavedMember(w: Pool, p: nat, op: Saving, end: End, committed: bool, r: nat)
    requires p in w.members && r in Saved(w, p, op, end, committed).members
    ensures r in w.members && (r == p ==> !end.Crashed?)
    ensures var v := Saved(w, p, op, end, committed).members[r];
            if r != p then v == w.members[r].(current := w.members[r].current && !committed)
            else
              && v.position == PositionAfter(w, p, op)
              && v.current == (end.Returned? || w.members[p].current)
              && v.data == if end.Failed? && (op.Publish? || op.Release?) then w.members[p].data
                else ChangedBy(w, p, op)
  {
    hide Changed;
  }
}
