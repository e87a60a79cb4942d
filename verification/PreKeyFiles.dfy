/** The prekey pools over the files: what the file store does to its processes and its latest
    snapshot is what PreKeyPool.dfy takes a store to do. */
module PreKeyFiles {
  import opened Wrappers
  import opened StorageContents
  import opened FileSystems
  import opened FileStorage
  import F = FileProtocol
  import P = PreKeyPools
  import PreKeyRanges
  import PreKeyPublications

  // What the files keep.

  ghost predicate Current(files: F.World, p: nat) {
    p in files.processes && files.processes[p].base == |files.commits| - 1
  }

  ghost function Latest(files: F.World): Contents
    requires files.commits != []
  {
    files.commits[|files.commits| - 1].s.data
  }

  ghost function Saves(files: F.World, p: nat, data: Contents, end: End, after: Disk): F.World
    requires p in files.processes
  {
    F.Next(F.Next(files, F.Change(p, data)), F.Save(p, files.processes[p].instance.key, end, after))
  }

  ghost predicate CanSave(files: F.World, p: nat, data: Contents, end: End, after: Disk)
    requires p in files.processes
  {
    F.Enabled(F.Next(files, F.Change(p, data)), F.Save(p, files.processes[p].instance.key, end, after))
  }

  ghost predicate SavedFacts(files: F.World, p: nat, data: Contents, end: End, v: F.World)
    requires p in files.processes
  {
    && F.Inv(v)
    && (forall r :: r != p ==> (r in v.processes <==> r in files.processes))
    && (forall r :: r != p && r in v.processes ==> v.processes[r] == files.processes[r])
    && (p in v.processes ==> v.processes[p].instance.data == data)
    && (v.commits != files.commits ==> Current(files, p) && |v.commits| == |files.commits| + 1 && Latest(v) == data)
    && (end.Returned? ==> v.commits != files.commits && p in v.processes && Current(v, p))
    && (end.Failed? ==>
          v.commits == files.commits && p in v.processes && v.processes[p].base == files.processes[p].base)
    && (end == Crash ==> p !in v.processes)
  }

  /** What a save commits. */
  ghost predicate CommittedBy(files: F.World, p: nat, end: End, v: F.World)
    requires p in files.processes
  {
    && (v.commits != files.commits ==>
          && Current(files, p) && |v.commits| == |files.commits| + 1
          && Latest(v) == files.processes[p].instance.data)
    && (end.Returned? ==> v.commits != files.commits) && (end.Failed? ==> v.commits == files.commits)
  }

  /** What it makes of the processes. */
  ghost predicate LeftBy(files: F.World, p: nat, end: End, v: F.World)
    requires p in files.processes
  {
    && (end.Returned? && v.commits != [] ==>
          && v.processes.Keys == files.processes.Keys && Current(v, p)
          && v.processes[p].instance.data == files.processes[p].instance.data)
    && (end.Failed? || (end.Returned? && v.commits == []) ==> v.processes == files.processes)
    && (end == Crash ==> v.processes == files.processes - {p})
    && forall r :: r in files.processes && r != p ==> r in v.processes && v.processes[r] == files.processes[r]
  }

  lemma SaveFacts(files: F.World, p: nat, end: End, after: Disk)
    requires F.Inv(files) && p in files.processes
    requires F.Enabled(files, F.Save(p, files.processes[p].instance.key, end, after))
    ensures SavedFacts(files, p, files.processes[p].instance.data, end,
                       F.Next(files, F.Save(p, files.processes[p].instance.key, end, after)))
  {
    var key := files.processes[p].instance.key;
    hide *;
    F.SaveKeepsInv(files, p, key, end, after);
    SaveLeft(files, p, end, after);
    SaveCommitted(files, p, end, after);
    SavedTogether(files, p, end, F.Next(files, F.Save(p, key, end, after)));
  }

  lemma SaveCommitted(files: F.World, p: nat, end: End, after: Disk)
    requires F.Inv(files) && p in files.processes
    requires F.Enabled(files, F.Save(p, files.processes[p].instance.key, end, after))
    ensures CommittedBy(files, p, end, F.Next(files, F.Save(p, files.processes[p].instance.key, end, after)))
  {
    F.SaveAtLatest(files, p, files.processes[p].instance.key, end, after);
    F.CurrentExactlyWhen(files, p);
    hide F.Inv, F.Committing, SaveLeaves, IsCurrent;
  }

  lemma SaveLeft(files: F.World, p: nat, end: End, after: Disk)
    requires p in files.processes
    ensures LeftBy(files, p, end, F.Next(files, F.Save(p, files.processes[p].instance.key, end, after)))
  {
  }

  lemma SavedTogether(files: F.World, p: nat, end: End, v: F.World)
    requires p in files.processes && F.Inv(v) && LeftBy(files, p, end, v) && CommittedBy(files, p, end, v)
    ensures SavedFacts(files, p, files.processes[p].instance.data, end, v)
  {
    hide F.Inv;
  }

  /** A change and a save: a commit takes place only for a process that has the latest one. */
  lemma SavesFacts(files: F.World, p: nat, data: Contents, end: End, after: Disk)
    requires F.Inv(files) && p in files.processes && CanSave(files, p, data, end, after)
    ensures SavedFacts(files, p, data, end, Saves(files, p, data, end, after))
  {
    hide F.Inv, F.Enabled;
    ChangeGives(files, p, data);
    var changed := F.Next(files, F.Change(p, data));
    assert changed.processes[p].instance.key == files.processes[p].instance.key;
    hide F.Next;
    SaveFacts(changed, p, end, after);
    FromChanged(files, p, data, end, changed, Saves(files, p, data, end, after));
  }

  lemma FromChanged(files: F.World, p: nat, data: Contents, end: End, changed: F.World, v: F.World)
    requires p in files.processes && ChangeFacts(files, p, data, changed)
    requires SavedFacts(changed, p, data, end, v)
    ensures SavedFacts(files, p, data, end, v)
  {
    hide F.Inv;
  }

  ghost predicate OpenedFacts(files: F.World, f: F.Event, v: F.World)
    requires f.Open?
  {
    && F.Inv(v)
    && (forall r :: r in files.processes ==> r in v.processes && v.processes[r] == files.processes[r])
    && (forall r :: r in v.processes ==> r in files.processes || (r == f.p && f.end.Returned?))
    && (v.commits == files.commits || (|v.commits| == |files.commits| + 1
        && Latest(v) == if files.commits == [] then f.initial else Latest(files)))
    && (f.end.Returned? ==> f.p !in files.processes && Current(v, f.p) && v.processes[f.p].instance.data == Latest(v))
  }

  /** An opening: the process has the latest contents, which are new ones if there were none. */
  lemma OpenFacts(files: F.World, f: F.Event)
    requires F.Inv(files) && f.Open? && F.Enabled(files, f)
    ensures OpenedFacts(files, f, F.Next(files, f))
  {
    hide F.Inv, F.Next, OpenedFacts;
    F.OpenKeepsInv(files, f);
    match Reads(files.disk, f.backup, f.key)
    case Refuses => OpenRefused(files, f);
    case Nothing => OpenNewFacts(files, f);
    case Loads(s) =>
      F.LoadsTheLast(files, f.backup, f.key);
      OpenOldFacts(files, f, s);
  }

  lemma OpenRefused(files: F.World, f: F.Event)
    requires F.Inv(files) && f.Open? && F.Enabled(files, f) && Reads(files.disk, f.backup, f.key).Refuses?
    ensures F.Inv(F.Next(files, f)) ==> OpenedFacts(files, f, F.Next(files, f))
  {
    hide F.Inv;
  }

  lemma OpenNewFacts(files: F.World, f: F.Event)
    requires F.Inv(files) && f.Open? && F.Enabled(files, f) && Reads(files.disk, f.backup, f.key).Nothing?
    ensures F.Inv(F.Next(files, f)) ==> OpenedFacts(files, f, F.Next(files, f))
  {
    F.SaveCommits(files, Snapshot(1, false, f.initial, f.key), f.backup, f.end, f.after, |files.commits| - 1);
    NothingIsNone(files, f);
    CommittingKeeps(files, f.after, |files.commits| - 1);
    hide SaveLeaves, F.Inv, F.Committing, Reads;
  }

  lemma NothingIsNone(files: F.World, f: F.Event)
    requires F.Inv(files) && f.Open? && F.Enabled(files, f) && Reads(files.disk, f.backup, f.key).Nothing?
    ensures files.commits == []
  {
    hide OpenLeaves;
  }

  lemma MainRestored(files: F.World, s: Snapshot)
    requires F.Inv(files) && files.commits != [] && s == files.commits[|files.commits| - 1].s
    ensures F.Inv(files.(disk := Disk(Some(Whole(s)), files.disk.bak)))
    ensures |files.commits| > 1 ==> s.revision >= 1
    ensures Survivor(files.disk) == Some(s)
  {
    assert |files.commits| > 1 ==> s.revision == files.commits[0].s.revision + |files.commits| - 1;
  }

  lemma OldCommits(files: F.World, f: F.Event, s: Snapshot)
    requires F.Inv(files) && f.Open? && F.Enabled(files, f) && Reads(files.disk, f.backup, f.key) == Loads(s)
    requires files.commits != [] && s == files.commits[|files.commits| - 1].s && (s.revision >= 1 || s.legacy)
    ensures var n := |files.commits| - 1; var v := F.Committing(files, f.after, n);
            v.commits in {files.commits, files.commits + [F.Commit(Snapshot(s.revision + 1, false, s.data, f.key), n)]}
  {
    var n := |files.commits| - 1;
    var mid := files.(disk := Disk(Some(Whole(s)), files.disk.bak));
    MainRestored(files, s);
    hide F.Inv, Reads;
    if s.legacy && !(!f.end.Returned? && Restored(files.disk, f.after)) {
      F.SaveCommits(mid, Snapshot(s.revision + 1, false, s.data, f.key), f.backup, f.end, f.after, n);
    } else {
      F.RestoredKeeps(files, f.after, n);
    }
    hide SaveLeaves;
  }

  lemma OpenedHasLatest(files: F.World, f: F.Event, s: Snapshot)
    requires F.Inv(files) && f.Open? && F.Enabled(files, f) && Reads(files.disk, f.backup, f.key) == Loads(s)
    ensures f.end.Returned? ==> f.p !in files.processes && f.instance.Some? && f.instance.value.data == s.data
  {
    hide F.Inv, SaveLeaves, Restored;
  }

  lemma OpenOldFacts(files: F.World, f: F.Event, s: Snapshot)
    requires F.Inv(files) && f.Open? && F.Enabled(files, f) && Reads(files.disk, f.backup, f.key) == Loads(s)
    requires files.commits != [] && s == files.commits[|files.commits| - 1].s && (s.revision >= 1 || s.legacy)
    ensures F.Inv(F.Next(files, f)) ==> OpenedFacts(files, f, F.Next(files, f))
  {
    OldCommits(files, f, s);
    OpenedHasLatest(files, f, s);
    hide F.Inv, SaveLeaves, Reads, F.Enabled, F.Committing;
    CommittingKeeps(files, f.after, |files.commits| - 1);
  }

  lemma CommittingKeeps(files: F.World, after: Disk, base: int)
    ensures F.Committing(files, after, base).processes == files.processes
  {
  }

  lemma BaseBelow(files: F.World, p: nat)
    requires F.Inv(files) && p in files.processes
    ensures files.processes[p].base < |files.commits|
  {
    assert F.ProcessAt(files.commits, files.processes[p]);
  }

  /** A change in memory leaves the files and the other processes alone. */
  ghost predicate ChangeFacts(files: F.World, p: nat, data: Contents, v: F.World)
    requires p in files.processes
  {
    && F.Inv(v) && v.commits == files.commits && v.processes.Keys == files.processes.Keys
    && (forall r :: r in files.processes && r != p ==> v.processes[r] == files.processes[r])
    && v.processes[p].instance.data == data && v.processes[p].base == files.processes[p].base
  }

  lemma ChangeGives(files: F.World, p: nat, data: Contents)
    requires F.Inv(files) && p in files.processes
    ensures ChangeFacts(files, p, data, F.Next(files, F.Change(p, data)))
  {
    F.NextKeepsInv(files, F.Change(p, data));
    hide F.Inv;
  }


  // The files and the pools together.

  datatype World = World(files: F.World, pool: P.Pool)

  datatype Event =
    | Open(f: F.Event)
    | ReadNext(p: nat, m: nat, count: nat)
    | Perform(p: nat, op: P.Saving, end: End, after: Disk)
    | StoreNext(p: nat, m: nat, pair: KeyPair)
    | Abandon(p: nat, m: nat)
    | Change(p: nat, data: Contents)
    | Exit(p: nat)

  ghost function DataOf(files: F.World, p: nat): Contents
    requires p in files.processes
  {
    files.processes[p].instance.data
  }

  ghost predicate Enabled(w: World, e: Event) {
    match e
    case Open(f) => f.Open? && F.Enabled(w.files, f) && P.IsNew(f.initial)
    case Perform(p, op, end, after) =>
      && p in w.files.processes && p in w.pool.members && P.Goes(w.pool, p, op)
      && CanSave(w.files, p, P.ChangedBy(w.pool, p, op), end, after)
    case ReadNext(p, m, count) => P.Enabled(w.pool, P.ReadNext(p, m, count))
    case StoreNext(p, m, pair) => P.Enabled(w.pool, P.StoreNext(p, m, pair))
    case Abandon(p, m) => P.Enabled(w.pool, P.Abandon(p, m))
    case Change(p, data) => P.Enabled(w.pool, P.Change(p, data))
    case Exit(p) => P.Enabled(w.pool, P.Exit(p))
  }

  ghost function Performed(w: World, p: nat, op: P.Saving, end: End, after: Disk): F.World
    requires p in w.files.processes && p in w.pool.members
  {
    var saved := Saves(w.files, p, P.ChangedBy(w.pool, p, op), end, after);
    if end.Failed? && (op.Publish? || op.Release?) then F.Next(saved, F.Change(p, DataOf(w.files, p))) else saved
  }

  ghost function FilesAfter(w: World, e: Event): F.World {
    match e
    case Open(f) => F.Next(w.files, f)
    case Perform(p, op, end, after) =>
      if p in w.files.processes && p in w.pool.members then Performed(w, p, op, end, after) else w.files
    case StoreNext(p, m, pair) =>
      var v := P.Next(w.pool, P.StoreNext(p, m, pair));
      if p in v.members then F.Next(w.files, F.Change(p, v.members[p].data)) else w.files
    case Change(p, data) => F.Next(w.files, F.Change(p, data))
    case Exit(p) => F.Next(w.files, F.Exit(p))
    case _ => w.files
  }

  function PoolEnd(end: End): P.End {
    match end case Returned => P.Returned case Failed(_) => P.Failed case Crash => P.Crashed
  }

  /** What the event is for the pools. */
  ghost function PoolEvent(w: World, e: Event): P.Event {
    var committed := FilesAfter(w, e).commits != w.files.commits;
    match e
    case Open(f) => if f.Open? then P.Open(f.p, f.initial, committed, f.end.Returned?) else P.Exit(0)
    case Perform(p, op, end, _) => P.Perform(p, op, PoolEnd(end), committed)
    case ReadNext(p, m, count) => P.ReadNext(p, m, count)
    case StoreNext(p, m, pair) => P.StoreNext(p, m, pair)
    case Abandon(p, m) => P.Abandon(p, m)
    case Change(p, data) => P.Change(p, data)
    case Exit(p) => P.Exit(p)
  }

  /** Events that cannot happen change nothing. */
  ghost function Next(w: World, e: Event): World {
    if Enabled(w, e) then World(FilesAfter(w, e), P.Next(w.pool, PoolEvent(w, e))) else w
  }

  ghost function Run(w: World, events: seq<Event>): World {
    if events == [] then w else Next(Run(w, events[..|events| - 1]), events[|events| - 1])
  }

  ghost function PoolEvents(w: World, events: seq<Event>): seq<P.Event> {
    if events == [] then []
    else
      var before, e := Run(w, events[..|events| - 1]), events[|events| - 1];
      PoolEvents(w, events[..|events| - 1]) + if Enabled(before, e) then [PoolEvent(before, e)] else []
  }

  ghost predicate LatestMatches(files: F.World, pool: P.Pool) {
    if files.commits == [] then pool.latest.None? else pool.latest == Some(Latest(files))
  }

  ghost predicate MemberMatches(files: F.World, pool: P.Pool, p: nat) {
    && p in pool.members && p in files.processes
    && pool.members[p].data == DataOf(files, p) && pool.members[p].current == Current(files, p)
  }

  ghost predicate SameProcesses(files: F.World, pool: P.Pool) {
    forall p :: p in files.processes <==> p in pool.members
  }

  ghost predicate MembersMatch(files: F.World, pool: P.Pool) {
    forall p :: p in pool.members ==> MemberMatches(files, pool, p)
  }

  /** What the pools take the store to be is what the files are. */
  ghost predicate Matches(files: F.World, pool: P.Pool) {
    LatestMatches(files, pool) && SameProcesses(files, pool) && MembersMatch(files, pool)
  }

  ghost function OpenedPool(files: F.World, pool: P.Pool, f: F.Event, v: F.World): P.Pool
    requires f.Open?
  {
    P.Opened(pool, f.p, f.initial, v.commits != files.commits, f.end.Returned?)
  }

  /** Both sides of one process before an event. */
  lemma MatchOf(files: F.World, pool: P.Pool, p: nat)
    requires Matches(files, pool) && (p in files.processes || p in pool.members)
    ensures MemberMatches(files, pool, p)
  {
    hide MemberMatches, LatestMatches;
  }

  lemma OpenedMember(files: F.World, pool: P.Pool, f: F.Event, v: F.World, r: nat)
    requires F.Inv(files) && Matches(files, pool) && f.Open? && OpenedFacts(files, f, v) && r in v.processes
    ensures MemberMatches(v, OpenedPool(files, pool, f, v), r)
  {
    hide F.Inv, Matches;
    OpenedLatest(files, pool, f, v);
    if r in files.processes {
      BaseBelow(files, r);
      MatchOf(files, pool, r);
    }
  }

  lemma OpenedLatest(files: F.World, pool: P.Pool, f: F.Event, v: F.World)
    requires Matches(files, pool) && f.Open? && OpenedFacts(files, f, v)
    ensures LatestMatches(v, OpenedPool(files, pool, f, v))
  {
    hide F.Inv, MembersMatch, SameProcesses;
  }

  lemma OpenedProcesses(files: F.World, pool: P.Pool, f: F.Event, v: F.World)
    requires Matches(files, pool) && f.Open? && OpenedFacts(files, f, v)
    ensures SameProcesses(v, OpenedPool(files, pool, f, v))
  {
    hide F.Inv, MembersMatch;
  }

  lemma OpenedMatches(files: F.World, pool: P.Pool, f: F.Event, v: F.World)
    requires F.Inv(files) && Matches(files, pool) && f.Open? && OpenedFacts(files, f, v)
    ensures Matches(v, OpenedPool(files, pool, f, v))
  {
    OpenedLatest(files, pool, f, v);
    OpenedProcesses(files, pool, f, v);
    hide *;
    OpenedMembers(files, pool, f, v);
    Composed(v, OpenedPool(files, pool, f, v));
  }

  lemma Composed(files: F.World, pool: P.Pool)
    requires LatestMatches(files, pool) && SameProcesses(files, pool) && MembersMatch(files, pool)
    ensures Matches(files, pool)
  {
    hide LatestMatches, SameProcesses, MembersMatch;
  }

  lemma OpenedMembers(files: F.World, pool: P.Pool, f: F.Event, v: F.World)
    requires F.Inv(files) && Matches(files, pool) && f.Open? && OpenedFacts(files, f, v)
    ensures MembersMatch(v, OpenedPool(files, pool, f, v))
  {
    hide F.Inv, MemberMatches, Matches, OpenedFacts, OpenedPool;
    var after := OpenedPool(files, pool, f, v);
    forall r | r in after.members ensures MemberMatches(v, after, r) {
      OpenedProcesses(files, pool, f, v);
      OpenedMember(files, pool, f, v, r);
    }
  }

  lemma OpenMatches(w: World, f: F.Event)
    requires F.Inv(w.files) && Matches(w.files, w.pool) && Enabled(w, Open(f))
    ensures P.Enabled(w.pool, PoolEvent(w, Open(f)))
    ensures var v := Next(w, Open(f)); F.Inv(v.files) && Matches(v.files, v.pool)
  {
    hide F.Inv, F.Enabled, F.Next, P.IsNew, MemberMatches, OpenedFacts, P.Opened;
    OpenFacts(w.files, f);
    OpenedMatches(w.files, w.pool, f, F.Next(w.files, f));
    OpenEnabled(w, f);
    OpenedInv(w.files, f, F.Next(w.files, f));
    hide Matches;
  }

  lemma OpenedInv(files: F.World, f: F.Event, v: F.World)
    requires f.Open? && OpenedFacts(files, f, v)
    ensures F.Inv(v)
  {
    hide F.Inv;
  }

  lemma OpenEnabled(w: World, f: F.Event)
    requires Matches(w.files, w.pool) && Enabled(w, Open(f)) && OpenedFacts(w.files, f, F.Next(w.files, f))
    ensures P.Enabled(w.pool, PoolEvent(w, Open(f)))
  {
    OpensOutside(w.files, f);
    hide F.Inv, F.Enabled, F.Next, P.IsNew, MembersMatch;
  }

  lemma OpensOutside(files: F.World, f: F.Event)
    requires f.Open? && F.Enabled(files, f)
    ensures f.p !in files.processes
  {
    hide OpenLeaves;
  }

  lemma PerformedFacts(w: World, p: nat, op: P.Saving, end: End, after: Disk)
    requires F.Inv(w.files) && p in w.files.processes && p in w.pool.members
    requires CanSave(w.files, p, P.ChangedBy(w.pool, p, op), end, after)
    ensures var data := P.ChangedBy(w.pool, p, op); var saved := Saves(w.files, p, data, end, after);
            && SavedFacts(w.files, p, data, end, saved)
            && (end.Failed? ==> ChangeFacts(saved, p, DataOf(w.files, p),
                                            F.Next(saved, F.Change(p, DataOf(w.files, p)))))
  {
    hide F.Inv, P.ChangedBy, CanSave, Saves;
    SavesFacts(w.files, p, P.ChangedBy(w.pool, p, op), end, after);
    if end.Failed? {
      ChangeGives(Saves(w.files, p, P.ChangedBy(w.pool, p, op), end, after), p, DataOf(w.files, p));
    }
  }

  /** What a save and, if it failed, the change back make of the files. */
  ghost predicate Settled(w: World, p: nat, op: P.Saving, end: End, files: F.World)
    requires p in w.files.processes && p in w.pool.members
  {
    && F.Inv(files) && SettledCommits(w, p, op, end, files)
    && (forall r :: r in files.processes <==> r in w.files.processes && (r != p || end != Crash))
    && (forall r :: r in files.processes ==> SettledAt(w, p, op, end, files, r))
  }

  ghost predicate SettledCommits(w: World, p: nat, op: P.Saving, end: End, files: F.World)
    requires p in w.files.processes && p in w.pool.members
  {
    var data, committed := P.ChangedBy(w.pool, p, op), files.commits != w.files.commits;
    && (committed ==> Current(w.files, p) && files.commits != [] && Latest(files) == data)
    && (end.Returned? ==> committed) && (end.Failed? ==> !committed)
  }

  ghost predicate SettledAt(w: World, p: nat, op: P.Saving, end: End, files: F.World, r: nat)
    requires p in w.files.processes && p in w.pool.members && r in files.processes
  {
    if r != p then
      && r in w.files.processes && DataOf(files, r) == DataOf(w.files, r)
      && (Current(files, r) <==> Current(w.files, r) && files.commits == w.files.commits)
    else
      && DataOf(files, p) == (if end.Failed? && (op.Publish? || op.Release?) then DataOf(w.files, p)
                              else P.ChangedBy(w.pool, p, op))
      && (Current(files, p) <==> end.Returned? || Current(w.files, p))
  }

  lemma CurrentAfterSave(files: F.World, p: nat, data: Contents, end: End, v: F.World, r: nat)
    requires F.Inv(files) && p in files.processes && SavedFacts(files, p, data, end, v) && r in v.processes && r != p
    ensures r in files.processes && DataOf(v, r) == DataOf(files, r)
    ensures Current(v, r) <==> Current(files, r) && v.commits == files.commits
  {
    BaseBelow(files, r);
    hide F.Inv;
  }

  /** The files after a save, or after the change back that follows one that failed. */
  ghost predicate Between(w: World, p: nat, op: P.Saving, end: End, saved: F.World, files: F.World)
    requires p in w.files.processes && p in w.pool.members
  {
    if end.Failed? && (op.Publish? || op.Release?)
    then p in saved.processes && ChangeFacts(saved, p, DataOf(w.files, p), files)
    else files == saved
  }

  lemma SavedAt(w: World, p: nat, op: P.Saving, end: End, saved: F.World, files: F.World, r: nat)
    requires F.Inv(w.files) && p in w.files.processes && p in w.pool.members && r in files.processes
    requires SavedFacts(w.files, p, P.ChangedBy(w.pool, p, op), end, saved) && Between(w, p, op, end, saved, files)
    ensures SettledAt(w, p, op, end, files, r)
  {
    hide F.Inv, P.ChangedBy;
    if r != p {
      CurrentAfterSave(w.files, p, P.ChangedBy(w.pool, p, op), end, saved, r);
      hide SavedFacts;
    }
  }

  lemma SavedCommits(w: World, p: nat, op: P.Saving, end: End, saved: F.World, files: F.World)
    requires p in w.files.processes && p in w.pool.members
    requires SavedFacts(w.files, p, P.ChangedBy(w.pool, p, op), end, saved) && Between(w, p, op, end, saved, files)
    ensures F.Inv(files) && SettledCommits(w, p, op, end, files)
    ensures forall r :: r in files.processes <==> r in w.files.processes && (r != p || end != Crash)
  {
    hide F.Inv, P.ChangedBy;
  }

  lemma PerformedBetween(w: World, p: nat, op: P.Saving, end: End, after: Disk)
    requires F.Inv(w.files) && p in w.files.processes && p in w.pool.members
    requires CanSave(w.files, p, P.ChangedBy(w.pool, p, op), end, after)
    ensures var data := P.ChangedBy(w.pool, p, op); var saved := Saves(w.files, p, data, end, after);
            SavedFacts(w.files, p, data, end, saved) && Between(w, p, op, end, saved, Performed(w, p, op, end, after))
  {
    PerformedFacts(w, p, op, end, after);
    hide F.Inv, F.Next, Saves, CanSave, P.ChangedBy, ChangeFacts;
  }

  lemma PerformSettled(w: World, p: nat, op: P.Saving, end: End, after: Disk)
    requires F.Inv(w.files) && p in w.files.processes && p in w.pool.members
    requires CanSave(w.files, p, P.ChangedBy(w.pool, p, op), end, after)
    ensures Settled(w, p, op, end, Performed(w, p, op, end, after))
  {
    hide F.Inv, Between, SavedFacts, Performed, Saves, CanSave, P.ChangedBy, SettledCommits, SettledAt;
    var saved := Saves(w.files, p, P.ChangedBy(w.pool, p, op), end, after);
    var files := Performed(w, p, op, end, after);
    PerformedBetween(w, p, op, end, after);
    SavedCommits(w, p, op, end, saved, files);
    forall r | r in files.processes ensures SettledAt(w, p, op, end, files, r) {
      SavedAt(w, p, op, end, saved, files, r);
    }
  }

  lemma SettledMember(w: World, p: nat, op: P.Saving, end: End, files: F.World, pool: P.Pool, r: nat)
    requires Matches(w.files, w.pool) && p in w.files.processes && p in w.pool.members && Settled(w, p, op, end, files)
    requires SettledPool(w, p, op, end, files, pool) && r in pool.members
    ensures MemberMatches(files, pool, r)
  {
    hide Matches, P.Saved, P.ChangedBy, P.PositionAfter, F.Inv, Current, SettledCommits;
    P.SavedMember(w.pool, p, op, PoolEnd(end), files.commits != w.files.commits, r);
    MatchOf(w.files, w.pool, r);
    MatchOf(w.files, w.pool, p);
  }

  ghost predicate SettledPool(w: World, p: nat, op: P.Saving, end: End, files: F.World, pool: P.Pool)
    requires p in w.files.processes && p in w.pool.members
  {
    var u := P.Saved(w.pool, p, op, PoolEnd(end), files.commits != w.files.commits);
    pool.latest == u.latest && pool.members == u.members
  }

  lemma SettledLatest(w: World, p: nat, op: P.Saving, end: End, files: F.World, pool: P.Pool)
    requires Matches(w.files, w.pool) && p in w.files.processes && p in w.pool.members && Settled(w, p, op, end, files)
    requires SettledPool(w, p, op, end, files, pool)
    ensures LatestMatches(files, pool)
  {
    hide MembersMatch, SameProcesses, P.ChangedBy, P.PositionAfter, F.Inv, Current, SettledAt;
  }

  lemma SettledProcesses(w: World, p: nat, op: P.Saving, end: End, files: F.World, pool: P.Pool)
    requires Matches(w.files, w.pool) && p in w.files.processes && p in w.pool.members && Settled(w, p, op, end, files)
    requires SettledPool(w, p, op, end, files, pool)
    ensures SameProcesses(files, pool)
  {
    hide LatestMatches, MembersMatch, P.Saved, P.ChangedBy, F.Inv, Current, SettledAt, SettledCommits;
    forall r ensures r in files.processes <==> r in pool.members {
      SavedKeys(w.pool, p, op, PoolEnd(end), files.commits != w.files.commits, r);
    }
  }

  lemma SettledMatches(w: World, p: nat, op: P.Saving, end: End, files: F.World, pool: P.Pool)
    requires Matches(w.files, w.pool) && p in w.files.processes && p in w.pool.members && Settled(w, p, op, end, files)
    requires SettledPool(w, p, op, end, files, pool)
    ensures Matches(files, pool)
  {
    hide Matches, Settled, SettledPool, MemberMatches, LatestMatches, SameProcesses;
    SettledLatest(w, p, op, end, files, pool);
    SettledProcesses(w, p, op, end, files, pool);
    forall r | r in pool.members ensures MemberMatches(files, pool, r) {
      SettledMember(w, p, op, end, files, pool, r);
    }
    Composed(files, pool);
  }

  lemma SavedKeys(w: P.Pool, p: nat, op: P.Saving, end: P.End, committed: bool, r: nat)
    requires p in w.members
    ensures r in P.Saved(w, p, op, end, committed).members <==> r in w.members && (r != p || !end.Crashed?)
  {
    hide P.ChangedBy, P.PositionAfter;
  }

  lemma PerformEnabled(w: World, p: nat, op: P.Saving, end: End, after: Disk)
    requires Matches(w.files, w.pool) && Enabled(w, Perform(p, op, end, after))
    requires Settled(w, p, op, end, Performed(w, p, op, end, after))
    ensures P.Enabled(w.pool, PoolEvent(w, Perform(p, op, end, after)))
  {
    hide Matches, F.Inv, Performed, P.ChangedBy, P.Goes, Current, CanSave, SettledAt;
    MatchOf(w.files, w.pool, p);
    CommitsOf(w, p, op, end, Performed(w, p, op, end, after));
    hide Settled, SettledCommits;
  }

  lemma CommitsOf(w: World, p: nat, op: P.Saving, end: End, files: F.World)
    requires p in w.files.processes && p in w.pool.members && Settled(w, p, op, end, files)
    ensures files.commits != w.files.commits ==> Current(w.files, p)
    ensures (end.Returned? ==> files.commits != w.files.commits) && (end.Failed? ==> files.commits == w.files.commits)
  {
    hide F.Inv, P.ChangedBy, SettledAt, Current;
  }

  lemma PerformMatches(w: World, p: nat, op: P.Saving, end: End, after: Disk)
    requires F.Inv(w.files) && Matches(w.files, w.pool) && Enabled(w, Perform(p, op, end, after))
    ensures P.Enabled(w.pool, PoolEvent(w, Perform(p, op, end, after)))
    ensures var v := Next(w, Perform(p, op, end, after)); F.Inv(v.files) && Matches(v.files, v.pool)
  {
    PerformNext(w, p, op, end, after);
    hide *;
    var files := Performed(w, p, op, end, after);
    PerformSettled(w, p, op, end, after);
    PerformEnabled(w, p, op, end, after);
    PerformedPool(w, p, op, end, files);
    SettledMatches(w, p, op, end, files, P.Performed(w.pool, p, op, PoolEnd(end), files.commits != w.files.commits));
    SettledInv(w, p, op, end, files);
  }

  lemma PerformNext(w: World, p: nat, op: P.Saving, end: End, after: Disk)
    requires Enabled(w, Perform(p, op, end, after))
    ensures p in w.files.processes && p in w.pool.members && CanSave(w.files, p, P.ChangedBy(w.pool, p, op), end, after)
    ensures var v, files := Next(w, Perform(p, op, end, after)), Performed(w, p, op, end, after);
            && v.files == files
            && (P.Enabled(w.pool, PoolEvent(w, Perform(p, op, end, after))) ==>
                  v.pool == P.Performed(w.pool, p, op, PoolEnd(end), files.commits != w.files.commits))
  {
    hide Performed, P.Performed, CanSave, P.Goes, P.ChangedBy;
  }

  lemma PerformedPool(w: World, p: nat, op: P.Saving, end: End, files: F.World)
    requires p in w.files.processes && p in w.pool.members
    ensures SettledPool(w, p, op, end, files,
                        P.Performed(w.pool, p, op, PoolEnd(end), files.commits != w.files.commits))
  {
    hide P.Performed, P.Saved;
    P.PerformedStore(w.pool, p, op, PoolEnd(end), files.commits != w.files.commits);
  }

  lemma SettledInv(w: World, p: nat, op: P.Saving, end: End, files: F.World)
    requires p in w.files.processes && p in w.pool.members && Settled(w, p, op, end, files)
    ensures F.Inv(files)
  {
    hide F.Inv;
  }

  /** A change in memory, on both sides. */
  lemma ChangedMatches(files: F.World, pool: P.Pool, v: P.Pool, p: nat, data: Contents)
    requires F.Inv(files) && Matches(files, pool) && p in pool.members
    requires v.latest == pool.latest && v.members == pool.members[p := pool.members[p].(data := data)]
    ensures F.Inv(F.Next(files, F.Change(p, data))) && Matches(F.Next(files, F.Change(p, data)), v)
  {
    MatchOf(files, pool, p);
    hide F.Inv, F.Next, Matches;
    ChangeGives(files, p, data);
    FromChange(files, pool, v, p, data, F.Next(files, F.Change(p, data)));
  }

  lemma FromChange(files: F.World, pool: P.Pool, v: P.Pool, p: nat, data: Contents, after: F.World)
    requires Matches(files, pool) && p in files.processes && p in pool.members && ChangeFacts(files, p, data, after)
    requires v.latest == pool.latest && v.members == pool.members[p := pool.members[p].(data := data)]
    ensures Matches(after, v)
  {
    hide Matches, ChangeFacts, MemberMatches, LatestMatches, SameProcesses;
    ChangedRest(files, pool, v, p, data, after);
    forall r | r in v.members ensures MemberMatches(after, v, r) {
      ChangedMember(files, pool, v, p, data, after, r);
    }
    Composed(after, v);
  }

  lemma ChangedRest(files: F.World, pool: P.Pool, v: P.Pool, p: nat, data: Contents, after: F.World)
    requires Matches(files, pool) && p in files.processes && p in pool.members && ChangeFacts(files, p, data, after)
    requires v.latest == pool.latest && v.members == pool.members[p := pool.members[p].(data := data)]
    ensures LatestMatches(after, v) && SameProcesses(after, v)
  {
    hide F.Inv, MembersMatch;
    assert forall r :: r in after.processes <==> r in after.processes.Keys;
  }

  lemma ChangedMember(
      files: F.World, pool: P.Pool, v: P.Pool, p: nat, data: Contents, after: F.World, r: nat)
    requires Matches(files, pool) && p in files.processes && p in pool.members && ChangeFacts(files, p, data, after)
    requires v.members == pool.members[p := pool.members[p].(data := data)] && r in v.members
    ensures MemberMatches(after, v, r)
  {
    hide Matches, F.Inv;
    MatchOf(files, pool, r);
    MatchOf(files, pool, p);
  }

  lemma StoreMatches(w: World, p: nat, m: nat, pair: KeyPair)
    requires F.Inv(w.files) && Matches(w.files, w.pool) && Enabled(w, StoreNext(p, m, pair))
    ensures var v := Next(w, StoreNext(p, m, pair)); F.Inv(v.files) && Matches(v.files, v.pool)
  {
    hide F.Inv, F.Next, Matches;
    ChangedMatches(w.files, w.pool, P.StoredNext(w.pool, p, m, pair), p,
                   P.StoredNext(w.pool, p, m, pair).members[p].data);
  }

  lemma ChangeMatches(w: World, p: nat, data: Contents)
    requires F.Inv(w.files) && Matches(w.files, w.pool) && Enabled(w, Change(p, data))
    ensures var v := Next(w, Change(p, data)); F.Inv(v.files) && Matches(v.files, v.pool)
  {
    hide F.Inv, F.Next, Matches;
    ChangedMatches(w.files, w.pool, P.Next(w.pool, P.Change(p, data)), p, data);
  }

  /** The events that leave the store alone. */
  lemma QuietMatches(files: F.World, pool: P.Pool, v: P.Pool)
    requires Matches(files, pool) && v.latest == pool.latest && v.members == pool.members
    ensures Matches(files, v)
  {
    forall r | r in v.members ensures MemberMatches(files, v, r) {
      assert MemberMatches(files, pool, r);
    }
    hide MemberMatches;
  }

  lemma ExitMatches(w: World, p: nat)
    requires F.Inv(w.files) && Matches(w.files, w.pool) && Enabled(w, Exit(p))
    ensures var v := Next(w, Exit(p)); F.Inv(v.files) && Matches(v.files, v.pool)
  {
    MatchOf(w.files, w.pool, p);
    F.NextKeepsInv(w.files, F.Exit(p));
    hide F.Inv, P.HasReading, P.Alive;
    WithoutMatches(w.files, w.pool, p, Next(w, Exit(p)).pool);
    hide Matches;
  }

  lemma WithoutMatches(files: F.World, pool: P.Pool, p: nat, v: P.Pool)
    requires Matches(files, pool) && v.latest == pool.latest && v.members == pool.members - {p}
    ensures Matches(files.(processes := files.processes - {p}), v)
  {
    forall r | r in v.members ensures MemberMatches(files.(processes := files.processes - {p}), v, r) {
      MatchOf(files, pool, r);
    }
    hide MemberMatches;
  }

  /** Each event of the files and pools is one of the pools alone. */
  lemma NextMatches(w: World, e: Event)
    requires F.Inv(w.files) && Matches(w.files, w.pool)
    ensures Enabled(w, e) ==> P.Enabled(w.pool, PoolEvent(w, e))
    ensures F.Inv(Next(w, e).files) && Matches(Next(w, e).files, Next(w, e).pool)
  {
    hide F.Inv, Matches, FilesAfter, P.Next;
    if Enabled(w, e) {
      match e
      case Open(f) => OpenMatches(w, f);
      case Perform(p, op, end, after) => PerformMatches(w, p, op, end, after);
      case StoreNext(p, m, pair) => StoreMatches(w, p, m, pair);
      case Change(p, data) => ChangeMatches(w, p, data);
      case Exit(p) => ExitMatches(w, p);
      case _ => SlotMatches(w, e);
    }
  }

  lemma SlotMatches(w: World, e: Event)
    requires F.Inv(w.files) && Matches(w.files, w.pool) && Enabled(w, e) && (e.ReadNext? || e.Abandon?)
    ensures P.Enabled(w.pool, PoolEvent(w, e))
    ensures F.Inv(Next(w, e).files) && Matches(Next(w, e).files, Next(w, e).pool)
  {
    hide F.Inv, Matches, P.HasReading;
    QuietMatches(w.files, w.pool, Next(w, e).pool);
  }

  ghost predicate Starts(w: World) {
    F.Starts(w.files) && Matches(w.files, w.pool) && PreKeyPublications.StartsSound(w.pool)
  }

  lemma StartInv(w: F.World)
    requires F.Starts(w)
    ensures F.Inv(w)
  {
  }

  /** Over every run: what the pools take the store to be is what the files are, and the pools have
      gone through a run of their own. */
  lemma {:induction false} RunMatches(w: World, events: seq<Event>)
    requires Starts(w)
    ensures F.Inv(Run(w, events).files) && Matches(Run(w, events).files, Run(w, events).pool)
    ensures Run(w, events).pool == P.Run(w.pool, PoolEvents(w, events))
  {
    if events == [] {
      StartInv(w.files);
    } else {
      var front := events[..|events| - 1];
      RunMatches(w, front);
      hide F.Inv, Matches, P.Next, FilesAfter, Starts, PoolEvent, CanSave, F.Enabled, P.Enabled, P.Goes;
      assert PoolEvents(w, front) + [] == PoolEvents(w, front);
      NextMatches(Run(w, front), events[|events| - 1]);
      P.LastEvent(w.pool, PoolEvents(w, front), PoolEvent(Run(w, front), events[|events| - 1]));
    }
  }

  /** Every published id on disk has its key pair on disk, after any run of any processes that crash
      anywhere. */
  lemma PublishedOnDisk(w: World, events: seq<Event>)
    requires Starts(w) && Run(w, events).files.commits != []
    ensures Latest(Run(w, events).files).published <= Latest(Run(w, events).files).preKeys.Keys
  {
    RunMatches(w, events);
    PreKeyPublications.PublishedAreStored(w.pool, PoolEvents(w, events));
    hide Run, F.Inv;
  }

  /** On files, too, ids are distinct exactly when no reading falls into another one's open window. */
  lemma DistinctOnFiles(w: World, events: seq<Event>)
    requires Starts(w)
    requires var v := Run(w, events).pool;
             !v.failed && v.reserved - w.pool.origin <= 0xffffff && forall k :: k in v.slots ==> v.slots[k].Storing?
    ensures PreKeyRanges.AllDistinct(Run(w, events).pool.generated) <==> !Run(w, events).pool.overlapped
  {
    RunMatches(w, events);
    PreKeyRanges.DistinctExactlyWhen(w.pool, PoolEvents(w, events));
  }
}
