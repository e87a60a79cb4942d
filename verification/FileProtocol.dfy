/** Several processes on one file, each free to crash at any file operation: what the sequence
    of committed snapshots looks like over every run. */
module FileProtocol {
  import opened Wrappers
  import opened StorageContents
  import opened FileSystems
  import opened FileStorage

  /** `base` is the number of the commit that the process loaded or saved last. */
  datatype Process = Process(instance: Instance, base: nat)

  datatype Commit = Commit(s: Snapshot, base: int)

  /** `commits` lists what the files have held, one after the other. */
  datatype World = World(disk: Disk, commits: seq<Commit>, processes: map<nat, Process>)

  /** Opening and saving happen under the lock, from start to end or to a crash. */
  datatype Event =
    | Open(p: nat, backup: bool, key: Option<nat>, initial: Contents, end: End, instance: Option<Instance>, after: Disk)
    | Change(p: nat, data: Contents)
    | Save(p: nat, newKey: Option<nat>, end: End, after: Disk)
    | Exit(p: nat)

  ghost predicate SaveEnds(d: Disk, i: Instance, newKey: Option<nat>, end: End, after: Disk) {
    if IsCurrent(d, i.revision, i.key) then
      SaveLeaves(d, Snapshot(i.revision + 1, false, i.data, newKey), i.backup, end, after)
    else end == Failed(Conflict) && after == d
  }

  /** Nothing is found only where nothing has been saved: whoever opens without backups does not
      do so while the main file is moved aside. */
  ghost predicate Enabled(w: World, e: Event) {
    match e
    case Open(p, backup, key, initial, end, instance, after) =>
      && p !in w.processes && OpenLeaves(w.disk, backup, key, initial, end, instance, after)
      && (w.commits == [] || backup || w.disk.main.Some?)
    case Change(p, _) => p in w.processes
    case Save(p, newKey, end, after) =>
      p in w.processes && SaveEnds(w.disk, w.processes[p].instance, newKey, end, after)
    case Exit(p) => p in w.processes
  }

  ghost function Committing(w: World, after: Disk, base: int): World {
    w.(disk := after,
       commits := if Survivor(after) == Survivor(w.disk) || Survivor(after).None? then w.commits
                  else w.commits + [Commit(Survivor(after).value, base)])
  }

  ghost function Next(w: World, e: Event): World {
    match e
    case Open(p, _, _, _, end, instance, after) =>
      var v := Committing(w, after, |w.commits| - 1);
      if end.Returned? && instance.Some? && v.commits != []
      then v.(processes := v.processes[p := Process(instance.value, |v.commits| - 1)])
      else v
    case Change(p, data) =>
      if p in w.processes
      then w.(processes := w.processes[p := w.processes[p].(instance := w.processes[p].instance.(data := data))])
      else w
    case Save(p, newKey, end, after) =>
      if p !in w.processes then w
      else
        var q := w.processes[p];
        var v := Committing(w, after, q.base);
        (match end
         case Returned =>
           if v.commits == [] then v
           else
             var saved := q.instance.(revision := q.instance.revision + 1, key := newKey);
             v.(processes := v.processes[p := Process(saved, |v.commits| - 1)])
         case Failed(_) => v
         case Crash => v.(processes := v.processes - {p}))
    case Exit(p) => w.(processes := w.processes - {p})
  }

  ghost predicate Runs(w: World, events: seq<Event>) {
    events != [] ==> Runs(w, events[..|events| - 1]) && Enabled(Run(w, events[..|events| - 1]), events[|events| - 1])
  }

  ghost function Run(w: World, events: seq<Event>): World {
    if events == [] then w else Next(Run(w, events[..|events| - 1]), events[|events| - 1])
  }

  /** No process yet, and a main file that holds this snapshot. There may be a backup of whatever. */
  ghost function StartAt(s: Snapshot, bak: Option<Snapshot>): World {
    World(Disk(Some(Whole(s)), if bak.Some? then Some(Whole(bak.value)) else None), [Commit(s, -1)], map[])
  }

  /** Whether a snapshot is at revision 1 or later, or of an older format. */
  predicate Numbered(s: Snapshot) {
    s.revision >= 1 || s.legacy
  }

  /** No file yet, or one that is at revision 1 or later or of an older format. */
  ghost predicate Starts(w: World) {
    w == World(Disk(None, None), [], map[]) || exists s, bak :: Numbered(s) && w == StartAt(s, bak)
  }

  // The invariant.

  /** Revisions n, n + 1, n + 2 and so on, each built on the one before. */
  ghost predicate OneChain(commits: seq<Commit>) {
    forall i {:trigger commits[i]} :: 0 < i < |commits| ==>
      commits[i].s.revision == commits[0].s.revision + i && commits[i].base == i - 1 && !commits[i].s.legacy
  }

  ghost predicate DiskInv(w: World) {
    && w.disk.bak != Some(Partial)
    && (w.commits == [] ==> w.disk == Disk(None, None))
    && (w.commits != [] ==> Survivor(w.disk) == Some(w.commits[|w.commits| - 1].s))
  }

  ghost predicate ProcessAt(commits: seq<Commit>, q: Process) {
    && q.base < |commits| && q.instance.revision >= 1
    && q.instance.revision == commits[q.base].s.revision && !commits[q.base].s.legacy
    && Readable(commits[q.base].s, q.instance.key)
  }

  ghost predicate Inv(w: World) {
    && OneChain(w.commits) && DiskInv(w)
    && (w.commits != [] ==> w.commits[0].s.revision >= 1 || w.commits[0].s.legacy)
    && forall p :: p in w.processes ==> ProcessAt(w.commits, w.processes[p])
  }

  /** The revision check passes exactly for the process that has the latest commit, and only while
      the main file is in its place. */
  lemma CurrentExactlyWhen(w: World, p: nat)
    requires Inv(w) && p in w.processes
    ensures var q := w.processes[p];
            IsCurrent(w.disk, q.instance.revision, q.instance.key) <==>
              q.base == |w.commits| - 1 && w.disk.main.Some? && w.disk.main.value.Whole?
  {
    var q := w.processes[p];
    assert ProcessAt(w.commits, q);
    assert w.commits[q.base].s.revision == w.commits[0].s.revision + q.base;
    assert w.commits[|w.commits| - 1].s.revision == w.commits[0].s.revision + |w.commits| - 1;
  }

  lemma CommitKeeps(w: World, s: Snapshot, after: Disk, base: int)
    requires Inv(w) && Survivor(after) == Some(s) && after.bak != Some(Partial) && Survivor(w.disk) != Some(s)
    requires w.commits == [] || (s.revision == w.commits[|w.commits| - 1].s.revision + 1 && base == |w.commits| - 1)
    requires s.revision >= 1 && !s.legacy
    ensures Inv(Committing(w, after, base))
    ensures Committing(w, after, base).commits == w.commits + [Commit(s, base)]
  {
    var v := Committing(w, after, base);
    forall p | p in v.processes ensures ProcessAt(v.commits, v.processes[p]) {
      assert ProcessAt(w.commits, w.processes[p]);
    }
    if w.commits != [] {
      assert w.commits[|w.commits| - 1].s.revision == w.commits[0].s.revision + |w.commits| - 1;
    }
    forall i | 0 < i < |v.commits|
      ensures v.commits[i].s.revision == v.commits[0].s.revision + i && v.commits[i].base == i - 1
      ensures !v.commits[i].s.legacy
    {
      assert i < |w.commits| ==> v.commits[i] == w.commits[i];
    }
  }

  /** What a save at the latest commit does to the history. */
  lemma SaveCommits(w: World, s: Snapshot, backup: bool, end: End, after: Disk, base: int)
    requires Inv(w) && SaveLeaves(w.disk, s, backup, end, after)
    requires w.commits == [] || (s.revision == w.commits[|w.commits| - 1].s.revision + 1 && base == |w.commits| - 1)
    requires s.revision >= 1 && !s.legacy && w.disk.main != Some(Partial)
    ensures Inv(Committing(w, after, base))
    ensures Committing(w, after, base).commits in {w.commits, w.commits + [Commit(s, base)]}
    ensures end.Returned? ==> Committing(w, after, base).commits == w.commits + [Commit(s, base)]
    ensures end.Failed? ==> Committing(w, after, base).commits == w.commits
  {
    if Committed(w.disk, s, backup, after) {
      CommitKeeps(w, s, after, base);
    }
  }

  ghost function CommitOf(w: World, q: Process, newKey: Option<nat>): Commit {
    Commit(Snapshot(q.instance.revision + 1, false, q.instance.data, newKey), |w.commits| - 1)
  }

  lemma SaveAtLatest(w: World, p: nat, newKey: Option<nat>, end: End, after: Disk)
    requires Inv(w) && p in w.processes && SaveEnds(w.disk, w.processes[p].instance, newKey, end, after)
    ensures var q := w.processes[p]; var v := Committing(w, after, q.base); var c := CommitOf(w, q, newKey);
            && Inv(v) && v.commits in {w.commits, w.commits + [c]}
            && (end.Returned? ==> v.commits == w.commits + [c] && q.base == |w.commits| - 1)
            && (end.Failed? ==> v.commits == w.commits)
  {
    var q := w.processes[p];
    CurrentExactlyWhen(w, p);
    assert ProcessAt(w.commits, q);
    hide IsCurrent, SaveLeaves;
    if IsCurrent(w.disk, q.instance.revision, q.instance.key) {
      SaveCommits(w, Snapshot(q.instance.revision + 1, false, q.instance.data, newKey), q.instance.backup, end, after,
                  q.base);
    }
  }

  lemma SaveKeepsInv(w: World, p: nat, newKey: Option<nat>, end: End, after: Disk)
    requires Inv(w) && Enabled(w, Save(p, newKey, end, after))
    ensures Inv(Next(w, Save(p, newKey, end, after)))
  {
    assert ProcessAt(w.commits, w.processes[p]);
    SaveAtLatest(w, p, newKey, end, after);
    hide SaveLeaves;
  }

  lemma LoadsTheLast(w: World, backup: bool, key: Option<nat>)
    requires Inv(w) && Reads(w.disk, backup, key).Loads?
    ensures w.commits != [] && Reads(w.disk, backup, key).s == w.commits[|w.commits| - 1].s
    ensures Readable(w.commits[|w.commits| - 1].s, key)
    ensures w.commits[|w.commits| - 1].s.revision >= 1 || w.commits[|w.commits| - 1].s.legacy
  {
    assert |w.commits| > 1 ==> w.commits[|w.commits| - 1].s.revision == w.commits[0].s.revision + |w.commits| - 1;
  }

  lemma AddProcess(w: World, p: nat, i: Instance)
    requires Inv(w) && w.commits != []
    requires ProcessAt(w.commits, Process(i, |w.commits| - 1))
    ensures Inv(w.(processes := w.processes[p := Process(i, |w.commits| - 1)]))
  {
  }

  lemma RestoredKeeps(w: World, after: Disk, base: int)
    requires Inv(w) && Restored(w.disk, after) && w.commits != []
    ensures Committing(w, after, base) == w.(disk := after) && Inv(w.(disk := after))
  {
  }

  lemma OpenNewKeepsInv(w: World, e: Event)
    requires e.Open? && Inv(w) && Enabled(w, e) && Reads(w.disk, e.backup, e.key).Nothing?
    ensures Inv(Next(w, e))
  {
    var v := Committing(w, e.after, |w.commits| - 1);
    SaveCommits(w, Snapshot(1, false, e.initial, e.key), e.backup, e.end, e.after, |w.commits| - 1);
    hide Inv, SaveLeaves, Committing;
    if e.end.Returned? {
      AddProcess(v, e.p, e.instance.value);
    }
  }

  /** What an opening that finds a snapshot leaves of the history. */
  lemma OldCommits(w: World, e: Event)
    requires e.Open? && Inv(w) && Enabled(w, e) && Reads(w.disk, e.backup, e.key).Loads?
    ensures var v := Committing(w, e.after, |w.commits| - 1);
            && Inv(v)
            && (e.end.Returned? ==>
                  && v.commits != [] && e.instance.Some?
                  && ProcessAt(v.commits, Process(e.instance.value, |v.commits| - 1)))
  {
    LoadsTheLast(w, e.backup, e.key);
    var s, n := Reads(w.disk, e.backup, e.key).s, |w.commits| - 1;
    var v := Committing(w, e.after, n);
    hide Reads, SaveLeaves;
    if s.legacy && !(!e.end.Returned? && Restored(w.disk, e.after)) {
      MainInPlace(w, s);
      var mid := w.(disk := Disk(Some(Whole(s)), w.disk.bak));
      SaveCommits(mid, Snapshot(s.revision + 1, false, s.data, e.key), e.backup, e.end, e.after, n);
      assert v == Committing(mid, e.after, n);
    } else {
      RestoredKeeps(w, e.after, n);
    }
    hide Inv, Committing, Restored;
  }

  lemma MainInPlace(w: World, s: Snapshot)
    requires Inv(w) && w.commits != [] && s == w.commits[|w.commits| - 1].s
    ensures Inv(w.(disk := Disk(Some(Whole(s)), w.disk.bak))) && Survivor(w.disk) == Some(s)
  {
  }

  lemma OpenOldKeepsInv(w: World, e: Event)
    requires e.Open? && Inv(w) && Enabled(w, e) && Reads(w.disk, e.backup, e.key).Loads?
    ensures Inv(Next(w, e))
  {
    hide Inv, Enabled, Committing, Reads, ProcessAt;
    OldCommits(w, e);
    if e.end.Returned? {
      AddProcess(Committing(w, e.after, |w.commits| - 1), e.p, e.instance.value);
    }
  }

  lemma OpenKeepsInv(w: World, e: Event)
    requires e.Open? && Inv(w) && Enabled(w, e)
    ensures Inv(Next(w, e))
  {
    match Reads(w.disk, e.backup, e.key)
    case Refuses =>
    case Nothing => OpenNewKeepsInv(w, e);
    case Loads(_) => OpenOldKeepsInv(w, e);
  }

  lemma NextKeepsInv(w: World, e: Event)
    requires Inv(w) && Enabled(w, e)
    ensures Inv(Next(w, e))
  {
    match e
    case Open(_, _, _, _, _, _, _) => OpenKeepsInv(w, e);
    case Save(p, newKey, end, after) => SaveKeepsInv(w, p, newKey, end, after);
    case Change(p, _) =>
      assert ProcessAt(w.commits, w.processes[p]);
    case Exit(_) =>
  }

  lemma {:induction false} RunKeepsInv(w: World, events: seq<Event>)
    requires Starts(w) && Runs(w, events)
    ensures Inv(Run(w, events))
  {
    if events != [] {
      RunKeepsInv(w, events[..|events| - 1]);
      hide Inv, Next, Enabled;
      NextKeepsInv(Run(w, events[..|events| - 1]), events[|events| - 1]);
    }
  }

  // The theorems.

  /** Whatever the processes do and wherever they crash, the committed snapshots form one chain. */
  lemma CommitsFormOneChain(w: World, events: seq<Event>)
    requires Starts(w) && Runs(w, events)
    ensures OneChain(Run(w, events).commits)
  {
    RunKeepsInv(w, events);
  }

  lemma LastStep(w: World, events: seq<Event>, e: Event)
    ensures Run(w, events + [e]) == Next(Run(w, events), e)
    ensures Runs(w, events + [e]) <==> Runs(w, events) && Enabled(Run(w, events), e)
  {
    assert (events + [e])[..|events|] == events;
  }

  /** A process that does not have the latest commit gets a conflict, and the files stay as they are. */
  lemma StaleSaveConflicts(w: World, events: seq<Event>, p: nat, newKey: Option<nat>, end: End, after: Disk)
    requires Starts(w) && Runs(w, events + [Save(p, newKey, end, after)])
    ensures p in Run(w, events).processes
    ensures Run(w, events).processes[p].base < |Run(w, events).commits| - 1 ==>
              end == Failed(Conflict) && after == Run(w, events).disk
  {
    LastStep(w, events, Save(p, newKey, end, after));
    RunKeepsInv(w, events);
    hide Runs, Run, Starts;
    CurrentExactlyWhen(Run(w, events), p);
  }

  /** A save that returns has committed the data of its process on top of the commit that the
      process had, which was the latest, and a save that throws has committed nothing. */
  lemma SaveBuildsOnLatest(w: World, events: seq<Event>, p: nat, newKey: Option<nat>, end: End, after: Disk)
    requires Starts(w) && Runs(w, events + [Save(p, newKey, end, after)])
    ensures var v, u := Run(w, events), Run(w, events + [Save(p, newKey, end, after)]);
            && p in v.processes
            && var q := v.processes[p];
               var c := Commit(Snapshot(q.instance.revision + 1, false, q.instance.data, newKey), |v.commits| - 1);
               && u.commits in {v.commits, v.commits + [c]}
               && (end.Returned? ==> u.commits == v.commits + [c] && q.base == |v.commits| - 1)
               && (end.Failed? ==> u.commits == v.commits)
  {
    hide Run, Runs, Inv, SaveEnds, Committing, Starts;
    LastStep(w, events, Save(p, newKey, end, after));
    RunKeepsInv(w, events);
    SaveAtLatest(Run(w, events), p, newKey, end, after);
  }

  /** After any run, wherever it stopped, the next opening with backups finds the latest commit. An
      opening without backups finds it exactly when the main file is in its place and whole. */
  lemma LatestIsFound(w: World, events: seq<Event>, key: Option<nat>)
    requires Starts(w) && Runs(w, events) && Run(w, events).commits != []
    requires Readable(Run(w, events).commits[|Run(w, events).commits| - 1].s, key)
    ensures var v := Run(w, events); var latest := v.commits[|v.commits| - 1].s;
            && Reads(v.disk, true, key) == Loads(latest)
            && (Reads(v.disk, false, key) == Loads(latest) <==> v.disk.main.Some? && v.disk.main.value.Whole?)
            && (Reads(v.disk, false, key) == Nothing <==> v.disk.main.None?)
  {
    RunKeepsInv(w, events);
    hide Run, Runs, Starts;
    FindsLatest(Run(w, events), key);
    hide *;
  }

  lemma FindsLatest(v: World, key: Option<nat>)
    requires Inv(v) && v.commits != [] && Readable(v.commits[|v.commits| - 1].s, key)
    ensures var latest := v.commits[|v.commits| - 1].s;
            && Reads(v.disk, true, key) == Loads(latest)
            && (Reads(v.disk, false, key) == Loads(latest) <==> v.disk.main.Some? && v.disk.main.value.Whole?)
            && (Reads(v.disk, false, key) == Nothing <==> v.disk.main.None?)
  {
    hide OneChain, ProcessAt;
  }

  /** One save, seen from the next opening: it finds the old snapshot or the new one, and the new
      one if the save returned. */
  lemma CrashSafety(d: Disk, s: Snapshot, next: Snapshot, backup: bool, end: End, after: Disk, key: Option<nat>)
    requires d.main == Some(Whole(s)) && SaveLeaves(d, next, backup, end, after)
    requires Readable(s, key) && Readable(next, key)
    ensures Reads(after, true, key) in {Loads(s), Loads(next)}
    ensures !backup ==> Reads(after, false, key) == Reads(after, true, key)
    ensures end.Returned? ==> Reads(after, true, key) == Loads(next) && Reads(after, false, key) == Loads(next)
    ensures end.Failed? && s.revision < next.revision ==> Reads(after, true, key) == Loads(s)
  {
  }

  /** Why an opening without backups must not meet a main file that is moved aside: it would start
      over with a new identity at revision 1, on top of a store that had one. */
  lemma OpeningWithoutBackupStartsOver(s: Snapshot, initial: Contents)
    requires s.revision >= 1 && !s.legacy && s.key == None && initial != s.data
    ensures var d := Disk(Some(Whole(s)), None); var crashed := Disk(None, Some(Whole(s)));
            var lost := Disk(Some(Whole(Snapshot(1, false, initial, None))), Some(Whole(s)));
            && SaveLeaves(d, s.(revision := s.revision + 1), true, Crash, crashed)
            && OpenLeaves(crashed, false, None, initial, Returned, Some(Instance(1, initial, None, false)), lost)
            && Survivor(crashed) == Some(s) && Survivor(lost) != Some(s)
  {
  }

  // Files at revision 0 in the current format.

  /** Two processes have opened a file at revision 0. */
  ghost function BothOpen(s: Snapshot, bak: Option<Snapshot>): World {
    var q := Process(Instance(0, s.data, s.key, true), 0);
    StartAt(s, bak).(processes := map[0 := q, 1 := q])
  }

  ghost function OpenBy(p: nat, s: Snapshot, bak: Option<Snapshot>): Event {
    Open(p, true, s.key, s.data, Returned, Some(Instance(0, s.data, s.key, true)), StartAt(s, bak).disk)
  }

  lemma BothOpened(s: Snapshot, bak: Option<Snapshot>)
    requires s.revision == 0 && !s.legacy
    ensures Runs(StartAt(s, bak), [OpenBy(0, s, bak), OpenBy(1, s, bak)])
    ensures Run(StartAt(s, bak), [OpenBy(0, s, bak), OpenBy(1, s, bak)]) == BothOpen(s, bak)
  {
    var w, a, b := StartAt(s, bak), OpenBy(0, s, bak), OpenBy(1, s, bak);
    assert [a] + [b] == [a, b] && [] + [a] == [a];
    LastStep(w, [], a);
    LastStep(w, [a], b);
  }

  /** One saves, and crashes while it saves again; the other one, still at revision 0, takes the main
      file that is moved aside for one that was never there. */
  ghost function StaleRun(s: Snapshot, stale: Contents): seq<Event> {
    var first, over := Snapshot(1, false, s.data, s.key), Snapshot(1, false, stale, s.key);
    [Save(0, s.key, Returned, Disk(Some(Whole(first)), Some(Whole(s)))),
     Save(0, s.key, Crash, Disk(None, Some(Whole(first)))),
     Change(1, stale),
     Save(1, s.key, Returned, Disk(Some(Whole(over)), Some(Whole(first))))]
  }

  /** After the first save, after the crash, and after the change of the other one. */
  ghost function FirstSaved(s: Snapshot): World {
    var first := Snapshot(1, false, s.data, s.key);
    World(Disk(Some(Whole(first)), Some(Whole(s))), [Commit(s, -1), Commit(first, 0)],
          map[0 := Process(Instance(1, s.data, s.key, true), 1), 1 := Process(Instance(0, s.data, s.key, true), 0)])
  }

  ghost function MovedAside(s: Snapshot, data: Contents): World {
    var first := Snapshot(1, false, s.data, s.key);
    World(Disk(None, Some(Whole(first))), [Commit(s, -1), Commit(first, 0)],
          map[1 := Process(Instance(0, data, s.key, true), 0)])
  }

  lemma FirstSaves(s: Snapshot, bak: Option<Snapshot>, stale: Contents)
    requires s.revision == 0 && !s.legacy
    ensures Enabled(BothOpen(s, bak), StaleRun(s, stale)[0])
    ensures Next(BothOpen(s, bak), StaleRun(s, stale)[0]) == FirstSaved(s)
  {
  }

  lemma FirstCrashes(s: Snapshot, stale: Contents)
    ensures Enabled(FirstSaved(s), StaleRun(s, stale)[1])
    ensures Next(FirstSaved(s), StaleRun(s, stale)[1]) == MovedAside(s, s.data)
  {
  }

  lemma SecondChanges(s: Snapshot, stale: Contents)
    ensures Enabled(MovedAside(s, s.data), StaleRun(s, stale)[2])
    ensures Next(MovedAside(s, s.data), StaleRun(s, stale)[2]) == MovedAside(s, stale)
  {
  }

  lemma SecondSaves(s: Snapshot, stale: Contents)
    requires stale != s.data
    ensures Enabled(MovedAside(s, stale), StaleRun(s, stale)[3])
    ensures Next(MovedAside(s, stale), StaleRun(s, stale)[3]).commits
            == MovedAside(s, stale).commits + [Commit(Snapshot(1, false, stale, s.key), 0)]
  {
  }

  lemma StaleOverwrites(s: Snapshot, bak: Option<Snapshot>, stale: Contents)
    requires s.revision == 0 && !s.legacy && stale != s.data
    ensures Runs(BothOpen(s, bak), StaleRun(s, stale))
    ensures var first, over := Snapshot(1, false, s.data, s.key), Snapshot(1, false, stale, s.key);
            Run(BothOpen(s, bak), StaleRun(s, stale)).commits == [Commit(s, -1), Commit(first, 0), Commit(over, 0)]
  {
    var e := StaleRun(s, stale);
    FirstSaves(s, bak, stale);
    FirstCrashes(s, stale);
    SecondChanges(s, stale);
    SecondSaves(s, stale);
    assert e == [e[0], e[1], e[2], e[3]];
    assert MovedAside(s, stale).commits == [Commit(s, -1), Commit(Snapshot(1, false, s.data, s.key), 0)];
    hide *;
    FourSteps(BothOpen(s, bak), e[0], FirstSaved(s), e[1], MovedAside(s, s.data), e[2], MovedAside(s, stale), e[3]);
  }

  lemma FourSteps(w: World, a: Event, w1: World, b: Event, w2: World, c: Event, w3: World, d: Event)
    requires Enabled(w, a) && Next(w, a) == w1 && Enabled(w1, b) && Next(w1, b) == w2
    requires Enabled(w2, c) && Next(w2, c) == w3 && Enabled(w3, d)
    ensures Runs(w, [a, b, c, d]) && Run(w, [a, b, c, d]) == Next(w3, d)
  {
    assert Run(w, []) == w && Runs(w, []);
    assert [] + [a] == [a] && [a] + [b] == [a, b] && [a, b] + [c] == [a, b, c] && [a, b, c] + [d] == [a, b, c, d];
    hide *;
    LastStep(w, [], a);
    LastStep(w, [a], b);
    LastStep(w, [a, b], c);
    LastStep(w, [a, b, c], d);
  }

  lemma {:induction false} RunsOn(w: World, events: seq<Event>, more: seq<Event>)
    ensures Run(w, events + more) == Run(Run(w, events), more)
    ensures Runs(w, events + more) <==> Runs(w, events) && Runs(Run(w, events), more)
  {
    hide Next, Enabled;
    if more == [] {
      assert events + more == events;
    } else {
      RunsOn(w, events, more[..|more| - 1]);
      assert (events + more)[..|events + more| - 1] == events + more[..|more| - 1];
    }
  }

  /** From a file at revision 0 in the current format a commit can be lost: two commits at revision 1,
      both built on the first one. */
  lemma RevisionZeroLosesUpdate(s: Snapshot, bak: Option<Snapshot>, stale: Contents)
    requires s.revision == 0 && !s.legacy && stale != s.data
    ensures var events := [OpenBy(0, s, bak), OpenBy(1, s, bak)] + StaleRun(s, stale);
            && Runs(StartAt(s, bak), events)
            && Run(StartAt(s, bak), events).commits
               == [Commit(s, -1), Commit(Snapshot(1, false, s.data, s.key), 0),
                   Commit(Snapshot(1, false, stale, s.key), 0)]
            && !OneChain(Run(StartAt(s, bak), events).commits)
  {
    BothOpened(s, bak);
    StaleOverwrites(s, bak, stale);
    hide Run, Runs, StaleRun, OpenBy;
    RunsOn(StartAt(s, bak), [OpenBy(0, s, bak), OpenBy(1, s, bak)], StaleRun(s, stale));
    var events := [OpenBy(0, s, bak), OpenBy(1, s, bak)] + StaleRun(s, stale);
    assert Run(StartAt(s, bak), events).commits[2].s.revision == 1;
  }

  /** Exactly when a file may be started from: all its runs have one chain of commits if and only if it
      is at revision 1 or later or of an older format. */
  lemma OneChainExactlyWhen(s: Snapshot, bak: Option<Snapshot>)
    ensures (forall events :: Runs(StartAt(s, bak), events) ==> OneChain(Run(StartAt(s, bak), events).commits))
            <==> Numbered(s)
  {
    var w := StartAt(s, bak);
    if Numbered(s) {
      assert Starts(w);
      forall events | Runs(w, events) ensures OneChain(Run(w, events).commits) {
        CommitsFormOneChain(w, events);
      }
    } else {
      var stale := s.data.(nextPreKeyId := s.data.nextPreKeyId + 1);
      RevisionZeroLosesUpdate(s, bak, stale);
    }
    hide Run, Runs, StartAt, OneChain;
  }
}
