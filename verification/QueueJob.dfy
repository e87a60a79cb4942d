/** The job executor: jobs of one bucket run one after the other. Code between two awaits is
    atomic, so a run is a sequence of enqueues and of settlements of running jobs, interleaved
    in any way. */
module JobQueue {
  import opened Wrappers

  type Key = nat
  type Job = nat

  const GC_LIMIT := 500

  datatype Outcome = Resolved(value: nat) | Rejected(reason: nat)

  /** An active executor: it awaits the job `queue[i]`, and looks at the queue again at `limit`. */
  datatype Bucket = Bucket(queue: seq<Job>, i: nat, limit: nat)

  function Min(a: nat, b: nat): nat {
    if a <= b then a else b
  }

  /** The executor from the top of its outer loop to the first await. */
  function Begin(queue: seq<Job>): Bucket {
    Bucket(queue, 0, Min(|queue|, GC_LIMIT))
  }

  /** The executor from one await to the next, or to its end. */
  function Resume(b: Bucket): Option<Bucket> {
    if b.i + 1 < b.limit then Some(b.(i := b.i + 1))
    else if b.limit < |b.queue| then Some(Begin(b.queue[b.limit..]))
    else None
  }

  /** queueJob */
  function Enqueue(buckets: map<Key, Bucket>, k: Key, job: Job): map<Key, Bucket> {
    buckets[k := if k in buckets then buckets[k].(queue := buckets[k].queue + [job]) else Begin([job])]
  }

  /** The running job settles. */
  function Settle(buckets: map<Key, Bucket>, k: Key): map<Key, Bucket> {
    if k !in buckets then buckets
    else match Resume(buckets[k])
      case None => buckets - {k}
      case Some(b) => buckets[k := b]
  }

  // The program's objects.

  class Executor {
    var queue: seq<Job>
    var i: nat
    var limit: nat

    function View(): Bucket
      reads this
    {
      Bucket(queue, i, limit)
    }

    constructor (job: Job)
      ensures View() == Begin([job])
    {
      queue, i, limit := [job], 0, 1;
    }

    method Push(job: Job)
      modifies this`queue
      ensures View() == old(View()).(queue := old(queue) + [job])
    {
      queue := queue + [job];
    }

    /** What follows an await, whether the job was resolved or rejected. */
    method Continue() returns (active: bool)
      modifies this
      ensures match Resume(old(View()))
              case None => !active
              case Some(b) => active && View() == b
    {
      i := i + 1;
      active := true;
      if i >= limit {
        if limit < |queue| {
          queue := queue[limit..];
          i := 0;
          limit := Min(|queue|, GC_LIMIT);
        } else {
          active := false;
        }
      }
    }
  }

  class Buckets {
    var active: map<Key, Executor>

    ghost predicate Valid()
      reads this
    {
      forall j, k :: j in active && k in active && j != k ==> active[j] != active[k]
    }

    function View(): map<Key, Bucket>
      reads this, active.Values
    {
      map k | k in active :: active[k].View()
    }

    constructor ()
      ensures Valid() && View() == map[]
    {
      active := map[];
    }

    method QueueJob(k: Key, job: Job)
      requires Valid()
      modifies this, active.Values
      ensures Valid() && View() == Enqueue(old(View()), k, job)
    {
      ghost var before := View();
      if k in active {
        active[k].Push(job);
      } else {
        var e := new Executor(job);
        active := active[k := e];
      }
      assert View() == Enqueue(before, k, job);
    }

    method JobSettles(k: Key)
      requires Valid() && k in active
      modifies this, active.Values
      ensures Valid() && View() == Settle(old(View()), k)
    {
      ghost var before := View();
      var stays := active[k].Continue();
      if !stays {
        active := active - {k};
      }
      assert View() == Settle(before, k);
    }
  }

  // Runs.

  datatype Event = Queued(k: Key, job: Job) | Settled(k: Key, outcome: Outcome)

  datatype Settlement = Settlement(job: Job, outcome: Outcome)

  datatype State = State(buckets: map<Key, Bucket>, settled: map<Key, seq<Settlement>>)

  /** The jobs handed to queueJob for `k`, in order. */
  ghost function Enqueued(events: seq<Event>, k: Key): seq<Job> {
    if events == [] then []
    else
      var before, e := Enqueued(events[..|events| - 1], k), events[|events| - 1];
      if e.Queued? && e.k == k then before + [e.job] else before
  }

  function SettledOf(s: State, k: Key): seq<Settlement> {
    if k in s.settled then s.settled[k] else []
  }

  /** The promise of the running job is settled with its outcome. */
  function Next(s: State, e: Event): State {
    match e
    case Queued(k, job) => s.(buckets := Enqueue(s.buckets, k, job))
    case Settled(k, outcome) =>
      if k in s.buckets && s.buckets[k].i < |s.buckets[k].queue| then
        State(Settle(s.buckets, k),
              s.settled[k := SettledOf(s, k) + [Settlement(s.buckets[k].queue[s.buckets[k].i], outcome)]])
      else s
  }

  function Run(events: seq<Event>): State {
    if events == [] then State(map[], map[]) else Next(Run(events[..|events| - 1]), events[|events| - 1])
  }

  function JobsOf(settled: seq<Settlement>): (r: seq<Job>)
    ensures |r| == |settled|
    ensures forall i :: 0 <= i < |r| ==> r[i] == settled[i].job
  {
    if settled == [] then [] else JobsOf(settled[..|settled| - 1]) + [settled[|settled| - 1].job]
  }

  /** Exactly one job of the bucket is running. */
  ghost predicate Awaits(b: Bucket) {
    b.i < b.limit <= |b.queue| && b.limit <= 500
  }

  /** The settled jobs and those still in the queue are, in order, the jobs enqueued. */
  ghost predicate InOrder(s: State, k: Key, enqueued: seq<Job>) {
    if k in s.buckets then Awaits(s.buckets[k])
      && enqueued == JobsOf(SettledOf(s, k)) + s.buckets[k].queue[s.buckets[k].i..]
    else enqueued == JobsOf(SettledOf(s, k))
  }

  lemma ResumeMoves(b: Bucket)
    requires Awaits(b)
    ensures match Resume(b)
            case None => b.queue[b.i..] == [b.queue[b.i]]
            case Some(c) => Awaits(c) && b.queue[b.i..] == [b.queue[b.i]] + c.queue[c.i..]
  {
  }

  /** The settled jobs at the front are cut off when all those that the executor had counted, 500 at most, have
      settled and others have come since; it ends when none has. */
  lemma ContinuesWith(b: Bucket)
    requires b.i < b.limit <= |b.queue|
    ensures Resume(b)
            == if b.i + 1 < b.limit then Some(Bucket(b.queue, b.i + 1, b.limit))
               else if b.limit == |b.queue| then None
               else Some(Bucket(b.queue[b.limit..], 0, if |b.queue| - b.limit < 500 then |b.queue| - b.limit else 500))
  {
  }

  /** Jobs of different buckets do not wait for one another. */
  lemma BucketsIndependent(s: State, e: Event, k: Key)
    requires e.k != k
    ensures (k in Next(s, e).buckets <==> k in s.buckets) && SettledOf(Next(s, e), k) == SettledOf(s, k)
    ensures k in s.buckets ==> Next(s, e).buckets[k] == s.buckets[k]
  {
  }

  lemma EnqueueKeepsOrder(s: State, k: Key, job: Job, enqueued: seq<Job>)
    requires InOrder(s, k, enqueued)
    ensures InOrder(Next(s, Queued(k, job)), k, enqueued + [job])
  {
    hide JobsOf;
    if k in s.buckets {
      var b := s.buckets[k];
      assert (b.queue + [job])[b.i..] == b.queue[b.i..] + [job];
      assert JobsOf(SettledOf(s, k)) + b.queue[b.i..] + [job] == JobsOf(SettledOf(s, k)) + (b.queue[b.i..] + [job]);
    }
  }

  lemma JobsOfAppend(settled: seq<Settlement>, e: Settlement)
    ensures JobsOf(settled + [e]) == JobsOf(settled) + [e.job]
  {
  }

  lemma SettleKeepsOrder(s: State, k: Key, outcome: Outcome, enqueued: seq<Job>)
    requires InOrder(s, k, enqueued)
    ensures InOrder(Next(s, Settled(k, outcome)), k, enqueued)
  {
    if k in s.buckets {
      var b := s.buckets[k];
      ResumeMoves(b);
      JobsOfAppend(SettledOf(s, k), Settlement(b.queue[b.i], outcome));
      hide JobsOf, Resume;
    }
  }

  lemma NextKeepsOrder(s: State, e: Event, k: Key, enqueued: seq<Job>)
    requires InOrder(s, k, enqueued)
    ensures InOrder(Next(s, e), k, if e.Queued? && e.k == k then enqueued + [e.job] else enqueued)
  {
    hide JobsOf;
    if e.k != k {
      BucketsIndependent(s, e, k);
    } else {
      hide Next, InOrder;
      match e
      case Queued(_, job) => EnqueueKeepsOrder(s, k, job, enqueued);
      case Settled(_, outcome) => SettleKeepsOrder(s, k, outcome, enqueued);
    }
  }

  lemma {:induction false} RunsInOrder(events: seq<Event>, k: Key)
    ensures InOrder(Run(events), k, Enqueued(events, k))
  {
    if events != [] {
      RunsInOrder(events[..|events| - 1], k);
      NextKeepsOrder(Run(events[..|events| - 1]), events[|events| - 1], k, Enqueued(events[..|events| - 1], k));
    }
  }

  /** For every interleaving: the jobs of a bucket settle in the order in which they were
      enqueued, each once. The bucket is in the map exactly while a job has not settled, and
      then the next one in order is running. */
  lemma OneAtATimeInOrder(events: seq<Event>, k: Key)
    ensures var s, jobs := Run(events), Enqueued(events, k);
            var n := |SettledOf(s, k)|;
            && n <= |jobs| && (forall i :: 0 <= i < n ==> SettledOf(s, k)[i].job == jobs[i])
            && (k in s.buckets <==> n < |jobs|)
            && (k in s.buckets ==> Awaits(s.buckets[k]) && s.buckets[k].queue[s.buckets[k].i] == jobs[n])
  {
    RunsInOrder(events, k);
  }

  ghost function Settling(k: Key, outcomes: seq<Outcome>): (r: seq<Event>)
    ensures |r| == |outcomes|
  {
    if outcomes == [] then [] else Settling(k, outcomes[..|outcomes| - 1]) + [Settled(k, outcomes[|outcomes| - 1])]
  }

  lemma OneMore(before: seq<Event>, k: Key, outcome: Outcome)
    ensures Run(before + [Settled(k, outcome)]) == Next(Run(before), Settled(k, outcome))
    ensures Enqueued(before + [Settled(k, outcome)], k) == Enqueued(before, k)
  {
    assert (before + [Settled(k, outcome)])[..|before|] == before;
  }

  lemma {:induction false} SettlingAdds(events: seq<Event>, k: Key, outcomes: seq<Outcome>)
    requires |outcomes| <= |Enqueued(events, k)| - |SettledOf(Run(events), k)|
    ensures |SettledOf(Run(events + Settling(k, outcomes)), k)| == |SettledOf(Run(events), k)| + |outcomes|
    ensures Enqueued(events + Settling(k, outcomes), k) == Enqueued(events, k)
  {
    if outcomes == [] {
      assert events + Settling(k, outcomes) == events;
    } else {
      var n := |outcomes| - 1;
      SettlingAdds(events, k, outcomes[..n]);
      var before := events + Settling(k, outcomes[..n]);
      OneAtATimeInOrder(before, k);
      hide JobsOf, Awaits, Settle;
      OneMore(before, k, outcomes[n]);
      assert events + Settling(k, outcomes) == before + [Settled(k, outcomes[n])];
    }
  }

  /** No job is lost, neither when the settled front of the queue is cut off nor at the final
      cleanup: as many settlements as jobs are missing, with whatever outcomes, settle all of
      them, and then the bucket is gone. */
  lemma NothingLost(events: seq<Event>, k: Key, outcomes: seq<Outcome>)
    requires |outcomes| == |Enqueued(events, k)| - |SettledOf(Run(events), k)|
    ensures var after := Run(events + Settling(k, outcomes));
            k !in after.buckets && JobsOf(SettledOf(after, k)) == Enqueued(events, k)
  {
    SettlingAdds(events, k, outcomes);
    RunsInOrder(events + Settling(k, outcomes), k);
    OneAtATimeInOrder(events + Settling(k, outcomes), k);
  }
}
