/** The scan cannot get stuck, and it ends after a number of steps known in advance. */
module RotationProgress {
  import opened Sequences
  import opened Votes
  import opened Rotation
  import opened RotationJob
  import opened RotationInvariant

  ghost predicate Answerable(w: World, i: nat, k: nat) {
    exists a :: w(i, k, a)
  }

  /** Dials return: whatever is dialled, some answer is possible. */
  ghost predicate Answers(w: World) {
    forall i, k :: Answerable(w, i, k)
  }

  /** A step of the scan itself, rather than of its surroundings. */
  predicate Internal(a: Action) {
    a.Dispatch? || a.Step?
  }

  /** A live job whose dials, if any, are not all queued can take a step. */
  ghost predicate Ready(job: Job) {
    && Live(job) > 0
    && (job.Dialing? ==>
          || (exists b :: 0 <= b < |job.slots| && InUse(job.slots[b]) > 0)
          || (forall b :: 0 <= b < |job.slots| ==> job.slots[b].Done?))
  }

  lemma DialingJobSteps(c: Config, w: World, i: nat, job: Job, sh: Shared) returns (act: JobAct)
    requires job.Dialing? && |job.slots| == |job.batch| && i < |sh.dialled|
    requires Answers(w) && Ready(job) && DialsInUse(job) <= sh.dialSem
    ensures JobEnabled(c, w, i, job, sh, act)
  {
    if b: nat :| b < |job.slots| && InUse(job.slots[b]) > 0 {
      SumAtLeast(InUse, job.slots, b);
      if job.slots[b].Holding? {
        act := Begin(b);
      } else if job.slots[b].InFlight? {
        assert Answerable(w, i, job.batch[b]);
        var a :| w(i, job.batch[b], a);
        act := Return(b, a);
      } else {
        act := Finish(b);
      }
    } else {
      act := Join;
    }
  }

  lemma ReadyJobSteps(c: Config, w: World, i: nat, job: Job, sh: Shared) returns (act: JobAct)
    requires ValidConfig(c) && i < |c.targets| == |sh.outcomes| == |sh.dialled|
    requires Placed(c, job) && Tallied(c, job, sh.cancelled) && Answers(w) && Ready(job)
    requires sh.jobSem > 0 && DialsInUse(job) <= sh.dialSem
    ensures JobEnabled(c, w, i, job, sh, act)
  {
    match job
    case Head(_, _) => act := Loop;
    case Collect(_, _, _, _, _, looking) => act := if looking then Ask else if Unfilled(c, job) then Look else Spawn;
    case Dialing(_, _, _, _, _) => act := DialingJobSteps(c, w, i, job, sh);
    case Leaving(_, _, _) => act := Write;
    case Written(_, _, _) => act := Report;
    case Reported(_, _, _, _) => act := Release;
  }

  /** What the lemmas below need of a reachable state. */
  ghost predicate Orderly(c: Config, s: State) {
    && ValidConfig(c) && Shape(c, s) && SemaphoresOk(c, s)
    && forall i :: 0 <= i < |s.jobs| ==> Placed(c, s.jobs[i]) && Tallied(c, s.jobs[i], s.sh.cancelled)
  }

  lemma ReachableOrderly(c: Config, w: World, acts: seq<Action>, s: State)
    requires Reaches(c, w, acts, s)
    ensures Orderly(c, s)
  {
    ReachableInv(c, w, acts, s);
    forall i | 0 <= i < |s.jobs| ensures Placed(c, s.jobs[i]) && Tallied(c, s.jobs[i], s.sh.cancelled) {
      assert JobOk(c, w, i, s.jobs[i], s.sh);
    }
  }

  /** While some job is live, some job can step: a full dial semaphore is held by dials that can go on. */
  lemma LiveJobsStep(c: Config, w: World, s: State, i: nat) returns (a: Action)
    requires Orderly(c, s) && Answers(w) && i < |s.jobs| && Live(s.jobs[i]) > 0
    ensures Enabled(c, w, s, a) && a.Step?
  {
    var j: nat := i;
    SumAtLeast(Live, s.jobs, i);
    if !Ready(s.jobs[i]) {
      var b: nat :| b < |s.jobs[i].slots| && !s.jobs[i].slots[b].Done?;
      assert s.jobs[i].slots[b].Queued?;
      if s.sh.dialSem < c.conc {
        return Step(i, Acquire(b));
      }
      j := SumPositive(DialsInUse, s.jobs);
      var d := SumPositive(InUse, s.jobs[j].slots);
    }
    SumAtLeast(DialsInUse, s.jobs, j);
    var act := ReadyJobSteps(c, w, j, s.jobs[j], s.sh);
    a := Step(j, act);
  }

  /** Deadlock freedom: until the scan has returned, some internal step is enabled. */
  lemma NeverStuck(c: Config, w: World, acts: seq<Action>, s: State) returns (a: Action)
    requires Reaches(c, w, acts, s) && Answers(w)
    ensures !s.disp.Returned? ==> Internal(a) && Enabled(c, w, s, a)
  {
    ReachableOrderly(c, w, acts, s);
    a := Dispatch;
    if !Enabled(c, w, s, Dispatch) && !s.disp.Returned? {
      if s.disp.AtAcquire? {
        var i := SumPositive(Live, s.jobs);
        a := LiveJobsStep(c, w, s, i);
      } else {
        var i :| 0 <= i < s.disp.next && !s.jobs[i].Released?;
        assert Live(s.jobs[i]) > 0;
        a := LiveJobsStep(c, w, s, i);
      }
    }
  }

  function SlotWork(s: Slot): nat {
    match s
    case Queued => 4
    case Holding => 3
    case InFlight => 2
    case Answered(_) => 1
    case Done(_) => 0
  }

  /** An upper bound on the steps a job has left, for a pool of n proxies. */
  function JobWork(n: nat, job: Job): nat {
    match job
    case Idle => 20 * n + 9
    case Head(_, used) => 20 * (if used < n then n - used else 0) + 8
    case Collect(_, used, from, batch, resting, looking) =>
      20 * (if used < n then n - used else 0) + 6 * (|batch| + |resting|)
      + (if looking then 7 else 0) + (if from < used then 10 else 7)
    case Dialing(_, used, _, _, slots) =>
      20 * (if used < n then n - used else 0) + SumBy(SlotWork, slots) + 9
    case Leaving(_, _, _) => 3
    case Written(_, _, _) => 2
    case Reported(_, _, _, _) => 1
    case Released(_, _, _, _) => 0
  }

  function Work(n: nat): Job -> nat {
    job => JobWork(n, job)
  }

  function DispatchWork(total: nat, d: Dispatcher): nat {
    match d
    case AtCheck(next) => (if next < total then 3 * (total - next) else 0) + 3
    case AtAcquire(next) => (if next < total then 3 * (total - next) else 0) + 2
    case Waiting(_) => 1
    case Returned(_) => 0
  }

  /** An upper bound on the internal steps a scan has left. */
  function Remaining(c: Config, s: State): nat {
    DispatchWork(|c.targets|, s.disp) + SumBy(Work(|c.addrs|), s.jobs)
  }

  lemma {:induction false} QueuedWork(slots: seq<Slot>)
    requires forall b :: 0 <= b < |slots| ==> slots[b].Queued?
    ensures SumBy(SlotWork, slots) == 4 * |slots|
  {
    if slots != [] { QueuedWork(slots[1..]); }
  }

  lemma SpawnWorkFalls(c: Config, job: Job)
    requires ValidConfig(c) && job.Collect? && Opens(job.votes) < c.quorum && Placed(c, job)
    ensures var batch := TopUp(job.batch, job.resting, Want(c, job.votes));
            batch != [] ==>
              JobWork(|c.addrs|, Dialing(job.votes, job.used, job.from, batch, seq(|batch|, _ => Queued)))
              < JobWork(|c.addrs|, job)
  {
    var batch := TopUp(job.batch, job.resting, Want(c, job.votes));
    QueuedWork(seq(|batch|, _ => Queued));
    if job.from == job.used {
      WithinNothing(job.batch, job.used);
      WithinNothing(job.resting, job.used);
    }
  }

  lemma JobWorkFalls(c: Config, w: World, i: nat, job: Job, sh: Shared, act: JobAct)
    requires ValidConfig(c) && Placed(c, job) && JobEnabled(c, w, i, job, sh, act)
    ensures JobWork(|c.addrs|, JobAfter(c, w, i, job, sh, act)) < JobWork(|c.addrs|, job)
  {
    match act
    case Acquire(s) => SumUpdate(SlotWork, job.slots, s, Holding);
    case Begin(s) => SumUpdate(SlotWork, job.slots, s, if sh.cancelled then Done(None) else InFlight);
    case Return(s, a) => SumUpdate(SlotWork, job.slots, s, if sh.cancelled then Done(None) else Answered(a));
    case Finish(s) => SumUpdate(SlotWork, job.slots, s, Done(Some(job.slots[s].answer)));
    case Spawn => SpawnWorkFalls(c, job);
    case _ =>
  }

  /** Every internal step uses up some of the remaining work; the surroundings add none. */
  lemma WorkFalls(c: Config, w: World, s: State, a: Action)
    requires Orderly(c, s) && Enabled(c, w, s, a)
    ensures Remaining(c, Next(c, w, s, a)) + (if Internal(a) then 1 else 0) <= Remaining(c, s)
  {
    var f := Work(|c.addrs|);
    match a
    case Step(i, act) =>
      JobWorkFalls(c, w, i, s.jobs[i], s.sh, act);
      SumUpdate(f, s.jobs, i, JobAfter(c, w, i, s.jobs[i], s.sh, act));
    case Dispatch =>
      if s.disp.AtAcquire? {
        SumUpdate(f, s.jobs, s.disp.next, Head([], 0));
      }
    case _ =>
  }

  function InternalSteps(acts: seq<Action>): nat {
    if acts == [] then 0 else InternalSteps(acts[..|acts| - 1]) + if Internal(acts[|acts| - 1]) then 1 else 0
  }

  lemma {:induction false} InitialWork(n: nat, total: nat)
    ensures SumBy(Work(n), seq(total, _ => Idle)) == total * (20 * n + 9)
  {
    var jobs: seq<Job> := seq(total, _ => Idle);
    if total > 0 {
      InitialWork(n, total - 1);
      assert jobs[1..] == seq(total - 1, _ => Idle);
    }
  }

  /**
   * No schedule runs for ever: a scan of t targets over n proxies takes at most
   * t * (20n + 12) + 3 internal steps, counting those still to come.
   */
  lemma {:induction false} RunsAreBounded(c: Config, w: World, acts: seq<Action>, s: State)
    requires Reaches(c, w, acts, s)
    ensures InternalSteps(acts) + Remaining(c, s) <= |c.targets| * (20 * |c.addrs| + 12) + 3
    decreases |acts|
  {
    if acts == [] {
      InitialWork(|c.addrs|, |c.targets|);
      assert |c.targets| * (20 * |c.addrs| + 12) == |c.targets| * (20 * |c.addrs| + 9) + |c.targets| * 3;
    } else {
      var last := |acts| - 1;
      var before := After(c, w, acts[..last]).value;
      RunsAreBounded(c, w, acts[..last], before);
      ReachableOrderly(c, w, acts[..last], before);
      WorkFalls(c, w, before, acts[last]);
    }
  }

  /** Any run can be continued to one that returns, by taking whatever internal step is enabled. */
  lemma {:induction false} EveryRunCanFinish(c: Config, w: World, acts: seq<Action>, s: State)
    returns (more: seq<Action>, end: State)
    requires Reaches(c, w, acts, s) && Answers(w)
    ensures Reaches(c, w, acts + more, end) && end.disp.Returned?
    ensures forall a :: a in more ==> Internal(a)
    ensures end.sh.cancelled == s.sh.cancelled
    decreases Remaining(c, s)
  {
    if s.disp.Returned? {
      more, end := [], s;
      assert acts + [] == acts;
    } else {
      var a := NeverStuck(c, w, acts, s);
      ReachableOrderly(c, w, acts, s);
      WorkFalls(c, w, s, a);
      ReachesOn(c, w, acts, s, a);
      if a.Step? { StepKind(c, w, a.job, s.jobs[a.job], s.sh, a.act); }
      var rest, last := EveryRunCanFinish(c, w, acts + [a], Next(c, w, s, a));
      more, end := [a] + rest, last;
      assert acts + more == acts + [a] + rest;
    }
  }
}
