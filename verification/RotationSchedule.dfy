/** When the schedule cannot matter, every interleaving gives what a plain double loop gives. */
module RotationSchedule {
  import opened Sequences
  import opened Votes
  import opened Rotation
  import opened RotationJob
  import opened RotationInvariant
  import Throttle

  /** A dial function: the answer of job i's dial at offset k. */
  type Dial = (nat, nat) -> Answer

  /** Dials answer as f says and in no other way. */
  ghost predicate Deterministic(w: World, f: Dial) {
    forall i, k, a :: w(i, k, a) ==> a == f(i, k)
  }

  /** The throttle cannot show: there is none, or nobody to use while the only proxy rests. */
  predicate Unpaced(c: Config) {
    c.interval <= 0 || |c.addrs| == 1
  }

  /** Consume the rotation from `used` until the batch is full, skipping dead addresses. */
  function Gather(c: Config, i: nat, failed: set<string>, used: nat, want: nat, batch: seq<nat>): (r: (seq<nat>, nat))
    requires |c.addrs| > 0
    ensures used <= r.1
    ensures |batch| < want && used < |c.addrs| ==> used < r.1
    decreases |c.addrs| - used
  {
    if |batch| < want && used < |c.addrs|
    then Gather(c, i, failed, used + 1, want, if AddrOf(c, i, used) in failed then batch else batch + [used])
    else (batch, used)
  }

  function CastBy(f: Dial, i: nat, batch: seq<nat>): seq<Vote> {
    seq(|batch|, b requires 0 <= b < |batch| => Vote(batch[b], f(i, batch[b])))
  }

  /** The addresses a batch condemns. */
  function Condemned(c: Config, f: Dial, i: nat, batch: seq<nat>): set<string>
    requires |c.addrs| > 0
  {
    set b | 0 <= b < |batch| && f(i, batch[b]) == ProxyFault(true) :: AddrOf(c, i, batch[b])
  }

  /** The votes a job ends with and the dead set it leaves. */
  datatype Ending = Ending(votes: seq<Vote>, failed: set<string>)

  /** The rounds of one target, one after the other, with nobody else at work. */
  function Rounds(c: Config, f: Dial, i: nat, votes: seq<Vote>, used: nat, failed: set<string>): Ending
    requires |c.addrs| > 0
    decreases |c.addrs| - used
  {
    if !Guard(c, votes, used) then Ending(votes, failed)
    else
      var (batch, used') := Gather(c, i, failed, used, Want(c, votes), []);
      if batch == [] then Ending(votes, failed)
      else Rounds(c, f, i, votes + CastBy(f, i, batch), used', failed + Condemned(c, f, i, batch))
  }

  /** The dead set when a sequential scan comes to target i. */
  function DeadBefore(c: Config, f: Dial, i: nat): set<string>
    requires |c.addrs| > 0
  {
    if i == 0 then {} else Rounds(c, f, i - 1, [], 0, DeadBefore(c, f, i - 1)).failed
  }

  function Sequential(c: Config, f: Dial, i: nat): Ending
    requires |c.addrs| > 0
  {
    Rounds(c, f, i, [], 0, DeadBefore(c, f, i))
  }

  /** The reference: the targets in order, one at a time. */
  function SequentialScan(c: Config, f: Dial): seq<PortOutcome>
    requires ValidConfig(c)
  {
    seq(|c.targets|, i requires 0 <= i < |c.targets| => OutcomeOf(c, i, Sequential(c, f, i).votes))
  }

  /** What a round ends in that has taken these offsets so far. */
  function Gathered(
      c: Config, f: Dial, i: nat, votes: seq<Vote>, used: nat, inHand: seq<nat>, failed: set<string>): Ending
    requires |c.addrs| > 0 && Opens(votes) < c.quorum
  {
    var (full, used') := Gather(c, i, failed, used, Want(c, votes), inHand);
    if full == [] then Ending(votes, failed)
    else Rounds(c, f, i, votes + CastBy(f, i, full), used', failed + Condemned(c, f, i, full))
  }

  /** The offsets a collecting job has taken and not yet let go. */
  function InHand(job: Job): seq<nat>
    requires job.Collect?
  {
    (job.batch + job.resting) + if job.looking && job.used > 0 then [job.used - 1] else []
  }

  /** What a job would end with if it ran on by itself from where it stands. */
  function Alone(c: Config, f: Dial, i: nat, job: Job, failed: set<string>): Ending
    requires |c.addrs| > 0
  {
    match job
    case Idle => Ending([], failed)
    case Head(votes, used) => Rounds(c, f, i, votes, used, failed)
    case Collect(votes, used, _, _, _, _) =>
      if Opens(votes) >= c.quorum then Ending(votes, failed)
      else Gathered(c, f, i, votes, used, InHand(job), failed)
    case Dialing(votes, used, _, batch, _) =>
      Rounds(c, f, i, votes + CastBy(f, i, batch), used, failed + Condemned(c, f, i, batch))
    case _ => Ending(job.votes, failed)
  }

  /** Only in a pool of one does a proxy rest, and then nothing else is in hand. */
  lemma RestsAlone(c: Config, i: nat, job: Job, failed: set<string>)
    requires ValidConfig(c) && Unpaced(c) && job.Collect? && Placed(c, job) && Covered(c, i, job, failed)
    ensures job.resting == [] || (job.batch == [] && |job.resting| == 1 && !job.looking && job.used == |c.addrs|)
    ensures c.interval > 0 && job.looking ==> job.batch == []
  {
    if c.interval > 0 {
      var front := if job.looking then job.used - 1 else job.used;
      var all := |job.batch| + |job.resting|;
      assert TopUp(job.batch, job.resting, all) == job.batch + job.resting;
      TopUpWithin(job.batch, job.resting, all, job.from, front);
      WithinSize(job.batch + job.resting, job.from, front);
    }
  }

  lemma LookAlone(c: Config, f: Dial, i: nat, job: Job, failed: set<string>)
    requires ValidConfig(c) && job.Collect? && !job.looking && Opens(job.votes) < c.quorum && Unfilled(c, job)
    requires job.resting == []
    ensures Alone(c, f, i, job.(used := job.used + 1, looking := AddrOf(c, i, job.used) !in failed), failed)
            == Alone(c, f, i, job, failed)
  {
    var after := job.(used := job.used + 1, looking := AddrOf(c, i, job.used) !in failed);
    assert InHand(job) == job.batch;
    assert InHand(after) == if AddrOf(c, i, job.used) in failed then job.batch else job.batch + [job.used];
  }

  lemma AskAlone(c: Config, f: Dial, i: nat, job: Job, ready: bool, failed: set<string>)
    requires ValidConfig(c) && job.Collect? && job.looking && job.used > 0 && job.resting == []
    ensures var after := if ready then job.(batch := job.batch + [job.used - 1], looking := false)
                         else job.(resting := job.resting + [job.used - 1], looking := false);
            Alone(c, f, i, after, failed) == Alone(c, f, i, job, failed)
  {
    var after := if ready then job.(batch := job.batch + [job.used - 1], looking := false)
                 else job.(resting := job.resting + [job.used - 1], looking := false);
    assert InHand(after) == InHand(job);
  }

  lemma SpawnAlone(c: Config, f: Dial, i: nat, job: Job, failed: set<string>)
    requires ValidConfig(c) && job.Collect? && !job.looking
    requires job.resting == [] || (job.batch == [] && |job.resting| == 1)
    requires Opens(job.votes) < c.quorum && !Unfilled(c, job)
    ensures var full := job.batch + job.resting;
            && TopUp(job.batch, job.resting, Want(c, job.votes)) == full
            && Alone(c, f, i, job, failed) ==
               if full == [] then Ending(job.votes, failed)
               else Rounds(c, f, i, job.votes + CastBy(f, i, full), job.used, failed + Condemned(c, f, i, full))
  {
    assert InHand(job) == job.batch + job.resting;
  }

  lemma FinishAlone(c: Config, f: Dial, i: nat, batch: seq<nat>, s: nat, failed: set<string>)
    requires |c.addrs| > 0 && s < |batch| && f(i, batch[s]) == ProxyFault(true)
    ensures (failed + {AddrOf(c, i, batch[s])}) + Condemned(c, f, i, batch) == failed + Condemned(c, f, i, batch)
  {
  }

  lemma JoinAlone(c: Config, w: World, f: Dial, i: nat, job: Job, failed: set<string>)
    requires ValidConfig(c) && job.Dialing? && Fits(job, Join) && Deterministic(w, f)
    requires Truthful(w, i, job, false) && Covered(c, i, job, failed)
    ensures Cast(job.batch, job.slots) == CastBy(f, i, job.batch)
    ensures failed + Condemned(c, f, i, job.batch) == failed
  {
    forall b | 0 <= b < |job.batch|
      ensures VoteOf(job.batch[b], job.slots[b]) == Vote(job.batch[b], f(i, job.batch[b]))
      ensures f(i, job.batch[b]) == ProxyFault(true) ==> AddrOf(c, i, job.batch[b]) in failed
    {
      assert job.slots[b].Done?;
    }
  }

  lemma AskStepAlone(c: Config, w: World, f: Dial, i: nat, job: Job, sh: Shared)
    requires ValidConfig(c) && JobEnabled(c, w, i, job, sh, Ask) && job.resting == []
    ensures Alone(c, f, i, JobAfter(c, w, i, job, sh, Ask), sh.failed) == Alone(c, f, i, job, sh.failed)
  {
    AskAlone(c, f, i, job, Throttle.Probe(c.interval, sh.lastUse, sh.clock, AddrOf(c, i, job.used - 1)).0, sh.failed);
  }

  lemma SpawnStepAlone(c: Config, w: World, f: Dial, i: nat, job: Job, sh: Shared)
    requires ValidConfig(c) && JobEnabled(c, w, i, job, sh, Spawn)
    requires job.resting == [] || (job.batch == [] && |job.resting| == 1)
    ensures Alone(c, f, i, JobAfter(c, w, i, job, sh, Spawn), sh.failed) == Alone(c, f, i, job, sh.failed)
  {
    SpawnAlone(c, f, i, job, sh.failed);
  }

  lemma CollectAlone(c: Config, w: World, f: Dial, i: nat, job: Job, sh: Shared, act: JobAct)
    requires ValidConfig(c) && JobEnabled(c, w, i, job, sh, act)
    requires Unpaced(c) && Placed(c, job) && Covered(c, i, job, sh.failed) && job.Collect?
    ensures Alone(c, f, i, JobAfter(c, w, i, job, sh, act), SharedAfter(c, w, i, job, sh, act).failed)
            == Alone(c, f, i, job, sh.failed)
  {
    RestsAlone(c, i, job, sh.failed);
    match act
    case Look => LookAlone(c, f, i, job, sh.failed);
    case Ask => AskStepAlone(c, w, f, i, job, sh);
    case Spawn => SpawnStepAlone(c, w, f, i, job, sh);
  }

  lemma DialingAlone(c: Config, w: World, f: Dial, i: nat, job: Job, sh: Shared, act: JobAct)
    requires ValidConfig(c) && JobEnabled(c, w, i, job, sh, act)
    requires Deterministic(w, f) && Unpaced(c) && !sh.cancelled
    requires Placed(c, job) && Tallied(c, job, false) && Truthful(w, i, job, false) && Covered(c, i, job, sh.failed)
    requires job.Dialing?
    ensures Alone(c, f, i, JobAfter(c, w, i, job, sh, act), SharedAfter(c, w, i, job, sh, act).failed)
            == Alone(c, f, i, job, sh.failed)
  {
    match act
    case Finish(s) =>
      assert job.slots[s].answer == f(i, job.batch[s]);
      if job.slots[s].answer == ProxyFault(true) {
        FinishAlone(c, f, i, job.batch, s, sh.failed);
        assert SharedAfter(c, w, i, job, sh, act).failed == sh.failed + {AddrOf(c, i, job.batch[s])};
      }
    case Join => JoinAlone(c, w, f, i, job, sh.failed);
    case _ =>
  }

  /** A job's own steps do not change what it is heading for. */
  lemma AloneStep(c: Config, w: World, f: Dial, i: nat, job: Job, sh: Shared, act: JobAct)
    requires ValidConfig(c) && JobEnabled(c, w, i, job, sh, act)
    requires Deterministic(w, f) && Unpaced(c) && !sh.cancelled
    requires Placed(c, job) && Tallied(c, job, false) && Truthful(w, i, job, false) && Covered(c, i, job, sh.failed)
    ensures Alone(c, f, i, JobAfter(c, w, i, job, sh, act), SharedAfter(c, w, i, job, sh, act).failed)
            == Alone(c, f, i, job, sh.failed)
  {
    if job.Collect? {
      CollectAlone(c, w, f, i, job, sh, act);
    } else if job.Dialing? {
      DialingAlone(c, w, f, i, job, sh, act);
    }
  }

  /** No dial condemns its proxy. */
  ghost predicate NoneDead(f: Dial) {
    forall i, k :: f(i, k) != ProxyFault(true)
  }

  lemma {:induction false} NoneDeadRounds(c: Config, f: Dial, i: nat, votes: seq<Vote>, used: nat, failed: set<string>)
    requires |c.addrs| > 0 && NoneDead(f)
    ensures Rounds(c, f, i, votes, used, failed).failed == failed
    decreases |c.addrs| - used
  {
    if Guard(c, votes, used) {
      var (batch, used') := Gather(c, i, failed, used, Want(c, votes), []);
      if batch != [] {
        assert failed + Condemned(c, f, i, batch) == failed;
        NoneDeadRounds(c, f, i, votes + CastBy(f, i, batch), used', failed);
      }
    }
  }

  lemma {:induction false} NoneDeadBefore(c: Config, f: Dial, i: nat)
    requires |c.addrs| > 0 && NoneDead(f)
    ensures DeadBefore(c, f, i) == {}
  {
    if i > 0 {
      NoneDeadBefore(c, f, i - 1);
      NoneDeadRounds(c, f, i - 1, [], 0, {});
    }
  }

  /** Where each launched job stands relative to the sequential scan. */
  ghost predicate OnTrack(c: Config, f: Dial, s: State)
    requires |c.addrs| > 0
  {
    && (forall i :: 0 <= i < |s.jobs| && s.jobs[i].Released? ==> s.jobs[i].votes == Sequential(c, f, i).votes)
    && (forall i :: 0 <= i < |s.jobs| && Live(s.jobs[i]) > 0 ==>
          Alone(c, f, i, s.jobs[i], s.sh.failed) == Sequential(c, f, i))
  }

  /** With one job at a time, the dead set between jobs is the sequential one. */
  ghost predicate InOrder(c: Config, f: Dial, s: State)
    requires |c.addrs| > 0
  {
    && (forall i :: 0 <= i < |s.jobs| && Live(s.jobs[i]) > 0 ==> i + 1 == s.disp.next)
    && ((forall i :: 0 <= i < |s.jobs| ==> Live(s.jobs[i]) == 0) ==> s.sh.failed == DeadBefore(c, f, s.disp.next))
  }

  /** No two jobs are ever live at once. */
  predicate OneAtATime(c: Config) {
    c.conc == 1 || |c.targets| <= 1
  }

  /** The schedule cannot show: nobody is ever condemned, or one job runs at a time. */
  ghost predicate Steady(c: Config, f: Dial, s: State)
    requires |c.addrs| > 0
  {
    (NoneDead(f) && s.sh.failed == {}) || (OneAtATime(c) && InOrder(c, f, s))
  }

  /** With one job at a time, nobody is live when the dispatcher has a place for a job. */
  lemma NobodyLive(c: Config, s: State)
    requires Shape(c, s) && SemaphoresOk(c, s) && OneAtATime(c) && s.disp.AtAcquire? && s.sh.jobSem < c.conc
    ensures forall i :: 0 <= i < |s.jobs| ==> Live(s.jobs[i]) == 0
  {
    forall i | 0 <= i < |s.jobs| ensures Live(s.jobs[i]) == 0 {
      SumAtLeast(Live, s.jobs, i);
    }
  }

  lemma Launched(c: Config, f: Dial, s: State)
    requires |c.addrs| > 0 && OnTrack(c, f, s) && s.disp.next < |s.jobs|
    requires s.sh.failed == DeadBefore(c, f, s.disp.next)
    ensures OnTrack(c, f, s.(jobs := s.jobs[s.disp.next := Head([], 0)]))
  {
    assert Alone(c, f, s.disp.next, Head([], 0), s.sh.failed) == Sequential(c, f, s.disp.next);
  }

  lemma LaunchOnTrack(c: Config, w: World, f: Dial, s: State)
    requires Inv(c, w, s) && OnTrack(c, f, s) && Steady(c, f, s)
    requires s.disp.AtAcquire? && s.sh.jobSem < c.conc
    ensures OnTrack(c, f, Next(c, w, s, Dispatch)) && Steady(c, f, Next(c, w, s, Dispatch))
  {
    var next := s.disp.next;
    var s' := Next(c, w, s, Dispatch);
    if NoneDead(f) && s.sh.failed == {} {
      NoneDeadBefore(c, f, next);
    } else {
      NobodyLive(c, s);
      assert Live(s'.jobs[next]) > 0;
    }
    Launched(c, f, s);
  }

  lemma ReleasedEnds(c: Config, w: World, f: Dial, i: nat, job: Job, sh: Shared, act: JobAct)
    requires ValidConfig(c) && JobEnabled(c, w, i, job, sh, act)
    ensures act.Release? ==>
              Alone(c, f, i, job, sh.failed) == Ending(job.votes, sh.failed)
              && JobAfter(c, w, i, job, sh, act).votes == job.votes
  {
  }

  /** Only the job that stepped, or none, can have seen the dead set change. */
  lemma OnTrackUpdate(c: Config, f: Dial, s: State, i: nat, after: Job, sh': Shared)
    requires |c.addrs| > 0 && OnTrack(c, f, s) && Steady(c, f, s) && i < |s.jobs| && Live(s.jobs[i]) > 0
    requires !after.Idle?
    requires Alone(c, f, i, after, sh'.failed) == Sequential(c, f, i)
    requires after.Released? ==> Sequential(c, f, i) == Ending(after.votes, sh'.failed)
    requires NoneDead(f) ==> sh'.failed == s.sh.failed
    ensures OnTrack(c, f, s.(jobs := s.jobs[i := after], sh := sh'))
    ensures Steady(c, f, s.(jobs := s.jobs[i := after], sh := sh'))
  {
    var s' := s.(jobs := s.jobs[i := after], sh := sh');
    if !(NoneDead(f) && s.sh.failed == {}) {
      assert forall j :: 0 <= j < |s.jobs| && j != i ==> Live(s.jobs[j]) == 0;
      if !after.Released? { assert Live(s'.jobs[i]) > 0; }
    }
  }

  lemma StepOnTrack(c: Config, w: World, f: Dial, s: State, i: nat, act: JobAct)
    requires Inv(c, w, s) && OnTrack(c, f, s) && Steady(c, f, s)
    requires Enabled(c, w, s, Step(i, act))
    requires Deterministic(w, f) && Unpaced(c) && !s.sh.cancelled
    ensures OnTrack(c, f, Next(c, w, s, Step(i, act))) && Steady(c, f, Next(c, w, s, Step(i, act)))
  {
    var s' := Next(c, w, s, Step(i, act));
    assert JobOk(c, w, i, s.jobs[i], s.sh);
    StepKind(c, w, i, s.jobs[i], s.sh, act);
    OthersUntouched(c, w, s, Step(i, act));
    AloneStep(c, w, f, i, s.jobs[i], s.sh, act);
    if act.Finish? { assert s.jobs[i].slots[act.s].answer == f(i, s.jobs[i].batch[act.s]); }
    assert NoneDead(f) ==> s'.sh.failed == s.sh.failed;
    ReleasedEnds(c, w, f, i, s.jobs[i], s.sh, act);
    OnTrackUpdate(c, f, s, i, s'.jobs[i], s'.sh);
  }

  lemma {:induction false} ReachableOnTrack(c: Config, w: World, f: Dial, acts: seq<Action>, s: State)
    requires Reaches(c, w, acts, s) && Deterministic(w, f)
    requires Unpaced(c) && !s.sh.cancelled
    requires NoneDead(f) || OneAtATime(c)
    ensures OnTrack(c, f, s) && Steady(c, f, s)
    decreases |acts|
  {
    if acts != [] {
      var last := |acts| - 1;
      var before := After(c, w, acts[..last]).value;
      ReachableInv(c, w, acts[..last], before);
      MarksGrow(c, w, before, acts[last]);
      ReachableOnTrack(c, w, f, acts[..last], before);
      match acts[last]
      case Step(i, act) => StepOnTrack(c, w, f, before, i, act);
      case Dispatch => if before.disp.AtAcquire? { LaunchOnTrack(c, w, f, before); }
      case _ =>
    }
  }

  /**
   * With dials that answer as a function, no throttle and no cancellation, and with no proxy ever
   * condemned or one job at a time, every interleaving returns the outcomes of the double loop.
   */
  lemma ScheduleIndependence(c: Config, w: World, f: Dial, acts: seq<Action>, s: State)
    requires Reaches(c, w, acts, s) && Deterministic(w, f)
    requires Unpaced(c) && !s.sh.cancelled
    requires NoneDead(f) || OneAtATime(c)
    requires s.disp.Returned?
    ensures s.sh.outcomes == SequentialScan(c, f)
  {
    ReachableInv(c, w, acts, s);
    ReachableOnTrack(c, w, f, acts, s);
    forall i | 0 <= i < |s.jobs| ensures s.sh.outcomes[i] == SequentialScan(c, f)[i] {
      assert JobOk(c, w, i, s.jobs[i], s.sh);
    }
  }
}
