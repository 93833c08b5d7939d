/** What every reachable state of a scan satisfies. */
module RotationInvariant {
  import opened Sequences
  import opened Votes
  import opened Rotation
  import opened RotationJob

  /** Everything kept about one job. */
  ghost predicate JobOk(c: Config, w: World, i: nat, job: Job, sh: Shared) {
    && ValidConfig(c) && i < |c.targets| && i < |sh.dialled| && i < |sh.outcomes|
    && Placed(c, job)
    && Tallied(c, job, sh.cancelled)
    && Truthful(w, i, job, sh.cancelled)
    && Logged(c, job, sh.dialled[i])
    && Covered(c, i, job, sh.failed)
    && sh.outcomes[i] ==
       if job.Written? || job.Reported? || job.Released? then OutcomeOf(c, i, job.votes) else ZERO_OUTCOME
  }

  lemma JobOkStep(c: Config, w: World, i: nat, job: Job, sh: Shared, act: JobAct)
    requires JobOk(c, w, i, job, sh) && JobEnabled(c, w, i, job, sh, act)
    ensures JobOk(c, w, i, JobAfter(c, w, i, job, sh, act), SharedAfter(c, w, i, job, sh, act))
  {
    PlacedStep(c, w, i, job, sh, act);
    TalliedStep(c, w, i, job, sh, act);
    TruthfulStep(c, w, i, job, sh, act);
    LoggedStep(c, w, i, job, sh, act);
    assert act.Spawn? ==> |job.batch| <= Want(c, job.votes);
    CoveredStep(c, w, i, job, sh, act);
    assert SharedAfter(c, w, i, job, sh, act).cancelled == sh.cancelled;
  }

  lemma CoveredGrows(c: Config, i: nat, job: Job, failed: set<string>, failed': set<string>)
    requires ValidConfig(c) && Covered(c, i, job, failed) && failed <= failed'
    ensures Covered(c, i, job, failed')
  {
  }

  /** Other goroutines may cancel and condemn proxies; they do not touch what a job owns. */
  lemma JobOkFrame(c: Config, w: World, i: nat, job: Job, sh: Shared, sh': Shared)
    requires JobOk(c, w, i, job, sh)
    requires sh.cancelled ==> sh'.cancelled
    requires sh.failed <= sh'.failed
    requires i < |sh'.dialled| && i < |sh'.outcomes|
    requires sh'.dialled[i] == sh.dialled[i] && sh'.outcomes[i] == sh.outcomes[i]
    ensures JobOk(c, w, i, job, sh')
  {
    CoveredGrows(c, i, job, sh.failed, sh'.failed);
  }

  /** Holds one entry of the job semaphore. */
  function Live(job: Job): nat {
    if job.Idle? || job.Released? then 0 else 1
  }

  /** Holds one entry of the dial semaphore. */
  function InUse(s: Slot): nat {
    if s.Holding? || s.InFlight? || s.Answered? then 1 else 0
  }

  function DialsInUse(job: Job): nat {
    if job.Dialing? then SumBy(InUse, job.slots) else 0
  }

  ghost predicate Shape(c: Config, s: State) {
    && |s.jobs| == |c.targets| == |s.sh.outcomes| == |s.sh.dialled|
    && s.disp.next <= |s.jobs|
    && (s.disp.AtAcquire? ==> s.disp.next < |s.jobs|)
    && (s.disp.Waiting? || s.disp.Returned? ==> s.disp.next == |s.jobs| || s.sh.cancelled)
    && (s.disp.Returned? ==> AllReleased(s, s.disp.next))
    && (forall i :: 0 <= i < |s.jobs| ==> (s.jobs[i].Idle? <==> s.disp.next <= i))
  }

  /** The semaphores count exactly the live jobs and the dials in hand, and never overflow. */
  ghost predicate SemaphoresOk(c: Config, s: State) {
    && s.sh.jobSem == SumBy(Live, s.jobs) <= c.conc
    && s.sh.dialSem == SumBy(DialsInUse, s.jobs) <= c.conc
  }

  /** Report number m is the m-th entry of the report record, and the record has no job twice. */
  ghost predicate ReportsOk(s: State) {
    && s.sh.done == |s.sh.reports|
    && NoDup(s.sh.reports)
    && (forall m :: 0 <= m < |s.sh.reports| ==>
          var i := s.sh.reports[m];
          i < |s.jobs| && (s.jobs[i].Reported? || s.jobs[i].Released?) && s.jobs[i].count == m + 1)
    && (forall i :: 0 <= i < |s.jobs| && (s.jobs[i].Reported? || s.jobs[i].Released?) ==> i in s.sh.reports)
  }

  /** The dead set is the set of hook calls; each follows a dial that condemned the address. */
  ghost predicate DeathsOk(c: Config, w: World, sh: Shared)
    requires ValidConfig(c)
  {
    && (forall m, l :: 0 <= m < l < |sh.deaths| ==> sh.deaths[m].addr != sh.deaths[l].addr)
    && (forall a :: a in sh.failed <==> exists d :: d in sh.deaths && d.addr == a)
    && (forall d :: d in sh.deaths ==>
          && w(d.job, d.offset, ProxyFault(true))
          && d.addr == AddrOf(c, d.job, d.offset)
          && d.job < |sh.dialled| && d.offset in sh.dialled[d.job])
  }

  ghost predicate Inv(c: Config, w: World, s: State) {
    && ValidConfig(c)
    && Shape(c, s)
    && SemaphoresOk(c, s)
    && (forall i :: 0 <= i < |s.jobs| ==> JobOk(c, w, i, s.jobs[i], s.sh))
    && ReportsOk(s)
    && DeathsOk(c, w, s.sh)
  }

  lemma InitInv(c: Config, w: World)
    requires ValidConfig(c)
    ensures Inv(c, w, Init(c))
  {
    var s := Init(c);
    SumZero(Live, s.jobs);
    SumZero(DialsInUse, s.jobs);
  }

  lemma JobKept(c: Config, w: World, s: State, a: Action, i: nat)
    requires ValidConfig(c) && Shape(c, s) && Enabled(c, w, s, a) && a.Step?
    requires i < |s.jobs| && JobOk(c, w, i, s.jobs[i], s.sh)
    ensures i < |Next(c, w, s, a).jobs| && JobOk(c, w, i, Next(c, w, s, a).jobs[i], Next(c, w, s, a).sh)
  {
    if i == a.job {
      JobOkStep(c, w, i, s.jobs[i], s.sh, a.act);
    } else {
      JobOkFrame(c, w, i, s.jobs[i], s.sh, Next(c, w, s, a).sh);
    }
  }

  lemma JobKeptByOthers(c: Config, w: World, s: State, a: Action, i: nat)
    requires ValidConfig(c) && Shape(c, s) && Enabled(c, w, s, a) && !a.Step?
    requires i < |s.jobs| && JobOk(c, w, i, s.jobs[i], s.sh)
    ensures i < |Next(c, w, s, a).jobs| && JobOk(c, w, i, Next(c, w, s, a).jobs[i], Next(c, w, s, a).sh)
  {
    if a.Dispatch? && s.disp.AtAcquire? && s.disp.next == i {
      assert Next(c, w, s, a).jobs[i] == Head([], 0);
    } else {
      JobOkFrame(c, w, i, s.jobs[i], s.sh, Next(c, w, s, a).sh);
    }
  }

  lemma JobsStep(c: Config, w: World, s: State, a: Action)
    requires Inv(c, w, s) && Enabled(c, w, s, a)
    ensures var s' := Next(c, w, s, a);
            forall i :: 0 <= i < |s'.jobs| ==> JobOk(c, w, i, s'.jobs[i], s'.sh)
  {
    var s' := Next(c, w, s, a);
    forall i | 0 <= i < |s'.jobs| ensures JobOk(c, w, i, s'.jobs[i], s'.sh) {
      assert JobOk(c, w, i, s.jobs[i], s.sh);
      if a.Step? { JobKept(c, w, s, a, i); } else { JobKeptByOthers(c, w, s, a, i); }
    }
  }

  /** Which stands a step leads between, and which shared fields it may touch. */
  lemma StepKind(c: Config, w: World, i: nat, job: Job, sh: Shared, act: JobAct)
    requires ValidConfig(c) && JobEnabled(c, w, i, job, sh, act)
    ensures var after, sh' := JobAfter(c, w, i, job, sh, act), SharedAfter(c, w, i, job, sh, act);
            && !job.Idle? && !job.Released? && !after.Idle?
            && (after.Released? <==> act.Release?)
            && (job.Reported? <==> act.Release?)
            && (after.Reported? <==> act.Report?)
            && (act.Report? ==> after.count == sh.done + 1)
            && (act.Release? ==> after.count == job.count)
            && sh'.cancelled == sh.cancelled
            && |sh'.outcomes| == |sh.outcomes| && |sh'.dialled| == |sh.dialled|
            && sh'.reports == (if act.Report? then sh.reports + [i] else sh.reports)
            && sh'.done == (if act.Report? then sh.done + 1 else sh.done)
            && (!act.Finish? ==> sh'.failed == sh.failed && sh'.deaths == sh.deaths)
            && (forall j :: 0 <= j < |sh.dialled| ==> sh.dialled[j] <= sh'.dialled[j])
  {
  }

  lemma ShapeStep(c: Config, w: World, s: State, a: Action)
    requires ValidConfig(c) && Shape(c, s) && Enabled(c, w, s, a)
    ensures Shape(c, Next(c, w, s, a))
  {
    match a
    case Step(i, act) =>
      StepKind(c, w, i, s.jobs[i], s.sh, act);
      assert Next(c, w, s, a).disp == s.disp;
    case _ =>
  }

  lemma SlotSemaphore(c: Config, w: World, i: nat, job: Job, sh: Shared, act: JobAct, s: nat)
    requires ValidConfig(c) && JobEnabled(c, w, i, job, sh, act) && job.Dialing? && s < |job.slots|
    requires act == Acquire(s) || act == Begin(s) || act == Finish(s) || (act.Return? && act.s == s)
    ensures var after, sh' := JobAfter(c, w, i, job, sh, act), SharedAfter(c, w, i, job, sh, act);
            && after.Dialing? && sh'.jobSem == sh.jobSem
            && sh'.dialSem + SumBy(InUse, job.slots) == sh.dialSem + SumBy(InUse, after.slots)
            && sh'.dialSem <= (if act.Acquire? then c.conc else sh.dialSem)
  {
    SumUpdate(InUse, job.slots, s, JobAfter(c, w, i, job, sh, act).slots[s]);
  }

  lemma JobSemaphores(c: Config, w: World, i: nat, job: Job, sh: Shared, act: JobAct)
    requires ValidConfig(c) && JobEnabled(c, w, i, job, sh, act)
    requires act.Spawn? ==> |job.batch| <= Want(c, job.votes)
    ensures var after, sh' := JobAfter(c, w, i, job, sh, act), SharedAfter(c, w, i, job, sh, act);
            && sh'.jobSem + Live(job) == sh.jobSem + Live(after)
            && sh'.dialSem + DialsInUse(job) == sh.dialSem + DialsInUse(after)
            && sh'.dialSem <= (if act.Acquire? then c.conc else sh.dialSem)
  {
    match act
    case Acquire(s) => SlotSemaphore(c, w, i, job, sh, act, s);
    case Begin(s) => SlotSemaphore(c, w, i, job, sh, act, s);
    case Return(s, _) => SlotSemaphore(c, w, i, job, sh, act, s);
    case Finish(s) => SlotSemaphore(c, w, i, job, sh, act, s);
    case Spawn =>
      var after := JobAfter(c, w, i, job, sh, act);
      if after.Dialing? { SumZero(InUse, after.slots); }
    case Join => SumZero(InUse, job.slots);
    case _ =>
  }

  lemma OwnSemaphores(c: Config, w: World, s: State, i: nat, act: JobAct)
    requires ValidConfig(c) && SemaphoresOk(c, s) && Enabled(c, w, s, Step(i, act))
    requires Tallied(c, s.jobs[i], s.sh.cancelled)
    ensures SemaphoresOk(c, Next(c, w, s, Step(i, act)))
  {
    JobSemaphores(c, w, i, s.jobs[i], s.sh, act);
    var after := JobAfter(c, w, i, s.jobs[i], s.sh, act);
    SumUpdate(Live, s.jobs, i, after);
    SumUpdate(DialsInUse, s.jobs, i, after);
  }

  lemma SemaphoresStep(c: Config, w: World, s: State, a: Action)
    requires Inv(c, w, s) && Enabled(c, w, s, a)
    ensures SemaphoresOk(c, Next(c, w, s, a))
  {
    match a
    case Step(i, act) =>
      assert JobOk(c, w, i, s.jobs[i], s.sh);
      OwnSemaphores(c, w, s, i, act);
    case Dispatch =>
      if s.disp.AtAcquire? {
        SumUpdate(Live, s.jobs, s.disp.next, Head([], 0));
        SumUpdate(DialsInUse, s.jobs, s.disp.next, Head([], 0));
      }
    case _ =>
  }

  lemma ReportsUpdate(s: State, i: nat, after: Job, sh': Shared, reporting: bool)
    requires ReportsOk(s) && i < |s.jobs| && !s.jobs[i].Released?
    requires reporting <==> after.Reported?
    requires reporting ==> !s.jobs[i].Reported? && after.count == s.sh.done + 1
    requires after.Released? <==> s.jobs[i].Reported?
    requires after.Released? ==> after.count == s.jobs[i].count
    requires sh'.reports == (if reporting then s.sh.reports + [i] else s.sh.reports)
    requires sh'.done == (if reporting then s.sh.done + 1 else s.sh.done)
    ensures ReportsOk(s.(jobs := s.jobs[i := after], sh := sh'))
  {
    if reporting {
      assert i !in s.sh.reports;
      NoDupAppend(s.sh.reports, i);
    }
  }

  lemma ReportsStep(c: Config, w: World, s: State, a: Action)
    requires ValidConfig(c) && Shape(c, s) && ReportsOk(s) && Enabled(c, w, s, a)
    ensures ReportsOk(Next(c, w, s, a))
  {
    match a
    case Step(i, act) =>
      StepKind(c, w, i, s.jobs[i], s.sh, act);
      var after, sh' := JobAfter(c, w, i, s.jobs[i], s.sh, act), SharedAfter(c, w, i, s.jobs[i], s.sh, act);
      ReportsUpdate(s, i, after, sh', act.Report?);
    case _ =>
  }

  lemma MarkOk(c: Config, w: World, sh: Shared, i: nat, k: nat)
    requires ValidConfig(c) && DeathsOk(c, w, sh)
    requires i < |sh.dialled| && k in sh.dialled[i] && w(i, k, ProxyFault(true))
    ensures DeathsOk(c, w, Mark(sh, AddrOf(c, i, k), i, k))
  {
    var a := AddrOf(c, i, k);
    var sh' := Mark(sh, a, i, k);
    if a !in sh.failed {
      var d := Death(a, i, k);
      assert d in sh'.deaths;
      forall x ensures x in sh'.failed <==> exists e :: e in sh'.deaths && e.addr == x {
        if x in sh.failed {
          var e :| e in sh.deaths && e.addr == x;
          assert e in sh'.deaths;
        }
      }
      forall m | 0 <= m < |sh.deaths| ensures sh.deaths[m].addr != a {
        assert sh.deaths[m] in sh.deaths;
      }
    }
  }

  lemma DeathsStep(c: Config, w: World, s: State, a: Action)
    requires ValidConfig(c) && Shape(c, s) && DeathsOk(c, w, s.sh) && Enabled(c, w, s, a)
    requires a.Step? ==> JobOk(c, w, a.job, s.jobs[a.job], s.sh)
    ensures DeathsOk(c, w, Next(c, w, s, a).sh)
  {
    match a
    case Step(i, act) =>
      StepKind(c, w, i, s.jobs[i], s.sh, act);
      if act.Finish? {
        var k := s.jobs[i].batch[act.s];
        assert k in s.sh.dialled[i];
        if s.jobs[i].slots[act.s].answer == ProxyFault(true) {
          MarkOk(c, w, s.sh, i, k);
        }
      }
    case _ =>
  }

  /** A job's step leaves the other jobs and their dial records alone, and un-marks nobody. */
  lemma OthersUntouched(c: Config, w: World, s: State, act: Action)
    requires ValidConfig(c) && Shape(c, s) && Enabled(c, w, s, act) && act.Step?
    ensures var s' := Next(c, w, s, act);
            && s.sh.failed <= s'.sh.failed
            && forall i :: 0 <= i < |s.jobs| && i != act.job ==>
                 s'.jobs[i] == s.jobs[i] && s'.sh.dialled[i] == s.sh.dialled[i]
  {
  }

  lemma MarksGrow(c: Config, w: World, s: State, act: Action)
    requires ValidConfig(c) && Shape(c, s) && Enabled(c, w, s, act)
    ensures s.sh.failed <= Next(c, w, s, act).sh.failed && |Next(c, w, s, act).jobs| == |s.jobs|
    ensures s.sh.cancelled ==> Next(c, w, s, act).sh.cancelled
  {
    match act
    case Step(i, x) => StepKind(c, w, i, s.jobs[i], s.sh, x); OthersUntouched(c, w, s, act);
    case _ =>
  }

  lemma InvStep(c: Config, w: World, s: State, a: Action)
    requires Inv(c, w, s) && Enabled(c, w, s, a)
    ensures Inv(c, w, Next(c, w, s, a))
  {
    ShapeStep(c, w, s, a);
    SemaphoresStep(c, w, s, a);
    JobsStep(c, w, s, a);
    ReportsStep(c, w, s, a);
    DeathsStep(c, w, s, a);
  }

  /** Every interleaving keeps the invariant. */
  lemma {:induction false} ReachableInv(c: Config, w: World, acts: seq<Action>, s: State)
    requires Reaches(c, w, acts, s)
    ensures Inv(c, w, s)
    decreases |acts|
  {
    if acts == [] {
      InitInv(c, w);
    } else {
      var last := |acts| - 1;
      var before := After(c, w, acts[..last]).value;
      ReachableInv(c, w, acts[..last], before);
      InvStep(c, w, before, acts[last]);
    }
  }
}
