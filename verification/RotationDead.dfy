/** A proxy that is always dead costs a bounded number of dials, however many targets there are. */
module RotationDead {
  import opened Sequences
  import opened Votes
  import opened Rotation
  import opened RotationJob
  import opened RotationInvariant

  /** Every dial through this address is classified dead. */
  ghost predicate AlwaysDead(c: Config, w: World, a: string)
    requires ValidConfig(c)
  {
    forall i, k, answer :: w(i, k, answer) && AddrOf(c, i, k) == a ==> answer == ProxyFault(true)
  }

  /** How often a job's dial record names an address. */
  function Times(c: Config, i: nat, log: seq<nat>, a: string): nat
    requires |c.addrs| > 0
  {
    Matches((k: nat) => AddrOf(c, i, k) == a, log)
  }

  ghost function TimesFn(c: Config, dialled: seq<seq<nat>>, a: string): nat -> nat
    requires |c.addrs| > 0
  {
    (i: nat) => if i < |dialled| then Times(c, i, dialled[i], a) else 0
  }

  /** How often the whole scan has dialled an address. */
  ghost function DialsOf(c: Config, s: State, a: string): nat
    requires |c.addrs| > 0
  {
    SumFrom(TimesFn(c, s.sh.dialled, a), 0, |s.jobs|)
  }

  /** The job has an offset in hand that it may still dial. */
  predicate Pending(job: Job, k: nat) {
    match job
    case Collect(_, used, _, batch, resting, looking) => k in batch || k in resting || (looking && k + 1 == used)
    case Dialing(_, _, _, batch, _) => k in batch
    case _ => false
  }

  /** The job has dialled the address or may still dial it. */
  ghost predicate Picked(c: Config, i: nat, job: Job, log: seq<nat>, a: string)
    requires |c.addrs| > 0
  {
    exists k: nat :: k < |c.addrs| && AddrOf(c, i, k) == a && (k in log || Pending(job, k))
  }

  ghost function PickedFn(c: Config, s: State, a: string): nat -> nat
    requires |c.addrs| > 0
  {
    (i: nat) => if i < |s.jobs| && i < |s.sh.dialled| && Picked(c, i, s.jobs[i], s.sh.dialled[i], a) then 1 else 0
  }

  ghost predicate BeingDialled(job: Job, k: nat) {
    job.Dialing? && |job.slots| == |job.batch| &&
    exists b :: 0 <= b < |job.batch| && job.batch[b] == k && (job.slots[b].InFlight? || job.slots[b].Answered?)
  }

  /** Until the address is marked, a dial of it is still in the hands of the job that made it. */
  ghost predicate InHand(c: Config, i: nat, job: Job, log: seq<nat>, a: string)
    requires |c.addrs| > 0
  {
    forall k :: k in log && AddrOf(c, i, k) == a ==> BeingDialled(job, k)
  }

  /** How many pool entries have this address. */
  function Share(c: Config, a: string): nat {
    |set j | j in Below(|c.addrs|) && c.addrs[j] == a|
  }

  ghost predicate DeadOk(c: Config, s: State, a: string)
    requires |c.addrs| > 0
  {
    && (s.sh.cancelled ==> DialsOf(c, s, a) <= Share(c, a) * c.conc)
    && (!s.sh.cancelled && a in s.sh.failed ==> SumFrom(PickedFn(c, s, a), 0, |s.jobs|) <= c.conc)
    && (!s.sh.cancelled && a !in s.sh.failed ==>
          |s.sh.dialled| == |s.jobs| && forall i :: 0 <= i < |s.jobs| ==> InHand(c, i, s.jobs[i], s.sh.dialled[i], a))
  }

  lemma OneOffset(c: Config, i: nat, k: nat, m: nat)
    requires |c.addrs| > 0 && NoDup(c.addrs) && k < |c.addrs| && m < |c.addrs|
    requires AddrOf(c, i, k) == AddrOf(c, i, m)
    ensures k == m
  {
    if k < m { PositionsDiffer(c, i, k, m); }
    if m < k { PositionsDiffer(c, i, m, k); }
  }

  /** The pool entries behind the dials of an address. */
  lemma {:induction false} EntriesDialled(c: Config, i: nat, log: seq<nat>, a: string) returns (entries: seq<nat>)
    requires |c.addrs| > 0 && NoDup(log) && forall k :: k in log ==> k < |c.addrs|
    ensures NoDup(entries) && |entries| == Times(c, i, log, a)
    ensures forall j :: j in entries ==> exists k :: k in log && AddrOf(c, i, k) == a && Position(c, i, k) == j
  {
    entries := [];
    if log != [] {
      var init, last := log[..|log| - 1], log[|log| - 1];
      assert log == init + [last] && last in log;
      forall k | k in init ensures k in log && k != last {}
      entries := EntriesDialled(c, i, init, a);
      if AddrOf(c, i, last) == a {
        forall k | k in init ensures Position(c, i, k) != Position(c, i, last) {
          if k < last { PositionsDiffer(c, i, k, last); } else { PositionsDiffer(c, i, last, k); }
        }
        NoDupAppend(entries, Position(c, i, last));
        entries := entries + [Position(c, i, last)];
      }
    }
  }

  /** A job dials an address at most once for each pool entry that has it, and only if it picked it. */
  lemma TimesAtMostShare(c: Config, i: nat, log: seq<nat>, a: string)
    requires |c.addrs| > 0 && NoDup(log) && forall k :: k in log ==> k < |c.addrs|
    ensures Times(c, i, log, a) <= Share(c, a)
    ensures Times(c, i, log, a) > 0 ==> exists k :: k in log && AddrOf(c, i, k) == a
  {
    var entries := EntriesDialled(c, i, log, a);
    NoDupSize(entries);
    SubsetSize(Elems(entries), set j | j in Below(|c.addrs|) && c.addrs[j] == a);
    if entries != [] { assert entries[0] in entries; }
  }

  /** Dials of the address are bounded by the jobs that picked it. */
  lemma DialsAtMostPicked(c: Config, w: World, s: State, a: string)
    requires Inv(c, w, s)
    ensures DialsOf(c, s, a) <= Share(c, a) * SumFrom(PickedFn(c, s, a), 0, |s.jobs|)
  {
    var f, g := TimesFn(c, s.sh.dialled, a), PickedFn(c, s, a);
    forall i: nat | i < |s.jobs| ensures f(i) <= Share(c, a) * g(i) {
      assert JobOk(c, w, i, s.jobs[i], s.sh);
      var log := s.sh.dialled[i];
      TimesAtMostShare(c, i, log, a);
      if Times(c, i, log, a) > 0 {
        var k :| k in log && AddrOf(c, i, k) == a;
        assert Picked(c, i, s.jobs[i], log, a);
      }
    }
    SumFromScaled(f, g, Share(c, a), 0, |s.jobs|);
  }

  lemma SharedOut(share: nat, picked: nat, conc: nat)
    requires picked <= conc
    ensures share * picked <= share * conc
  {
  }

  lemma LoneShare(share: nat, conc: nat)
    requires share <= 1
    ensures share * conc <= conc
  {
  }

  /** Distinct addresses have one entry each. */
  lemma DistinctShare(c: Config, a: string)
    requires NoDup(c.addrs)
    ensures Share(c, a) <= 1
  {
    var entries := set j | j in Below(|c.addrs|) && c.addrs[j] == a;
    if j :| j in entries { assert entries == {j}; }
  }

  lemma PickerIsLive(c: Config, i: nat, job: Job, log: seq<nat>, a: string)
    requires |c.addrs| > 0 && InHand(c, i, job, log, a)
    ensures Picked(c, i, job, log, a) ==> Live(job) == 1
  {
  }

  /** Until the address is marked, the jobs that picked it are live, so they fit the job semaphore. */
  lemma PickersAreLive(c: Config, w: World, s: State, a: string)
    requires Inv(c, w, s) && !s.sh.cancelled && a !in s.sh.failed && DeadOk(c, s, a)
    ensures SumFrom(PickedFn(c, s, a), 0, |s.jobs|) <= c.conc
  {
    var f := PickedFn(c, s, a);
    var g := (i: nat) => if i < |s.jobs| then Live(s.jobs[i]) else 0;
    forall i: nat | i < |s.jobs| ensures f(i) <= g(i) {
      assert JobOk(c, w, i, s.jobs[i], s.sh) && InHand(c, i, s.jobs[i], s.sh.dialled[i], a);
      PickerIsLive(c, i, s.jobs[i], s.sh.dialled[i], a);
    }
    SumFromMonotone(f, g, 0, |s.jobs|);
    SumFromSeq(Live, s.jobs, g, 0);
    assert s.jobs[0..] == s.jobs;
  }

  lemma PendingFinds(c: Config, w: World, i: nat, job: Job, sh: Shared, act: JobAct, k: nat)
    requires ValidConfig(c) && JobEnabled(c, w, i, job, sh, act)
    requires Pending(JobAfter(c, w, i, job, sh, act), k)
    ensures Pending(job, k) || (act.Look? && k == job.used && AddrOf(c, i, k) !in sh.failed)
  {
    match act
    case Spawn =>
      var batch := TopUp(job.batch, job.resting, Want(c, job.votes));
      assert k in batch;
    case _ =>
  }

  /** Once the address is marked, no job picks it anew. */
  lemma PickedStep(c: Config, w: World, i: nat, job: Job, sh: Shared, act: JobAct, a: string)
    requires ValidConfig(c) && JobEnabled(c, w, i, job, sh, act) && i < |sh.dialled|
    requires a in sh.failed || !act.Look?
    requires Picked(c, i, JobAfter(c, w, i, job, sh, act), SharedAfter(c, w, i, job, sh, act).dialled[i], a)
    ensures Picked(c, i, job, sh.dialled[i], a)
  {
    var k: nat :| k < |c.addrs| && AddrOf(c, i, k) == a
      && (k in SharedAfter(c, w, i, job, sh, act).dialled[i] || Pending(JobAfter(c, w, i, job, sh, act), k));
    if Pending(JobAfter(c, w, i, job, sh, act), k) {
      PendingFinds(c, w, i, job, sh, act, k);
    }
  }

  /** A dial that will condemn its address is in hand until it has. */
  lemma DialGoesOn(c: Config, w: World, i: nat, job: Job, sh: Shared, act: JobAct, k: nat)
    requires ValidConfig(c) && JobEnabled(c, w, i, job, sh, act) && BeingDialled(job, k)
    requires AlwaysDead(c, w, AddrOf(c, i, k)) && !sh.cancelled && Truthful(w, i, job, false)
    requires AddrOf(c, i, k) !in SharedAfter(c, w, i, job, sh, act).failed
    ensures BeingDialled(JobAfter(c, w, i, job, sh, act), k)
  {
    var after := JobAfter(c, w, i, job, sh, act);
    var b :| 0 <= b < |job.batch| && job.batch[b] == k && (job.slots[b].InFlight? || job.slots[b].Answered?);
    assert !act.Join?;
    assert job.slots[b].Answered? ==> job.slots[b].answer == ProxyFault(true);
    assert after.slots[b].InFlight? || after.slots[b].Answered?;
  }

  /** Until the address is marked, every dial of it stays in hand. */
  lemma InHandStep(c: Config, w: World, i: nat, job: Job, sh: Shared, act: JobAct, a: string)
    requires JobOk(c, w, i, job, sh) && JobEnabled(c, w, i, job, sh, act)
    requires AlwaysDead(c, w, a) && !sh.cancelled && a !in SharedAfter(c, w, i, job, sh, act).failed
    requires InHand(c, i, job, sh.dialled[i], a)
    ensures InHand(c, i, JobAfter(c, w, i, job, sh, act), SharedAfter(c, w, i, job, sh, act).dialled[i], a)
  {
    var after, log' := JobAfter(c, w, i, job, sh, act), SharedAfter(c, w, i, job, sh, act).dialled[i];
    forall k | k in log' && AddrOf(c, i, k) == a ensures BeingDialled(after, k) {
      if k in sh.dialled[i] {
        DialGoesOn(c, w, i, job, sh, act, k);
      } else {
        assert act.Begin? && k == job.batch[act.s] && after.slots[act.s].InFlight?;
      }
    }
  }

  lemma InitDead(c: Config, a: string)
    requires ValidConfig(c)
    ensures DeadOk(c, Init(c), a)
  {
  }

  /** No dial begins once the scan is cancelled. */
  lemma CancelledDialsNothing(c: Config, w: World, s: State, act: Action)
    requires ValidConfig(c) && Enabled(c, w, s, act) && Next(c, w, s, act).sh.cancelled
    ensures Next(c, w, s, act).sh.dialled == s.sh.dialled && |Next(c, w, s, act).jobs| == |s.jobs|
  {
    match act
    case Step(i, a) => StepKind(c, w, i, s.jobs[i], s.sh, a);
    case _ =>
  }

  lemma PickedFrame(c: Config, w: World, s: State, act: Action, a: string, i: nat)
    requires ValidConfig(c) && Shape(c, s) && Enabled(c, w, s, act) && i < |s.jobs|
    requires a in Next(c, w, s, act).sh.failed
    ensures PickedFn(c, Next(c, w, s, act), a)(i) <= PickedFn(c, s, a)(i)
  {
    match act
    case Step(j, x) =>
      StepKind(c, w, j, s.jobs[j], s.sh, x);
      if i == j && PickedFn(c, Next(c, w, s, act), a)(i) == 1 {
        PickedStep(c, w, i, s.jobs[i], s.sh, x, a);
      }
    case _ =>
  }

  lemma InHandAll(c: Config, w: World, s: State, act: Action, a: string)
    requires Inv(c, w, s) && Enabled(c, w, s, act) && AlwaysDead(c, w, a)
    requires !Next(c, w, s, act).sh.cancelled && a !in Next(c, w, s, act).sh.failed
    requires forall i :: 0 <= i < |s.jobs| ==> InHand(c, i, s.jobs[i], s.sh.dialled[i], a)
    ensures var s' := Next(c, w, s, act);
            && |s'.jobs| == |s'.sh.dialled|
            && forall i :: 0 <= i < |s'.jobs| ==> InHand(c, i, s'.jobs[i], s'.sh.dialled[i], a)
  {
    var s' := Next(c, w, s, act);
    match act
    case Step(j, x) =>
      StepKind(c, w, j, s.jobs[j], s.sh, x);
      assert InHand(c, j, s.jobs[j], s.sh.dialled[j], a) && JobOk(c, w, j, s.jobs[j], s.sh);
      InHandStep(c, w, j, s.jobs[j], s.sh, x, a);
      OthersUntouched(c, w, s, act);
    case Dispatch =>
      if s.disp.AtAcquire? { assert JobOk(c, w, s.disp.next, s.jobs[s.disp.next], s.sh); }
    case _ =>
  }

  lemma PickedAll(c: Config, w: World, s: State, act: Action, a: string)
    requires ValidConfig(c) && Shape(c, s) && Enabled(c, w, s, act)
    requires a in Next(c, w, s, act).sh.failed
    ensures |Next(c, w, s, act).jobs| == |s.jobs|
    ensures SumFrom(PickedFn(c, Next(c, w, s, act), a), 0, |s.jobs|) <= SumFrom(PickedFn(c, s, a), 0, |s.jobs|)
  {
    var f', f := PickedFn(c, Next(c, w, s, act), a), PickedFn(c, s, a);
    MarksGrow(c, w, s, act);
    forall i: nat | i < |s.jobs| ensures f'(i) <= f(i) {
      PickedFrame(c, w, s, act, a, i);
    }
    SumFromMonotone(f', f, 0, |s.jobs|);
  }

  lemma DialsFew(c: Config, w: World, s: State, a: string)
    requires Inv(c, w, s) && DeadOk(c, s, a)
    ensures DialsOf(c, s, a) <= Share(c, a) * c.conc
  {
    if !s.sh.cancelled {
      if a !in s.sh.failed { PickersAreLive(c, w, s, a); }
      DialsAtMostPicked(c, w, s, a);
      SharedOut(Share(c, a), SumFrom(PickedFn(c, s, a), 0, |s.jobs|), c.conc);
    }
  }

  lemma MarkedStep(c: Config, w: World, s: State, act: Action, a: string)
    requires Inv(c, w, s) && Enabled(c, w, s, act) && DeadOk(c, s, a)
    requires !Next(c, w, s, act).sh.cancelled && a in Next(c, w, s, act).sh.failed
    ensures SumFrom(PickedFn(c, Next(c, w, s, act), a), 0, |Next(c, w, s, act).jobs|) <= c.conc
  {
    MarksGrow(c, w, s, act);
    if a !in s.sh.failed { PickersAreLive(c, w, s, a); }
    PickedAll(c, w, s, act, a);
  }

  lemma CancelledStep(c: Config, w: World, s: State, act: Action, a: string)
    requires Inv(c, w, s) && Enabled(c, w, s, act) && DeadOk(c, s, a) && Next(c, w, s, act).sh.cancelled
    ensures DialsOf(c, Next(c, w, s, act), a) <= Share(c, a) * c.conc
  {
    DialsFew(c, w, s, a);
    CancelledDialsNothing(c, w, s, act);
  }

  lemma DeadStep(c: Config, w: World, s: State, act: Action, a: string)
    requires Inv(c, w, s) && Enabled(c, w, s, act) && AlwaysDead(c, w, a)
    requires DeadOk(c, s, a)
    ensures DeadOk(c, Next(c, w, s, act), a)
  {
    var s' := Next(c, w, s, act);
    if s'.sh.cancelled {
      CancelledStep(c, w, s, act, a);
    } else if a in s'.sh.failed {
      MarkedStep(c, w, s, act, a);
    } else {
      MarksGrow(c, w, s, act);
      InHandAll(c, w, s, act, a);
    }
  }

  lemma {:induction false} ReachableDead(c: Config, w: World, acts: seq<Action>, s: State, a: string)
    requires Reaches(c, w, acts, s) && AlwaysDead(c, w, a)
    ensures DeadOk(c, s, a)
    decreases |acts|
  {
    if acts == [] {
      InitDead(c, a);
    } else {
      var last := |acts| - 1;
      var before := After(c, w, acts[..last]).value;
      ReachableDead(c, w, acts[..last], before, a);
      ReachableInv(c, w, acts[..last], before);
      DeadStep(c, w, before, acts[last], a);
    }
  }

  /**
   * A proxy whose every dial is classified dead is dialled at most `conc` times over the whole scan for
   * each pool entry that has its address, for any number of hosts and ports, cancelled or not.
   */
  lemma DeadProxyIsCheap(c: Config, w: World, acts: seq<Action>, s: State, a: string)
    requires Reaches(c, w, acts, s) && AlwaysDead(c, w, a)
    ensures DialsOf(c, s, a) <= Share(c, a) * c.conc
    ensures NoDup(c.addrs) ==> DialsOf(c, s, a) <= c.conc
  {
    ReachableInv(c, w, acts, s);
    ReachableDead(c, w, acts, s, a);
    DialsFew(c, w, s, a);
    if NoDup(c.addrs) {
      DistinctShare(c, a);
      LoneShare(Share(c, a), c.conc);
    }
  }
}
