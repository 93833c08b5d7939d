/** Runs in which one job goes on by itself, and what every step of such a run keeps. */
module RotationSolo {
  import opened Sequences
  import opened Votes
  import opened Rotation
  import opened RotationInvariant
  import opened RotationProgress
  import opened RotationSafety

  /** The world in which dials answer as a function says. */
  function WorldOf(f: (nat, nat) -> Answer): World {
    (i: nat, k: nat, a: Answer) => a == f(i, k)
  }

  lemma WorldAnswers(f: (nat, nat) -> Answer)
    ensures Answers(WorldOf(f))
  {
    forall i, k ensures Answerable(WorldOf(f), i, k) {
      assert WorldOf(f)(i, k, f(i, k));
    }
  }

  /** Only this job's steps. */
  ghost predicate StepsOf(acts: seq<Action>, i: nat) {
    forall a :: a in acts ==> a.Step? && a.job == i
  }

  lemma JobCanStep(c: Config, w: World, s: State, i: nat) returns (act: JobAct)
    requires Orderly(c, s) && Answers(w) && i < |s.jobs| && Live(s.jobs[i]) > 0
    requires s.sh.dialSem == DialsInUse(s.jobs[i])
    ensures Enabled(c, w, s, Step(i, act))
  {
    SumAtLeast(Live, s.jobs, i);
    if Ready(s.jobs[i]) {
      act := ReadyJobSteps(c, w, i, s.jobs[i], s.sh);
    } else {
      var b: nat :| b < |s.jobs[i].slots| && !s.jobs[i].slots[b].Done?;
      SumZero(InUse, s.jobs[i].slots);
      act := Acquire(b);
    }
  }

  lemma OwnDials(c: Config, w: World, s: State, i: nat, act: JobAct)
    requires Orderly(c, s) && Enabled(c, w, s, Step(i, act)) && s.sh.dialSem == DialsInUse(s.jobs[i])
    ensures var s' := Next(c, w, s, Step(i, act)); s'.sh.dialSem == DialsInUse(s'.jobs[i])
  {
    JobSemaphores(c, w, i, s.jobs[i], s.sh, act);
  }

  lemma SoloStep(c: Config, w: World, acts: seq<Action>, s: State, i: nat) returns (act: JobAct, t: State)
    requires Reaches(c, w, acts, s) && Answers(w) && i < |s.jobs| && Live(s.jobs[i]) > 0 && !Decided(s.jobs[i])
    requires s.sh.dialSem == DialsInUse(s.jobs[i])
    ensures Reaches(c, w, acts + [Step(i, act)], t) && |t.jobs| == |s.jobs| && Live(t.jobs[i]) > 0
    ensures t.sh.dialSem == DialsInUse(t.jobs[i]) && Remaining(c, t) < Remaining(c, s)
  {
    ReachableOrderly(c, w, acts, s);
    act := JobCanStep(c, w, s, i);
    t := Next(c, w, s, Step(i, act));
    WorkFalls(c, w, s, Step(i, act));
    ReachesOn(c, w, acts, s, Step(i, act));
    StepKind(c, w, i, s.jobs[i], s.sh, act);
    OwnDials(c, w, s, i, act);
  }

  lemma StepFirst(acts: seq<Action>, act: JobAct, rest: seq<Action>, i: nat)
    requires StepsOf(rest, i)
    ensures StepsOf([Step(i, act)] + rest, i)
    ensures acts + ([Step(i, act)] + rest) == (acts + [Step(i, act)]) + rest
  {
  }

  /** A job that holds the only dials in hand can go on by itself until its outcome is stored. */
  lemma {:induction false} SoloRun(c: Config, w: World, acts: seq<Action>, s: State, i: nat)
    returns (more: seq<Action>, end: State)
    requires Reaches(c, w, acts, s) && Answers(w) && i < |s.jobs| && Live(s.jobs[i]) > 0
    requires s.sh.dialSem == DialsInUse(s.jobs[i])
    ensures Reaches(c, w, acts + more, end) && StepsOf(more, i)
    ensures |end.jobs| == |s.jobs| && Decided(end.jobs[i])
    decreases Remaining(c, s)
  {
    if Decided(s.jobs[i]) {
      more, end := [], s;
      assert acts + [] == acts;
    } else {
      var act, t := SoloStep(c, w, acts, s, i);
      var rest;
      rest, end := SoloRun(c, w, acts + [Step(i, act)], t, i);
      more := [Step(i, act)] + rest;
      StepFirst(acts, act, rest, i);
    }
  }

  /** What each of the job's steps keeps, the run keeps. */
  lemma {:induction false} SoloKeeps(
      c: Config, w: World, acts: seq<Action>, s: State, more: seq<Action>, end: State, i: nat, p: State -> bool)
    requires Reaches(c, w, acts, s) && Reaches(c, w, acts + more, end) && StepsOf(more, i)
    requires p(s)
    requires forall t, act :: Inv(c, w, t) && p(t) && Enabled(c, w, t, Step(i, act)) ==> p(Next(c, w, t, Step(i, act)))
    ensures p(end)
    decreases |more|
  {
    if more == [] {
      assert acts + more == acts;
    } else {
      var last := |more| - 1;
      var all := acts + more;
      assert all[..|all| - 1] == acts + more[..last] && all[|all| - 1] == more[last];
      var before := After(c, w, acts + more[..last]).value;
      SoloKeeps(c, w, acts, s, more[..last], before, i, p);
      ReachableInv(c, w, acts + more[..last], before);
      assert more[last] in more && more[last] == Step(i, more[last].act);
    }
  }

  /** The other jobs, the dispatcher, the context and the clock are as they were. */
  ghost predicate Beside(s: State, t: State, i: nat) {
    && |t.jobs| == |s.jobs| && (forall j :: 0 <= j < |s.jobs| && j != i ==> t.jobs[j] == s.jobs[j])
    && t.disp == s.disp && t.sh.cancelled == s.sh.cancelled && t.sh.clock == s.sh.clock
    && s.sh.failed <= t.sh.failed
  }

  lemma BesideStep(c: Config, w: World, s: State, t: State, i: nat, act: JobAct)
    requires ValidConfig(c) && Shape(c, t) && Beside(s, t, i) && Enabled(c, w, t, Step(i, act))
    ensures Beside(s, Next(c, w, t, Step(i, act)), i)
  {
    StepKind(c, w, i, t.jobs[i], t.sh, act);
    OthersUntouched(c, w, t, Step(i, act));
  }

  lemma SoloBeside(c: Config, w: World, acts: seq<Action>, s: State, more: seq<Action>, end: State, i: nat)
    requires Reaches(c, w, acts, s) && Reaches(c, w, acts + more, end) && StepsOf(more, i)
    ensures Beside(s, end, i)
  {
    var p := (t: State) => Beside(s, t, i);
    forall t, act | Inv(c, w, t) && p(t) && Enabled(c, w, t, Step(i, act)) ensures p(Next(c, w, t, Step(i, act))) {
      BesideStep(c, w, s, t, i, act);
    }
    SoloKeeps(c, w, acts, s, more, end, i, p);
  }

  /** The dispatcher launches the next job if a place is free. */
  lemma Launch(c: Config, w: World, acts: seq<Action>, s: State) returns (acts': seq<Action>, s': State)
    requires Reaches(c, w, acts, s) && !s.sh.cancelled && s.disp.AtCheck?
    requires s.disp.next < |c.targets| == |s.jobs| && s.sh.jobSem < c.conc
    ensures Reaches(c, w, acts', s')
    ensures s' == State(AtCheck(s.disp.next + 1), s.jobs[s.disp.next := Head([], 0)], s.sh.(jobSem := s.sh.jobSem + 1))
  {
    var t := Next(c, w, s, Dispatch);
    ReachesOn(c, w, acts, s, Dispatch);
    ReachesOn(c, w, acts + [Dispatch], t, Dispatch);
    acts', s' := acts + [Dispatch] + [Dispatch], Next(c, w, t, Dispatch);
  }

  /** Job i has stored this outcome, having dialled these offsets. */
  ghost predicate Stored(s: State, i: nat, oc: PortOutcome, log: seq<nat>) {
    && i < |s.jobs| && i < |s.sh.outcomes| && i < |s.sh.dialled|
    && Decided(s.jobs[i]) && s.sh.outcomes[i] == oc && s.sh.dialled[i] == log
  }

  lemma StoredStep(c: Config, w: World, s: State, a: Action, i: nat, oc: PortOutcome, log: seq<nat>)
    requires ValidConfig(c) && Shape(c, s) && Enabled(c, w, s, a) && Stored(s, i, oc, log)
    ensures Stored(Next(c, w, s, a), i, oc, log)
  {
    match a
    case Step(j, act) => StepKind(c, w, j, s.jobs[j], s.sh, act);
    case _ =>
  }

  /** Once an outcome is stored, nothing changes it or adds to the job's dials. */
  lemma {:induction false} DecidedStays(
      c: Config, w: World, acts: seq<Action>, s: State, more: seq<Action>, end: State,
      i: nat, oc: PortOutcome, log: seq<nat>)
    requires Reaches(c, w, acts, s) && Reaches(c, w, acts + more, end) && Stored(s, i, oc, log)
    ensures Stored(end, i, oc, log)
    decreases |more|
  {
    if more == [] {
      assert acts + more == acts;
    } else {
      var last := |more| - 1;
      var all := acts + more;
      assert all[..|all| - 1] == acts + more[..last] && all[|all| - 1] == more[last];
      var before := After(c, w, acts + more[..last]).value;
      DecidedStays(c, w, acts, s, more[..last], before, i, oc, log);
      ReachableInv(c, w, acts + more[..last], before);
      StoredStep(c, w, before, more[last], i, oc, log);
    }
  }

  /** A run in which an outcome is stored can be played to its return, outcome and dials as they were. */
  lemma PlayOut(c: Config, w: World, acts: seq<Action>, s: State, i: nat) returns (acts': seq<Action>, end: State)
    requires Reaches(c, w, acts, s) && Answers(w) && !s.sh.cancelled
    requires i < |s.jobs| && Decided(s.jobs[i])
    ensures Reaches(c, w, acts', end) && end.disp.Returned? && !end.sh.cancelled
    ensures |end.jobs| == |end.sh.outcomes| == |end.sh.dialled| == |c.targets| == |s.sh.outcomes| == |s.sh.dialled|
    ensures i < |c.targets| && Stored(end, i, s.sh.outcomes[i], s.sh.dialled[i])
  {
    var more;
    more, end := EveryRunCanFinish(c, w, acts, s);
    acts' := acts + more;
    ReachableInv(c, w, acts, s);
    DecidedStays(c, w, acts, s, more, end, i, s.sh.outcomes[i], s.sh.dialled[i]);
    ReachableInv(c, w, acts', end);
  }
}
