/**
 * Where the schedule can show: unless jobs run one at a time, some dials that answer as a function
 * lead to different outcomes, one target having condemned a proxy before or after another needed it.
 */
module RotationRace {
  import opened Sequences
  import opened Votes
  import opened Rotation
  import opened RotationInvariant
  import opened RotationSafety
  import opened RotationSchedule
  import opened RotationSolo

  /** Every proxy is found dead on the way to target 0; just a quorum of them opens any other. */
  function RaceDial(c: Config): Dial {
    (i: nat, k: nat) =>
      if i == 0 then ProxyFault(true) else if k < c.quorum then Connected("", "", "") else ProxyFault(false)
  }

  /** Two jobs may be live and two targets are there. */
  ghost predicate Racing(c: Config) {
    ValidConfig(c) && Unpaced(c) && c.conc >= 2 && |c.targets| >= 2
  }

  /** The size of a first round. */
  function FirstSize(c: Config): nat {
    if c.quorum + 2 < |c.addrs| then c.quorum + 2 else |c.addrs|
  }

  /** With nobody dead the first round takes the offsets as they come. */
  lemma {:induction false} GatherSpan(c: Config, i: nat, used: nat)
    requires |c.addrs| > 0 && used <= FirstSize(c)
    ensures Gather(c, i, {}, used, c.quorum + 2, Span(0, used)) == (Span(0, FirstSize(c)), FirstSize(c))
    decreases |c.addrs| - used
  {
    if used < FirstSize(c) {
      assert Span(0, used) + [used] == Span(0, used + 1);
      GatherSpan(c, i, used + 1);
    }
  }

  lemma FirstRound(c: Config, f: Dial, i: nat)
    requires ValidConfig(c)
    ensures var batch := Span(0, FirstSize(c));
            Rounds(c, f, i, [], 0, {}) == Rounds(c, f, i, CastBy(f, i, batch), FirstSize(c), Condemned(c, f, i, batch))
  {
    var batch := Span(0, FirstSize(c));
    GatherSpan(c, i, 0);
    assert Guard(c, [], 0) && Want(c, []) == c.quorum + 2;
    assert [] + CastBy(f, i, batch) == CastBy(f, i, batch);
    assert {} + Condemned(c, f, i, batch) == Condemned(c, f, i, batch);
  }

  /** Of the first n offsets, those below the quorum open. */
  lemma {:induction false} SpanOpens(c: Config, i: nat, n: nat)
    requires i > 0
    ensures var votes := CastBy(RaceDial(c), i, Span(0, n));
            Opens(votes) == (if n < c.quorum then n else c.quorum) && !Refused(votes)
  {
    var f := RaceDial(c);
    if n > 0 {
      SpanOpens(c, i, n - 1);
      TallyAppend(CastBy(f, i, Span(0, n - 1)), Vote(n - 1, f(i, n - 1)));
      assert CastBy(f, i, Span(0, n)) == CastBy(f, i, Span(0, n - 1)) + [Vote(n - 1, f(i, n - 1))];
    }
  }

  /** With the pool untouched, the first round opens target i. */
  lemma UntouchedOpens(c: Config, i: nat)
    requires ValidConfig(c) && i > 0
    ensures var votes := Rounds(c, RaceDial(c), i, [], 0, {}).votes;
            Opens(votes) >= c.quorum && !Refused(votes)
  {
    FirstRound(c, RaceDial(c), i);
    SpanOpens(c, i, FirstSize(c));
  }

  lemma {:induction false} RoundsCondemn(c: Config, f: Dial, i: nat, votes: seq<Vote>, used: nat, failed: set<string>)
    requires |c.addrs| > 0
    ensures failed <= Rounds(c, f, i, votes, used, failed).failed
    decreases |c.addrs| - used
  {
    if Guard(c, votes, used) {
      var (batch, used') := Gather(c, i, failed, used, Want(c, votes), []);
      if batch != [] {
        RoundsCondemn(c, f, i, votes + CastBy(f, i, batch), used', failed + Condemned(c, f, i, batch));
      }
    }
  }

  /** Where job 1 begins, in job 0's offsets. */
  lemma SecondStart(c: Config) returns (k: nat)
    requires |c.addrs| > 0
    ensures k < |c.addrs| && k < 2 && Position(c, 0, k) == Position(c, 1, 0)
  {
    k := if |c.addrs| == 1 then 0 else 1;
    Reduced(0, |c.addrs|);
    Reduced(1, |c.addrs|);
    Reduced(k, |c.addrs|);
  }

  lemma FirstRoundCondemns(c: Config, k: nat)
    requires ValidConfig(c) && k < FirstSize(c)
    ensures AddrOf(c, 0, k) in Condemned(c, RaceDial(c), 0, Span(0, FirstSize(c)))
  {
    assert Span(0, FirstSize(c))[k] == k;
  }

  /** Target 0 condemns the proxy that target 1 begins with. */
  lemma FirstCondemns(c: Config)
    requires ValidConfig(c)
    ensures AddrOf(c, 1, 0) in Rounds(c, RaceDial(c), 0, [], 0, {}).failed
  {
    var f, batch := RaceDial(c), Span(0, FirstSize(c));
    FirstRound(c, f, 0);
    RoundsCondemn(c, f, 0, CastBy(f, 0, batch), FirstSize(c), Condemned(c, f, 0, batch));
    var k := SecondStart(c);
    FirstRoundCondemns(c, k);
  }

  lemma {:induction false} GatherAvoids(
      c: Config, i: nat, failed: set<string>, used: nat, want: nat, batch: seq<nat>, k: nat)
    requires |c.addrs| > 0 && AddrOf(c, i, k) in failed && k !in batch
    ensures k !in Gather(c, i, failed, used, want, batch).0
    decreases |c.addrs| - used
  {
    if |batch| < want && used < |c.addrs| {
      GatherAvoids(c, i, failed, used + 1, want, if AddrOf(c, i, used) in failed then batch else batch + [used], k);
    }
  }

  /** Nobody who is already condemned votes. */
  lemma {:induction false} RoundsAvoid(
      c: Config, f: Dial, i: nat, votes: seq<Vote>, used: nat, failed: set<string>, k: nat)
    requires |c.addrs| > 0 && AddrOf(c, i, k) in failed
    requires forall v :: v in votes ==> v.at != k
    ensures forall v :: v in Rounds(c, f, i, votes, used, failed).votes ==> v.at != k
    decreases |c.addrs| - used
  {
    if Guard(c, votes, used) {
      var (batch, used') := Gather(c, i, failed, used, Want(c, votes), []);
      GatherAvoids(c, i, failed, used, Want(c, votes), [], k);
      if batch != [] {
        RoundsAvoid(c, f, i, votes + CastBy(f, i, batch), used', failed + Condemned(c, f, i, batch), k);
      }
    }
  }

  /** Job i is heading for these votes and this dead set. */
  ghost predicate Heading(c: Config, f: Dial, i: nat, ending: Ending, s: State)
    requires |c.addrs| > 0
  {
    i < |s.jobs| && !s.sh.cancelled && Alone(c, f, i, s.jobs[i], s.sh.failed) == ending
  }

  lemma HeadingStep(c: Config, f: Dial, i: nat, ending: Ending, t: State, act: JobAct)
    requires Inv(c, WorldOf(f), t) && Heading(c, f, i, ending, t) && Unpaced(c)
    requires Enabled(c, WorldOf(f), t, Step(i, act))
    ensures Heading(c, f, i, ending, Next(c, WorldOf(f), t, Step(i, act)))
  {
    assert JobOk(c, WorldOf(f), i, t.jobs[i], t.sh);
    StepKind(c, WorldOf(f), i, t.jobs[i], t.sh, act);
    AloneStep(c, WorldOf(f), f, i, t.jobs[i], t.sh, act);
  }

  /** A job just launched, run by itself, ends as its rounds do. */
  lemma SoloEnds(c: Config, f: Dial, acts: seq<Action>, s: State, i: nat) returns (acts': seq<Action>, end: State)
    requires Reaches(c, WorldOf(f), acts, s) && Unpaced(c) && !s.sh.cancelled
    requires i < |s.jobs| && s.jobs[i] == Head([], 0) && s.sh.dialSem == 0
    ensures Reaches(c, WorldOf(f), acts', end) && Beside(s, end, i) && !end.sh.cancelled
    ensures Decided(end.jobs[i]) && Ending(end.jobs[i].votes, end.sh.failed) == Rounds(c, f, i, [], 0, s.sh.failed)
  {
    var w := WorldOf(f);
    WorldAnswers(f);
    var more;
    more, end := SoloRun(c, w, acts, s, i);
    acts' := acts + more;
    SoloBeside(c, w, acts, s, more, end, i);
    var ending := Rounds(c, f, i, [], 0, s.sh.failed);
    var p := (t: State) => Heading(c, f, i, ending, t);
    forall t, act | Inv(c, w, t) && p(t) && Enabled(c, w, t, Step(i, act)) ensures p(Next(c, w, t, Step(i, act))) {
      HeadingStep(c, f, i, ending, t, act);
    }
    SoloKeeps(c, w, acts, s, more, end, i, p);
  }

  /** Target 1 first: it opens. */
  lemma SecondOpens(c: Config) returns (acts: seq<Action>, end: State)
    requires Racing(c)
    ensures Reaches(c, WorldOf(RaceDial(c)), acts, end) && end.disp.Returned? && !end.sh.cancelled
    ensures |end.sh.outcomes| == |c.targets| && end.sh.outcomes[1].verdict == Open
  {
    var f := RaceDial(c);
    var w := WorldOf(f);
    var a, s := Launch(c, w, [], Init(c));
    a, s := Launch(c, w, a, s);
    a, s := SoloEnds(c, f, a, s, 1);
    UntouchedOpens(c, 1);
    ReachableInv(c, w, a, s);
    assert JobOk(c, w, 1, s.jobs[1], s.sh);
    WorldAnswers(f);
    acts, end := PlayOut(c, w, a, s, 1);
  }

  /** Openers short of one are short of a quorum. */
  lemma OpenersShort(c: Config, votes: seq<Vote>)
    requires NoDup(Offsets(votes))
    requires forall v :: v in votes ==> v.at != 0 && v.answer == RaceDial(c)(1, v.at)
    ensures Opens(votes) < c.quorum || c.quorum == 0
  {
    OpenersVoted(votes);
    TallyTotal(votes);
    var openers := Openers(votes);
    forall k | k in openers ensures k in Span(1, c.quorum) {
      var v :| v in votes && v.at == k && v.answer.Connected?;
    }
    Pigeonhole(openers, Span(1, c.quorum));
  }

  /** With job 0 decided and alone, job 1 can be launched. */
  lemma LaunchBeside(c: Config, acts: seq<Action>, s: State) returns (acts': seq<Action>, s': State)
    requires Racing(c) && Reaches(c, WorldOf(RaceDial(c)), acts, s) && !s.sh.cancelled
    requires |s.jobs| == |c.targets| && s.disp == AtCheck(1) && Decided(s.jobs[0])
    ensures Reaches(c, WorldOf(RaceDial(c)), acts', s') && !s'.sh.cancelled && s'.sh.failed == s.sh.failed
    ensures |s'.jobs| == |c.targets| && s'.jobs[1] == Head([], 0) && s'.sh.dialSem == 0
  {
    var w := WorldOf(RaceDial(c));
    ReachableInv(c, w, acts, s);
    forall job | job in s.jobs[1..] ensures Live(job) == 0 && DialsInUse(job) == 0 {
      var k :| 0 <= k < |s.jobs[1..]| && s.jobs[1..][k] == job;
      assert s.jobs[k + 1].Idle?;
    }
    SumZero(Live, s.jobs[1..]);
    SumZero(DialsInUse, s.jobs[1..]);
    acts', s' := Launch(c, w, acts, s);
  }

  lemma ShortIsNotOpen(c: Config, acts: seq<Action>, s: State)
    requires Reaches(c, WorldOf(RaceDial(c)), acts, s) && |s.jobs| >= 2 && Decided(s.jobs[1])
    requires forall v :: v in s.jobs[1].votes ==> v.at != 0
    ensures |s.sh.outcomes| == |s.jobs| == |c.targets| && s.sh.outcomes[1].verdict != Open
  {
    var w := WorldOf(RaceDial(c));
    ReachableInv(c, w, acts, s);
    assert JobOk(c, w, 1, s.jobs[1], s.sh);
    var votes := s.jobs[1].votes;
    forall v | v in votes ensures v.answer == RaceDial(c)(1, v.at) {
      assert w(1, v.at, v.answer);
    }
    OpenersShort(c, votes);
  }

  /** A job 1 that starts without its first proxy does not open. */
  lemma LackingFails(c: Config, acts: seq<Action>, s: State) returns (acts': seq<Action>, end: State)
    requires Racing(c) && Reaches(c, WorldOf(RaceDial(c)), acts, s) && !s.sh.cancelled
    requires |s.jobs| == |c.targets| && s.jobs[1] == Head([], 0) && s.sh.dialSem == 0
    requires AddrOf(c, 1, 0) in s.sh.failed
    ensures Reaches(c, WorldOf(RaceDial(c)), acts', end) && !end.sh.cancelled
    ensures |end.jobs| == |end.sh.outcomes| == |c.targets|
    ensures Decided(end.jobs[1]) && end.sh.outcomes[1].verdict != Open
  {
    var f := RaceDial(c);
    acts', end := SoloEnds(c, f, acts, s, 1);
    RoundsAvoid(c, f, 1, [], 0, s.sh.failed, 0);
    ShortIsNotOpen(c, acts', end);
  }

  /** Target 0 first: target 1 lacks the proxy it begins with. */
  lemma SecondFails(c: Config) returns (acts: seq<Action>, end: State)
    requires Racing(c)
    ensures Reaches(c, WorldOf(RaceDial(c)), acts, end) && end.disp.Returned? && !end.sh.cancelled
    ensures |end.sh.outcomes| == |c.targets| && end.sh.outcomes[1].verdict != Open
  {
    var f := RaceDial(c);
    var a, s := Launch(c, WorldOf(f), [], Init(c));
    a, s := SoloEnds(c, f, a, s, 0);
    FirstCondemns(c);
    a, s := LaunchBeside(c, a, s);
    a, s := LackingFails(c, a, s);
    WorldAnswers(f);
    acts, end := PlayOut(c, WorldOf(f), a, s, 1);
  }

  /** A complete uncancelled run with dials that answer as f says. */
  ghost predicate Finished(c: Config, f: Dial, acts: seq<Action>, s: State) {
    Reaches(c, WorldOf(f), acts, s) && s.disp.Returned? && !s.sh.cancelled
  }

  /**
   * Where two jobs can be live, though the throttle cannot show, one dial function has two complete
   * runs, both uncancelled, that give target 1 different verdicts.
   */
  lemma VerdictDependsOnSchedule(c: Config) returns (acts1: seq<Action>, end1: State, acts2: seq<Action>, end2: State)
    requires Racing(c)
    ensures Deterministic(WorldOf(RaceDial(c)), RaceDial(c))
    ensures Finished(c, RaceDial(c), acts1, end1) && Finished(c, RaceDial(c), acts2, end2)
    ensures |end1.sh.outcomes| == |end2.sh.outcomes| == |c.targets|
    ensures end1.sh.outcomes[1].verdict == Open && end2.sh.outcomes[1].verdict != Open
  {
    acts1, end1 := SecondOpens(c);
    acts2, end2 := SecondFails(c);
  }

  /** Whatever the dial function, every complete uncancelled run returns the same outcomes. */
  ghost predicate ScheduleNeverShows(c: Config) {
    forall f, acts1, s1, acts2, s2 ::
      Finished(c, f, acts1, s1) && Finished(c, f, acts2, s2) ==> s1.sh.outcomes == s2.sh.outcomes
  }
}
