/**
 * In which order the proxies of a finding are named: that of the rotation, unless a throttle makes
 * some of them wait for a round to be topped up.
 */
module RotationTurns {
  import opened Sequences
  import opened Text
  import opened Votes
  import opened Throttle
  import opened Rotation
  import opened RotationJob
  import opened RotationInvariant
  import opened RotationSafety
  import opened RotationSchedule
  import opened RotationSolo
  import opened RotationPace

  /** The offsets a job has voted on or is dialling rise. */
  ghost predicate InTurn(job: Job) {
    && (!job.Idle? ==> Rises(Offsets(job.votes)))
    && (job.Collect? || job.Dialing? ==> Rises(job.batch))
  }

  lemma AskInTurn(c: Config, job: Job)
    requires job.Collect? && job.looking && Placed(c, job) && InTurn(job)
    ensures Rises(job.batch + [job.used - 1])
  {
    RisesConcat(job.batch, [job.used - 1], job.used - 1);
  }

  lemma JoinInTurn(c: Config, job: Job)
    requires job.Dialing? && |job.slots| == |job.batch| && Placed(c, job) && InTurn(job)
    ensures Rises(Offsets(job.votes + Cast(job.batch, job.slots)))
  {
    var cast := Cast(job.batch, job.slots);
    CastOffsets(job.batch, job.slots);
    assert Offsets(job.votes + cast) == Offsets(job.votes) + Offsets(cast);
    RisesConcat(Offsets(job.votes), job.batch, job.from);
  }

  /** Where the throttle cannot show, every step keeps the order. */
  lemma InTurnStep(c: Config, w: World, i: nat, job: Job, sh: Shared, act: JobAct)
    requires ValidConfig(c) && Unpaced(c) && JobEnabled(c, w, i, job, sh, act)
    requires Placed(c, job) && Covered(c, i, job, sh.failed) && InTurn(job)
    ensures InTurn(JobAfter(c, w, i, job, sh, act))
  {
    match act
    case Ask => AskInTurn(c, job);
    case Spawn => RestsAlone(c, i, job, sh.failed);
    case Join => JoinInTurn(c, job);
    case _ =>
  }

  lemma {:induction false} ReachableInTurn(c: Config, w: World, acts: seq<Action>, s: State, i: nat)
    requires Reaches(c, w, acts, s) && Unpaced(c) && i < |s.jobs|
    ensures InTurn(s.jobs[i])
    decreases |acts|
  {
    if acts != [] {
      var last := |acts| - 1;
      var before := After(c, w, acts[..last]).value;
      ReachableInv(c, w, acts[..last], before);
      MarksGrow(c, w, before, acts[last]);
      ReachableInTurn(c, w, acts[..last], before, i);
      assert JobOk(c, w, i, before.jobs[i], before.sh);
      match acts[last]
      case Step(j, act) => if i == j { InTurnStep(c, w, i, before.jobs[i], before.sh, act); }
      case _ =>
    }
  }

  lemma {:induction false} OpenersInTurn(votes: seq<Vote>)
    requires Rises(Offsets(votes))
    ensures Rises(Openers(votes)) && forall k :: k in Openers(votes) ==> k in Offsets(votes)
  {
    if votes != [] {
      var init, last := votes[..|votes| - 1], votes[|votes| - 1];
      assert Offsets(votes) == Offsets(init) + [last.at];
      assert Offsets(init) == Offsets(votes)[..|votes| - 1];
      OpenersInTurn(init);
      forall k | k in Openers(init) ensures k < last.at {
        var m :| 0 <= m < |init| && Offsets(init)[m] == k;
        assert Offsets(votes)[m] == k && Offsets(votes)[|votes| - 1] == last.at;
      }
      if last.answer.Connected? { RisesConcat(Openers(init), [last.at], last.at); }
    }
  }

  /** The labels of a slot stand in the order in which its job came to the pool. */
  ghost predicate LabelsInTurn(c: Config, s: State, i: nat)
    requires ValidConfig(c) && i < |s.sh.outcomes|
  {
    Subsequence(s.sh.outcomes[i].labels, Rotated(c.labels, i % |c.labels|))
  }

  lemma UnpacedInTurn(c: Config, w: World, acts: seq<Action>, s: State, i: nat)
    requires Reaches(c, w, acts, s) && Unpaced(c) && i < |s.sh.outcomes|
    ensures LabelsInTurn(c, s, i)
  {
    ReachableInv(c, w, acts, s);
    assert JobOk(c, w, i, s.jobs[i], s.sh);
    var labels := s.sh.outcomes[i].labels;
    if Decided(s.jobs[i]) {
      ReachableInTurn(c, w, acts, s, i);
      OpenersInTurn(s.jobs[i].votes);
      var offsets, _, _, _ := SlotTells(c, w, acts, s, i);
      assert Picks(labels, Rotated(c.labels, i % |c.labels|), offsets);
    } else {
      assert Picks(labels, Rotated(c.labels, i % |c.labels|), []);
    }
  }

  /** Job 0's first two votes are, or are going to be, those of offset k and of offset 0. */
  ghost predicate TopsUp(c: Config, job: Job, k: nat) {
    match job
    case Idle => false
    case Collect(votes, used, _, batch, resting, looking) =>
      votes == [] && used == |c.addrs| && !looking && batch == [k] && resting != [] && resting[0] == 0
    case Dialing(votes, used, _, batch, _) =>
      votes == [] && used == |c.addrs| && |batch| >= 2 && batch[0] == k && batch[1] == 0
    case _ => |job.votes| >= 2 && job.votes[0] == VoteFor(k) && job.votes[1] == VoteFor(0) && job.used == |c.addrs|
  }

  lemma TopsUpStep(c: Config, job: Job, sh: Shared, act: JobAct, k: nat)
    requires ValidConfig(c) && JobEnabled(c, WorldOf(PaceDial()), 0, job, sh, act)
    requires !sh.cancelled && Truthful(WorldOf(PaceDial()), 0, job, false) && TopsUp(c, job, k)
    ensures TopsUp(c, JobAfter(c, WorldOf(PaceDial()), 0, job, sh, act), k)
  {
    if act.Join? {
      assert job.slots[0].Done? && job.slots[0].result.Some? && job.slots[1].Done? && job.slots[1].result.Some?;
      var votes := [] + Cast(job.batch, job.slots);
      assert votes[0] == VoteFor(k) && votes[1] == VoteFor(0);
    }
  }

  ghost predicate ToppingUp(c: Config, s: State, k: nat) {
    |s.jobs| > 0 && !s.sh.cancelled && TopsUp(c, s.jobs[0], k)
  }

  lemma ToppingUpStep(c: Config, s: State, act: JobAct, k: nat)
    requires Inv(c, WorldOf(PaceDial()), s) && ToppingUp(c, s, k)
    requires Enabled(c, WorldOf(PaceDial()), s, Step(0, act))
    ensures ToppingUp(c, Next(c, WorldOf(PaceDial()), s, Step(0, act)), k)
  {
    assert JobOk(c, WorldOf(PaceDial()), 0, s.jobs[0], s.sh);
    StepKind(c, WorldOf(PaceDial()), 0, s.jobs[0], s.sh, act);
    TopsUpStep(c, s.jobs[0], s.sh, act, k);
  }

  /** At the start everyone has just been used, so all but the last rest. */
  lemma {:induction false} RestUpTo(c: Config, k: nat) returns (acts: seq<Action>, s: State)
    requires Paced(c) && k < |c.addrs|
    ensures Reaches(c, WorldOf(PaceDial()), acts, s) && Began(c, s, k, Span(0, k), 0)
  {
    if k == 0 {
      acts, s := BeginRound(c);
    } else {
      var a, t := RestUpTo(c, k - 1);
      a, t := LookNext(c, a, t, k - 1, Span(0, k - 1), 0);
      UsedRest(c.interval, c.addrs, 0, AddrOf(c, 0, k - 1));
      acts, s := Play(c, a, t, Step(0, Ask));
      assert Span(0, k) == Span(0, k - 1) + [k - 1];
    }
  }

  /** After an interval the last proxy is admitted: it heads the batch, and offset 0 tops it up. */
  lemma LastIsFirst(c: Config) returns (acts: seq<Action>, s: State)
    requires Paced(c)
    ensures Reaches(c, WorldOf(PaceDial()), acts, s) && ToppingUp(c, s, |c.addrs| - 1)
    ensures s.jobs[0].Collect? && s.sh.dialSem == 0
  {
    var k: nat := |c.addrs| - 1;
    var a, t := RestUpTo(c, k);
    a, t := Wait(c, a, t, k, Span(0, k));
    a, t := LookNext(c, a, t, k, Span(0, k), c.interval);
    UsedRest(c.interval, c.addrs, c.interval, AddrOf(c, 0, k));
    acts, s := Play(c, a, t, Step(0, Ask));
    assert [] + [k] == [k];
  }

  lemma {:induction false} FirstOpeners(votes: seq<Vote>)
    requires |votes| >= 2 && votes[0].answer.Connected? && votes[1].answer.Connected?
    ensures |Openers(votes)| >= 2 && Openers(votes)[0] == votes[0].at && Openers(votes)[1] == votes[1].at
  {
    if |votes| > 2 {
      FirstOpeners(votes[..|votes| - 1]);
    } else {
      var first := votes[..1];
      assert first[..0] == [] && Openers(first) == [votes[0].at];
    }
  }

  /** Labels that tell the proxies apart. */
  function Numbers(n: nat): seq<string> {
    seq(n, k requires 0 <= k => Itoa(k))
  }

  lemma NumbersDiffer(n: nat)
    ensures NoDup(Numbers(n))
  {
    forall i, j | 0 <= i < j < n ensures Numbers(n)[i] != Numbers(n)[j] {
      if Itoa(i) == Itoa(j) { ItoaInjective(i, j); }
    }
  }

  lemma TurnedAround(labels: seq<string>, all: seq<string>, k: nat)
    requires NoDup(all) && 0 < k < |all| && |labels| >= 2 && labels[0] == all[k] && labels[1] == all[0]
    ensures !Subsequence(labels, all)
  {
    forall at: seq<nat> ensures !Picks(labels, all, at) {
      if |at| == |labels| && at[0] < |all| && at[1] < |all| && labels[0] == all[at[0]] && labels[1] == all[at[1]] {
        assert at[0] == k && at[1] == 0;
      }
    }
  }

  lemma LabelsAtZero(c: Config, k: nat)
    requires ValidConfig(c) && k < |c.addrs|
    ensures Position(c, 0, k) == k && Rotated(c.labels, 0) == c.labels
  {
    Reduced(0, |c.addrs|);
    Reduced(k, |c.addrs|);
  }

  lemma StoredTurned(c: Config, acts: seq<Action>, s: State)
    requires Paced(c) && c.labels == Numbers(|c.addrs|)
    requires Reaches(c, WorldOf(PaceDial()), acts, s) && ToppingUp(c, s, |c.addrs| - 1) && Decided(s.jobs[0])
    ensures 0 < |s.sh.outcomes| && !LabelsInTurn(c, s, 0)
  {
    ReachableInv(c, WorldOf(PaceDial()), acts, s);
    assert JobOk(c, WorldOf(PaceDial()), 0, s.jobs[0], s.sh);
    var k := |c.addrs| - 1;
    FirstOpeners(s.jobs[0].votes);
    LabelsAtZero(c, k);
    LabelsAtZero(c, 0);
    NumbersDiffer(|c.addrs|);
    TurnedAround(s.sh.outcomes[0].labels, c.labels, k);
  }

  /** With a throttle and two proxies, some run names the last proxy before the first. */
  lemma PacedTurnsAround(c: Config) returns (acts: seq<Action>, s: State)
    requires Paced(c) && c.labels == Numbers(|c.addrs|)
    ensures Reaches(c, WorldOf(PaceDial()), acts, s)
    ensures 0 < |s.sh.outcomes| && !LabelsInTurn(c, s, 0)
  {
    var w, k := WorldOf(PaceDial()), |c.addrs| - 1;
    WorldAnswers(PaceDial());
    var a, t := LastIsFirst(c);
    var more;
    more, s := SoloRun(c, w, a, t, 0);
    acts := a + more;
    var p := (u: State) => ToppingUp(c, u, k);
    forall u, act | Inv(c, w, u) && p(u) && Enabled(c, w, u, Step(0, act)) ensures p(Next(c, w, u, Step(0, act))) {
      ToppingUpStep(c, u, act, k);
    }
    SoloKeeps(c, w, a, t, more, s, 0, p);
    StoredTurned(c, acts, s);
  }

  /** In every run every slot names its proxies in turn. */
  ghost predicate AlwaysInTurn(c: Config)
    requires ValidConfig(c)
  {
    forall w, acts, s, i: nat :: Reaches(c, w, acts, s) && i < |s.sh.outcomes| ==> LabelsInTurn(c, s, i)
  }

  lemma UnpacedAlways(c: Config)
    requires ValidConfig(c) && (c.targets == [] || Unpaced(c))
    ensures AlwaysInTurn(c)
  {
    forall w, acts, s, i: nat | Reaches(c, w, acts, s) && i < |s.sh.outcomes| ensures LabelsInTurn(c, s, i) {
      ReachableInv(c, w, acts, s);
      if Unpaced(c) { UnpacedInTurn(c, w, acts, s, i); }
    }
  }

  /**
   * Whatever the labels and whatever the throttle remembers, every slot names its proxies in the order
   * of its rotation, if and only if there is no target, no throttle or only one proxy.
   */
  lemma LabelsInTurnIff(c: Config)
    requires ValidConfig(c)
    ensures (forall earlier: map<string, int>, labels: seq<string> :: |labels| == |c.addrs| ==>
               AlwaysInTurn(c.(earlier := earlier, labels := labels))) <==> c.targets == [] || Unpaced(c)
  {
    if c.targets == [] || Unpaced(c) {
      forall earlier: map<string, int>, labels: seq<string> | |labels| == |c.addrs|
        ensures AlwaysInTurn(c.(earlier := earlier, labels := labels))
      {
        UnpacedAlways(c.(earlier := earlier, labels := labels));
      }
    } else {
      var paced := c.(earlier := JustUsed(c.addrs), labels := Numbers(|c.addrs|));
      var acts, s := PacedTurnsAround(paced);
      assert !AlwaysInTurn(paced);
    }
  }
}
