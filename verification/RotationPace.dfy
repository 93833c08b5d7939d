/**
 * Where the clock can show: a throttle that makes the proxies take turns lets the passing of time
 * decide who is asked first. With that, exactly when a scan is deterministic.
 */
module RotationPace {
  import opened Votes
  import opened Throttle
  import opened Rotation
  import opened RotationJob
  import opened RotationInvariant
  import opened RotationSafety
  import opened RotationSchedule
  import opened RotationSolo
  import opened RotationRace

  /** Every proxy opens every port; the one a job begins with shows another banner than the rest. */
  function PaceDial(): Dial {
    (i: nat, k: nat) => Connected("", "", if k == 0 then "a" else "b")
  }

  function VoteFor(k: nat): Vote {
    Vote(k, PaceDial()(0, k))
  }

  /** The first vote of job 0 is, or is going to be, that of offset k. */
  ghost predicate Leads(job: Job, k: nat) {
    match job
    case Idle => false
    case Collect(votes, _, _, batch, _, _) =>
      if votes == [] then batch != [] && batch[0] == k else votes[0] == VoteFor(k)
    case Dialing(votes, _, _, batch, _) =>
      if votes == [] then batch != [] && batch[0] == k else votes[0] == VoteFor(k)
    case _ => job.votes != [] && job.votes[0] == VoteFor(k)
  }

  lemma LeadsStep(c: Config, job: Job, sh: Shared, act: JobAct, k: nat)
    requires ValidConfig(c) && JobEnabled(c, WorldOf(PaceDial()), 0, job, sh, act)
    requires !sh.cancelled && Truthful(WorldOf(PaceDial()), 0, job, false) && Leads(job, k)
    ensures Leads(JobAfter(c, WorldOf(PaceDial()), 0, job, sh, act), k)
  {
    if act.Join? && job.votes == [] {
      assert job.slots[0].Done? && job.slots[0].result.Some?;
      assert ([] + Cast(job.batch, job.slots))[0] == VoteFor(k);
    }
  }

  ghost predicate Led(s: State, k: nat) {
    |s.jobs| > 0 && !s.sh.cancelled && Leads(s.jobs[0], k)
  }

  lemma LedStep(c: Config, s: State, act: JobAct, k: nat)
    requires Inv(c, WorldOf(PaceDial()), s) && Led(s, k) && Enabled(c, WorldOf(PaceDial()), s, Step(0, act))
    ensures Led(Next(c, WorldOf(PaceDial()), s, Step(0, act)), k)
  {
    assert JobOk(c, WorldOf(PaceDial()), 0, s.jobs[0], s.sh);
    StepKind(c, WorldOf(PaceDial()), 0, s.jobs[0], s.sh, act);
    LeadsStep(c, s.jobs[0], s.sh, act, k);
  }

  lemma {:induction false} FirstLearned(votes: seq<Vote>)
    requires votes != [] && votes[0].answer.Connected?
    ensures Learned(votes) != [] && Learned(votes)[0] == votes[0].answer
  {
    if |votes| > 1 { FirstLearned(votes[..|votes| - 1]); }
  }

  lemma {:induction false} FirstBanner(votes: seq<Vote>, k: nat)
    requires votes != [] && votes[0] == VoteFor(k)
    ensures FirstNonEmpty(Texts(Learned(votes), BannerOf)) == if k == 0 then "a" else "b"
  {
    FirstLearned(votes);
    var texts := Texts(Learned(votes), BannerOf);
    assert texts[0] == BannerOf(Learned(votes)[0]) == VoteFor(k).answer.banner;
  }

  /** The banner of a stored outcome is that of the first vote. */
  lemma BannerShows(c: Config, acts: seq<Action>, s: State, k: nat)
    requires Reaches(c, WorldOf(PaceDial()), acts, s) && Led(s, k) && Decided(s.jobs[0])
    ensures |s.sh.outcomes| > 0 && s.sh.outcomes[0].banner == if k == 0 then "a" else "b"
  {
    ReachableInv(c, WorldOf(PaceDial()), acts, s);
    assert JobOk(c, WorldOf(PaceDial()), 0, s.jobs[0], s.sh);
    FirstBanner(s.jobs[0].votes, k);
  }

  /** Once offset k heads the batch, the run can be completed with its banner. */
  lemma FinishLed(c: Config, acts: seq<Action>, s: State, k: nat) returns (acts': seq<Action>, end: State)
    requires Reaches(c, WorldOf(PaceDial()), acts, s) && Led(s, k) && s.jobs[0].Collect? && s.sh.dialSem == 0
    ensures Finished(c, PaceDial(), acts', end)
    ensures |end.sh.outcomes| > 0 && end.sh.outcomes[0].banner == if k == 0 then "a" else "b"
  {
    var w := WorldOf(PaceDial());
    WorldAnswers(PaceDial());
    var more, t := SoloRun(c, w, acts, s, 0);
    var p := (u: State) => Led(u, k);
    forall u, act | Inv(c, w, u) && p(u) && Enabled(c, w, u, Step(0, act)) ensures p(Next(c, w, u, Step(0, act))) {
      LedStep(c, u, act, k);
    }
    SoloKeeps(c, w, acts, s, more, t, 0, p);
    BannerShows(c, acts + more, t, k);
    acts', end := PlayOut(c, w, acts + more, t, 0);
  }

  lemma Play(c: Config, acts: seq<Action>, s: State, a: Action) returns (acts': seq<Action>, s': State)
    requires Reaches(c, WorldOf(PaceDial()), acts, s) && Enabled(c, WorldOf(PaceDial()), s, a)
    ensures acts' == acts + [a] && s' == Next(c, WorldOf(PaceDial()), s, a)
    ensures Reaches(c, WorldOf(PaceDial()), acts', s')
  {
    ReachesOn(c, WorldOf(PaceDial()), acts, s, a);
    acts', s' := acts + [a], Next(c, WorldOf(PaceDial()), s, a);
  }

  /** Proxies take turns, and everyone has just been used. */
  ghost predicate Paced(c: Config) {
    ValidConfig(c) && c.targets != [] && c.interval > 0 && |c.addrs| > 1 && c.earlier == JustUsed(c.addrs)
  }

  /** Job 0 has begun its first round at this time, with these resting. */
  ghost predicate Began(c: Config, s: State, used: nat, resting: seq<nat>, now: int) {
    && |s.jobs| > 0 && s.jobs[0] == Collect([], used, 0, [], resting, false)
    && !s.sh.cancelled && s.sh.failed == {} && s.sh.dialSem == 0
    && s.sh.lastUse == JustUsed(c.addrs) && s.sh.clock == now
  }

  lemma BeginRound(c: Config) returns (acts: seq<Action>, s: State)
    requires Paced(c)
    ensures Reaches(c, WorldOf(PaceDial()), acts, s) && Began(c, s, 0, [], 0)
  {
    var a, t := Launch(c, WorldOf(PaceDial()), [], Init(c));
    assert Guard(c, [], 0);
    acts, s := Play(c, a, t, Step(0, Loop));
  }

  /** The interval goes by. */
  lemma Wait(c: Config, acts: seq<Action>, s: State, used: nat, resting: seq<nat>)
    returns (acts': seq<Action>, s': State)
    requires Paced(c) && Reaches(c, WorldOf(PaceDial()), acts, s) && Began(c, s, used, resting, 0)
    ensures Reaches(c, WorldOf(PaceDial()), acts', s') && Began(c, s', used, resting, c.interval)
  {
    acts', s' := Play(c, acts, s, Tick(c.interval));
  }

  lemma LookNext(c: Config, acts: seq<Action>, s: State, used: nat, resting: seq<nat>, now: int)
    returns (acts': seq<Action>, s': State)
    requires Paced(c) && Reaches(c, WorldOf(PaceDial()), acts, s) && Began(c, s, used, resting, now) && used < |c.addrs|
    ensures Reaches(c, WorldOf(PaceDial()), acts', s')
    ensures s' == s.(jobs := s.jobs[0 := Collect([], used + 1, 0, [], resting, true)])
  {
    assert Opens([]) == 0;
    acts', s' := Play(c, acts, s, Step(0, Look));
  }

  /** Asked too early, the proxy rests. */
  lemma AskEarly(c: Config, acts: seq<Action>, s: State) returns (acts': seq<Action>, s': State)
    requires Paced(c) && Reaches(c, WorldOf(PaceDial()), acts, s) && Began(c, s, 0, [], 0)
    ensures Reaches(c, WorldOf(PaceDial()), acts', s') && Began(c, s', 1, [0], 0)
  {
    var a, t := LookNext(c, acts, s, 0, [], 0);
    UsedRest(c.interval, c.addrs, 0, AddrOf(c, 0, 0));
    acts', s' := Play(c, a, t, Step(0, Ask));
  }

  /** Asked after the interval, it heads the batch. */
  lemma AskLate(c: Config, acts: seq<Action>, s: State, k: nat, resting: seq<nat>)
    returns (acts': seq<Action>, s': State)
    requires Paced(c) && Reaches(c, WorldOf(PaceDial()), acts, s) && Began(c, s, k, resting, c.interval)
    requires k < |c.addrs|
    ensures Reaches(c, WorldOf(PaceDial()), acts', s') && Led(s', k) && s'.jobs[0].Collect? && s'.sh.dialSem == 0
  {
    var a, t := LookNext(c, acts, s, k, resting, c.interval);
    UsedRest(c.interval, c.addrs, c.interval, AddrOf(c, 0, k));
    acts', s' := Play(c, a, t, Step(0, Ask));
  }

  /** The same dials, the same throttle record, but the first proxy asked before or after it has rested. */
  lemma OutcomeDependsOnClock(c: Config) returns (acts1: seq<Action>, end1: State, acts2: seq<Action>, end2: State)
    requires Paced(c)
    ensures Finished(c, PaceDial(), acts1, end1) && Finished(c, PaceDial(), acts2, end2)
    ensures |end1.sh.outcomes| > 0 && |end2.sh.outcomes| > 0
    ensures end1.sh.outcomes[0].banner == "a" && end2.sh.outcomes[0].banner == "b"
  {
    var a, s := BeginRound(c);
    var b, t := Wait(c, a, s, 0, []);
    b, t := AskLate(c, b, t, 0, []);
    acts1, end1 := FinishLed(c, b, t, 0);
    b, t := AskEarly(c, a, s);
    b, t := Wait(c, b, t, 1, [0]);
    b, t := AskLate(c, b, t, 1, [0]);
    acts2, end2 := FinishLed(c, b, t, 1);
  }

  lemma SteadyNeverShows(c: Config)
    requires ValidConfig(c) && (c.targets == [] || (OneAtATime(c) && Unpaced(c)))
    ensures ScheduleNeverShows(c)
  {
    forall f, acts1, s1, acts2, s2 | Finished(c, f, acts1, s1) && Finished(c, f, acts2, s2)
      ensures s1.sh.outcomes == s2.sh.outcomes
    {
      ReachableInv(c, WorldOf(f), acts1, s1);
      ReachableInv(c, WorldOf(f), acts2, s2);
      if c.targets != [] {
        ScheduleIndependence(c, WorldOf(f), f, acts1, s1);
        ScheduleIndependence(c, WorldOf(f), f, acts2, s2);
      }
    }
  }

  /**
   * Whatever the throttle remembers, the scan is deterministic, given deterministic dials, if and only
   * if it has no target, or jobs run one at a time and there is no throttle or but one proxy.
   */
  lemma DeterministicIff(c: Config)
    requires ValidConfig(c)
    ensures (forall earlier: map<string, int> :: ScheduleNeverShows(c.(earlier := earlier))) <==>
              c.targets == [] || (OneAtATime(c) && Unpaced(c))
  {
    if c.targets == [] || (OneAtATime(c) && Unpaced(c)) {
      forall earlier: map<string, int> ensures ScheduleNeverShows(c.(earlier := earlier)) {
        SteadyNeverShows(c.(earlier := earlier));
      }
    } else if Unpaced(c) {
      var acts1, s1, acts2, s2 := VerdictDependsOnSchedule(c);
      assert s1.sh.outcomes[1] != s2.sh.outcomes[1];
      assert !ScheduleNeverShows(c.(earlier := c.earlier));
    } else {
      var paced := c.(earlier := JustUsed(c.addrs));
      var acts1, s1, acts2, s2 := OutcomeDependsOnClock(paced);
      assert s1.sh.outcomes[0] != s2.sh.outcomes[0];
      assert !ScheduleNeverShows(paced);
    }
  }
}
