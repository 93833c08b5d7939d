/**
 * When burn protection can cost a verdict: a proxy that rests while a full round forms is left out
 * of it for good, so a quorum of sure openers may go unheard unless resting is harmless.
 */
module RotationRest {
  import opened Sequences
  import opened Votes
  import opened Rotation
  import opened RotationJob
  import opened RotationInvariant
  import opened RotationSafety
  import opened RotationSolo
  import opened Throttle

  /** An uncancelled run in which job i is decided, with a quorum of sure openers and few faults. */
  ghost predicate Honest(
      c: Config, w: World, acts: seq<Action>, s: State, i: nat, sure: set<nat>, faulty: set<nat>)
  {
    && Reaches(c, w, acts, s) && i < |s.jobs| && Decided(s.jobs[i]) && !s.sh.cancelled
    && (forall k :: !w(i, k, Refusal))
    && (forall k, dead :: w(i, k, ProxyFault(dead)) ==> k in faulty)
    && |faulty| < c.cap && |sure| >= c.quorum
    && (forall k :: k in sure ==> k < |c.addrs| && k !in faulty && AddrOf(c, i, k) !in s.sh.failed)
  }

  /** Such runs find the port open. */
  ghost predicate HonestyPrevails(c: Config) {
    forall w, acts, s, i: nat, sure, faulty :: Honest(c, w, acts, s, i, sure, faulty) ==>
      i < |s.sh.outcomes| && s.sh.outcomes[i].verdict == Open
  }

  /** Resting is not harmless. */
  ghost predicate Crowded(c: Config) {
    ValidConfig(c) && c.targets != [] && !RestIsHarmless(c)
  }

  /** The whole pool has just been used. */
  ghost predicate Tired(c: Config) {
    Crowded(c) && c.earlier == JustUsed(c.addrs)
  }

  /** The first three proxies a job comes to are at fault; all others would open the port. */
  function EarlyFault(): (nat, nat) -> Answer {
    (i: nat, k: nat) => if k < 3 then ProxyFault(false) else Connected("", "", "")
  }

  function EarlyFaults(): World {
    WorldOf(EarlyFault())
  }

  /** The votes of the first n offsets. */
  function EarlyVotes(n: nat): seq<Vote> {
    var batch := Span(0, n);
    seq(|batch|, b requires 0 <= b < |batch| => Vote(batch[b], EarlyFault()(0, batch[b])))
  }

  /** Where job 0 stands on its way: everyone rests, so its one round takes the first that did. */
  ghost predicate OnScript(c: Config, job: Job, sh: Shared)
    requires Crowded(c)
  {
    var m, n := c.quorum + 2, |c.addrs|;
    && !sh.cancelled && sh.failed == {} && sh.clock == 0
    && |sh.dialled| > 0 && (forall k :: k in sh.dialled[0] ==> k < m)
    && match job
       case Idle => false
       case Head(votes, used) =>
         || (votes == [] && used == 0 && sh.lastUse == JustUsed(c.addrs))
         || (votes == EarlyVotes(m) && used == n)
       case Collect(votes, used, from, batch, resting, looking) =>
         && votes == [] && from == 0 && used <= n && (looking ==> used > 0) && sh.lastUse == JustUsed(c.addrs)
         && batch == [] && resting == Span(0, if looking then used - 1 else used)
       case Dialing(votes, used, _, batch, _) => votes == [] && used == n && batch == Span(0, m)
       case _ => job.votes == EarlyVotes(m) && !job.cut
  }

  /** The throttle refuses everyone. */
  lemma AskScript(c: Config, k: nat)
    requires Crowded(c)
    ensures Probe(c.interval, JustUsed(c.addrs), 0, AddrOf(c, 0, k)) == (false, JustUsed(c.addrs))
  {
    UsedRest(c.interval, c.addrs, 0, AddrOf(c, 0, k));
  }

  lemma TakenScript(c: Config, w: World, job: Job, sh: Shared)
    requires Crowded(c) && job.Collect? && OnScript(c, job, sh) && JobEnabled(c, w, 0, job, sh, Ask)
    ensures OnScript(c, JobAfter(c, w, 0, job, sh, Ask), SharedAfter(c, w, 0, job, sh, Ask))
  {
    AskScript(c, job.used - 1);
    assert Span(0, job.used) == Span(0, job.used - 1) + [job.used - 1];
  }

  lemma SpawnScript(c: Config, job: Job)
    requires Crowded(c) && job.Collect? && job.votes == [] && job.used <= |c.addrs|
    requires job.batch == [] && job.resting == Span(0, job.used) && !Unfilled(c, job)
    ensures job.used == |c.addrs| && TopUp(job.batch, job.resting, Want(c, job.votes)) == Span(0, c.quorum + 2) != []
  {
    assert Opens([]) == 0;
    assert Span(0, |c.addrs|)[..c.quorum + 2] == Span(0, c.quorum + 2);
  }

  lemma CollectScript(c: Config, w: World, job: Job, sh: Shared, act: JobAct)
    requires Crowded(c) && job.Collect? && OnScript(c, job, sh) && JobEnabled(c, w, 0, job, sh, act)
    ensures OnScript(c, JobAfter(c, w, 0, job, sh, act), SharedAfter(c, w, 0, job, sh, act))
  {
    match act
    case Look =>
    case Ask => TakenScript(c, w, job, sh);
    case Spawn => SpawnScript(c, job);
  }

  lemma JoinScript(c: Config, job: Job, sh: Shared)
    requires Crowded(c) && job.Dialing? && Fits(job, Join)
    requires OnScript(c, job, sh) && Truthful(EarlyFaults(), 0, job, false)
    ensures job.votes + Cast(job.batch, job.slots) == EarlyVotes(c.quorum + 2)
  {
    forall b | 0 <= b < |job.batch|
      ensures VoteOf(job.batch[b], job.slots[b]) == Vote(job.batch[b], EarlyFault()(0, job.batch[b]))
    {
      assert job.slots[b].Done?;
    }
    assert [] + Cast(job.batch, job.slots) == Cast(job.batch, job.slots);
  }

  lemma LoopScript(c: Config, votes: seq<Vote>, used: nat)
    requires Crowded(c) && ((votes == [] && used == 0) || used == |c.addrs|)
    ensures Guard(c, votes, used) ==> used == 0
    ensures votes == [] && used == 0 ==> Guard(c, votes, used)
  {
  }

  lemma ScriptStep(c: Config, job: Job, sh: Shared, act: JobAct)
    requires Crowded(c) && JobEnabled(c, EarlyFaults(), 0, job, sh, act)
    requires OnScript(c, job, sh) && Truthful(EarlyFaults(), 0, job, false)
    ensures OnScript(c, JobAfter(c, EarlyFaults(), 0, job, sh, act), SharedAfter(c, EarlyFaults(), 0, job, sh, act))
  {
    if job.Collect? {
      CollectScript(c, EarlyFaults(), job, sh, act);
    } else if act.Join? {
      JoinScript(c, job, sh);
    } else if act.Loop? {
      LoopScript(c, job.votes, job.used);
    } else if act.Begin? {
      assert job.batch[act.s] in job.batch;
    } else if act.Finish? {
      assert job.slots[act.s].answer == EarlyFault()(0, job.batch[act.s]);
    }
  }

  ghost predicate Scripted(c: Config, s: State)
    requires Crowded(c)
  {
    |s.jobs| == |c.targets| && OnScript(c, s.jobs[0], s.sh)
  }

  lemma ScriptedStep(c: Config, s: State, act: JobAct)
    requires Crowded(c) && Inv(c, EarlyFaults(), s) && Scripted(c, s)
    requires Enabled(c, EarlyFaults(), s, Step(0, act))
    ensures Scripted(c, Next(c, EarlyFaults(), s, Step(0, act)))
  {
    assert JobOk(c, EarlyFaults(), 0, s.jobs[0], s.sh);
    ScriptStep(c, s.jobs[0], s.sh, act);
  }

  /** Job 0, run by itself from the start, stays on the script. */
  lemma SoloScript(c: Config) returns (acts: seq<Action>, s: State)
    requires Tired(c)
    ensures Reaches(c, EarlyFaults(), acts, s) && !s.sh.cancelled && |s.jobs| == |c.targets|
    ensures Decided(s.jobs[0]) && s.jobs[0].votes == EarlyVotes(c.quorum + 2)
    ensures |s.sh.dialled| > 0 && forall k :: k in s.sh.dialled[0] ==> k < c.quorum + 2
  {
    var w := EarlyFaults();
    WorldAnswers(EarlyFault());
    var a, t := Launch(c, w, [], Init(c));
    assert Scripted(c, t);
    var more;
    more, s := SoloRun(c, w, a, t, 0);
    acts := a + more;
    var p := (u: State) => Scripted(c, u);
    forall u, act | Inv(c, w, u) && p(u) && Enabled(c, w, u, Step(0, act)) ensures p(Next(c, w, u, Step(0, act))) {
      ScriptedStep(c, u, act);
    }
    SoloKeeps(c, w, a, t, more, s, 0, p);
    assert Scripted(c, s);
  }

  /** Of the first n offsets all but three open. */
  lemma {:induction false} EarlyOpens(n: nat)
    ensures Opens(EarlyVotes(n)) == (if n < 3 then 0 else n - 3) && !Refused(EarlyVotes(n))
  {
    if n > 0 {
      EarlyOpens(n - 1);
      TallyAppend(EarlyVotes(n - 1), Vote(n - 1, EarlyFault()(0, n - 1)));
      assert EarlyVotes(n) == EarlyVotes(n - 1) + [Vote(n - 1, EarlyFault()(0, n - 1))];
    }
  }

  lemma NobodyCondemned(c: Config, acts: seq<Action>, s: State)
    requires Reaches(c, EarlyFaults(), acts, s)
    ensures s.sh.failed == {}
  {
    ReachableInv(c, EarlyFaults(), acts, s);
    forall d ensures d !in s.sh.deaths {}
  }

  /** The offsets that open; the others are the first three. */
  function Sure(c: Config): set<nat>
    requires |c.addrs| >= 3
  {
    Below(|c.addrs|) - Below(3)
  }

  lemma FewAreFaulty(c: Config)
    requires Crowded(c)
    ensures |Below(3)| == 3 < c.cap && |Sure(c)| >= c.quorum
    ensures forall k, dead :: EarlyFaults()(0, k, ProxyFault(dead)) ==> k in Below(3)
    ensures forall k :: !EarlyFaults()(0, k, Refusal)
  {
    assert Below(3) <= Below(|c.addrs|);
    assert |Sure(c)| == |Below(|c.addrs|)| - |Below(3)|;
  }

  lemma EarlyIsHonest(c: Config, acts: seq<Action>, s: State)
    requires Crowded(c) && Reaches(c, EarlyFaults(), acts, s) && !s.sh.cancelled
    requires |s.jobs| > 0 && Decided(s.jobs[0])
    ensures Honest(c, EarlyFaults(), acts, s, 0, Sure(c), Below(3))
  {
    NobodyCondemned(c, acts, s);
    FewAreFaulty(c);
  }

  lemma ShortVerdict(c: Config, acts: seq<Action>, s: State)
    requires Crowded(c) && Reaches(c, EarlyFaults(), acts, s)
    requires |s.jobs| == |c.targets| && Decided(s.jobs[0]) && s.jobs[0].votes == EarlyVotes(c.quorum + 2)
    ensures |s.sh.outcomes| == |c.targets|
    ensures s.sh.outcomes[0].verdict == if c.quorum == 1 then Unreachable else Unconfirmed
  {
    ReachableInv(c, EarlyFaults(), acts, s);
    assert JobOk(c, EarlyFaults(), 0, s.jobs[0], s.sh);
    EarlyOpens(c.quorum + 2);
  }

  /**
   * Where resting is not harmless: a complete run with a quorum of sure openers and fewer faults than
   * the cap in which slot 0 is not open and the openers past a first round were never dialled.
   */
  lemma RestCosts(c: Config) returns (acts: seq<Action>, s: State)
    requires Tired(c)
    ensures Honest(c, EarlyFaults(), acts, s, 0, Sure(c), Below(3)) && s.disp.Returned?
    ensures |s.sh.outcomes| == |s.sh.dialled| == |c.targets|
    ensures s.sh.outcomes[0].verdict == if c.quorum == 1 then Unreachable else Unconfirmed
    ensures forall k :: k in s.sh.dialled[0] ==> k < c.quorum + 2
  {
    var a, t := SoloScript(c);
    ShortVerdict(c, a, t);
    WorldAnswers(EarlyFault());
    acts, s := PlayOut(c, EarlyFaults(), a, t, 0);
    EarlyIsHonest(c, acts, s);
  }

  lemma HarmlessPrevails(c: Config)
    requires ValidConfig(c) && (RestIsHarmless(c) || c.targets == [])
    ensures HonestyPrevails(c)
  {
    forall w, acts, s, i: nat, sure, faulty | Honest(c, w, acts, s, i, sure, faulty)
      ensures i < |s.sh.outcomes| && s.sh.outcomes[i].verdict == Open
    {
      ReachableInv(c, w, acts, s);
      if RestIsHarmless(c) { HonestQuorumOpens(c, w, acts, s, i, sure, faulty); }
    }
  }

  /**
   * Whatever the throttle remembers, a quorum of sure openers always opens the port if and only if
   * there is no throttle, no proxy beyond a first round, a cap of at most three faults, or no target.
   */
  lemma HonestyPrevailsIff(c: Config)
    requires ValidConfig(c)
    ensures (forall earlier: map<string, int> :: HonestyPrevails(c.(earlier := earlier))) <==>
              RestIsHarmless(c) || c.targets == []
  {
    if RestIsHarmless(c) || c.targets == [] {
      forall earlier: map<string, int> ensures HonestyPrevails(c.(earlier := earlier)) {
        HarmlessPrevails(c.(earlier := earlier));
      }
    } else {
      var tired := c.(earlier := JustUsed(c.addrs));
      var acts, s := RestCosts(tired);
      assert !HonestyPrevails(tired);
    }
  }

  /** Four proxies, all just used, one vote needed: the last would open the port, the others are at fault. */
  const TIRED := Config([("h", 1)], ["a", "b", "c", "d"], ["a", "b", "c", "d"], 1, 4, 1, 1,
                        map["a" := 0, "b" := 0, "c" := 0, "d" := 0])

  /** A complete run that reports the port unreachable and never dials the one proxy that would open it. */
  lemma RestingOpenerIsMissed() returns (acts: seq<Action>, s: State)
    ensures Reaches(TIRED, EarlyFaults(), acts, s) && s.disp.Returned? && !s.sh.cancelled
    ensures |s.sh.outcomes| == |s.sh.dialled| == 1 && s.sh.outcomes[0].verdict == Unreachable
    ensures EarlyFault()(0, 3).Connected? && 3 !in s.sh.dialled[0]
  {
    assert TIRED.earlier == JustUsed(TIRED.addrs);
    acts, s := RestCosts(TIRED);
  }
}
