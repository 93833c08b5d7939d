/** Whatever the interleaving, each job of a scan is a run of ScanPort in some environment. */
module RotationRefines {
  import opened Sequences
  import opened Votes
  import opened Rotation
  import opened RotationJob
  import opened RotationInvariant
  import opened ScanPort
  import Throttle

  /** How far into the rotation a job has asked its environment each kind of question. */
  datatype Asked = Asked(failed: nat, ready: nat, heads: nat, joins: nat)

  function AskedBy(job: Job): Asked {
    match job
    case Idle => Asked(0, 0, 0, 0)
    case Head(_, used) => Asked(used, used, used, used + 1)
    case Collect(_, used, from, _, _, looking) =>
      Asked(used, if looking && used > 0 then used - 1 else used, from + 1, from + 1)
    case Dialing(_, used, from, _, _) => Asked(used, used, from + 1, from + 1)
    case _ => Asked(job.used, job.used, job.used + 1, job.used + 1)
  }

  function VotesOf(job: Job): seq<Vote> {
    if job.Idle? then [] else job.votes
  }

  /** The two environments give the same answers to the questions already asked. */
  ghost predicate Agree(job: Job, e: Env, env: Env) {
    var a := AskedBy(job);
    && (forall k: nat :: k < a.failed ==> env.failed(k) == e.failed(k))
    && (forall k: nat :: k < a.ready ==> env.ready(k) == e.ready(k))
    && (forall k: nat :: k < a.heads ==> env.cutHead(k) == e.cutHead(k))
    && (forall k: nat :: k < a.joins ==> env.cutJoin(k) == e.cutJoin(k))
    && (forall v :: v in VotesOf(job) ==> env.answer(v.at) == e.answer(v.at))
  }

  /** How the job would end from where it stands, in an environment. */
  function Continued(c: Config, job: Job, env: Env): Exit {
    match job
    case Idle => RunPort(c, env, [], 0)
    case Head(votes, used) => RunPort(c, env, votes, used)
    case Collect(votes, used, _, batch, resting, looking) =>
      if Opens(votes) >= c.quorum then Exit(votes, used, false)
      else
        var admitted := looking && used > 0 && env.ready(used - 1);
        var tired := looking && used > 0 && !env.ready(used - 1);
        var (filled, aside, used') :=
          Fill(env, |c.addrs|, used, Want(c, votes),
               if admitted then batch + [used - 1] else batch, if tired then resting + [used - 1] else resting);
        Rest(c, env, votes, used', TopUp(filled, aside, Want(c, votes)))
    case Dialing(votes, used, _, batch, _) => Rest(c, env, votes, used, batch)
    case _ => Exit(job.votes, job.used, job.cut)
  }

  /** Every environment that answers as e has done so far has led here and will lead on from here. */
  ghost predicate Follows(c: Config, job: Job, e: Env) {
    forall env: Env :: Agree(job, e, env) ==> RunPort(c, env, [], 0) == Continued(c, job, env)
  }

  /** The result a batch has for an offset. */
  function ResultAt(batch: seq<nat>, slots: seq<Slot>, k: nat): Answer
    requires |slots| == |batch|
  {
    if batch == [] then ProxyFault(false)
    else if batch[0] == k then VoteOf(k, slots[0]).answer
    else ResultAt(batch[1..], slots[1..], k)
  }

  /** What the environment must have answered for the step to be the job's. */
  ghost function Recorded(c: Config, i: nat, job: Job, sh: Shared, act: JobAct, e: Env): Env
    requires ValidConfig(c)
  {
    match act
    case Loop =>
      if job.Head? then e.(cutHead := (k: nat) => if k == job.used then sh.cancelled else e.cutHead(k)) else e
    case Look =>
      if job.Collect?
      then e.(failed := (k: nat) => if k == job.used then AddrOf(c, i, k) in sh.failed else e.failed(k))
      else e
    case Ask =>
      if job.Collect? && job.used > 0
      then e.(ready := (k: nat) => if k == job.used - 1
                                   then Throttle.Probe(c.interval, sh.lastUse, sh.clock, AddrOf(c, i, k)).0
                                   else e.ready(k))
      else e
    case Join =>
      if job.Dialing? && |job.slots| == |job.batch|
      then e.(cutJoin := (k: nat) => if k == job.used then sh.cancelled else e.cutJoin(k),
              answer := (k: nat) => if k in job.batch then ResultAt(job.batch, job.slots, k) else e.answer(k))
      else e
    case _ => e
  }

  lemma {:induction false} ResultAtIs(batch: seq<nat>, slots: seq<Slot>, b: nat)
    requires |slots| == |batch| && b < |batch| && NoDup(batch)
    ensures ResultAt(batch, slots, batch[b]) == VoteOf(batch[b], slots[b]).answer
  {
    if b > 0 {
      assert batch[0] != batch[b];
      assert batch[1..][b - 1] == batch[b];
      ResultAtIs(batch[1..], slots[1..], b - 1);
    }
  }

  lemma JoinCasts(c: Config, job: Job, env: Env)
    requires job.Dialing? && |job.slots| == |job.batch| && Placed(c, job)
    requires forall v :: v in Cast(job.batch, job.slots) ==> env.answer(v.at) == ResultAt(job.batch, job.slots, v.at)
    ensures CastEnv(env, job.batch) == Cast(job.batch, job.slots)
  {
    var cast := Cast(job.batch, job.slots);
    forall b | 0 <= b < |job.batch| ensures VoteAt(env, job.batch[b]) == cast[b] {
      ResultAtIs(job.batch, job.slots, b);
      assert cast[b] in cast;
    }
  }

  lemma WithinSome(s: seq<nat>, lo: nat, hi: nat)
    requires Within(s, lo, hi) && s != []
    ensures lo < hi
  {
    assert s[0] in s;
  }

  /** The dials of a joined batch are the answers recorded; those of earlier votes are untouched. */
  lemma JoinAgrees(c: Config, w: World, i: nat, job: Job, sh: Shared, e: Env, env: Env)
    requires ValidConfig(c) && JobEnabled(c, w, i, job, sh, Join)
    requires Placed(c, job) && Tallied(c, job, sh.cancelled)
    requires Agree(JobAfter(c, w, i, job, sh, Join), Recorded(c, i, job, sh, Join, e), env)
    ensures Agree(job, e, env) && env.cutJoin(job.used) == sh.cancelled
  {
    WithinSome(job.batch, job.from, job.used);
    forall v | v in job.votes ensures env.answer(v.at) == e.answer(v.at) {
      OffsetsIn(job.votes, v.at);
      assert v.at !in job.batch;
    }
  }

  lemma JoinContinued(c: Config, w: World, i: nat, job: Job, sh: Shared, e: Env, env: Env)
    requires ValidConfig(c) && JobEnabled(c, w, i, job, sh, Join)
    requires Placed(c, job) && Tallied(c, job, sh.cancelled)
    requires Agree(JobAfter(c, w, i, job, sh, Join), Recorded(c, i, job, sh, Join, e), env)
    ensures Agree(job, e, env)
    ensures Continued(c, job, env) == Continued(c, JobAfter(c, w, i, job, sh, Join), env)
  {
    JoinAgrees(c, w, i, job, sh, e, env);
    if !sh.cancelled {
      var cast := Cast(job.batch, job.slots);
      forall v | v in cast ensures env.answer(v.at) == ResultAt(job.batch, job.slots, v.at) {
        var b :| 0 <= b < |cast| && cast[b] == v;
        assert v in job.votes + cast && v.at == job.batch[b];
      }
      JoinCasts(c, job, env);
    }
  }

  lemma LoopContinued(c: Config, w: World, i: nat, job: Job, sh: Shared, e: Env, env: Env)
    requires ValidConfig(c) && JobEnabled(c, w, i, job, sh, Loop)
    requires Agree(JobAfter(c, w, i, job, sh, Loop), Recorded(c, i, job, sh, Loop, e), env)
    ensures Agree(job, e, env)
    ensures Continued(c, job, env) == Continued(c, JobAfter(c, w, i, job, sh, Loop), env)
  {
    var after := JobAfter(c, w, i, job, sh, Loop);
    if Guard(c, job.votes, job.used) {
      assert env.cutHead(job.used) == sh.cancelled;
    }
  }

  lemma LookContinued(c: Config, w: World, i: nat, job: Job, sh: Shared, e: Env, env: Env)
    requires ValidConfig(c) && JobEnabled(c, w, i, job, sh, Look)
    requires Placed(c, job) && Tallied(c, job, sh.cancelled)
    requires Agree(JobAfter(c, w, i, job, sh, Look), Recorded(c, i, job, sh, Look, e), env)
    ensures Agree(job, e, env)
    ensures Continued(c, job, env) == Continued(c, JobAfter(c, w, i, job, sh, Look), env)
  {
    assert env.failed(job.used) <==> AddrOf(c, i, job.used) in sh.failed;
  }

  lemma AskContinued(c: Config, w: World, i: nat, job: Job, sh: Shared, e: Env, env: Env)
    requires ValidConfig(c) && JobEnabled(c, w, i, job, sh, Ask)
    requires Placed(c, job) && Tallied(c, job, sh.cancelled)
    requires Agree(JobAfter(c, w, i, job, sh, Ask), Recorded(c, i, job, sh, Ask, e), env)
    ensures Agree(job, e, env)
    ensures Continued(c, job, env) == Continued(c, JobAfter(c, w, i, job, sh, Ask), env)
  {
    var k := job.used - 1;
    assert env.ready(k) == Throttle.Probe(c.interval, sh.lastUse, sh.clock, AddrOf(c, i, k)).0;
  }

  lemma SpawnContinued(c: Config, w: World, i: nat, job: Job, sh: Shared, e: Env, env: Env)
    requires ValidConfig(c) && JobEnabled(c, w, i, job, sh, Spawn)
    requires Placed(c, job) && Tallied(c, job, sh.cancelled)
    requires Agree(JobAfter(c, w, i, job, sh, Spawn), Recorded(c, i, job, sh, Spawn, e), env)
    ensures Agree(job, e, env)
    ensures Continued(c, job, env) == Continued(c, JobAfter(c, w, i, job, sh, Spawn), env)
  {
  }

  lemma CollectContinued(c: Config, w: World, i: nat, job: Job, sh: Shared, act: JobAct, e: Env, env: Env)
    requires ValidConfig(c) && JobEnabled(c, w, i, job, sh, act)
    requires Placed(c, job) && Tallied(c, job, sh.cancelled)
    requires Agree(JobAfter(c, w, i, job, sh, act), Recorded(c, i, job, sh, act, e), env)
    requires job.Collect?
    ensures Agree(job, e, env)
    ensures Continued(c, job, env) == Continued(c, JobAfter(c, w, i, job, sh, act), env)
  {
    match act
    case Look => LookContinued(c, w, i, job, sh, e, env);
    case Ask => AskContinued(c, w, i, job, sh, e, env);
    case Spawn => SpawnContinued(c, w, i, job, sh, e, env);
  }

  /** The other steps ask nothing. */
  lemma UnaskedContinued(c: Config, w: World, i: nat, job: Job, sh: Shared, act: JobAct, e: Env, env: Env)
    requires ValidConfig(c) && JobEnabled(c, w, i, job, sh, act)
    requires !job.Collect? && !job.Head? && !act.Join?
    requires Agree(JobAfter(c, w, i, job, sh, act), Recorded(c, i, job, sh, act, e), env)
    ensures Agree(job, e, env)
    ensures Continued(c, job, env) == Continued(c, JobAfter(c, w, i, job, sh, act), env)
  {
  }

  /** A step asks at most one new question, and what lies ahead is what the answer leaves. */
  lemma ContinuedStep(c: Config, w: World, i: nat, job: Job, sh: Shared, act: JobAct, e: Env, env: Env)
    requires ValidConfig(c) && JobEnabled(c, w, i, job, sh, act)
    requires Placed(c, job) && Tallied(c, job, sh.cancelled)
    requires Agree(JobAfter(c, w, i, job, sh, act), Recorded(c, i, job, sh, act, e), env)
    ensures Agree(job, e, env)
    ensures Continued(c, job, env) == Continued(c, JobAfter(c, w, i, job, sh, act), env)
  {
    if job.Collect? {
      CollectContinued(c, w, i, job, sh, act, e, env);
    } else if job.Head? {
      LoopContinued(c, w, i, job, sh, e, env);
    } else if act.Join? {
      JoinContinued(c, w, i, job, sh, e, env);
    } else {
      UnaskedContinued(c, w, i, job, sh, act, e, env);
    }
  }

  lemma FollowsStep(c: Config, w: World, i: nat, job: Job, sh: Shared, act: JobAct, e: Env)
    requires ValidConfig(c) && JobEnabled(c, w, i, job, sh, act)
    requires Placed(c, job) && Tallied(c, job, sh.cancelled) && Follows(c, job, e)
    ensures Follows(c, JobAfter(c, w, i, job, sh, act), Recorded(c, i, job, sh, act, e))
  {
    var after, e' := JobAfter(c, w, i, job, sh, act), Recorded(c, i, job, sh, act, e);
    forall env: Env | Agree(after, e', env) ensures RunPort(c, env, [], 0) == Continued(c, after, env) {
      ContinuedStep(c, w, i, job, sh, act, e, env);
    }
  }

  lemma {:induction false} ReachableFollows(c: Config, w: World, acts: seq<Action>, s: State, i: nat) returns (e: Env)
    requires Reaches(c, w, acts, s) && i < |s.jobs|
    ensures Follows(c, s.jobs[i], e)
    decreases |acts|
  {
    if acts == [] {
      e := Env(_ => false, _ => false, _ => Refusal, _ => false, _ => false);
    } else {
      var last := |acts| - 1;
      var before := After(c, w, acts[..last]).value;
      ReachableInv(c, w, acts[..last], before);
      MarksGrow(c, w, before, acts[last]);
      assert JobOk(c, w, i, before.jobs[i], before.sh);
      e := ReachableFollows(c, w, acts[..last], before, i);
      match acts[last]
      case Step(j, act) =>
        if i == j {
          FollowsStep(c, w, i, before.jobs[i], before.sh, act, e);
          e := Recorded(c, i, before.jobs[i], before.sh, act, e);
        }
      case _ =>
    }
  }

  /**
   * In every run, a job whose loop has ended has the votes, cursor and reason for stopping that
   * ScanPort gives in some environment; its stored outcome is then the one ScanPort returns.
   */
  lemma JobsAreScanPort(c: Config, w: World, acts: seq<Action>, s: State, i: nat) returns (env: Env)
    requires Reaches(c, w, acts, s) && i < |s.jobs| && Left(s.jobs[i])
    ensures RunPort(c, env, [], 0) == Exit(s.jobs[i].votes, s.jobs[i].used, s.jobs[i].cut)
    ensures i < |c.targets| == |s.sh.outcomes|
    ensures !s.jobs[i].Leaving? ==> s.sh.outcomes[i] == OutcomeOf(c, i, RunPort(c, env, [], 0).votes)
  {
    env := ReachableFollows(c, w, acts, s, i);
    assert Agree(s.jobs[i], env, env);
    ReachableInv(c, w, acts, s);
    assert JobOk(c, w, i, s.jobs[i], s.sh);
  }
}
