/** What every step of one job keeps, whatever the other jobs do in between. */
module RotationJob {
  import opened Sequences
  import opened Votes
  import opened Rotation

  /** The loop of the job has been left. */
  predicate Left(job: Job) {
    job.Leaving? || job.Written? || job.Reported? || job.Released?
  }

  /** An offset the job has taken from the rotation and still accounts for. */
  predicate Holds(job: Job, k: nat) {
    match job
    case Idle => false
    case Collect(votes, used, _, batch, resting, looking) =>
      k in Offsets(votes) || k in batch || k in resting || (looking && k + 1 == used)
    case Dialing(votes, _, _, batch, _) => k in Offsets(votes) || k in batch
    case _ => k in Offsets(job.votes)
  }

  /** Each offset is taken at most once: voters before the round, the round before the cursor. */
  ghost predicate Placed(c: Config, job: Job) {
    match job
    case Idle => true
    case Collect(votes, used, from, batch, resting, looking) =>
      && from <= used <= |c.addrs|
      && (looking ==> from < used)
      && Within(Offsets(votes), 0, from)
      && var front := if looking then used - 1 else used;
         && Within(batch, from, front) && Within(resting, from, front)
         && (forall k :: k in batch ==> k !in resting)
    case Dialing(votes, used, from, batch, _) =>
      from <= used <= |c.addrs| && Within(Offsets(votes), 0, from) && Within(batch, from, used)
    case _ => job.used <= |c.addrs| && Within(Offsets(job.votes), 0, job.used)
  }

  /** The tally stays within what the loop condition and the round size allow. */
  ghost predicate Tallied(c: Config, job: Job, cancelled: bool) {
    match job
    case Idle => true
    case Head(votes, _) => Opens(votes) <= c.quorum + 2 && |votes| <= c.quorum + c.cap + 1
    case Collect(votes, used, from, batch, _, looking) =>
      && Guard(c, votes, from)
      && |batch| + (if looking then 1 else 0) <= Want(c, votes)
    case Dialing(votes, _, from, batch, slots) =>
      && Guard(c, votes, from)
      && 0 < |batch| == |slots| <= Want(c, votes)
    case _ =>
      && Opens(job.votes) <= c.quorum + 2 && |job.votes| <= c.quorum + c.cap + 1
      && (!job.cut ==> !Guard(c, job.votes, job.used))
      && (job.cut ==> cancelled && Opens(job.votes) < c.quorum && !Refused(job.votes))
  }

  ghost predicate Begun(s: Slot) {
    s.InFlight? || s.Answered? || s.Done?
  }

  /** Tallied votes and pending answers are answers the dialled proxies may give. */
  ghost predicate Truthful(w: World, i: nat, job: Job, cancelled: bool) {
    && (!job.Idle? ==> forall v :: v in job.votes ==> w(i, v.at, v.answer))
    && (job.Dialing? ==>
          && |job.slots| == |job.batch|
          && (forall b :: 0 <= b < |job.slots| && job.slots[b].Answered? ==> w(i, job.batch[b], job.slots[b].answer))
          && (forall b :: 0 <= b < |job.slots| && job.slots[b].Done? ==>
                if job.slots[b].result.Some? then w(i, job.batch[b], job.slots[b].result.value) else cancelled))
  }

  /** The dial record of a job: no offset twice, no more dials than the accounting allows. */
  ghost predicate Logged(c: Config, job: Job, log: seq<nat>) {
    && NoDup(log)
    && |log| <= c.quorum + c.cap + 1
    && (forall k :: k in log ==> k < |c.addrs|)
    && (job.Idle? ==> log == [])
    && (!job.Idle? ==> forall v :: v in job.votes ==> v.at in log)
    && (job.Head? || job.Collect? ==> forall k :: k in log ==> k in Offsets(job.votes))
    && (job.Dialing? ==>
          && |job.slots| == |job.batch|
          && (forall k :: k in log ==>
                k in Offsets(job.votes) || exists b :: 0 <= b < |job.batch| && job.batch[b] == k && Begun(job.slots[b]))
          && (forall b :: 0 <= b < |job.slots| && Begun(job.slots[b]) ==>
                job.batch[b] in log || job.slots[b] == Done(None)))
  }

  /** Every offset consumed so far is accounted for or was dead. */
  ghost predicate Kept(c: Config, i: nat, job: Job, failed: set<string>)
    requires |c.addrs| > 0 && !job.Idle?
  {
    forall k: nat :: k < job.used ==> Holds(job, k) || AddrOf(c, i, k) in failed
  }

  /** The votes decide the port or hold three faults, as those of a full round do. */
  predicate Weighty(c: Config, votes: seq<Vote>) {
    Opens(votes) >= c.quorum || Refused(votes) || Faults(votes) >= 3
  }

  /** Resting proxies may have been left out: of a full round, from a throttled pool larger than a round. */
  predicate Overrun(c: Config, job: Job)
    requires !job.Idle?
  {
    && c.interval > 0 && |c.addrs| >= c.quorum + 3
    && (Weighty(c, job.votes) || (job.Dialing? && Opens(job.votes) < c.quorum && |job.batch| == Want(c, job.votes)))
  }

  /**
   * Nothing consumed is lost: within the current round an offset is in hand or was dead; the same
   * holds of every offset consumed so far unless a full round left some out. Answers that condemn
   * have been acted on.
   */
  ghost predicate Covered(c: Config, i: nat, job: Job, failed: set<string>)
    requires ValidConfig(c)
  {
    && (job.Collect? ==> forall k :: job.from <= k < job.used ==> Holds(job, k) || AddrOf(c, i, k) in failed)
    && (job.Dialing? && Opens(job.votes) < c.quorum && |job.batch| < Want(c, job.votes) ==>
          && job.used == |c.addrs|
          && forall k :: job.from <= k < job.used ==> k in job.batch || AddrOf(c, i, k) in failed)
    && (job.Dialing? ==> |job.slots| == |job.batch|)
    && (job.Dialing? ==> forall b :: 0 <= b < |job.slots| && job.slots[b] == Done(Some(ProxyFault(true))) ==>
                           AddrOf(c, i, job.batch[b]) in failed)
    && (c.interval <= 0 && job.Collect? ==> job.resting == [])
    && (!job.Idle? && !(Left(job) && job.cut) ==> Kept(c, i, job, failed) || Overrun(c, job))
  }

  lemma OffsetsIn(votes: seq<Vote>, k: nat)
    ensures k in Offsets(votes) <==> exists v :: v in votes && v.at == k
  {
    if k in Offsets(votes) {
      var j :| 0 <= j < |votes| && Offsets(votes)[j] == k;
      assert votes[j] in votes;
    }
    if v :| v in votes && v.at == k {
      var j :| 0 <= j < |votes| && votes[j] == v;
      assert Offsets(votes)[j] == k;
    }
  }

  lemma CastOffsets(batch: seq<nat>, slots: seq<Slot>)
    requires |slots| == |batch|
    ensures Offsets(Cast(batch, slots)) == batch
  {
  }

  lemma PlacedJoin(c: Config, job: Job)
    requires job.Dialing? && |job.slots| == |job.batch| && Placed(c, job)
    ensures Placed(c, Head(job.votes + Cast(job.batch, job.slots), job.used))
  {
    CastOffsets(job.batch, job.slots);
    TallyConcat(job.votes, Cast(job.batch, job.slots));
    WithinConcat(Offsets(job.votes), job.batch, 0, job.from, job.used);
  }

  lemma TopUpWithin(batch: seq<nat>, resting: seq<nat>, want: nat, lo: nat, hi: nat)
    requires Within(batch, lo, hi) && Within(resting, lo, hi)
    requires forall k :: k in batch ==> k !in resting
    ensures Within(TopUp(batch, resting, want), lo, hi)
    ensures forall k :: k in TopUp(batch, resting, want) ==> k in batch || k in resting
    ensures forall k :: k in batch ==> k in TopUp(batch, resting, want)
    ensures |batch| <= want ==> |TopUp(batch, resting, want)| <= want
    ensures |TopUp(batch, resting, want)| < want ==> TopUp(batch, resting, want) == batch + resting
  {
    var all := TopUp(batch, resting, want);
    var taken := all[|batch|..];
    assert all == batch + taken && taken <= resting;
    forall k | k in all ensures k in batch || k in resting {
      if k !in batch { assert k in taken; }
    }
    forall x, y | 0 <= x < y < |all| ensures all[x] != all[y] {
      if x < |batch| <= y {
        assert all[x] == batch[x] && batch[x] in batch;
        assert all[y] == resting[y - |batch|] && resting[y - |batch|] in resting;
      }
    }
  }

  lemma PlacedAsk(c: Config, job: Job)
    requires job.Collect? && job.looking && Placed(c, job)
    ensures Placed(c, job.(batch := job.batch + [job.used - 1], looking := false))
    ensures Placed(c, job.(resting := job.resting + [job.used - 1], looking := false))
  {
    WithinAppend(job.batch, job.from, job.used - 1, job.used - 1);
    WithinAppend(job.resting, job.from, job.used - 1, job.used - 1);
  }

  lemma PlacedStep(c: Config, w: World, i: nat, job: Job, sh: Shared, act: JobAct)
    requires ValidConfig(c) && JobEnabled(c, w, i, job, sh, act)
    requires Placed(c, job)
    ensures Placed(c, JobAfter(c, w, i, job, sh, act))
  {
    match act
    case Ask => PlacedAsk(c, job);
    case Spawn => TopUpWithin(job.batch, job.resting, Want(c, job.votes), job.from, job.used);
    case Join => PlacedJoin(c, job);
    case _ =>
  }

  lemma TalliedStep(c: Config, w: World, i: nat, job: Job, sh: Shared, act: JobAct)
    requires ValidConfig(c) && JobEnabled(c, w, i, job, sh, act)
    requires Tallied(c, job, sh.cancelled)
    ensures Tallied(c, JobAfter(c, w, i, job, sh, act), sh.cancelled)
  {
    match act
    case Loop => TallyTotal(job.votes);
    case Spawn => TallyTotal(job.votes);
    case Join =>
      TallyTotal(job.votes);
      var cast := Cast(job.batch, job.slots);
      TallyConcat(job.votes, cast);
      TallyTotal(cast);
    case _ =>
  }

  lemma TruthfulStep(c: Config, w: World, i: nat, job: Job, sh: Shared, act: JobAct)
    requires ValidConfig(c) && JobEnabled(c, w, i, job, sh, act)
    requires Truthful(w, i, job, sh.cancelled)
    ensures Truthful(w, i, JobAfter(c, w, i, job, sh, act), sh.cancelled)
  {
    if act.Join? && !sh.cancelled {
      var cast := Cast(job.batch, job.slots);
      forall v | v in cast ensures w(i, v.at, v.answer) {
        var b :| 0 <= b < |cast| && cast[b] == v;
        assert job.slots[b].Done?;
      }
    }
  }

  /** A slot that changes without beginning a dial leaves the record right. */
  lemma SlotLog(c: Config, job: Job, s: nat, slot: Slot, log: seq<nat>)
    requires job.Dialing? && s < |job.slots| == |job.batch| && Logged(c, job, log)
    requires Begun(job.slots[s]) ==> Begun(slot) && !job.slots[s].Done?
    requires !Begun(job.slots[s]) ==> !Begun(slot) || slot == Done(None)
    ensures Logged(c, job.(slots := job.slots[s := slot]), log)
  {
    var after := job.(slots := job.slots[s := slot]);
    forall k | k in log && k !in Offsets(job.votes)
      ensures exists b :: 0 <= b < |job.batch| && job.batch[b] == k && Begun(after.slots[b])
    {
      var b :| 0 <= b < |job.batch| && job.batch[b] == k && Begun(job.slots[b]);
      assert Begun(after.slots[b]);
    }
  }

  lemma NotYetDialled(c: Config, job: Job, s: nat, log: seq<nat>)
    requires job.Dialing? && s < |job.slots| == |job.batch| && job.slots[s].Holding?
    requires Placed(c, job) && Logged(c, job, log)
    ensures job.batch[s] !in log
  {
    var k := job.batch[s];
    assert k in job.batch;
    forall x | x in log ensures x != k {
      if x !in Offsets(job.votes) {
        var b :| 0 <= b < |job.batch| && job.batch[b] == x && Begun(job.slots[b]);
        assert b != s;
      }
    }
  }

  lemma BegunStays(job: Job, s: nat, log: seq<nat>)
    requires job.Dialing? && s < |job.slots| == |job.batch| && job.slots[s].Holding?
    requires forall x :: x in log && x !in Offsets(job.votes) ==>
               exists b :: 0 <= b < |job.batch| && job.batch[b] == x && Begun(job.slots[b])
    ensures forall x :: x in log + [job.batch[s]] && x !in Offsets(job.votes) ==>
              exists b :: 0 <= b < |job.batch| && job.batch[b] == x && Begun(job.slots[s := InFlight][b])
  {
    var slots := job.slots[s := InFlight];
    forall x | x in log + [job.batch[s]] && x !in Offsets(job.votes)
      ensures exists b :: 0 <= b < |job.batch| && job.batch[b] == x && Begun(slots[b])
    {
      if x == job.batch[s] {
        assert Begun(slots[s]);
      } else {
        var b :| 0 <= b < |job.batch| && job.batch[b] == x && Begun(job.slots[b]);
        assert Begun(slots[b]);
      }
    }
  }

  lemma BeginLog(c: Config, job: Job, s: nat, log: seq<nat>)
    requires ValidConfig(c) && job.Dialing? && s < |job.slots| == |job.batch| && job.slots[s].Holding?
    requires Placed(c, job) && Tallied(c, job, false) && Logged(c, job, log)
    ensures Logged(c, job.(slots := job.slots[s := InFlight]), log + [job.batch[s]])
  {
    var after := job.(slots := job.slots[s := InFlight]);
    var k := job.batch[s];
    var log' := log + [k];
    NotYetDialled(c, job, s, log);
    NoDupAppend(log, k);
    BegunStays(job, s, log);
    Pigeonhole(log', Offsets(job.votes) + job.batch);
    TallyTotal(job.votes);
  }

  lemma JoinLog(c: Config, w: World, i: nat, job: Job, log: seq<nat>)
    requires ValidConfig(c) && job.Dialing? && Fits(job, Join)
    requires Truthful(w, i, job, false) && Logged(c, job, log)
    ensures Logged(c, Head(job.votes + Cast(job.batch, job.slots), job.used), log)
  {
    var cast := Cast(job.batch, job.slots);
    CastOffsets(job.batch, job.slots);
    TallyConcat(job.votes, cast);
    forall v | v in job.votes + cast ensures v.at in log {
      if v !in job.votes {
        var b :| 0 <= b < |cast| && cast[b] == v;
        assert Begun(job.slots[b]);
      }
    }
  }

  lemma LoggedStep(c: Config, w: World, i: nat, job: Job, sh: Shared, act: JobAct)
    requires ValidConfig(c) && JobEnabled(c, w, i, job, sh, act) && i < |sh.dialled|
    requires Placed(c, job) && Tallied(c, job, sh.cancelled) && Truthful(w, i, job, sh.cancelled)
    requires Logged(c, job, sh.dialled[i])
    ensures Logged(c, JobAfter(c, w, i, job, sh, act), SharedAfter(c, w, i, job, sh, act).dialled[i])
  {
    var log := sh.dialled[i];
    match act
    case Acquire(s) => SlotLog(c, job, s, Holding, log);
    case Begin(s) =>
      if sh.cancelled { SlotLog(c, job, s, Done(None), log); } else { BeginLog(c, job, s, log); }
    case Return(s, answer) => SlotLog(c, job, s, if sh.cancelled then Done(None) else Answered(answer), log);
    case Finish(s) => SlotLog(c, job, s, Done(Some(job.slots[s].answer)), log);
    case Join => if !sh.cancelled { JoinLog(c, w, i, job, log); }
    case _ =>
  }

  /** A round leaves someone out only when the pool is larger than a first round. */
  lemma FullRound(c: Config, job: Job)
    requires job.Collect? && !job.looking && Placed(c, job) && Opens(job.votes) < c.quorum
    requires |job.batch| <= Want(c, job.votes) < |job.batch| + |job.resting|
    ensures |TopUp(job.batch, job.resting, Want(c, job.votes))| == Want(c, job.votes)
    ensures |c.addrs| >= c.quorum + 3
  {
    var all := |job.batch| + |job.resting|;
    assert TopUp(job.batch, job.resting, all) == job.batch + job.resting;
    TopUpWithin(job.batch, job.resting, all, job.from, job.used);
    WithinSize(job.batch + job.resting, job.from, job.used);
    WithinSize(Offsets(job.votes), 0, job.from);
    TallyTotal(job.votes);
  }

  lemma CoveredSpawn(c: Config, w: World, i: nat, job: Job, sh: Shared)
    requires ValidConfig(c) && JobEnabled(c, w, i, job, sh, Spawn)
    requires Placed(c, job) && Covered(c, i, job, sh.failed) && |job.batch| <= Want(c, job.votes)
    ensures Covered(c, i, JobAfter(c, w, i, job, sh, Spawn), SharedAfter(c, w, i, job, sh, Spawn).failed)
  {
    var want := Want(c, job.votes);
    TopUpWithin(job.batch, job.resting, want, job.from, job.used);
    if |job.batch| + |job.resting| > want { FullRound(c, job); }
  }

  lemma CoveredSlot(c: Config, w: World, i: nat, job: Job, sh: Shared, act: JobAct)
    requires ValidConfig(c) && JobEnabled(c, w, i, job, sh, act)
    requires act.Acquire? || act.Begin? || act.Return? || act.Finish?
    requires Covered(c, i, job, sh.failed)
    ensures Covered(c, i, JobAfter(c, w, i, job, sh, act), SharedAfter(c, w, i, job, sh, act).failed)
  {
    var after := JobAfter(c, w, i, job, sh, act);
    assert forall k :: Holds(after, k) <==> Holds(job, k);
  }

  lemma CoveredCollect(c: Config, w: World, i: nat, job: Job, sh: Shared, act: JobAct)
    requires ValidConfig(c) && JobEnabled(c, w, i, job, sh, act) && (act.Look? || act.Ask?)
    requires Placed(c, job) && Covered(c, i, job, sh.failed)
    ensures Covered(c, i, JobAfter(c, w, i, job, sh, act), SharedAfter(c, w, i, job, sh, act).failed)
  {
    var after := JobAfter(c, w, i, job, sh, act);
    forall k | Holds(job, k) ensures Holds(after, k) {}
  }

  /** A full round opens the port unless it brings a refusal or three faults. */
  lemma WeightyRound(c: Config, votes: seq<Vote>, cast: seq<Vote>)
    requires Weighty(c, votes) || (Opens(votes) < c.quorum && |cast| == Want(c, votes))
    ensures Weighty(c, votes + cast)
  {
    TallyConcat(votes, cast);
    TallyTotal(cast);
  }

  lemma CoveredJoin(c: Config, w: World, i: nat, job: Job, sh: Shared)
    requires ValidConfig(c) && JobEnabled(c, w, i, job, sh, Join) && !sh.cancelled
    requires Placed(c, job) && Covered(c, i, job, sh.failed)
    ensures Covered(c, i, JobAfter(c, w, i, job, sh, Join), SharedAfter(c, w, i, job, sh, Join).failed)
  {
    var after := JobAfter(c, w, i, job, sh, Join);
    CastOffsets(job.batch, job.slots);
    TallyConcat(job.votes, Cast(job.batch, job.slots));
    forall k | Holds(job, k) ensures Holds(after, k) {}
    if Overrun(c, job) { WeightyRound(c, job.votes, Cast(job.batch, job.slots)); }
  }

  lemma CoveredStep(c: Config, w: World, i: nat, job: Job, sh: Shared, act: JobAct)
    requires ValidConfig(c) && JobEnabled(c, w, i, job, sh, act)
    requires Placed(c, job) && Covered(c, i, job, sh.failed)
    requires act.Spawn? ==> |job.batch| <= Want(c, job.votes)
    ensures Covered(c, i, JobAfter(c, w, i, job, sh, act), SharedAfter(c, w, i, job, sh, act).failed)
  {
    match act
    case Look => CoveredCollect(c, w, i, job, sh, act);
    case Ask => CoveredCollect(c, w, i, job, sh, act);
    case Spawn => CoveredSpawn(c, w, i, job, sh);
    case Join => if !sh.cancelled { CoveredJoin(c, w, i, job, sh); }
    case Acquire(_) => CoveredSlot(c, w, i, job, sh, act);
    case Begin(_) => CoveredSlot(c, w, i, job, sh, act);
    case Return(_, _) => CoveredSlot(c, w, i, job, sh, act);
    case Finish(_) => CoveredSlot(c, w, i, job, sh, act);
    case _ =>
  }
}
