/**
 * One host:port, probed in rounds. Everything a job learns from outside its own variables (the
 * shared dead set, the throttle, the context, the dials) reaches it through an environment, so the
 * procedure below is the job under whatever the other goroutines do.
 */
module ScanPort {
  import opened Sequences
  import opened Votes
  import opened Rotation

  /**
   * What the surroundings answer: whether the address at an offset is marked dead when looked at,
   * whether the throttle admits it, what its dial answers, and whether the context is found
   * cancelled at the head of the loop or after the dials of a round, given the cursor then.
   */
  datatype Env = Env(
    failed: nat -> bool, ready: nat -> bool, answer: nat -> Answer, cutHead: nat -> bool, cutJoin: nat -> bool)

  datatype Exit = Exit(votes: seq<Vote>, used: nat, cut: bool)

  function VoteAt(env: Env, k: nat): Vote {
    Vote(k, env.answer(k))
  }

  function CastEnv(env: Env, batch: seq<nat>): seq<Vote> {
    seq(|batch|, b requires 0 <= b < |batch| => VoteAt(env, batch[b]))
  }

  /** Consume the rotation until the batch is full; dead proxies are skipped, tired ones set aside. */
  function Fill(env: Env, n: nat, used: nat, want: nat, batch: seq<nat>, resting: seq<nat>)
    : (r: (seq<nat>, seq<nat>, nat))
    ensures used <= r.2
    ensures |batch| < want && used < n ==> used < r.2
    decreases n - used
  {
    if |batch| < want && used < n then
      if env.failed(used) then Fill(env, n, used + 1, want, batch, resting)
      else if !env.ready(used) then Fill(env, n, used + 1, want, batch, resting + [used])
      else Fill(env, n, used + 1, want, batch + [used], resting)
    else (batch, resting, used)
  }

  /** The rounds from a given tally and cursor on. */
  function RunPort(c: Config, env: Env, votes: seq<Vote>, used: nat): Exit
    decreases |c.addrs| - used, 0
  {
    if !Guard(c, votes, used) then Exit(votes, used, false)
    else if env.cutHead(used) then Exit(votes, used, true)
    else
      var (batch, resting, used') := Fill(env, |c.addrs|, used, Want(c, votes), [], []);
      Rest(c, env, votes, used', TopUp(batch, resting, Want(c, votes)))
  }

  /** The rest of a round whose batch has been settled. */
  function Rest(c: Config, env: Env, votes: seq<Vote>, used: nat, batch: seq<nat>): Exit
    decreases |c.addrs| - used, 1
  {
    if batch == [] then Exit(votes, used, false)
    else if env.cutJoin(used) then Exit(votes, used, true)
    else RunPort(c, env, votes + CastEnv(env, batch), used)
  }

  /** The offsets of a stretch that are not marked dead and that the throttle admits, or does not, in order. */
  ghost predicate Sorted(env: Env, from: nat, used: nat, ready: bool, offsets: seq<nat>) {
    Rises(offsets) && forall k: nat :: k in offsets <==> from <= k < used && !env.failed(k) && env.ready(k) == ready
  }

  /** A stretch of the rotation is consumed, no longer than it takes to fill the batch, and sorted. */
  lemma {:induction false} FillSorts(
      env: Env, n: nat, from: nat, used: nat, want: nat, batch: seq<nat>, resting: seq<nat>)
    requires from <= used <= n && |batch| <= want
    requires Sorted(env, from, used, true, batch) && Sorted(env, from, used, false, resting)
    ensures var (filled, aside, cursor) := Fill(env, n, used, want, batch, resting);
            && used <= cursor <= n && |filled| <= want && (|filled| < want ==> cursor == n)
            && Sorted(env, from, cursor, true, filled) && Sorted(env, from, cursor, false, aside)
            && (cursor > used ==> cursor - 1 in filled || |filled| < want)
    decreases n - used
  {
    if |batch| < want && used < n {
      RisesConcat(batch, [used], used);
      RisesConcat(resting, [used], used);
      if env.failed(used) {
        FillSorts(env, n, from, used + 1, want, batch, resting);
      } else if env.ready(used) {
        FillSorts(env, n, from, used + 1, want, batch + [used], resting);
      } else {
        FillSorts(env, n, from, used + 1, want, batch, resting + [used]);
      }
    }
  }

  ghost predicate IsBatchOf(
    env: Env, n: nat, from: nat, want: nat, batch: seq<nat>, used: nat, filled: seq<nat>, aside: seq<nat>)
  {
    && Sorted(env, from, used, true, filled) && Sorted(env, from, used, false, aside)
    && filled <= batch && batch[|filled|..] <= aside
    && |batch| == (if |filled| + |aside| < want then |filled| + |aside| else want)
    && from < used <= n && (|filled| < want ==> used == n) && (|filled| == want ==> used - 1 in filled)
  }

  /** A round's batch: the admitted of the stretch in order, then the first of the others until it is full. */
  ghost predicate IsBatch(env: Env, n: nat, from: nat, want: nat, batch: seq<nat>, used: nat) {
    exists filled, aside :: IsBatchOf(env, n, from, want, batch, used, filled, aside)
  }

  lemma ToppedUp(filled: seq<nat>, aside: seq<nat>, want: nat)
    requires |filled| <= want
    ensures var batch := TopUp(filled, aside, want);
            && filled <= batch && batch[|filled|..] <= aside
            && |batch| == if |filled| + |aside| < want then |filled| + |aside| else want
  {
  }

  lemma BatchIsSorted(env: Env, n: nat, from: nat, want: nat)
    requires from < n && 0 < want
    ensures var (filled, aside, cursor) := Fill(env, n, from, want, [], []);
            IsBatch(env, n, from, want, TopUp(filled, aside, want), cursor)
  {
    FillSorts(env, n, from, from, want, [], []);
    var (filled, aside, cursor) := Fill(env, n, from, want, [], []);
    ToppedUp(filled, aside, want);
    assert IsBatchOf(env, n, from, want, TopUp(filled, aside, want), cursor, filled, aside);
  }

  /** The running variables of the procedure. */
  datatype Tally = Tally(
    confirmations: nat, faults: nat, refuted: bool, refutedBy: string,
    labels: seq<string>, banner: string, service: string, version: string)

  /** What they hold once `votes` have been tallied. */
  function TallyOf(c: Config, i: nat, votes: seq<Vote>): Tally
    requires ValidConfig(c)
  {
    Tally(Opens(votes), Faults(votes), LastRefuser(votes).Some?,
          match LastRefuser(votes) case None => "" case Some(k) => AddrOf(c, i, k),
          LabelsOf(c, i, Openers(votes)),
          FirstNonEmpty(Texts(Learned(votes), BannerOf)),
          FirstNonEmpty(Texts(Learned(votes), ServiceOf)),
          FirstNonEmpty(Texts(Learned(votes), VersionOf)))
  }

  /** One more result counted. */
  function Counted(c: Config, i: nat, t: Tally, v: Vote): Tally
    requires ValidConfig(c)
  {
    match v.answer
    case Connected(service, version, banner) =>
      t.(confirmations := t.confirmations + 1,
         labels := t.labels + [c.labels[Position(c, i, v.at)]],
         banner := if t.banner == "" then banner else t.banner,
         service := if t.service == "" then service else t.service,
         version := if t.version == "" then version else t.version)
    case Refusal => t.(refuted := true, refutedBy := AddrOf(c, i, v.at))
    case ProxyFault(_) => t.(faults := t.faults + 1)
  }

  lemma TextsAppend(l: seq<Answer>, a: Answer, part: Answer -> string)
    ensures FirstNonEmpty(Texts(l + [a], part)) ==
            if FirstNonEmpty(Texts(l, part)) == "" then part(a) else FirstNonEmpty(Texts(l, part))
  {
    assert Texts(l + [a], part) == Texts(l, part) + [part(a)];
    FirstNonEmptyAppend(Texts(l, part), part(a));
  }

  lemma LabelsAppend(c: Config, i: nat, s: seq<nat>, k: nat)
    requires ValidConfig(c)
    ensures LabelsOf(c, i, s + [k]) == LabelsOf(c, i, s) + [c.labels[Position(c, i, k)]]
  {
  }

  lemma TallyOfAppend(c: Config, i: nat, votes: seq<Vote>, v: Vote)
    requires ValidConfig(c)
    ensures TallyOf(c, i, votes + [v]) == Counted(c, i, TallyOf(c, i, votes), v)
  {
    TallyAppend(votes, v);
    if v.answer.Connected? {
      var l := Learned(votes);
      TextsAppend(l, v.answer, BannerOf);
      TextsAppend(l, v.answer, ServiceOf);
      TextsAppend(l, v.answer, VersionOf);
      LabelsAppend(c, i, Openers(votes), v.at);
    } else {
      assert Openers(votes) + [] == Openers(votes) && Learned(votes) + [] == Learned(votes);
    }
  }

  lemma TopUpOne(batch: seq<nat>, resting: seq<nat>, want: nat)
    requires |batch| < want && resting != []
    ensures TopUp(batch + [resting[0]], resting[1..], want) == TopUp(batch, resting, want)
  {
  }

  /** The batch-building loops of a round. */
  method NextBatch(n: nat, env: Env, from: nat, want: nat) returns (batch: seq<nat>, used: nat)
    requires from < n && 0 < want
    ensures from < used <= n
    ensures var (filled, resting, cursor) := Fill(env, n, from, want, [], []);
            batch == TopUp(filled, resting, want) && used == cursor
  {
    used := from;
    batch := [];
    var resting: seq<nat> := [];
    while |batch| < want && used < n
      invariant from <= used <= n && (from == used ==> batch == [])
      invariant Fill(env, n, from, want, [], []) == Fill(env, n, used, want, batch, resting)
      decreases n - used
    {
      var k := used;
      used := used + 1;
      if env.failed(k) {
        continue;
      }
      if !env.ready(k) {
        resting := resting + [k];
        continue;
      }
      batch := batch + [k];
    }
    ghost var filled, aside := batch, resting;
    while |batch| < want && |resting| > 0
      invariant TopUp(batch, resting, want) == TopUp(filled, aside, want)
      decreases |resting|
    {
      TopUpOne(batch, resting, want);
      batch := batch + [resting[0]];
      resting := resting[1..];
    }
  }

  /** The switch of the tallying loop. */
  method CountResult(c: Config, i: nat, before: Tally, at: nat, result: Answer) returns (t: Tally)
    requires ValidConfig(c)
    ensures t == Counted(c, i, before, Vote(at, result))
  {
    t := before;
    match result {
      case Connected(service, version, banner) =>
        t := t.(confirmations := t.confirmations + 1, labels := t.labels + [c.labels[Position(c, i, at)]]);
        if t.banner == "" { t := t.(banner := banner); }
        if t.service == "" { t := t.(service := service); }
        if t.version == "" { t := t.(version := version); }
      case Refusal =>
        t := t.(refuted := true, refutedBy := AddrOf(c, i, at));
      case ProxyFault(_) =>
        t := t.(faults := t.faults + 1);
    }
  }

  /** The tallying loop of a round. */
  method CountRound(c: Config, i: nat, batch: seq<nat>, results: seq<Answer>, before: Tally, ghost votes: seq<Vote>)
    returns (t: Tally)
    requires ValidConfig(c) && |results| == |batch|
    requires before == TallyOf(c, i, votes)
    ensures t == TallyOf(c, i, votes + seq(|batch|, b requires 0 <= b < |batch| => Vote(batch[b], results[b])))
  {
    ghost var cast := seq(|batch|, b requires 0 <= b < |batch| => Vote(batch[b], results[b]));
    t := before;
    assert votes + cast[..0] == votes;
    for b := 0 to |batch|
      invariant t == TallyOf(c, i, votes + cast[..b])
    {
      ghost var v := Vote(batch[b], results[b]);
      assert votes + cast[..b + 1] == (votes + cast[..b]) + [v];
      TallyOfAppend(c, i, votes + cast[..b], v);
      t := CountResult(c, i, t, batch[b], results[b]);
    }
    assert cast[..|batch|] == cast;
  }

  /** The procedure: rounds until the quorum is met, refuted, out of patience or out of proxies. */
  method Scan(c: Config, i: nat, env: Env) returns (oc: PortOutcome)
    requires ValidConfig(c) && i < |c.targets|
    ensures oc == OutcomeOf(c, i, RunPort(c, env, [], 0).votes)
  {
    var n := |c.addrs|;
    var t := Tally(0, 0, false, "", [], "", "", "");
    var used: nat := 0;
    ghost var votes: seq<Vote> := [];
    ghost var cut := false;
    assert t == TallyOf(c, i, votes);
    TallyTotal(votes);
    while t.confirmations < c.quorum && !t.refuted && t.faults < c.cap && used < n
      invariant used <= n
      invariant t == TallyOf(c, i, votes) && (t.refuted <==> Refused(votes))
      invariant RunPort(c, env, [], 0) == RunPort(c, env, votes, used)
      invariant !cut
      decreases n - used
    {
      if env.cutHead(used) {
        cut := true;
        break;
      }
      var batch;
      batch, used := NextBatch(n, env, used, c.quorum - t.confirmations + 2);
      if |batch| == 0 {
        break;
      }
      if env.cutJoin(used) {
        cut := true;
        break;
      }
      assert RunPort(c, env, [], 0) == RunPort(c, env, votes + CastEnv(env, batch), used);
      var results := seq(|batch|, b requires 0 <= b < |batch| => env.answer(batch[b]));
      t := CountRound(c, i, batch, results, t, votes);
      assert CastEnv(env, batch) == seq(|batch|, b requires 0 <= b < |batch| => Vote(batch[b], results[b]));
      votes := votes + CastEnv(env, batch);
      TallyTotal(votes);
    }
    assert RunPort(c, env, [], 0) == Exit(votes, used, cut);
    TallyTotal(votes);
    oc := PortOutcome(c.targets[i].0, c.targets[i].1, DecideQuorum(t.confirmations, c.quorum, t.refuted),
                      t.confirmations, c.quorum, t.labels, t.banner, t.service, t.version, t.refutedBy);
  }
}
