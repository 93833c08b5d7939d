/** The runs of a scan against the reference that dials one proxy at a time. */
module RotationBatched {
  import opened Sequences
  import opened Votes
  import opened Rotation
  import opened RotationInvariant
  import opened RotationSafety
  import opened RotationSchedule
  import opened RotationDead
  import opened ScanPort
  import opened BatchedScan

  /** The surroundings of a target whose dials answer as f says and whose dead set was this at its start. */
  function DialEnv(c: Config, f: Dial, i: nat, failed: set<string>): Env
    requires |c.addrs| > 0
  {
    Env((k: nat) => AddrOf(c, i, k) in failed, (k: nat) => true, (k: nat) => f(i, k),
        (k: nat) => false, (k: nat) => false)
  }

  /** Two dead sets that agree on the offsets ahead. */
  ghost predicate SameAhead(c: Config, i: nat, used: nat, a: set<string>, b: set<string>)
    requires |c.addrs| > 0
  {
    forall k: nat :: used <= k < |c.addrs| ==> (AddrOf(c, i, k) in a <==> AddrOf(c, i, k) in b)
  }

  lemma {:induction false} GatherIsFill(
      c: Config, f: Dial, i: nat, start: set<string>, failed: set<string>, used: nat, want: nat, batch: seq<nat>)
    requires |c.addrs| > 0 && used <= |c.addrs| && SameAhead(c, i, used, start, failed)
    requires forall k :: k in batch ==> k < used
    ensures var (full, used') := Gather(c, i, failed, used, want, batch);
            && Fill(DialEnv(c, f, i, start), |c.addrs|, used, want, batch, []) == (full, [], used')
            && used' <= |c.addrs| && forall k :: k in full ==> k < used'
    decreases |c.addrs| - used
  {
    if |batch| < want && used < |c.addrs| {
      GatherIsFill(
        c, f, i, start, failed, used + 1, want, if AddrOf(c, i, used) in failed then batch else batch + [used]);
    }
  }

  /** What a batch condemns is behind the cursor, unless addresses repeat or nobody is condemned. */
  lemma CondemnedBehind(c: Config, f: Dial, i: nat, batch: seq<nat>, used: nat, start: set<string>, failed: set<string>)
    requires |c.addrs| > 0 && (NoDup(c.addrs) || NoneDead(f))
    requires SameAhead(c, i, used, start, failed) && used <= |c.addrs| && forall k :: k in batch ==> k < used
    ensures SameAhead(c, i, used, start, failed + Condemned(c, f, i, batch))
  {
    forall k: nat | used <= k < |c.addrs| ensures AddrOf(c, i, k) !in Condemned(c, f, i, batch) {
      if b :| 0 <= b < |batch| && f(i, batch[b]) == ProxyFault(true) && AddrOf(c, i, batch[b]) == AddrOf(c, i, k) {
        assert batch[b] in batch;
        OneOffset(c, i, batch[b], k);
        assert false;
      }
    }
  }

  /** The rounds of a target by itself are those of the round loop in its surroundings. */
  lemma {:induction false} RoundsAreScanPort(
      c: Config, f: Dial, i: nat, start: set<string>, votes: seq<Vote>, used: nat, failed: set<string>)
    requires ValidConfig(c) && used <= |c.addrs| && SameAhead(c, i, used, start, failed)
    requires NoDup(c.addrs) || NoneDead(f)
    ensures RunPort(c, DialEnv(c, f, i, start), votes, used).votes == Rounds(c, f, i, votes, used, failed).votes
    decreases |c.addrs| - used
  {
    var env := DialEnv(c, f, i, start);
    if Guard(c, votes, used) {
      var (batch, used') := Gather(c, i, failed, used, Want(c, votes), []);
      GatherIsFill(c, f, i, start, failed, used, Want(c, votes), []);
      assert TopUp(batch, [], Want(c, votes)) == batch;
      if batch != [] {
        assert CastEnv(env, batch) == CastBy(f, i, batch);
        CondemnedBehind(c, f, i, batch, used', start, failed);
        RoundsAreScanPort(
          c, f, i, start, votes + CastBy(f, i, batch), used', failed + Condemned(c, f, i, batch));
      }
    }
  }

  /** The votes of the live proxies in rotation order, as the reference would collect them. */
  function Pending(c: Config, f: Dial, i: nat): seq<Vote>
    requires |c.addrs| > 0
  {
    var env := DialEnv(c, f, i, DeadBefore(c, f, i));
    CastEnv(env, Candidates(env, |c.addrs|, 0))
  }

  /**
   * In every uncancelled run without a throttle whose schedule cannot show, each decided slot holds
   * the outcome of votes that extend those of dialling one proxy at a time, in order, over the proxies
   * not condemned by earlier targets, by at most two past an Open; the verdicts agree, except that
   * Open becomes Refuted when one of those two is a refusal.
   */
  lemma SlotsRefineSingle(c: Config, w: World, f: Dial, acts: seq<Action>, s: State, i: nat)
    returns (votes: seq<Vote>)
    requires Reaches(c, w, acts, s) && Deterministic(w, f) && i < |s.jobs| && Decided(s.jobs[i])
    requires Unpaced(c) && !s.sh.cancelled
    requires NoneDead(f) || (OneAtATime(c) && NoDup(c.addrs))
    requires CapIdle(c, [], Pending(c, f, i))
    ensures i < |c.targets| == |s.sh.outcomes| && s.sh.outcomes[i] == OutcomeOf(c, i, votes)
    ensures Refines(c, votes, Single(c.quorum, [], Pending(c, f, i)))
  {
    ReachableInv(c, w, acts, s);
    assert JobOk(c, w, i, s.jobs[i], s.sh);
    ReachableOnTrack(c, w, f, acts, s);
    votes := s.jobs[i].votes;
    assert votes == Sequential(c, f, i).votes;
    var start := DeadBefore(c, f, i);
    RoundsAreScanPort(c, f, i, start, [], 0, start);
    RoundsRefine(c, DialEnv(c, f, i, start), [], 0);
  }
}
