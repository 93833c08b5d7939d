/** Batches against single dials. */
module BatchedScan {
  import opened Votes
  import opened Rotation
  import opened ScanPort

  /** Nothing is throttled or cancelled; who is marked dead does not change. */
  ghost predicate Undisturbed(env: Env) {
    forall k: nat :: env.ready(k) && !env.cutHead(k) && !env.cutJoin(k)
  }

  /** The proxies not marked dead, from an offset on, in rotation order. */
  function Candidates(env: Env, n: nat, from: nat): seq<nat>
    decreases n - from
  {
    if from >= n then []
    else if env.failed(from) then Candidates(env, n, from + 1)
    else [from] + Candidates(env, n, from + 1)
  }

  ghost predicate Stops(quorum: nat, votes: seq<Vote>) {
    Opens(votes) >= quorum || Refused(votes)
  }

  /** The reference: one dial at a time, in order, until quorum, refusal or exhaustion. */
  ghost function Single(quorum: nat, votes: seq<Vote>, pending: seq<Vote>): seq<Vote>
    decreases |pending|
  {
    if Stops(quorum, votes) || pending == [] then votes
    else Single(quorum, votes + [pending[0]], pending[1..])
  }

  /** The error cap does not end the scan before the reference stops or runs out of candidates. */
  ghost predicate CapIdle(c: Config, votes: seq<Vote>, pending: seq<Vote>) {
    forall m: nat :: m < |pending| && !Stops(c.quorum, votes + pending[..m]) ==> Faults(votes + pending[..m]) < c.cap
  }

  function VerdictOf(c: Config, votes: seq<Vote>): Verdict {
    DecideQuorum(Opens(votes), c.quorum, Refused(votes))
  }

  lemma {:induction false} CandidatesAhead(env: Env, n: nat, from: nat)
    ensures forall k :: k in Candidates(env, n, from) ==> from <= k < n && !env.failed(k)
    ensures forall k: nat :: from <= k < n && !env.failed(k) ==> k in Candidates(env, n, from)
    decreases n - from
  {
    if from < n { CandidatesAhead(env, n, from + 1); }
  }

  /** Undisturbed, a round takes candidates off the front until it is full or they run out. */
  lemma {:induction false} FillTakes(env: Env, n: nat, used: nat, want: nat, batch: seq<nat>)
    requires Undisturbed(env)
    ensures var (filled, resting, used') := Fill(env, n, used, want, batch, []);
            && resting == []
            && filled + Candidates(env, n, used') == batch + Candidates(env, n, used)
            && batch <= filled
            && |filled| <= (if |batch| > want then |batch| else want)
            && (|filled| < want ==> Candidates(env, n, used') == [])
    decreases n - used
  {
    if |batch| < want && used < n {
      if env.failed(used) {
        FillTakes(env, n, used + 1, want, batch);
      } else {
        FillTakes(env, n, used + 1, want, batch + [used]);
        assert batch + Candidates(env, n, used) == (batch + [used]) + Candidates(env, n, used + 1);
      }
    }
  }

  /** Single-stepping through a first stretch: either it stops inside it or it goes on after it. */
  lemma {:induction false} SingleSplit(quorum: nat, votes: seq<Vote>, a: seq<Vote>, b: seq<Vote>)
    requires !Stops(quorum, votes)
    ensures Stops(quorum, votes + a) ==>
              var s := Single(quorum, votes, a + b);
              && votes <= s <= votes + a && Stops(quorum, s)
              && Opens(s) <= quorum
    ensures !Stops(quorum, votes + a) ==> Single(quorum, votes, a + b) == Single(quorum, votes + a, b)
    decreases |a|
  {
    if a == [] {
      assert votes + a == votes && a + b == b;
    } else {
      assert (a + b)[0] == a[0] && (a + b)[1..] == a[1..] + b;
      assert votes + a == (votes + [a[0]]) + a[1..];
      TallyAppend(votes, a[0]);
      if Stops(quorum, votes + [a[0]]) {
        TallyConcat(votes + [a[0]], a[1..]);
      } else {
        SingleSplit(quorum, votes + [a[0]], a[1..], b);
      }
    }
  }

  /** How the batched result relates to the single-dial result. */
  ghost predicate Refines(c: Config, batched: seq<Vote>, single: seq<Vote>) {
    && single <= batched
    && (VerdictOf(c, single) == Open ==> |batched| <= |single| + 2)
    && VerdictOf(c, batched) ==
       (if VerdictOf(c, single) == Open && Refused(batched[|single|..]) then Refuted else VerdictOf(c, single))
  }

  lemma RefinesItself(c: Config, votes: seq<Vote>)
    ensures Refines(c, votes, votes)
  {
    assert votes[|votes|..] == [];
  }

  /** Where the tally of a round stands when the reference stops inside it. */
  lemma SplitTally(votes: seq<Vote>, single: seq<Vote>, batched: seq<Vote>)
    requires votes <= single <= batched
    ensures var extra := batched[|single|..];
            && batched == single + extra && |batched| == |single| + |extra|
            && Opens(batched) == Opens(single) + Opens(extra)
            && (Refused(batched) <==> Refused(single) || Refused(extra))
            && Opens(single) <= Opens(votes) + (|single| - |votes|)
  {
    var read, extra := single[|votes|..], batched[|single|..];
    assert single == votes + read && batched == single + extra;
    TallyConcat(votes, read);
    TallyTotal(read);
    TallyConcat(single, extra);
  }

  /** The last round: the reference stopped inside it. */
  lemma {:induction false} LastRound(c: Config, votes: seq<Vote>, cast: seq<Vote>, single: seq<Vote>)
    requires !Stops(c.quorum, votes) && |cast| <= c.quorum - Opens(votes) + 2
    requires votes <= single <= votes + cast && Stops(c.quorum, single) && Opens(single) <= c.quorum
    ensures Refines(c, votes + cast, single)
  {
    SplitTally(votes, single, votes + cast);
    TallyTotal(single);
  }

  lemma {:induction false} FillBound(env: Env, n: nat, used: nat, want: nat, batch: seq<nat>)
    requires used <= n && Undisturbed(env)
    ensures Fill(env, n, used, want, batch, []).2 <= n
    decreases n - used
  {
    if |batch| < want && used < n {
      FillBound(env, n, used + 1, want, if env.failed(used) then batch else batch + [used]);
    }
  }

  /** One undisturbed round: the next candidates are dialled and tallied. */
  lemma OneRound(c: Config, env: Env, votes: seq<Vote>, used: nat) returns (batch: seq<nat>, used': nat)
    requires ValidConfig(c) && Undisturbed(env) && used <= |c.addrs| && Guard(c, votes, used)
    ensures used < used' <= |c.addrs| && |batch| <= c.quorum - Opens(votes) + 2
    ensures Candidates(env, |c.addrs|, used) == batch + Candidates(env, |c.addrs|, used')
    ensures batch == [] ==> Candidates(env, |c.addrs|, used) == []
    ensures RunPort(c, env, votes, used) ==
            if batch == [] then Exit(votes, used', false) else RunPort(c, env, votes + CastEnv(env, batch), used')
  {
    var n, want := |c.addrs|, Want(c, votes);
    var (filled, resting, cursor) := Fill(env, n, used, want, [], []);
    FillTakes(env, n, used, want, []);
    FillBound(env, n, used, want, []);
    batch, used' := filled, cursor;
    assert TopUp(filled, resting, want) == filled;
    assert [] + Candidates(env, n, used) == Candidates(env, n, used);
  }

  lemma CastConcat(env: Env, a: seq<nat>, b: seq<nat>)
    ensures CastEnv(env, a + b) == CastEnv(env, a) + CastEnv(env, b)
  {
  }

  /** One round refines single dials if what follows it does. */
  lemma RoundRefines(c: Config, votes: seq<Vote>, cast: seq<Vote>, later: seq<Vote>, final: seq<Vote>)
    requires !Stops(c.quorum, votes) && |cast| <= c.quorum - Opens(votes) + 2
    requires Stops(c.quorum, votes + cast) ==> final == votes + cast
    requires !Stops(c.quorum, votes + cast) ==>
               Refines(c, final, Single(c.quorum, votes + cast, later))
    ensures Refines(c, final, Single(c.quorum, votes, cast + later))
  {
    SingleSplit(c.quorum, votes, cast, later);
    if Stops(c.quorum, votes + cast) {
      LastRound(c, votes, cast, Single(c.quorum, votes, cast + later));
    }
  }

  lemma Regrouped(votes: seq<Vote>, cast: seq<Vote>, later: seq<Vote>)
    ensures (votes + cast) + later == votes + (cast + later)
    ensures votes + cast <= votes + (cast + later)
  {
    assert (votes + cast) + later == votes + (cast + later);
  }

  lemma CapIdleNow(c: Config, votes: seq<Vote>, pending: seq<Vote>)
    requires CapIdle(c, votes, pending) && Faults(votes) >= c.cap && !Stops(c.quorum, votes)
    ensures pending == []
  {
    assert votes + pending[..0] == votes;
  }

  lemma CapIdleLater(c: Config, votes: seq<Vote>, cast: seq<Vote>, later: seq<Vote>)
    requires CapIdle(c, votes, cast + later)
    ensures CapIdle(c, votes + cast, later)
  {
    forall m: nat | m < |later| && !Stops(c.quorum, (votes + cast) + later[..m])
      ensures Faults((votes + cast) + later[..m]) < c.cap
    {
      assert (votes + cast) + later[..m] == votes + (cast + later)[..|cast| + m];
    }
  }

  lemma {:induction false} RoundsRefine(c: Config, env: Env, votes: seq<Vote>, used: nat)
    requires ValidConfig(c) && Undisturbed(env) && used <= |c.addrs|
    requires !Stops(c.quorum, votes)
    requires CapIdle(c, votes, CastEnv(env, Candidates(env, |c.addrs|, used)))
    ensures var pending := CastEnv(env, Candidates(env, |c.addrs|, used));
            var batched := RunPort(c, env, votes, used).votes;
            Refines(c, batched, Single(c.quorum, votes, pending)) && batched <= votes + pending
    decreases |c.addrs| - used
  {
    var pending := CastEnv(env, Candidates(env, |c.addrs|, used));
    if !Guard(c, votes, used) {
      if Faults(votes) >= c.cap { CapIdleNow(c, votes, pending); }
      RefinesItself(c, votes);
    } else {
      var batch, used' := OneRound(c, env, votes, used);
      var cast, later := CastEnv(env, batch), CastEnv(env, Candidates(env, |c.addrs|, used'));
      CastConcat(env, batch, Candidates(env, |c.addrs|, used'));
      assert pending == cast + later;
      if batch == [] {
        RefinesItself(c, votes);
      } else {
        if !Stops(c.quorum, votes + cast) {
          CapIdleLater(c, votes, cast, later);
          RoundsRefine(c, env, votes + cast, used');
        }
        var final := RunPort(c, env, votes + cast, used').votes;
        RoundRefines(c, votes, cast, later, final);
        Regrouped(votes, cast, later);
      }
    }
  }

  /**
   * Unthrottled and uncancelled, with a fixed dead set and an error cap that does not bite before the
   * reference stops or runs out of candidates, the batched scan gives the verdict of dialling one at a
   * time, except that an Open becomes Refuted when one of the at most two votes read past the quorum
   * is a refusal.
   */
  lemma BatchedRefinesSingle(c: Config, env: Env)
    requires ValidConfig(c) && Undisturbed(env)
    requires CapIdle(c, [], CastEnv(env, Candidates(env, |c.addrs|, 0)))
    ensures var batched := RunPort(c, env, [], 0).votes;
            var single := Single(c.quorum, [], CastEnv(env, Candidates(env, |c.addrs|, 0)));
            Refines(c, batched, single)
  {
    RoundsRefine(c, env, [], 0);
  }
}
