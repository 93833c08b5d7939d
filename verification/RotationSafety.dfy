/** Statements about whole scans: they hold in every reachable state, under every interleaving. */
module RotationSafety {
  import opened Sequences
  import opened Votes
  import opened Rotation
  import opened RotationJob
  import opened RotationInvariant

  /** The outcome of job i has been stored. */
  predicate Decided(job: Job) {
    job.Written? || job.Reported? || job.Released?
  }

  function InFlightIn(s: Slot): nat {
    if s.InFlight? then 1 else 0
  }

  function DialsInFlight(job: Job): nat {
    if job.Dialing? then SumBy(InFlightIn, job.slots) else 0
  }

  /** At most `conc` jobs are live and at most `conc` dials are in flight, at any time. */
  lemma ConcurrencyBounded(c: Config, w: World, acts: seq<Action>, s: State)
    requires Reaches(c, w, acts, s)
    ensures SumBy(Live, s.jobs) <= c.conc
    ensures SumBy(DialsInFlight, s.jobs) <= c.conc
  {
    ReachableInv(c, w, acts, s);
    forall job | job in s.jobs ensures DialsInFlight(job) <= DialsInUse(job) {
      if job.Dialing? { SumMonotone(InFlightIn, InUse, job.slots); }
    }
    SumMonotone(DialsInFlight, DialsInUse, s.jobs);
  }

  /** Each job dials each pool position at most once and at most min(n, quorum + cap + 1) in all. */
  lemma DialsAccounted(c: Config, w: World, acts: seq<Action>, s: State, i: nat)
    requires Reaches(c, w, acts, s) && i < |c.targets|
    ensures |s.sh.dialled| == |s.sh.outcomes| == |c.targets|
    ensures var log := s.sh.dialled[i];
            && |log| <= c.quorum + c.cap + 1 && |log| <= |c.addrs|
            && forall a, b :: 0 <= a < b < |log| ==> Position(c, i, log[a]) != Position(c, i, log[b])
    ensures s.sh.outcomes[i].confirmations == |s.sh.outcomes[i].labels| <= c.quorum + 2
  {
    ReachableInv(c, w, acts, s);
    assert JobOk(c, w, i, s.jobs[i], s.sh);
    var log := s.sh.dialled[i];
    BoundedSize(log, |c.addrs|);
    forall a, b | 0 <= a < b < |log| ensures Position(c, i, log[a]) != Position(c, i, log[b]) {
      assert log[a] in log && log[b] in log;
      if log[a] < log[b] { PositionsDiffer(c, i, log[a], log[b]); } else { PositionsDiffer(c, i, log[b], log[a]); }
    }
    if Decided(s.jobs[i]) { TallyTotal(s.jobs[i].votes); }
  }

  /** The offsets at which some dial of job i could be answered by a connection. */
  ghost function CouldOpen(c: Config, w: World, i: nat): set<nat> {
    set k | k in Below(|c.addrs|) && exists a: Answer :: a.Connected? && w(i, k, a)
  }

  /** Positions whose labels an outcome carries, each a proxy whose connection was tallied. */
  ghost predicate Vouched(c: Config, w: World, i: nat, oc: PortOutcome, offsets: seq<nat>)
    requires ValidConfig(c)
  {
    && NoDup(offsets)
    && |offsets| == |oc.labels|
    && forall m :: 0 <= m < |offsets| ==>
         && offsets[m] in CouldOpen(c, w, i)
         && oc.labels[m] == c.labels[Position(c, i, offsets[m])]
  }

  /**
   * A job stored as Open has at least a quorum of labels, from distinct pool positions that could
   * each be connected through, and no tallied refusal.
   */
  lemma OpenIsVouched(c: Config, w: World, acts: seq<Action>, s: State, i: nat) returns (offsets: seq<nat>)
    requires Reaches(c, w, acts, s) && i < |s.sh.outcomes| && s.sh.outcomes[i].verdict == Open
    ensures i < |c.targets|
    ensures |s.jobs| == |c.targets| && Decided(s.jobs[i]) && !Refused(s.jobs[i].votes)
    ensures Vouched(c, w, i, s.sh.outcomes[i], offsets)
    ensures |offsets| >= c.quorum
    ensures s.sh.outcomes[i].host == c.targets[i].0 && s.sh.outcomes[i].port == c.targets[i].1
    ensures s.sh.outcomes[i].refutedBy == ""
  {
    ReachableInv(c, w, acts, s);
    assert JobOk(c, w, i, s.jobs[i], s.sh);
    var votes := s.jobs[i].votes;
    offsets := Openers(votes);
    OpenersVoted(votes);
    TallyTotal(votes);
    forall m | 0 <= m < |offsets| ensures offsets[m] in CouldOpen(c, w, i) {
      assert offsets[m] in offsets;
      var v :| v in votes && v.at == offsets[m] && v.answer.Connected?;
      OffsetsIn(votes, v.at);
      assert w(i, offsets[m], v.answer);
    }
  }

  /** Liars short of a quorum never make a port open, whatever the interleaving. */
  lemma LiarsCannotOpen(c: Config, w: World, acts: seq<Action>, s: State, i: nat)
    requires Reaches(c, w, acts, s) && i < |c.targets|
    requires |CouldOpen(c, w, i)| < c.quorum
    ensures |s.sh.outcomes| == |c.targets|
    ensures s.sh.outcomes[i].verdict != Open
  {
    ReachableInv(c, w, acts, s);
    if s.sh.outcomes[i].verdict == Open {
      var offsets := OpenIsVouched(c, w, acts, s, i);
      NoDupSize(offsets);
      forall k | k in Elems(offsets) ensures k in CouldOpen(c, w, i) {
        var m :| 0 <= m < |offsets| && offsets[m] == k;
      }
      SubsetSize(Elems(offsets), CouldOpen(c, w, i));
      assert false;
    }
  }

  /** No throttle, a pool no larger than a first round, or a cap that three faults reach. */
  predicate RestIsHarmless(c: Config) {
    c.interval <= 0 || |c.addrs| <= c.quorum + 2 || c.cap <= 3
  }

  /**
   * Where resting is harmless, without cancellation or a refuser, with fewer possible faults than the
   * cap and a quorum of sure openers that are never condemned, the port is found open.
   */
  lemma HonestQuorumOpens(c: Config, w: World, acts: seq<Action>, s: State, i: nat, sure: set<nat>, faulty: set<nat>)
    requires Reaches(c, w, acts, s) && i < |s.jobs| && Decided(s.jobs[i])
    requires RestIsHarmless(c) && !s.sh.cancelled
    requires forall k :: !w(i, k, Refusal)
    requires forall k, dead :: w(i, k, ProxyFault(dead)) ==> k in faulty
    requires |faulty| < c.cap
    requires |sure| >= c.quorum
    requires forall k :: k in sure ==> k < |c.addrs| && k !in faulty && AddrOf(c, i, k) !in s.sh.failed
    ensures |s.sh.outcomes| == |s.jobs|
    ensures s.sh.outcomes[i].verdict == Open
  {
    ReachableInv(c, w, acts, s);
    assert JobOk(c, w, i, s.jobs[i], s.sh);
    var job := s.jobs[i];
    var votes := job.votes;
    forall v | v in votes ensures !v.answer.Refusal? && (v.answer.ProxyFault? ==> v.at in faulty) {
      assert w(i, v.at, v.answer);
      if v.answer.ProxyFault? { assert v.answer == ProxyFault(v.answer.dead); }
    }
    FaultsBounded(votes, faulty);
    OpenersVoted(votes);
    TallyTotal(votes);
    if Opens(votes) < c.quorum {
      assert job.used == |c.addrs| && Kept(c, i, job, s.sh.failed);
      forall k | k in sure ensures k in Elems(Openers(votes)) {
        assert Holds(job, k);
        OffsetsIn(votes, k);
        var v :| v in votes && v.at == k;
      }
      SubsetSize(sure, Elems(Openers(votes)));
      NoDupSize(Openers(votes));
      assert false;
    }
  }

  /** Slot i is the outcome of target i, or still the zero outcome. */
  lemma SlotsMatchTargets(c: Config, w: World, acts: seq<Action>, s: State, i: nat)
    requires Reaches(c, w, acts, s) && i < |c.targets|
    ensures |s.jobs| == |s.sh.outcomes| == |c.targets|
    ensures if Decided(s.jobs[i])
            then s.sh.outcomes[i] == OutcomeOf(c, i, s.jobs[i].votes)
                 && s.sh.outcomes[i].host == c.targets[i].0 && s.sh.outcomes[i].port == c.targets[i].1
            else s.sh.outcomes[i] == ZERO_OUTCOME
  {
    ReachableInv(c, w, acts, s);
    assert JobOk(c, w, i, s.jobs[i], s.sh);
  }

  /** A job whose loop cancellation ended has no authoritative verdict. */
  lemma CutIsInconclusive(c: Config, w: World, acts: seq<Action>, s: State, i: nat)
    requires Reaches(c, w, acts, s) && i < |s.jobs| && Decided(s.jobs[i]) && s.jobs[i].cut
    ensures s.sh.cancelled && |s.sh.outcomes| == |s.jobs|
    ensures s.sh.outcomes[i].verdict == if Opens(s.jobs[i].votes) > 0 then Unconfirmed else Unreachable
  {
    ReachableInv(c, w, acts, s);
    assert JobOk(c, w, i, s.jobs[i], s.sh);
  }

  /** Job i finished and was the m-th to call the progress hook. */
  ghost predicate ReportedAs(s: State, i: nat, m: nat) {
    i < |s.jobs| && s.jobs[i].Released? && s.jobs[i].count == m
  }

  /**
   * When the scan returns, the k launched jobs have stored their outcomes and the other slots
   * are zero; without cancellation every target was launched.
   */
  lemma ReturnedIsComplete(c: Config, w: World, acts: seq<Action>, s: State)
    requires Reaches(c, w, acts, s) && s.disp.Returned?
    ensures s.disp.next <= |s.jobs| == |c.targets| == |s.sh.outcomes|
    ensures s.disp.next < |c.targets| ==> s.sh.cancelled
    ensures forall i :: 0 <= i < s.disp.next ==> Decided(s.jobs[i])
    ensures forall i :: s.disp.next <= i < |s.jobs| ==> s.sh.outcomes[i] == ZERO_OUTCOME
  {
    ReachableInv(c, w, acts, s);
    forall i | s.disp.next <= i < |s.jobs| ensures s.sh.outcomes[i] == ZERO_OUTCOME {
      assert JobOk(c, w, i, s.jobs[i], s.sh);
    }
  }

  lemma CountOwner(s: State, m: nat) returns (i: nat)
    requires ReportsOk(s) && AllReleased(s, s.disp.next) && 1 <= m <= |s.sh.reports|
    requires forall i :: 0 <= i < |s.jobs| ==> (s.jobs[i].Idle? <==> s.disp.next <= i)
    ensures ReportedAs(s, i, m) && forall j :: ReportedAs(s, j, m) ==> j == i
  {
    i := s.sh.reports[m - 1];
    assert !s.jobs[i].Idle?;
    forall j | ReportedAs(s, j, m) ensures j == i {
      assert j in s.sh.reports;
      var l :| 0 <= l < |s.sh.reports| && s.sh.reports[l] == j;
    }
  }

  lemma EveryLaunchedReports(s: State)
    requires ReportsOk(s) && AllReleased(s, s.disp.next)
    requires forall i :: 0 <= i < |s.jobs| ==> (s.jobs[i].Idle? <==> s.disp.next <= i)
    ensures |s.sh.reports| == s.disp.next
  {
    var k := s.disp.next;
    var reports := s.sh.reports;
    forall i | i in reports ensures i < k {
      var m :| 0 <= m < |reports| && reports[m] == i;
    }
    BoundedSize(reports, k);
    NoDupSize(reports);
    assert Below(k) <= Elems(reports);
    SubsetSize(Below(k), Elems(reports));
  }

  /** By then the progress hook has been called with 1, 2, ..., k, each for exactly one of them. */
  lemma ProgressCountsEachOnce(c: Config, w: World, acts: seq<Action>, s: State, m: nat) returns (i: nat)
    requires Reaches(c, w, acts, s) && s.disp.Returned?
    requires 1 <= m <= s.disp.next
    ensures s.sh.done == s.disp.next
    ensures ReportedAs(s, i, m) && forall j :: ReportedAs(s, j, m) ==> j == i
  {
    ReachableInv(c, w, acts, s);
    EveryLaunchedReports(s);
    i := CountOwner(s, m);
  }

  /** OnProxyDead: once per address, and only after a dial that condemned it. */
  lemma DeathsJustified(c: Config, w: World, acts: seq<Action>, s: State)
    requires Reaches(c, w, acts, s)
    ensures forall m, l :: 0 <= m < l < |s.sh.deaths| ==> s.sh.deaths[m].addr != s.sh.deaths[l].addr
    ensures forall a :: a in s.sh.failed <==> exists d :: d in s.sh.deaths && d.addr == a
    ensures forall d :: d in s.sh.deaths ==>
              && w(d.job, d.offset, ProxyFault(true)) && d.addr == AddrOf(c, d.job, d.offset)
              && d.job < |s.sh.dialled| && d.offset in s.sh.dialled[d.job]
  {
    ReachableInv(c, w, acts, s);
  }

  /**
   * A round is smaller than it aims to be only at the end of the pool, and then no proxy of that
   * round that was not known dead is left out of it, rested or not.
   */
  lemma ShortRoundsExhaust(c: Config, w: World, acts: seq<Action>, s: State, i: nat, k: nat)
    requires Reaches(c, w, acts, s) && i < |s.jobs|
    requires s.jobs[i].Dialing? && |s.jobs[i].batch| < c.quorum - Opens(s.jobs[i].votes) + 2
    ensures s.jobs[i].used == |c.addrs|
    ensures s.jobs[i].from <= k < s.jobs[i].used ==> k in s.jobs[i].batch || AddrOf(c, i, k) in s.sh.failed
  {
    ReachableInv(c, w, acts, s);
    assert JobOk(c, w, i, s.jobs[i], s.sh);
  }

  /** Job i's dials at these distinct offsets were answered by connections that told these things. */
  ghost predicate Heard(
    w: World, i: nat, offsets: seq<nat>, services: seq<string>, versions: seq<string>, banners: seq<string>)
  {
    && NoDup(offsets) && |services| == |versions| == |banners| == |offsets|
    && forall m: nat :: m < |offsets| ==> w(i, offsets[m], Connected(services[m], versions[m], banners[m]))
  }

  /** A stored outcome's labels and texts are those of the proxies heard, in the order of the labels. */
  ghost predicate TellsHeard(
    c: Config, i: nat, oc: PortOutcome,
    offsets: seq<nat>, services: seq<string>, versions: seq<string>, banners: seq<string>)
    requires ValidConfig(c)
  {
    && oc.confirmations == |oc.labels| == |offsets|
    && (forall m :: 0 <= m < |offsets| ==>
          offsets[m] < |c.addrs| && oc.labels[m] == Rotated(c.labels, i % |c.addrs|)[offsets[m]])
    && FirstKept(oc.service, services) && FirstKept(oc.version, versions) && FirstKept(oc.banner, banners)
  }

  lemma TextsHeard(votes: seq<Vote>)
    returns (services: seq<string>, versions: seq<string>, banners: seq<string>)
    ensures |services| == |versions| == |banners| == |Learned(votes)|
    ensures forall m :: 0 <= m < |services| ==>
              Learned(votes)[m] == Connected(services[m], versions[m], banners[m])
    ensures FirstKept(FirstNonEmpty(Texts(Learned(votes), ServiceOf)), services)
    ensures FirstKept(FirstNonEmpty(Texts(Learned(votes), VersionOf)), versions)
    ensures FirstKept(FirstNonEmpty(Texts(Learned(votes), BannerOf)), banners)
  {
    LearnedAtOpeners(votes);
    services, versions := Texts(Learned(votes), ServiceOf), Texts(Learned(votes), VersionOf);
    banners := Texts(Learned(votes), BannerOf);
    FirstNonEmptyIsFirst(services);
    FirstNonEmptyIsFirst(versions);
    FirstNonEmptyIsFirst(banners);
    forall m: nat | m < |services| ensures Learned(votes)[m] == Connected(services[m], versions[m], banners[m]) {
      var a := Learned(votes)[m];
      assert a.Connected? && services[m] == ServiceOf(a) && versions[m] == VersionOf(a) && banners[m] == BannerOf(a);
    }
  }

  lemma OpenersAhead(c: Config, w: World, i: nat, job: Job, sh: Shared)
    requires JobOk(c, w, i, job, sh) && Decided(job)
    ensures NoDup(Openers(job.votes)) && forall k :: k in Openers(job.votes) ==> k < |c.addrs|
  {
    OpenersVoted(job.votes);
    forall k | k in Openers(job.votes) ensures k < |c.addrs| {
      var v :| v in job.votes && v.at == k;
      OffsetsIn(job.votes, k);
    }
  }

  lemma LabelsRotated(c: Config, i: nat, offsets: seq<nat>)
    requires ValidConfig(c) && forall k :: k in offsets ==> k < |c.addrs|
    ensures forall m :: 0 <= m < |offsets| ==>
              offsets[m] < |c.addrs| && LabelsOf(c, i, offsets)[m] == Rotated(c.labels, i % |c.addrs|)[offsets[m]]
  {
    SeesRotation(c, i);
    forall m | 0 <= m < |offsets|
      ensures offsets[m] < |c.addrs| && LabelsOf(c, i, offsets)[m] == Rotated(c.labels, i % |c.addrs|)[offsets[m]]
    {
      assert offsets[m] in offsets;
      var all := seq(|c.addrs|, k requires 0 <= k < |c.addrs| => c.labels[Position(c, i, k)]);
      assert all[offsets[m]] == c.labels[Position(c, i, offsets[m])];
    }
  }

  /** What a decided slot tells goes back, field by field, to what the dials of its job were answered. */
  lemma SlotTells(c: Config, w: World, acts: seq<Action>, s: State, i: nat)
    returns (offsets: seq<nat>, services: seq<string>, versions: seq<string>, banners: seq<string>)
    requires Reaches(c, w, acts, s) && i < |s.jobs| && Decided(s.jobs[i])
    ensures |s.sh.outcomes| == |s.jobs| == |c.targets|
    ensures Heard(w, i, offsets, services, versions, banners)
    ensures TellsHeard(c, i, s.sh.outcomes[i], offsets, services, versions, banners)
    ensures offsets == Openers(s.jobs[i].votes)
  {
    ReachableInv(c, w, acts, s);
    assert JobOk(c, w, i, s.jobs[i], s.sh);
    var votes := s.jobs[i].votes;
    offsets := Openers(votes);
    services, versions, banners := TextsHeard(votes);
    OpenersAhead(c, w, i, s.jobs[i], s.sh);
    LearnedAtOpeners(votes);
    TallyTotal(votes);
    LabelsRotated(c, i, offsets);
    forall m: nat | m < |offsets| ensures w(i, offsets[m], Connected(services[m], versions[m], banners[m])) {
      assert Vote(offsets[m], Learned(votes)[m]) in votes;
    }
  }

  /** The verdict of a decided slot: one refusal overrules, and otherwise the labels are counted. */
  lemma VerdictTells(c: Config, w: World, acts: seq<Action>, s: State, i: nat)
    requires Reaches(c, w, acts, s) && i < |s.jobs| && Decided(s.jobs[i])
    ensures |s.sh.outcomes| == |s.jobs|
    ensures var oc, votes := s.sh.outcomes[i], s.jobs[i].votes;
            && oc.quorum == c.quorum
            && (oc.verdict == Refuted <==> exists v :: v in votes && v.answer == Refusal)
            && (oc.verdict == Open ==> |oc.labels| >= c.quorum)
            && (oc.verdict == Unconfirmed ==> 0 < |oc.labels| < c.quorum)
            && (oc.verdict == Unreachable ==> oc.labels == [])
  {
    ReachableInv(c, w, acts, s);
    assert JobOk(c, w, i, s.jobs[i], s.sh);
    TallyTotal(s.jobs[i].votes);
  }

  /** Whoever is named as the refuter was the last to be heard refusing. */
  lemma RefuterTells(c: Config, w: World, acts: seq<Action>, s: State, i: nat) returns (j: nat)
    requires Reaches(c, w, acts, s) && i < |s.sh.outcomes| && s.sh.outcomes[i].verdict == Refuted
    ensures |s.jobs| == |s.sh.outcomes| && Decided(s.jobs[i])
    ensures var votes := s.jobs[i].votes;
            && j < |votes| && votes[j].answer == Refusal && w(i, votes[j].at, Refusal) && votes[j].at < |c.addrs|
            && s.sh.outcomes[i].refutedBy == Rotated(c.addrs, i % |c.addrs|)[votes[j].at]
            && forall m :: j < m < |votes| ==> votes[m].answer != Refusal
  {
    ReachableInv(c, w, acts, s);
    assert JobOk(c, w, i, s.jobs[i], s.sh);
    var votes := s.jobs[i].votes;
    j := LastRefuserIsLast(votes);
    assert votes[j] in votes;
    OffsetsIn(votes, votes[j].at);
    SeesRotation(c, i);
    var all := seq(|c.addrs|, k requires 0 <= k < |c.addrs| => AddrOf(c, i, k));
    assert all[votes[j].at] == AddrOf(c, i, votes[j].at);
  }
}
