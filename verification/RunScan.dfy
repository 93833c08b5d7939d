/** A scan of several targets: what reaches the caller as a finding, and what stands behind it. */
module RunScan {
  import opened Sequences
  import opened Votes
  import opened Rotation
  import opened RotationInvariant
  import opened RotationSafety

  datatype Finding = Finding(
    host: string, port: int, proto: string, service: string, version: string, banner: string,
    primary: string, proxies: seq<string>)

  datatype HostResult = HostResult(target: string, findings: seq<Finding>)

  datatype ScanRequest = ScanRequest(
    targets: seq<string>, ports: seq<int>, quorum: int, concurrency: int, interval: int)

  /**
   * What happens around one target: whether the context is found cancelled before it, the pool
   * read for it (in probe order), its expansion (None is an expansion error), what the throttle,
   * shared by all targets, has recorded by then, and what the rotate-scan returned.
   */
  datatype TargetScan = TargetScan(
    cancelled: bool, addrs: seq<string>, labels: seq<string>, hosts: Option<seq<string>>,
    earlier: map<string, int>, outcomes: seq<PortOutcome>)

  const WELL_KNOWN: map<int, string> := map[
    21 := "ftp", 22 := "ssh", 23 := "telnet", 25 := "smtp", 53 := "domain",
    80 := "http", 110 := "pop3", 111 := "rpcbind", 135 := "msrpc",
    139 := "netbios-ssn", 143 := "imap", 389 := "ldap", 443 := "https",
    445 := "microsoft-ds", 465 := "smtps", 587 := "submission",
    636 := "ldaps", 993 := "imaps", 995 := "pop3s",
    1080 := "socks", 1194 := "openvpn", 1433 := "ms-sql-s", 1521 := "oracle",
    1723 := "pptp", 2049 := "nfs", 2375 := "docker", 2376 := "docker-tls",
    3306 := "mysql", 3389 := "ms-wbt-server", 5432 := "postgresql",
    5900 := "vnc", 5985 := "wsman", 5986 := "wsmans",
    6379 := "redis", 6443 := "k8s-api",
    8080 := "http-proxy", 8443 := "https-alt", 8888 := "http-alt",
    9200 := "elasticsearch", 9300 := "elasticsearch-tcp",
    27017 := "mongodb", 27018 := "mongodb-shard"]

  function PortService(port: int): string {
    if port in WELL_KNOWN then WELL_KNOWN[port] else ""
  }

  /** How an open outcome is reported. */
  function FindingOf(oc: PortOutcome): Finding {
    var known := if oc.service == "" then PortService(oc.port) else oc.service;
    Finding(oc.host, oc.port, "tcp", if known == "" then "unknown" else known, oc.version, oc.banner,
            if |oc.labels| > 0 then oc.labels[0] else "", oc.labels)
  }

  /** The slots that hold an open verdict, in grid order. */
  function OpenSlots(outcomes: seq<PortOutcome>): seq<nat> {
    if outcomes == [] then []
    else
      var last := |outcomes| - 1;
      OpenSlots(outcomes[..last]) + if outcomes[last].verdict == Open then [last] else []
  }

  function FindingsOf(outcomes: seq<PortOutcome>): seq<Finding> {
    if outcomes == [] then []
    else
      var last := |outcomes| - 1;
      FindingsOf(outcomes[..last]) + if outcomes[last].verdict == Open then [FindingOf(outcomes[last])] else []
  }

  lemma {:induction false} OpenSlotsAscend(outcomes: seq<PortOutcome>)
    ensures forall i :: i in OpenSlots(outcomes) <==> 0 <= i < |outcomes| && outcomes[i].verdict == Open
    ensures forall m, l :: 0 <= m < l < |OpenSlots(outcomes)| ==> OpenSlots(outcomes)[m] < OpenSlots(outcomes)[l]
  {
    if outcomes != [] {
      var init := outcomes[..|outcomes| - 1];
      OpenSlotsAscend(init);
      assert forall i :: 0 <= i < |init| ==> init[i] == outcomes[i];
      assert forall m :: 0 <= m < |OpenSlots(init)| ==> OpenSlots(init)[m] in OpenSlots(init);
    }
  }

  lemma {:induction false} FindingsFollow(outcomes: seq<PortOutcome>)
    ensures |FindingsOf(outcomes)| == |OpenSlots(outcomes)|
    ensures forall m: nat :: m < |OpenSlots(outcomes)| ==>
              && OpenSlots(outcomes)[m] < |outcomes|
              && FindingsOf(outcomes)[m] == FindingOf(outcomes[OpenSlots(outcomes)[m]])
  {
    if outcomes != [] {
      var init := outcomes[..|outcomes| - 1];
      FindingsFollow(init);
      assert forall i: nat :: i < |init| ==> init[i] == outcomes[i];
    }
  }

  /** The findings are exactly the open slots, in grid order. */
  lemma {:induction false} FindingsAreOpenSlots(outcomes: seq<PortOutcome>)
    ensures |FindingsOf(outcomes)| == |OpenSlots(outcomes)|
    ensures forall m :: 0 <= m < |OpenSlots(outcomes)| ==>
              && OpenSlots(outcomes)[m] < |outcomes|
              && outcomes[OpenSlots(outcomes)[m]].verdict == Open
              && FindingsOf(outcomes)[m] == FindingOf(outcomes[OpenSlots(outcomes)[m]])
    ensures forall m, l :: 0 <= m < l < |OpenSlots(outcomes)| ==> OpenSlots(outcomes)[m] < OpenSlots(outcomes)[l]
    ensures forall i: nat :: i < |outcomes| && outcomes[i].verdict == Open ==> i in OpenSlots(outcomes)
  {
    OpenSlotsAscend(outcomes);
    FindingsFollow(outcomes);
    assert forall m :: 0 <= m < |OpenSlots(outcomes)| ==> OpenSlots(outcomes)[m] in OpenSlots(outcomes);
  }

  function RequestFor(req: ScanRequest, scan: TargetScan, hosts: seq<string>): Request {
    Request("", hosts, req.ports, scan.addrs, scan.labels, Clamp(req.quorum, 1, |scan.addrs|),
            req.concurrency, 0, req.interval, scan.earlier)
  }

  /** The outcomes are those of a finished run of the rotate-scan, under some interleaving. */
  ghost predicate Happened(req: ScanRequest, scan: TargetScan, w: World) {
    && |scan.labels| == |scan.addrs|
    && (scan.hosts.Some? && scan.addrs != [] ==>
          match Setup(RequestFor(req, scan, scan.hosts.value))
          case None => scan.outcomes == []
          case Some(c) =>
            exists acts, s :: Reaches(c, w, acts, s) && s.disp.Returned? && s.sh.outcomes == scan.outcomes)
  }

  function TargetFindings(scan: TargetScan): seq<Finding> {
    if scan.hosts.None? then [] else FindingsOf(scan.outcomes)
  }

  /** The results of the targets from t on. */
  function ResultsFrom(req: ScanRequest, scans: seq<TargetScan>, t: nat): seq<HostResult>
    requires |scans| == |req.targets| && t <= |scans|
    decreases |scans| - t
  {
    if t == |scans| || scans[t].cancelled then []
    else if scans[t].addrs == [] then ResultsFrom(req, scans, t + 1)
    else [HostResult(req.targets[t], TargetFindings(scans[t]))] + ResultsFrom(req, scans, t + 1)
  }

  method ScanTarget(scan: TargetScan) returns (findings: seq<Finding>)
    ensures findings == TargetFindings(scan)
  {
    if scan.hosts.None? {
      return [];
    }
    findings := [];
    for i := 0 to |scan.outcomes|
      invariant findings == FindingsOf(scan.outcomes[..i])
    {
      var oc := scan.outcomes[i];
      assert scan.outcomes[..i + 1][..i] == scan.outcomes[..i];
      if oc.verdict != Open {
        continue;
      }
      var service := oc.service;
      if service == "" {
        service := PortService(oc.port);
      }
      if service == "" {
        service := "unknown";
      }
      var primary := "";
      if |oc.labels| > 0 {
        primary := oc.labels[0];
      }
      findings := findings + [Finding(oc.host, oc.port, "tcp", service, oc.version, oc.banner, primary, oc.labels)];
    }
    assert scan.outcomes[..|scan.outcomes|] == scan.outcomes;
  }

  method Run(req: ScanRequest, scans: seq<TargetScan>) returns (results: seq<HostResult>)
    requires |scans| == |req.targets|
    ensures results == ResultsFrom(req, scans, 0)
  {
    results := [];
    for t := 0 to |req.targets|
      invariant results + ResultsFrom(req, scans, t) == ResultsFrom(req, scans, 0)
    {
      if scans[t].cancelled {
        break;
      }
      if scans[t].addrs == [] {
        continue;
      }
      var findings := ScanTarget(scans[t]);
      assert results + ([HostResult(req.targets[t], findings)] + ResultsFrom(req, scans, t + 1))
          == (results + [HostResult(req.targets[t], findings)]) + ResultsFrom(req, scans, t + 1);
      results := results + [HostResult(req.targets[t], findings)];
    }
  }

  /** Every reported host result belongs to a target whose pool was not empty. */
  lemma {:induction false} ResultOrigin(req: ScanRequest, scans: seq<TargetScan>, from: nat, r: HostResult)
    returns (t: nat)
    requires |scans| == |req.targets| && from <= |scans| && r in ResultsFrom(req, scans, from)
    ensures from <= t < |scans| && scans[t].addrs != [] && !scans[t].cancelled
    ensures r == HostResult(req.targets[t], TargetFindings(scans[t]))
    decreases |scans| - from
  {
    t := from;
    if scans[from].addrs == [] || r != HostResult(req.targets[t], TargetFindings(scans[t])) {
      t := ResultOrigin(req, scans, from + 1, r);
    }
  }

  /** A target with a pool is reported if neither it nor an earlier one was cancelled. */
  lemma {:induction false} ResultReached(req: ScanRequest, scans: seq<TargetScan>, from: nat, t: nat)
    requires |scans| == |req.targets| && from <= t < |scans| && scans[t].addrs != []
    requires forall u :: from <= u <= t ==> !scans[u].cancelled
    ensures HostResult(req.targets[t], TargetFindings(scans[t])) in ResultsFrom(req, scans, from)
    decreases t - from
  {
    if from < t { ResultReached(req, scans, from + 1, t); }
  }

  /** Neither this target nor one before it was cancelled, and it had a pool. */
  predicate IsReported(scans: seq<TargetScan>, t: nat)
    requires t < |scans|
  {
    scans[t].addrs != [] && forall u :: 0 <= u <= t ==> !scans[u].cancelled
  }

  /** The results are those of the reported targets, one each, in the order asked for. */
  lemma {:induction false} ResultsInOrder(req: ScanRequest, scans: seq<TargetScan>, from: nat) returns (ts: seq<nat>)
    requires |scans| == |req.targets| && from <= |scans| && forall u :: 0 <= u < from ==> !scans[u].cancelled
    ensures Rises(ts) && forall t: nat :: t in ts <==> from <= t < |scans| && IsReported(scans, t)
    ensures |ResultsFrom(req, scans, from)| == |ts|
    ensures forall m :: 0 <= m < |ts| ==>
              && ts[m] < |scans|
              && ResultsFrom(req, scans, from)[m] == HostResult(req.targets[ts[m]], TargetFindings(scans[ts[m]]))
    decreases |scans| - from
  {
    if from == |scans| || scans[from].cancelled {
      ts := [];
    } else {
      ts := ResultsInOrder(req, scans, from + 1);
      if scans[from].addrs != [] {
        RisesConcat([from], ts, from + 1);
        ts := [from] + ts;
      }
    }
  }

  /** The quorum a target is held to: at least 1, at most its pool. */
  function Needed(req: ScanRequest, scan: TargetScan): int {
    var atLeastOne := if req.quorum < 1 then 1 else req.quorum;
    if atLeastOne > |scan.addrs| then |scan.addrs| else atLeastOne
  }

  lemma SetupIsValid(req: ScanRequest, scan: TargetScan, hosts: seq<string>)
    requires |scan.labels| == |scan.addrs| > 0
    requires Setup(RequestFor(req, scan, hosts)).Some?
    ensures var c := Setup(RequestFor(req, scan, hosts)).value;
            && ValidConfig(c) && c.quorum == Needed(req, scan)
            && c.cap == (if |scan.addrs| < 10 then |scan.addrs| else 10)
            && c.conc == (if req.concurrency < 1 then 1 else req.concurrency)
            && c.addrs == scan.addrs && c.labels == scan.labels && c.targets == Grid(hosts, req.ports)
            && c.interval == req.interval && c.earlier == scan.earlier
  {
  }

  /** A finding reports an open slot of a finished run. */
  lemma FindingOrigin(req: ScanRequest, scans: seq<TargetScan>, worlds: seq<World>, r: HostResult, f: Finding)
    returns (t: nat, c: Config, i: nat, acts: seq<Action>, s: State)
    requires |scans| == |worlds| == |req.targets|
    requires forall t :: 0 <= t < |scans| ==> Happened(req, scans[t], worlds[t])
    requires r in ResultsFrom(req, scans, 0) && f in r.findings
    ensures t < |scans| && r.target == req.targets[t]
    ensures scans[t].hosts.Some? && |scans[t].labels| == |scans[t].addrs| > 0
    ensures Setup(RequestFor(req, scans[t], scans[t].hosts.value)) == Some(c)
    ensures Reaches(c, worlds[t], acts, s) && s.disp.Returned? && s.sh.outcomes == scans[t].outcomes
    ensures i < |scans[t].outcomes| && scans[t].outcomes[i].verdict == Open && f == FindingOf(scans[t].outcomes[i])
  {
    t := ResultOrigin(req, scans, 0, r);
    assert Happened(req, scans[t], worlds[t]);
    FindingsAreOpenSlots(scans[t].outcomes);
    var m :| 0 <= m < |r.findings| && r.findings[m] == f;
    i := OpenSlots(scans[t].outcomes)[m];
    c := Setup(RequestFor(req, scans[t], scans[t].hosts.value)).value;
    acts, s :| Reaches(c, worlds[t], acts, s) && s.disp.Returned? && s.sh.outcomes == scans[t].outcomes;
  }

  /**
   * Behind every finding of a run, under any interleaving, pruning, throttling and cancellation,
   * stand at least min(max(1, quorum), pool size) labels, of distinct pool positions each of
   * which could be connected through, and no tallied refusal.
   */
  lemma FindingsAreVouched(req: ScanRequest, scans: seq<TargetScan>, worlds: seq<World>, r: HostResult, f: Finding)
    returns (t: nat, c: Config, i: nat, offsets: seq<nat>)
    requires |scans| == |worlds| == |req.targets|
    requires forall t :: 0 <= t < |scans| ==> Happened(req, scans[t], worlds[t])
    requires r in ResultsFrom(req, scans, 0) && f in r.findings
    ensures t < |scans| && r.target == req.targets[t]
    ensures scans[t].hosts.Some? && |scans[t].labels| == |scans[t].addrs|
    ensures Setup(RequestFor(req, scans[t], scans[t].hosts.value)) == Some(c) && ValidConfig(c)
    ensures i < |c.targets| == |scans[t].outcomes| && c.targets[i] == (f.host, f.port)
    ensures Vouched(c, worlds[t], i, scans[t].outcomes[i], offsets) && f.proxies == scans[t].outcomes[i].labels
    ensures |f.proxies| == |offsets| >= Needed(req, scans[t])
    ensures scans[t].outcomes[i].refutedBy == "" && scans[t].outcomes[i].verdict == Open
  {
    var acts, s;
    t, c, i, acts, s := FindingOrigin(req, scans, worlds, r, f);
    SetupIsValid(req, scans[t], scans[t].hosts.value);
    ReachableInv(c, worlds[t], acts, s);
    offsets := OpenIsVouched(c, worlds[t], acts, s, i);
  }

  /** The name of a port of which nothing was learned. */
  function KnownAs(port: int): string {
    if port in WELL_KNOWN && WELL_KNOWN[port] != "" then WELL_KNOWN[port] else "unknown"
  }

  lemma ServiceTold(oc: PortOutcome, services: seq<string>)
    requires FirstKept(oc.service, services)
    ensures var f := FindingOf(oc);
            if exists m :: 0 <= m < |services| && services[m] != "" then FirstKept(f.service, services)
            else f.service == KnownAs(f.port)
  {
    if oc.service == "" { assert forall m :: 0 <= m < |services| ==> services[m] == ""; }
  }

  /**
   * Every field of a finding goes back to the dials of its job. The labels are, one for one, those of
   * the proxies that connected, the first of them being the primary; version and banner are the first
   * that one of these proxies told, in this order; so is the service, or else the name the port is
   * known by, or else "unknown".
   */
  lemma FindingTells(req: ScanRequest, scans: seq<TargetScan>, worlds: seq<World>, r: HostResult, f: Finding)
    returns (t: nat, i: nat, offsets: seq<nat>, services: seq<string>, versions: seq<string>, banners: seq<string>)
    requires |scans| == |worlds| == |req.targets|
    requires forall t :: 0 <= t < |scans| ==> Happened(req, scans[t], worlds[t])
    requires r in ResultsFrom(req, scans, 0) && f in r.findings
    ensures t < |scans| && r.target == req.targets[t] && |scans[t].labels| == |scans[t].addrs| > 0
    ensures scans[t].hosts.Some? && i < |Grid(scans[t].hosts.value, req.ports)|
    ensures Grid(scans[t].hosts.value, req.ports)[i] == (f.host, f.port)
    ensures Heard(worlds[t], i, offsets, services, versions, banners)
    ensures var n := |scans[t].addrs|;
            && |f.proxies| == |offsets| > 0 && f.primary == f.proxies[0] && f.proto == "tcp"
            && (forall m :: 0 <= m < |offsets| ==>
                  offsets[m] < n && f.proxies[m] == Rotated(scans[t].labels, i % n)[offsets[m]])
            && FirstKept(f.version, versions) && FirstKept(f.banner, banners)
            && if exists m :: 0 <= m < |services| && services[m] != "" then FirstKept(f.service, services)
               else f.service == KnownAs(f.port)
  {
    var c, acts, s;
    t, c, i, acts, s := FindingOrigin(req, scans, worlds, r, f);
    SetupIsValid(req, scans[t], scans[t].hosts.value);
    ReachableInv(c, worlds[t], acts, s);
    offsets := OpenIsVouched(c, worlds[t], acts, s, i);
    offsets, services, versions, banners := SlotTells(c, worlds[t], acts, s, i);
    VerdictTells(c, worlds[t], acts, s, i);
    ServiceTold(s.sh.outcomes[i], services);
  }

  /** Job i of a target's scan is for this host and port. */
  ghost predicate JobFor(req: ScanRequest, scan: TargetScan, c: Config, i: nat, host: string, port: int) {
    && |scan.labels| == |scan.addrs| && scan.hosts.Some?
    && Setup(RequestFor(req, scan, scan.hosts.value)) == Some(c)
    && i < |c.targets| && c.targets[i] == (host, port)
  }

  /** A host:port that fewer proxies than needed would vote open for is never reported. */
  lemma LiarsAreNeverReported(
      req: ScanRequest, scans: seq<TargetScan>, worlds: seq<World>, r: HostResult, host: string, port: int)
    requires |scans| == |worlds| == |req.targets|
    requires forall t :: 0 <= t < |scans| ==> Happened(req, scans[t], worlds[t])
    requires r in ResultsFrom(req, scans, 0)
    requires forall t, c, i :: 0 <= t < |scans| && JobFor(req, scans[t], c, i, host, port) ==>
                                 |CouldOpen(c, worlds[t], i)| < Needed(req, scans[t])
    ensures forall f :: f in r.findings ==> (f.host, f.port) != (host, port)
  {
    forall f | f in r.findings ensures (f.host, f.port) != (host, port) {
      if (f.host, f.port) == (host, port) {
        var t, c, i, offsets := FindingsAreVouched(req, scans, worlds, r, f);
        assert JobFor(req, scans[t], c, i, host, port);
        NoDupSize(offsets);
        forall k | k in Elems(offsets) ensures k in CouldOpen(c, worlds[t], i) {
          var m :| 0 <= m < |offsets| && offsets[m] == k;
        }
        SubsetSize(Elems(offsets), CouldOpen(c, worlds[t], i));
        assert false;
      }
    }
  }

  /**
   * Where resting is harmless, a host:port that a quorum of sure openers would open, without a refuser
   * and with fewer possible faults than the cap, is reported, with at least the quorum's labels.
   */
  lemma HonestQuorumIsReported(
      req: ScanRequest, scans: seq<TargetScan>, t: nat, c: Config, w: World, acts: seq<Action>, s: State,
      i: nat, sure: set<nat>, faulty: set<nat>) returns (f: Finding)
    requires |scans| == |req.targets| && t < |scans| && forall u :: 0 <= u <= t ==> !scans[u].cancelled
    requires scans[t].hosts.Some? && |scans[t].labels| == |scans[t].addrs|
    requires Setup(RequestFor(req, scans[t], scans[t].hosts.value)) == Some(c)
    requires Reaches(c, w, acts, s) && s.disp.Returned? && !s.sh.cancelled && s.sh.outcomes == scans[t].outcomes
    requires RestIsHarmless(c) && i < |c.targets|
    requires forall k :: !w(i, k, Refusal)
    requires forall k, dead :: w(i, k, ProxyFault(dead)) ==> k in faulty
    requires |faulty| < c.cap && |sure| >= Needed(req, scans[t])
    requires forall k :: k in sure ==> k < |c.addrs| && k !in faulty && AddrOf(c, i, k) !in s.sh.failed
    ensures HostResult(req.targets[t], TargetFindings(scans[t])) in ResultsFrom(req, scans, 0)
    ensures f in TargetFindings(scans[t]) && (f.host, f.port) == c.targets[i] && |f.proxies| >= Needed(req, scans[t])
  {
    SetupIsValid(req, scans[t], scans[t].hosts.value);
    ReturnedIsComplete(c, w, acts, s);
    HonestQuorumOpens(c, w, acts, s, i, sure, faulty);
    var offsets := OpenIsVouched(c, w, acts, s, i);
    FindingsAreOpenSlots(scans[t].outcomes);
    var slots := OpenSlots(scans[t].outcomes);
    var m :| 0 <= m < |slots| && slots[m] == i;
    f := FindingsOf(scans[t].outcomes)[m];
    ResultReached(req, scans, 0, t);
  }
}
