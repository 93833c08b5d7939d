/**
 * The rotate-scan engine as a step system. One step is one access to state shared between
 * goroutines (the context, the dead-proxy set, the throttle, a semaphore, the done counter, an
 * outcome slot) together with the local work up to the next such access; a semaphore release is
 * joined to the access it follows. A run is any sequence of enabled actions, so every statement
 * about runs is a statement about every interleaving of the dispatcher, the jobs and their dials.
 */
module Rotation {
  import opened Sequences
  import opened Votes
  import Throttle

  /**
   * The arguments as a caller gives them. A throttle interval that is not positive means no throttle;
   * `earlier` is what the throttle has recorded before this scan, in times on the scan's clock.
   */
  datatype Request = Request(
    target: string, hosts: seq<string>, ports: seq<int>, addrs: seq<string>, labels: seq<string>,
    quorum: int, concurrency: int, retries: int, interval: int, earlier: map<string, int>)

  /** The arguments after defaulting and clamping. Entry j of `addrs` and `labels` is pool proxy j. */
  datatype Config = Config(
    targets: seq<(string, int)>, addrs: seq<string>, labels: seq<string>,
    quorum: nat, cap: nat, conc: nat, interval: int, earlier: map<string, int>)

  ghost predicate ValidConfig(c: Config) {
    && |c.addrs| == |c.labels| > 0
    && 1 <= c.quorum <= |c.addrs|
    && 1 <= c.cap <= |c.addrs|
    && 1 <= c.conc
  }

  function Row(host: string, ports: seq<int>): seq<(string, int)> {
    seq(|ports|, p requires 0 <= p < |ports| => (host, ports[p]))
  }

  /** The (host, port) jobs in dispatch order. */
  function Grid(hosts: seq<string>, ports: seq<int>): seq<(string, int)> {
    if hosts == [] then [] else Row(hosts[0], ports) + Grid(hosts[1..], ports)
  }

  function Clamp(x: int, low: int, high: int): int {
    if x < low then low else if x > high then high else x
  }

  /** None when the scan returns at once without outcomes. */
  function Setup(r: Request): Option<Config>
    requires |r.labels| == |r.addrs|
  {
    var n := |r.addrs|;
    if n == 0 || r.ports == [] || (r.hosts == [] && r.target == "") then None
    else
      var hosts := if r.hosts == [] then [r.target] else r.hosts;
      var retries := if r.retries <= 0 then 10 else r.retries;
      Some(Config(Grid(hosts, r.ports), r.addrs, r.labels, Clamp(r.quorum, 1, n),
                  if retries > n then n else retries, if r.concurrency < 1 then 1 else r.concurrency,
                  r.interval, r.earlier))
  }

  lemma {:induction false} GridSize(hosts: seq<string>, ports: seq<int>)
    ensures |Grid(hosts, ports)| == |hosts| * |ports|
    decreases hosts, 0
  {
    if hosts != [] { GridSize(hosts[1..], ports); }
  }

  /** When a scan is refused, and what it settles on otherwise. */
  lemma SetupSettles(r: Request)
    requires |r.labels| == |r.addrs|
    ensures Setup(r).None? <==> r.addrs == [] || r.ports == [] || (r.hosts == [] && r.target == "")
    ensures Setup(r).Some? ==>
              var c, n := Setup(r).value, |r.addrs|;
              && ValidConfig(c)
              && (1 <= r.quorum <= n ==> c.quorum == r.quorum)
              && (r.quorum < 1 ==> c.quorum == 1) && (r.quorum > n ==> c.quorum == n)
              && (1 <= r.retries <= n ==> c.cap == r.retries) && (r.retries > n ==> c.cap == n)
              && (r.retries < 1 ==> c.cap == if n < 10 then n else 10)
              && c.conc >= 1 && (r.concurrency >= 1 ==> c.conc == r.concurrency) && (r.concurrency < 1 ==> c.conc == 1)
              && c.addrs == r.addrs && c.labels == r.labels && c.interval == r.interval && c.earlier == r.earlier
              && |c.targets| == (if r.hosts == [] then 1 else |r.hosts|) * |r.ports|
              && c.targets == Grid(if r.hosts == [] then [r.target] else r.hosts, r.ports)
  {
    GridSize(r.hosts, r.ports);
    GridSize([r.target], r.ports);
  }

  /** Slot h*|ports|+p of the grid is host h and port p. */
  lemma {:induction false} GridAt(hosts: seq<string>, ports: seq<int>, h: nat, p: nat)
    requires h < |hosts| && p < |ports|
    ensures |Grid(hosts, ports)| == |hosts| * |ports|
    ensures h * |ports| + p < |Grid(hosts, ports)|
    ensures Grid(hosts, ports)[h * |ports| + p] == (hosts[h], ports[p])
    decreases hosts, 1
  {
    GridSize(hosts, ports);
    if h > 0 {
      GridAt(hosts[1..], ports, h - 1, p);
      assert h * |ports| + p == |ports| + ((h - 1) * |ports| + p);
    }
  }

  /** Job i starts its rotation at pool position i mod n; this is the position at offset k. */
  function Position(c: Config, i: nat, k: nat): (j: nat)
    requires |c.addrs| > 0
    ensures j < |c.addrs|
  {
    (i % |c.addrs| + k) % |c.addrs|
  }

  function AddrOf(c: Config, i: nat, k: nat): string
    requires |c.addrs| > 0
  {
    c.addrs[Position(c, i, k)]
  }

  lemma Reduced(x: nat, n: nat)
    requires x < 2 * n
    ensures x % n == if x < n then x else x - n
  {
  }

  lemma Wrap(s: nat, k: nat, n: nat)
    requires s < n && k < n
    ensures (s + k) % n == if s + k < n then s + k else s + k - n
  {
    Reduced(s + k, n);
  }

  lemma PositionsDiffer(c: Config, i: nat, k: nat, m: nat)
    requires |c.addrs| > 0 && k < m < |c.addrs|
    ensures Position(c, i, k) != Position(c, i, m)
  {
    Wrap(i % |c.addrs|, k, |c.addrs|);
    Wrap(i % |c.addrs|, m, |c.addrs|);
  }

  /** Job i comes to the pool in its order, beginning at entry i mod n and going round once. */
  lemma SeesRotation(c: Config, i: nat)
    requires ValidConfig(c)
    ensures var n := |c.addrs|;
            && seq(n, k requires 0 <= k < n => AddrOf(c, i, k)) == Rotated(c.addrs, i % n)
            && seq(n, k requires 0 <= k < n => c.labels[Position(c, i, k)]) == Rotated(c.labels, i % n)
  {
    var n := |c.addrs|;
    forall k: nat | k < n
      ensures AddrOf(c, i, k) == Rotated(c.addrs, i % n)[k]
      ensures c.labels[Position(c, i, k)] == Rotated(c.labels, i % n)[k]
    {
      Wrap(i % n, k, n);
    }
  }

  /** Where one dial goroutine stands. */
  datatype Slot =
    | Queued
    | Holding
    | InFlight
    | Answered(answer: Answer)
    | Done(result: Option<Answer>)

  /** Where one job goroutine stands. `used` counts the pool positions it has consumed. */
  datatype Job =
    | Idle
    | Head(votes: seq<Vote>, used: nat)
    | Collect(votes: seq<Vote>, used: nat, from: nat, batch: seq<nat>, resting: seq<nat>, looking: bool)
    | Dialing(votes: seq<Vote>, used: nat, from: nat, batch: seq<nat>, slots: seq<Slot>)
    | Leaving(votes: seq<Vote>, used: nat, cut: bool)
    | Written(votes: seq<Vote>, used: nat, cut: bool)
    | Reported(votes: seq<Vote>, used: nat, cut: bool, count: nat)
    | Released(votes: seq<Vote>, used: nat, cut: bool, count: nat)

  datatype Dispatcher =
    | AtCheck(next: nat)
    | AtAcquire(next: nat)
    | Waiting(next: nat)
    | Returned(next: nat)

  /** One call of the OnProxyDead hook: which dial condemned which address. */
  datatype Death = Death(addr: string, job: nat, offset: nat)

  /**
   * State shared by the goroutines. `dialled` (the offsets each job has dialled, in order),
   * `deaths` and `reports` (the jobs in the order they reported) record what happened.
   */
  datatype Shared = Shared(
    cancelled: bool, failed: set<string>, lastUse: map<string, int>, clock: int,
    jobSem: nat, dialSem: nat, done: nat, outcomes: seq<PortOutcome>,
    dialled: seq<seq<nat>>, deaths: seq<Death>, reports: seq<nat>)

  datatype State = State(disp: Dispatcher, jobs: seq<Job>, sh: Shared)

  datatype JobAct =
    | Loop | Look | Ask | Spawn
    | Acquire(s: nat) | Begin(s: nat) | Return(s: nat, answer: Answer) | Finish(s: nat)
    | Join | Write | Report | Release

  datatype Action = Cancel | Tick(elapsed: nat) | Dispatch | Step(job: nat, act: JobAct)

  /** Which answers the dial of a job at an offset may give. */
  type World = (nat, nat, Answer) -> bool

  /** The condition of the round loop. */
  predicate Guard(c: Config, votes: seq<Vote>, used: nat) {
    Opens(votes) < c.quorum && !Refused(votes) && Faults(votes) < c.cap && used < |c.addrs|
  }

  /** The size a round aims for: the opens still needed and two more. */
  function Want(c: Config, votes: seq<Vote>): nat
    requires Opens(votes) < c.quorum
  {
    c.quorum - Opens(votes) + 2
  }

  function LabelsOf(c: Config, i: nat, offsets: seq<nat>): seq<string>
    requires ValidConfig(c)
  {
    seq(|offsets|, j requires 0 <= j < |offsets| => c.labels[Position(c, i, offsets[j])])
  }

  function Texts(answers: seq<Answer>, pick: Answer -> string): seq<string> {
    seq(|answers|, j requires 0 <= j < |answers| => pick(answers[j]))
  }

  function BannerOf(a: Answer): string { if a.Connected? then a.banner else "" }
  function ServiceOf(a: Answer): string { if a.Connected? then a.service else "" }
  function VersionOf(a: Answer): string { if a.Connected? then a.version else "" }

  /** The outcome a job decides from its tallied votes. */
  function OutcomeOf(c: Config, i: nat, votes: seq<Vote>): PortOutcome
    requires ValidConfig(c) && i < |c.targets|
  {
    PortOutcome(
      c.targets[i].0, c.targets[i].1,
      DecideQuorum(Opens(votes), c.quorum, Refused(votes)), Opens(votes), c.quorum,
      LabelsOf(c, i, Openers(votes)),
      FirstNonEmpty(Texts(Learned(votes), BannerOf)),
      FirstNonEmpty(Texts(Learned(votes), ServiceOf)),
      FirstNonEmpty(Texts(Learned(votes), VersionOf)),
      match LastRefuser(votes) case None => "" case Some(k) => AddrOf(c, i, k))
  }

  /** The vote a dial slot casts; an unwritten result is the zero vote, a proxy error. */
  function VoteOf(k: nat, s: Slot): Vote {
    Vote(k, if s.Done? && s.result.Some? then s.result.value else ProxyFault(false))
  }

  function Cast(batch: seq<nat>, slots: seq<Slot>): (votes: seq<Vote>)
    requires |slots| == |batch|
    ensures |votes| == |batch|
  {
    seq(|batch|, b requires 0 <= b < |batch| => VoteOf(batch[b], slots[b]))
  }

  /** A short batch is topped up with proxies that were only resting. */
  function TopUp(batch: seq<nat>, resting: seq<nat>, want: nat): seq<nat> {
    batch + resting[..if |batch| >= want then 0 else if |resting| < want - |batch| then |resting| else want - |batch|]
  }

  /** Marking an address failed calls the hook the first time only. */
  function Mark(sh: Shared, addr: string, i: nat, k: nat): Shared {
    if addr in sh.failed then sh
    else sh.(failed := sh.failed + {addr}, deaths := sh.deaths + [Death(addr, i, k)])
  }

  predicate Fits(job: Job, act: JobAct) {
    match act
    case Loop => job.Head?
    case Look => job.Collect? && !job.looking
    case Ask => job.Collect? && job.looking
    case Spawn => job.Collect? && !job.looking
    case Acquire(s) => job.Dialing? && s < |job.slots| == |job.batch| && job.slots[s].Queued?
    case Begin(s) => job.Dialing? && s < |job.slots| == |job.batch| && job.slots[s].Holding?
    case Return(s, _) => job.Dialing? && s < |job.slots| == |job.batch| && job.slots[s].InFlight?
    case Finish(s) => job.Dialing? && s < |job.slots| == |job.batch| && job.slots[s].Answered?
    case Join => job.Dialing? && |job.slots| == |job.batch| && forall s :: 0 <= s < |job.slots| ==> job.slots[s].Done?
    case Write => job.Leaving?
    case Report => job.Written?
    case Release => job.Reported?
  }

  predicate Unfilled(c: Config, job: Job)
    requires job.Collect?
  {
    Opens(job.votes) < c.quorum && |job.batch| < Want(c, job.votes) && job.used < |c.addrs|
  }

  ghost predicate JobEnabled(c: Config, w: World, i: nat, job: Job, sh: Shared, act: JobAct) {
    && Fits(job, act)
    && (act.Look? ==> Unfilled(c, job))
    && (act.Ask? ==> 0 < job.used)
    && (act.Spawn? ==> Opens(job.votes) < c.quorum && !Unfilled(c, job))
    && (act.Acquire? ==> sh.dialSem < c.conc)
    && (act.Begin? || act.Return? || act.Finish? ==> sh.dialSem > 0)
    && (act.Begin? ==> i < |sh.dialled|)
    && (act.Return? ==> w(i, job.batch[act.s], act.answer))
    && (act.Write? ==> i < |c.targets| && i < |sh.outcomes|)
    && (act.Release? ==> sh.jobSem > 0)
  }

  /** The job's own next stand. */
  ghost function JobAfter(c: Config, w: World, i: nat, job: Job, sh: Shared, act: JobAct): Job
    requires ValidConfig(c) && JobEnabled(c, w, i, job, sh, act)
  {
    match act
    case Loop =>
      if !Guard(c, job.votes, job.used) then Leaving(job.votes, job.used, false)
      else if sh.cancelled then Leaving(job.votes, job.used, true)
      else Collect(job.votes, job.used, job.used, [], [], false)
    case Look =>
      job.(used := job.used + 1, looking := AddrOf(c, i, job.used) !in sh.failed)
    case Ask =>
      var k := job.used - 1;
      if Throttle.Probe(c.interval, sh.lastUse, sh.clock, AddrOf(c, i, k)).0
      then job.(batch := job.batch + [k], looking := false)
      else job.(resting := job.resting + [k], looking := false)
    case Spawn =>
      var batch := TopUp(job.batch, job.resting, Want(c, job.votes));
      if batch == [] then Leaving(job.votes, job.used, false)
      else Dialing(job.votes, job.used, job.from, batch, seq(|batch|, _ => Queued))
    case Acquire(s) => job.(slots := job.slots[s := Holding])
    case Begin(s) => job.(slots := job.slots[s := if sh.cancelled then Done(None) else InFlight])
    case Return(s, answer) => job.(slots := job.slots[s := if sh.cancelled then Done(None) else Answered(answer)])
    case Finish(s) => job.(slots := job.slots[s := Done(Some(job.slots[s].answer))])
    case Join =>
      if sh.cancelled then Leaving(job.votes, job.used, true)
      else Head(job.votes + Cast(job.batch, job.slots), job.used)
    case Write => Written(job.votes, job.used, job.cut)
    case Report => Reported(job.votes, job.used, job.cut, sh.done + 1)
    case Release => Released(job.votes, job.used, job.cut, job.count)
  }

  /** What the step does to the shared state. */
  ghost function SharedAfter(c: Config, w: World, i: nat, job: Job, sh: Shared, act: JobAct): Shared
    requires ValidConfig(c) && JobEnabled(c, w, i, job, sh, act)
  {
    match act
    case Ask =>
      sh.(lastUse := Throttle.Probe(c.interval, sh.lastUse, sh.clock, AddrOf(c, i, job.used - 1)).1)
    case Acquire(s) => sh.(dialSem := sh.dialSem + 1)
    case Begin(s) =>
      if sh.cancelled then sh.(dialSem := sh.dialSem - 1)
      else sh.(dialled := sh.dialled[i := sh.dialled[i] + [job.batch[s]]])
    case Return(s, answer) => if sh.cancelled then sh.(dialSem := sh.dialSem - 1) else sh
    case Finish(s) =>
      var marked := if job.slots[s].answer == ProxyFault(true)
                    then Mark(sh, AddrOf(c, i, job.batch[s]), i, job.batch[s]) else sh;
      marked.(dialSem := sh.dialSem - 1)
    case Write => sh.(outcomes := sh.outcomes[i := OutcomeOf(c, i, job.votes)])
    case Report => sh.(done := sh.done + 1, reports := sh.reports + [i])
    case Release => sh.(jobSem := sh.jobSem - 1)
    case _ => sh
  }

  ghost predicate AllReleased(s: State, n: nat) {
    n <= |s.jobs| && forall i :: 0 <= i < n ==> s.jobs[i].Released?
  }

  ghost predicate Enabled(c: Config, w: World, s: State, a: Action) {
    match a
    case Cancel => !s.sh.cancelled
    case Tick(_) => true
    case Dispatch =>
      (match s.disp
       case AtCheck(_) => true
       case AtAcquire(next) => s.sh.jobSem < c.conc && next < |s.jobs|
       case Waiting(next) => AllReleased(s, next)
       case Returned(_) => false)
    case Step(i, act) => i < |s.jobs| && JobEnabled(c, w, i, s.jobs[i], s.sh, act)
  }

  ghost function Next(c: Config, w: World, s: State, a: Action): State
    requires ValidConfig(c) && Enabled(c, w, s, a)
  {
    match a
    case Cancel => s.(sh := s.sh.(cancelled := true))
    case Tick(elapsed) => s.(sh := s.sh.(clock := s.sh.clock + elapsed))
    case Dispatch =>
      (match s.disp
       case AtCheck(next) =>
         s.(disp := if next >= |c.targets| || s.sh.cancelled then Waiting(next) else AtAcquire(next))
       case AtAcquire(next) =>
         State(AtCheck(next + 1), s.jobs[next := Head([], 0)], s.sh.(jobSem := s.sh.jobSem + 1))
       case Waiting(next) => s.(disp := Returned(next)))
    case Step(i, act) =>
      s.(jobs := s.jobs[i := JobAfter(c, w, i, s.jobs[i], s.sh, act)],
         sh := SharedAfter(c, w, i, s.jobs[i], s.sh, act))
  }

  function Init(c: Config): State {
    var n := |c.targets|;
    State(AtCheck(0), seq(n, _ => Idle),
          Shared(false, {}, c.earlier, 0, 0, 0, 0, seq(n, _ => ZERO_OUTCOME), seq(n, _ => []), [], []))
  }

  /** The state a sequence of actions leads to, if each is enabled in turn. */
  ghost function After(c: Config, w: World, acts: seq<Action>): Option<State>
    requires ValidConfig(c)
  {
    if acts == [] then Some(Init(c))
    else
      var last := |acts| - 1;
      match After(c, w, acts[..last])
      case None => None
      case Some(s) => if Enabled(c, w, s, acts[last]) then Some(Next(c, w, s, acts[last])) else None
  }

  ghost predicate Reaches(c: Config, w: World, acts: seq<Action>, s: State) {
    ValidConfig(c) && After(c, w, acts) == Some(s)
  }

  lemma ReachesOn(c: Config, w: World, acts: seq<Action>, s: State, a: Action)
    requires Reaches(c, w, acts, s) && Enabled(c, w, s, a)
    ensures Reaches(c, w, acts + [a], Next(c, w, s, a))
  {
    assert (acts + [a])[..|acts|] == acts;
  }
}
