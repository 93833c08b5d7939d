# Route-fork: a verified model of its scan engine and codecs

Route-fork scans hosts and ports through a pool of untrusted SOCKS proxies. A port is reported open
only when a quorum of proxies agree, and one refusal overrules them. This project models the parts
of the program that the trust in its reports rests on, and proves what they promise.

## What is modelled

**The quorum rotate-scan.** `Votes`, `Throttle`, `Rotation`, `ScanPort` and `RunScan` hold the
engine. `Rotation` is a step system: the dispatcher, the jobs and their dials are stands in a state,
and one step is one access to something shared between goroutines (the context, the dead-proxy set,
the throttle, a semaphore, the done counter, an outcome slot) with the local work up to the next such
access. A semaphore release is one step with the access before it, a dial begins in the step that
finds the context alive, and the outcome hook belongs to the step that stores the outcome. A run is
any list of enabled actions, cancellation and the passing of time among them, so a statement about
reachable states holds under every interleaving. What a dial may answer is an arbitrary relation of
job, pool offset and answer. `ScanPort` is the round loop of one host:port as an imperative method;
what other goroutines do to it reaches it as an environment. `RotationRefines` shows that every job
of every run is that method in some environment. The modules `RotationSafety`, `RotationProgress`,
`RotationDead`, `RotationSchedule`, `RotationRace`, `RotationPace`, `RotationRest`, `RotationTurns`,
`BatchedScan` and `RotationBatched` state what scans promise, and where a promise fails, exactly when it holds.

**Port specifications and networks.** `Ports`, `Cidr` and `CidrWalk`: parsing, compressing and merging
on the text itself, and the byte-carry increment that walks a network of either address kind.

**The proxy list.** `ProxyList`, `ProxyLines` and `ProxyErrors`: the expression for proxy URIs with its optional
login, the fall-back notations, de-duplication, and the texts that tell a proxy's faults from a
target's.

**The relay.** `Relay` and `RelayWire`: connections are byte sequences read and written in place;
readers of the standards' own layouts stand on the other side.

**The range table, the Hosts tab and the CSV report.** `Geo`, `HostTable` with `Hosts`, and `Csv`.
`Hosts` keeps records and entries as objects updated in place; `HostTable` says what they stand for.

Methods that loop or update state are proved equal to functions of their inputs or old state; the
lemmas are about those functions.

## Where the code falls short of its comments

- `scanner/rotate.go:76-77` calls the scan deterministic for a deterministic dial. Whatever the
  throttle remembers, it is so for every dial function if and only if there is no target, or jobs run
  one at a time and there is no throttle or only one proxy (`RotationPace.DeterministicIff`). Where
  two jobs can be live, a proxy one target condemns gives two complete runs with different verdicts
  (`RotationRace.VerdictDependsOnSchedule`); with a throttle and two proxies, the passing of time
  alone changes a stored outcome (`RotationPace.OutcomeDependsOnClock`). Without a throttle the scan is
  also deterministic for dials that condemn nobody (`RotationSchedule.ScheduleIndependence`).
- `scanner/rotate.go:210-212` promises that resting proxies are used rather than reporting a false
  "unreachable". That holds of a short batch. A proxy that rests while the batch fills up is left out
  for that port, so a quorum of sure openers may go unheard. Whatever the throttle remembers, they
  open the port if and only if there is no throttle, no proxy beyond a first round, a cap of at most
  three faults, or no target (`RotationRest.HonestyPrevailsIff`);
  `RotationRest.RestingOpenerIsMissed` is a complete run over four proxies that never dials the only
  opener.
- `scanner/rotate.go:199` goes round the pool in order, but a throttle may put a later proxy's label
  ahead of an earlier one's, the first label being reported as the primary: `RotationTurns.LabelsInTurnIff`
  says when it cannot.
- `proxy/proxy.go:21` and `proxy/fuzz_test.go:27` say a parsed protocol is socks4 or socks5. The
  expression ignores case by Unicode folding, under which a long s is an s, and lower-casing leaves
  the long s alone: `ProxyList.AcceptedLine` says exactly which lines keep the promise.
- `scanner/scanner.go:92` walks a network until it is left. The walk of all of IPv4 does not end, and
  it is the only one (`CidrWalk.WalkEndsIff`). Membership compares addresses that stand for IPv4 ones
  as such, so the walk of a wider IPv6 network stops when it reaches them (`CidrWalk.WalkEnds`).
- A SOCKS5 length byte is the length modulo 256, so hosts, users and passwords over 255 bytes are
  sent garbled (`relay/relay.go:182-199`); the round trips are stated with their exact limits.
- An over-long line stops the range table's scanner with an error that its caller drops, and the lines
  read stay unsorted (`geo/geo.go:58,92-94`): `Geo.LookupAgreesWithScan` says when lookups are right.
- The CSV report quotes neither line breaks nor the protocol (`cli/output.go:66`):
  `Csv.ReportRoundTrip` says exactly which results survive it.

## Model

| member | source | states |
|---|---|---|
| Votes.TallyTotal | scanner/rotate.go:271-291 | each tallied vote is an open, a fault or a refusal; the labels are as many as the confirmations |
| Votes.OpenersVoted | scanner/rotate.go:273-275 | the label list holds exactly the offsets that voted open, none twice |
| Votes.FaultsBounded | scanner/rotate.go:288-289 | the error count is at most the number of distinct proxies that can fail |
| Votes.FirstNonEmptyIsFirst | scanner/rotate.go:276-284 | banner, service and version kept are the first non-empty ones, empty only if all are |
| Votes.LastRefuserIsLast | scanner/rotate.go:285-287 | the refuter named is the last that refused |
| Throttle.ProxyThrottle.constructor | scanner/throttle.go:24-30 | a new throttle has recorded no use |
| Throttle.ProxyThrottle.Ready | scanner/throttle.go:35-47 | the answer and the new record, for a given clock reading |
| Throttle.RecordIsLatest | scanner/throttle.go:42-46 | the record holds each address's latest granted use |
| Throttle.GrantedIffRested | scanner/throttle.go:8-14 | over any call history under a monotone clock, a use is granted iff no earlier grant of the same address lies less than the interval back |
| Rotation.SetupSettles | scanner/rotate.go:79-109 | when a scan is refused at once, and the clamped quorum, error cap and concurrency otherwise |
| Rotation.GridAt | scanner/rotate.go:132-166 | slot h*ports+p of the grid is host h and port p, and there are hosts*ports slots |
| Rotation.PositionsDiffer | scanner/rotate.go:199 | within one job different rotation offsets are different pool positions |
| Rotation.SeesRotation | scanner/rotate.go:160-199 | job i comes to addresses and labels in the order of the pool cut at entry i mod pool size, the cut-off entries last |
| ScanPort.NextBatch | scanner/rotate.go:195-216 | the batch and cursor of a round, for any dead marks and throttle answers met on the way |
| ScanPort.BatchIsSorted | scanner/rotate.go:197-216 | a batch is the admitted proxies of the stretch consumed, in order, topped up with the first resting ones; the stretch ends when the batch is full or at the pool's end |
| ScanPort.TallyOfAppend | scanner/rotate.go:271-291 | counting one more result keeps the running variables equal to the tally of all votes |
| ScanPort.CountRound | scanner/rotate.go:271-291 | the tally loop leaves the tally of the earlier votes and this batch's |
| ScanPort.Scan | scanner/rotate.go:180-305 | the round loop returns the outcome decided by the votes of the reference recursion over rounds |
| RotationInvariant.InvStep | scanner/rotate.go:113-170 | every step keeps the invariant: semaphore counts, job stands, dial records, reports, dead set |
| RotationInvariant.ReachableInv | scanner/rotate.go:113-170 | the invariant holds in every reachable state of every interleaving |
| RotationSafety.ConcurrencyBounded | scanner/rotate.go:113-139 | at any time at most the clamped concurrency of jobs is live and of dials in flight |
| RotationSafety.DialsAccounted | scanner/rotate.go:191-266 | a job dials each pool position at most once, at most min(pool, quorum + cap + 1) in all; confirmations equal the labels and are at most quorum + 2 |
| RotationSafety.OpenIsVouched | scanner/rotate.go:271-305 | an Open slot has a quorum of labels of distinct pool positions that can be connected through, and no tallied refusal |
| RotationSafety.SlotTells | scanner/rotate.go:263-305 | in every run a stored outcome's labels are, one for one, those of distinct proxies that connected, and service, version and banner are the first not empty that they told, in that order |
| RotationSafety.VerdictTells | scanner/rotate.go:271-305 | Refuted iff a refusal was tallied; otherwise Open, Unconfirmed or Unreachable by the number of labels against the quorum |
| RotationSafety.RefuterTells | scanner/rotate.go:285-287 | the address named as refuter is that of the last proxy tallied as refusing |
| RotationSafety.LiarsCannotOpen | scanner/rotate.go:67-76 | if fewer positions than the quorum can connect, the slot is never Open, in any run |
| RotationTurns.UnpacedInTurn | scanner/rotate.go:197-216 | without a throttle, or with one proxy, the labels of every slot of every run are a subsequence, in order, of its rotation of the pool's labels |
| RotationTurns.PacedTurnsAround | scanner/rotate.go:213-216 | with a throttle, two proxies and a target, a run that names the last proxy before the first, a resting one having been topped up |
| RotationTurns.LabelsInTurnIff | scanner/rotate.go:199-216 | whatever the throttle remembers and whatever the labels, every slot of every run keeps the order of its rotation iff there is no target, no throttle or only one proxy |
| RotationJob.FullRound | scanner/rotate.go:195-216 | a round leaves resting proxies out only when it is full and the pool has more than a first round |
| RotationJob.WeightyRound | scanner/rotate.go:191-196 | a full round decides the port or brings three faults |
| RotationSafety.HonestQuorumOpens | scanner/rotate.go:191-219 | without cancellation or refuser, with fewer possible faults than the cap and a quorum of sure, uncondemned openers, the verdict is Open if there is no throttle, no proxy beyond a first round, or a cap of at most three |
| RotationRest.RestCosts | scanner/rotate.go:197-216 | for every other configuration with a target, a complete run with a quorum of sure openers and fewer faults than the cap whose verdict is not Open, those past a first round never having been dialled |
| RotationRest.HonestyPrevailsIff | scanner/rotate.go:210-216 | whatever the throttle remembers and however addresses repeat, a sure quorum always opens the port iff one of those three conditions holds or there is no target |
| RotationRest.RestingOpenerIsMissed | scanner/rotate.go:210-216 | a complete run over four proxies that reports a port unreachable and never dials the one that would open it |
| RotationSafety.ShortRoundsExhaust | scanner/rotate.go:197-216 | a batch below its aim only at the pool's end, with every proxy of the round not known dead in it, rested or not |
| RotationSafety.SlotsMatchTargets | scanner/rotate.go:141-166 | slot i is target i's outcome or still the zero outcome |
| RotationSafety.CutIsInconclusive | scanner/rotate.go:192-194 | a loop left by cancellation is Unconfirmed or Unreachable |
| RotationSafety.ReturnedIsComplete | scanner/rotate.go:142-170 | at return the launched jobs are stored, the others zero, and without cancellation all were launched |
| RotationSafety.ProgressCountsEachOnce | scanner/rotate.go:153-157 | at return the progress hook was called with each of 1..k by exactly one launched job |
| RotationSafety.DeathsJustified | scanner/rotate.go:116-125 | the dead hook fires once per address and only after a dial that condemned it; the dead set is exactly those addresses |
| RotationProgress.NeverStuck | scanner/rotate.go:136-170 | if dials return, some step of the scan is enabled until it has returned |
| RotationProgress.WorkFalls | scanner/rotate.go:191-292 | every step of the scan strictly lowers a measure of the work left; outside steps do not raise it |
| RotationProgress.RunsAreBounded | scanner/rotate.go:142-170 | no run over t targets and n proxies has more than t*(20n+12)+3 steps of the scan |
| RotationProgress.EveryRunCanFinish | scanner/rotate.go:142-170 | every run can be continued to its return |
| RotationDead.DeadStep | scanner/rotate.go:198-208 | every step keeps the account of who has a condemned address in hand |
| RotationDead.TimesAtMostShare | scanner/rotate.go:198-203 | a job dials an address at most once for each pool entry that has it |
| RotationDead.DeadProxyIsCheap | scanner/rotate.go:111-130 | a proxy whose every dial is classified dead is dialled at most concurrency times in the whole scan for each pool entry that has its address |
| RotationSchedule.AloneStep | scanner/rotate.go:191-292 | a step of a job does not change how it would end running alone |
| RotationSchedule.RestsAlone | scanner/rotate.go:197-216 | where the throttle cannot show, a proxy rests only in a pool of one, and then nothing else is in hand |
| RotationSchedule.ScheduleIndependence | scanner/rotate.go:76-77 | with functional dials, no cancellation, no throttle or one proxy, and none dead or one job at a time, every run returns the outcomes of the sequential double loop |
| RotationSolo.SoloRun | scanner/rotate.go:191-305 | from any state a live job that holds the only dials can go on by itself until its outcome is stored |
| RotationSolo.DecidedStays | scanner/rotate.go:161 | a stored outcome never changes in the rest of a run, nor do its job's dials |
| RotationRace.SoloEnds | scanner/rotate.go:191-292 | a job run by itself ends with the votes and the dead set of its rounds |
| RotationRace.VerdictDependsOnSchedule | scanner/rotate.go:76-77 | in every configuration with two targets and two places, and no throttle or one proxy, two complete runs with the same functional dials give target 1 different verdicts |
| RotationPace.OutcomeDependsOnClock | scanner/rotate.go:204-207 | in every configuration with a throttle, two proxies and a target, two complete runs with the same functional dials and throttle record store different outcomes |
| RotationPace.DeterministicIff | scanner/rotate.go:76-77 | whatever the throttle remembers, all dial functions have one outcome array iff there is no target, or jobs run one at a time and there is no throttle or one proxy |
| RotationRefines.ContinuedStep | scanner/rotate.go:191-292 | each step asks its surroundings at most one new question and what lies ahead is what the answer leaves |
| RotationRefines.JobsAreScanPort | scanner/rotate.go:159-161 | in every run each finished job's votes and stored outcome are those of the round loop in some environment |
| BatchedScan.CandidatesAhead | scanner/rotate.go:198-203 | the reference's candidates are exactly the proxies ahead that are not marked dead |
| BatchedScan.RoundsRefine | scanner/rotate.go:191-292 | from any tally, the batched rounds extend the single-dial reference by at most two votes past an Open |
| BatchedScan.BatchedRefinesSingle | scanner/rotate.go:191-292 | undisturbed, and with a cap that does not bite before the reference stops, batching gives the verdict of dialling one at a time, except that Open becomes Refuted if one of at most two extra votes refuses |
| RotationBatched.RoundsAreScanPort | scanner/rotate.go:191-292 | the rounds of a target by itself are the round loop with its dials and the dead set at its start |
| RotationBatched.SlotsRefineSingle | scanner/rotate.go:132-292 | in every uncancelled run in which neither schedule nor throttle can show, each decided slot refines dialling one at a time in that way |
| RunScan.FindingsAreOpenSlots | scanner/run.go:132-153 | the findings are exactly the Open slots, in grid order |
| RunScan.ScanTarget | scanner/run.go:86-154 | the findings of one target, none when its expansion failed |
| RunScan.Run | scanner/run.go:65-81 | one result per target with a pool, up to the first cancelled one |
| RunScan.SetupIsValid | scanner/run.go:99-125 | the scan of a target is held to min(max(1, quorum), pool size), gives up at ten faults or the pool size, and gets the concurrency, throttle, pool and grid asked for |
| RunScan.ResultOrigin | scanner/run.go:67-78 | every result is some target's findings |
| RunScan.FindingsAreVouched | scanner/run.go:132-153 | behind each finding stand that many labels of distinct pool positions that can connect, and no refusal |
| RunScan.FindingTells | scanner/run.go:132-153 | every field of a finding goes back to the dials: proxies are the labels of those that connected, the first is the primary, version and banner are the first they told, the service too or else the port's known name or "unknown" |
| RunScan.LiarsAreNeverReported | scanner/run.go:61-81 | a host:port that fewer proxies would open is never a finding, under any interleaving, pruning, throttling or cancellation |
| RunScan.ResultReached | scanner/run.go:67-78 | a target with a pool is reported if neither it nor an earlier one was cancelled |
| RunScan.ResultsInOrder | scanner/run.go:65-81 | the results are those of exactly the targets with a pool ahead of the first cancellation, one each, in order |
| RunScan.HonestQuorumIsReported | scanner/run.go:61-153 | where resting is harmless, a host:port with a sure quorum, no refuser and fewer possible faults than the cap is a finding with the quorum's labels |
| ProxyErrors.DeadIsError | proxy/validate.go:270-331 | whatever condemns a proxy is a proxy error |
| ProxyErrors.NestedTestLosesNothing | scanner/rotate.go:248-258 | a failed dial condemns its proxy iff the dead test accepts its error |
| ProxyErrors.ClassifiedIff | proxy/validate.go:270-331 | for every address and message, in any letter case: which texts condemn a proxy, which only excuse it and that all others are the target's refusal, both directions |
| ProxyErrors.HangUpAndRefusal | proxy/validate.go:281-302 | "EOF" is a fault that does not condemn, "connection refused" a refusal |
| Text.SplitParts | scanner/scanner.go:49 | splitting cuts at every separator and loses nothing |
| Text.TrimStrips | scanner/scanner.go:50 | trimming takes off the space around a text and nothing else |
| Text.AtoiIff | scanner/scanner.go:53-65 | a numeral is an optional sign and digits, read as their value within 64 bits |
| Ports.ParsePart | scanner/scanner.go:50-68 | an accepted part is a range inside 1..65535, start before end |
| Ports.PartAcceptedIff | scanner/scanner.go:50-68 | a part is accepted iff, space aside, it reads as a port or as two numerals around its first dash, within bounds; a part with a dash is otherwise a bad range, any other a bad port |
| Ports.ParsePorts | scanner/scanner.go:47-76 | the parse of a specification, the first error ending it |
| Ports.AcceptedIff | scanner/scanner.go:40-76 | accepted iff every part parses and the ports fit the limit; then in range, within the limit, in order |
| Ports.RejectedAt | scanner/scanner.go:49-74 | a rejection names the first part that does not parse or does not fit the limit |
| Ports.SortSorts | scanner/scanner.go:203-205 | sorting gives an ascending permutation |
| Ports.SortedUnique | scanner/scanner.go:205 | an ascending sequence is determined by its contents |
| Ports.RunsExpand | scanner/scanner.go:207-224 | the runs found expand back to the sequence, duplicates included |
| Ports.RunsMaximal | scanner/scanner.go:208-219 | no run ends right before the next begins |
| Ports.RunsUnique | scanner/scanner.go:207-224 | any cutting of the ports into such runs is the one found |
| Ports.CompactText | scanner/scanner.go:199-226 | ports in any order are written as exactly the runs they make up |
| Ports.WholeRange | scanner/scanner.go:199-226 | the ports a to b in any order are written "a-b", one port as its number |
| Ports.ShowRuns | scanner/scanner.go:206-224 | the loop prints exactly those runs |
| Ports.CompressPorts | scanner/scanner.go:199-226 | the compact text of the sorted ports |
| Ports.ParseShow | scanner/scanner.go:50-68 | parsing a printed run gives the run |
| Ports.PortRoundTrip | scanner/scanner.go:47-226 | parsing the compact text of up to 2^20 ports in range gives the ports sorted, duplicates included |
| Ports.MergePortSpecs | scanner/scanner.go:229-248 | the merge of two specifications, whatever order the set is listed in |
| Ports.SortEnumeration | scanner/scanner.go:243-247 | every listing of a set sorts to the same ascending sequence |
| Ports.MergeIsUnion | scanner/scanner.go:228-248 | a merge re-parses to the strictly ascending union of what parses, "0-65535" being the full range; it is empty only if that is |
| Ports.MergeHolds | scanner/scanner.go:228-248 | port by port, a merge stands for what either side stands for, "0-65535" and "1-65535" being all ports; ascending and without duplicates |
| Ports.MergeCommutes | scanner/scanner.go:228-248 | merging is commutative as text |
| Ports.MergeAbsorbs | scanner/scanner.go:228-248 | merging a specification in again changes nothing |
| Ports.AscendingHolds | scanner/scanner.go:243-247 | the union's listing is strictly ascending and holds exactly its members |
| Cidr.IncIP | scanner/scanner.go:104-111 | the array after the carry loop is the incremented address |
| Cidr.IncrementAddsOne | scanner/scanner.go:104-111 | the increment is plus one modulo 256^length, for any length |
| Cidr.ContainsIff | scanner/scanner.go:92 | membership under a byte mask is agreement of the leading bits as numbers |
| Cidr.ContainsIsBlock | scanner/scanner.go:92 | a masked network is a block of 2^(bits-ones) consecutive addresses |
| CidrWalk.MappedIff | scanner/scanner.go:92 | the IPv6 addresses that stand for IPv4 ones are 2^32 consecutive numbers |
| CidrWalk.HoldsIff | scanner/scanner.go:92 | an IPv6 network holds the addresses of its block, except that those that stand for IPv4 ones and the others do not hold each other |
| CidrWalk.BlockEnds | scanner/scanner.go:92-95 | by its bytes, a block is left after exactly 2^(bits-ones) increments, blocks ending at the last address included |
| CidrWalk.WalkEnds | scanner/scanner.go:92-95 | the walk stays inside for exactly that many addresses, or up to those that stand for IPv4 ones when a wider IPv6 network reaches them |
| CidrWalk.WalkEndsIff | scanner/scanner.go:92-95 | the walk of a network ends iff it is not all of IPv4 |
| CidrWalk.Members | scanner/scanner.go:89-95 | the loop ends and prints the walk in ascending order |
| CidrWalk.HostsAreBlock | scanner/scanner.go:96-101 | the hosts are the walk ascending, without its two ends for IPv4 prefixes up to 30; an IPv4 walk is the whole block |
| CidrWalk.ExpandTarget | scanner/scanner.go:81-102 | a plain target stands for itself, a bad network is an error, a network is its printed hosts, which for IPv4 read back as consecutive numbers |
| CidrWalk.PrintedReads | scanner/scanner.go:89-101 | host j of an IPv4 network reads back as network number + j, one more where the ends are dropped, and there are as many as there should be |
| CidrWalk.MappedReads | scanner/scanner.go:93 | an IPv6 address that stands for an IPv4 one is printed so that it reads as that one |
| Cidr.DottedInjective | scanner/scanner.go:93 | different addresses print differently |
| Cidr.DottedReads | scanner/scanner.go:93 | cut at the dots, a printed address has one part per byte, the k-th reading as byte k |
| Cidr.DottedRoundTrip | scanner/scanner.go:93 | a reader of dotted decimal gets the number the address stands for |
| ProxyList.MatchIsUnambiguous | proxy/proxy.go:58-66 | the expression matches a line in at most one way and the search finds it, with or without login |
| ProxyList.AcceptedLine | proxy/proxy.go:60-102 | an accepted line has a host and a port in range, and protocol socks4 or socks5 iff no URI scheme is spelt with a long s |
| ProxyLines.ParsedIff | proxy/proxy.go:60-102 | a line gives a proxy iff, trimmed, it is no comment and is that proxy's URI, its fields with colons between, or, failing the latter, host and port with white space between |
| ProxyLines.AddressParses | proxy/proxy.go:32-34 | a printed address is a line that parses to its host and port |
| ProxyList.LongSIsAccepted | proxy/proxy.go:58-75 | a line accepted with a protocol that is neither |
| ProxyList.AddressIsEndpoint | proxy/proxy.go:32-34 | addresses are equal iff host and port are |
| ProxyList.KeyIsIdentity | proxy/proxy.go:112 | keys are equal iff host, port and protocol are, even for hosts with colons |
| ProxyList.SeenIsKnown | proxy/proxy.go:112-116 | the seen-set test is the test for an earlier line of the same identity |
| ProxyList.FirstsAreFirst | proxy/proxy.go:104-119 | every identity is listed, once, by its first bearer |
| ProxyList.FirstsInOrder | proxy/proxy.go:104-119 | the list keeps the order in which identities first appear |
| ProxyList.FoundInOrder | proxy/proxy.go:107-111 | every line that parses is taken up, in order |
| ProxyList.ParseAll | proxy/proxy.go:104-119 | for any text the first occurrences among the parsed lines |
| ProxyList.ParseURI | proxy/proxy.go:36-75 | parsing a printed well-formed proxy gives the proxy |
| ProxyList.PoolRoundTrip | proxy/proxy.go:36-119 | a pool file of well-formed, distinct proxies survives printing and parsing |
| Relay.Conn.constructor | relay/relay.go:131-136 | a connection holds the bytes to come and has sent none of its own |
| Relay.Conn.Write | relay/relay.go:163-165 | a write sends all its bytes, or fails having sent a beginning of them |
| Relay.Conn.ReadFull | relay/relay.go:74-76 | a full read takes exactly its bytes or fails |
| Relay.Conn.ReadUntilNull | relay/relay.go:263-273 | consumes through the first zero byte, or everything and fails |
| Relay.Conn.ReadStringUntilNull | relay/relay.go:275-287 | returns what precedes the first zero byte and consumes through it |
| Relay.Socks5Connect | relay/relay.go:156-233 | stream, bytes sent and error of the connector, on any input |
| Relay.Socks5Ask | relay/relay.go:197-232 | the request and the draining of the reply by its address type |
| Relay.Socks4aConnect | relay/relay.go:237-259 | stream, bytes sent and error of the connector, on any input |
| Relay.HandleClient | relay/relay.go:67-120 | both streams after one client connection, and whether they get spliced |
| RelayWire.Socks4aRequestRoundTrip | relay/relay.go:239-246 | the relay reads the request it writes as the same host and port, consuming exactly its bytes, iff the host has no zero byte |
| RelayWire.AsksAsClient | relay/relay.go:239-246 | the request written is that of a client with a host name and no user id |
| RelayWire.Socks5RequestRoundTrip | relay/relay.go:197-200 | a reader of section 4 of RFC 1928 recovers host and port iff the host is at most 255 bytes |
| RelayWire.LoginRoundTrip | relay/relay.go:181-184 | a reader of section 2 of RFC 1929 recovers user and password iff both are at most 255 bytes |
| RelayWire.GreetingReads | relay/relay.go:157-162 | a reader of section 3 of RFC 1928 finds no authentication offered, and a login exactly when there is a user |
| RelayWire.Socks5LeavesTunnel | relay/relay.go:156-233 | on any acceptance with a bound address of section 6 of RFC 1928, the connector succeeds, has sent exactly its messages and leaves the first tunnel byte next |
| RelayWire.Socks4aLeavesTunnel | relay/relay.go:237-259 | likewise for SOCKS4a |
| RelayWire.Socks4aSucceedsIff | relay/relay.go:248-258 | success iff the request goes out and eight bytes with 0x5A second come back |
| RelayWire.Socks5SucceedsIff | relay/relay.go:163-232 | success iff the messages go out and the answers are version 5, a usable method, an accepted login if asked for and a zero reply code |
| RelayWire.Socks5EndsBy | relay/relay.go:167-220 | with writes going out, which error ends an attempt, by the first answer byte that is amiss |
| RelayWire.Socks5SendsInTurn | relay/relay.go:163-202 | login and request go out only once the answer before them was what it should be |
| RelayWire.ClientSeesNothingEarly | relay/relay.go:102-116 | for all streams the client gets nothing before upstream success, then the start of one reply, a zero, 0x5A, the port high byte first and the address, all of it if spliced |
| RelayWire.RequestConsumed | relay/relay.go:71-100 | every request a client can make, with any user id and address, is read as its target and port, consuming exactly its bytes |
| RelayWire.RequestIsClients | relay/relay.go:71-100 | nothing but such a request is read as one |
| RelayWire.DestinationReads | relay/relay.go:89-100 | the destination is the announced host name, or the address in dotted decimal that reads as its number |
| RelayWire.ConnectLeavesTunnel | relay/relay.go:138-148 | with either kind of proxy that accepts, the first tunnel byte is next |
| RelayWire.TunnelStartsClean | relay/relay.go:67-126 | for every client request and every accepting proxy, the sides are spliced with every byte after the request and after the reply still unread, the client having been sent the eight reply bytes |
| Geo.ParseTable | geo/geo.go:66-99 | the entries of the well-formed lines, sorted by start, or as read with an error when a line is too long |
| Geo.EntryIff | geo/geo.go:71-90 | a line is an entry iff it is two 32-bit decimal numbers and at least two letters with commas between, of which the first two count |
| Geo.LinesOfText | geo/geo.go:67-71 | a text of short lines is read as those lines, with either line end and with or without a last one |
| Geo.ReadableStops | geo/geo.go:68-70 | the lines ahead of the first that fills the buffer are read |
| Geo.UnsortedMisleads | geo/geo.go:39-47 | in an unsorted table of disjoint ranges some address is looked up wrongly |
| Geo.Lookup | geo/geo.go:41-47 | the binary search's answer |
| Geo.SortOrders | geo/geo.go:95-97 | sorting disjoint ranges orders them and loses none |
| Geo.BisectIsFirst | geo/geo.go:42 | the search stops at the first range ending at or after the address |
| Geo.LookupAgreesWithScan | geo/geo.go:39-99 | for disjoint ranges among malformed lines, every lookup is what a linear scan of the lines read finds, iff no line is too long or they were in order |
| HostTable.KeyIsIdentity | gui/app.go:218 | keys are equal iff port and protocol are |
| HostTable.DedupeIsUnion | gui/app.go:53-66 | the result is the duplicate-free union with the non-empty texts, the base in front |
| HostTable.DedupeInOrder | gui/app.go:53-66 | what is appended comes in order of first appearance |
| HostTable.DedupeAbsorbs | gui/app.go:53-66 | nothing is appended iff everything is empty or already there |
| HostTable.PushTells | gui/app.go:203-252 | one finding keeps the table equal to the flat account of all findings so far |
| HostTable.IndexTellsAccount | gui/app.go:198-252 | after any findings both indexes are exact inverses of their lists, and hosts, ports and entries are those of the flat account in order of appearance |
| HostTable.EntryTells | gui/app.go:218-250 | a listed port's texts are the first not empty among the findings on it in the order they came, its proxies those that any of them lists or, listing none, was made by |
| HostTable.PortListedIff | gui/app.go:203-250 | a port is listed, under its host, iff some finding is on it |
| HostTable.ProxiesAreProvers | gui/app.go:220-229 | an entry's proxies are the non-empty provers of all findings on its port, each once |
| HostTable.PushChangesNothingIff | gui/app.go:203-252 | a push changes nothing iff the table already has all that the finding says |
| HostTable.PushedConcat | gui/app.go:198-252 | pushing list after list is pushing them as one |
| HostTable.PushingAgainChangesNothing | gui/app.go:35-36 | pushing known findings again, in any order and number, changes nothing |
| Hosts.DedupeAppendInto | gui/app.go:54-66 | the loop with its seen-map gives the de-duplicated sequence |
| Hosts.PortEntry.constructor | gui/app.go:240-247 | a new entry with its provers de-duplicated |
| Hosts.PortEntry.MergeIn | gui/app.go:228-238 | provers are merged in and empty texts filled in |
| Hosts.HostRecord.constructor | gui/app.go:211 | a new record without ports |
| Hosts.HostRecord.Record | gui/app.go:218-250 | the finding goes to its known port or a new one, and the index follows |
| Hosts.HostStore.constructor | gui/app.go:105-107 | an empty store with empty indexes |
| Hosts.HostStore.ListHost | gui/app.go:207-212 | an unknown address gets a record and an index entry |
| Hosts.HostStore.Push | gui/app.go:203-251 | one finding changes its host's record only |
| Hosts.HostStore.PushFindings | gui/app.go:198-252 | the store after a list of findings, with no record or entry shared |
| Hosts.HostStore.ClearHosts | gui/app.go:259-264 | the store is empty again |
| Csv.WriteCSV | cli/output.go:60-73 | the text that reaches the writer, and success iff no write fails |
| Csv.WrittenIsBeginning | cli/output.go:60-73 | what a failing writer got is a beginning of the report |
| Csv.CarriedIsRead | cli/output.go:75-80 | an escaped field is read back by a reader of section 2 of RFC 4180 |
| Csv.SpecialIsAmiss | cli/output.go:66 | a bare field with a comma, quote or line break never yields itself, whatever follows |
| Csv.ColumnsAreNamed | cli/output.go:61-66 | in the records to be recovered each heading stands over the field it names |
| Csv.ReportRoundTrip | cli/output.go:60-80 | the reader recovers the seven fields of every record iff no bare field has a line break and every protocol needs no quoting |

## Left out

- RunScan.ScanTarget: takes the expansion, the shuffled pool and the outcomes of the rotate-scan as given; `RunScan.Happened` ties the outcomes to a run.
- CidrWalk.ExpandTarget: takes the target after network parsing and the writing of IPv6 addresses as a function, and not all of IPv4, for which the original does not return.
- CidrWalk.Members: likewise.
- Geo.ParseTable: orders entries of equal start in file order, where the library's sort promises no order; disjoint ranges have none.
- Relay.HandleClient: whether the dial to the proxy succeeds is an argument; the splice and the deadlines are not modelled.
- Real dials, service identification, TLS, banner probes and the clock: they enter as arbitrary answers, steps and arguments.
- Real goroutine scheduling and memory: steps are atomic, so data races on unshared memory are not expressible.
- Hooks: the calls are recorded in the state; what a caller does inside a hook is not.
- The messages of errors other than the rejected port part, and the log lines.
- The range table's decompression and its country-name table.
- Invalid UTF-8 and multi-byte lengths: texts are sequences of characters, and lower-casing covers the letters whose lower case is ASCII.
- The validator's own SOCKS handshakes, which depend on how reads are chunked.
- The plain TCP scanner, its dialers, pool bookkeeping, region selection, scan sessions and command-line parsing, whose properties would be easy ones.
- The other report formats, the window toolkit, and running nmap.
