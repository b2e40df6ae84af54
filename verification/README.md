# A verified model of efemon's protocols, parsers and logs

efemon is a host monitor: it lists a machine's connections, scores how suspicious
each one is, looks the remote addresses up, captures packets, listens to DNS
answers, audits the system and keeps a history. This project models the parts whose
correctness does not show in any single function: the parsers that must survive
every byte string, the goroutines that hand work to one another, the detectors that
carry state from call to call, and the text and log formats that have to be read back.

| module | source | what it is about |
|---|---|---|
| `DnsName`, `DnsMessage` | dns.go | names with the compression of section 4.1.4 of RFC 1035, and the addresses of a response |
| `BpfFilter` | dns_linux.go, dns.go | the kernel's 17 instructions, run by an interpreter, against their userspace twin |
| `CaptureStream` | capture.go, main.go | handler, capture goroutine, scanner, tshark and client as one step relation, and what every run keeps |
| `CaptureProgress`, `CaptureCancel` | capture.go, main.go | how a capture gets on and ends, and when tshark is left behind |
| `CaptureCounter` | capture.go | the counter all captures share |
| `IpEnrichment` | intel.go | the bounded cache, and single-flight lookups by any number of callers |
| `AuditCoalescing` | audit.go | scans under two locks, shared by the requests that queue for them |
| `WorkQueue` | vt.go, connections.go | a pending set beside a channel and a batching worker, for hashes and for signatures |
| `TokenBucket` | vt.go | the VirusTotal quota |
| `BeaconDetector` | monitor.go | contacts, sliding windows and periods |
| `IoSampler` | volume.go | rates and sustained-use flags from counters |
| `ThreatScore`, `Breakdown` | connections.go | the score, and the code its reasons are kept in |
| `ScoreHistory`, `ScoreRequests` | connections.go, db.go | the change log of verdicts, kept by one call at a time and by requests that overlap |
| `Timeline` | timeline.go | the join of scores and events by binary and address |
| `RiskTrail` | connections.go, db.go, timeline.go | what a score says, the log keeps and the timeline shows is the same |
| `RotatingLog` | logging.go | the live log and its three archives |
| `EnvFile` | config.go | the settings file, merged line by line |
| `Text`, `Prelude` | | decimal numbers, splitting, sequences |

## How it is modelled

- A loop of the source is a method with a loop, proved against a specification
  function; the properties are lemmas about that function. An object that the source
  updates is a class, and each method's contract gives its whole new state.
- Goroutines are step relations: one step is what happens between two points where
  another goroutine can be seen, so a run is any interleaving. Properties of runs hold
  for every sequence of enabled steps.
- Every protocol reads one clock that never goes back. Where the code asks for strictly
  later (`After` in audit.go) so does the model, and `AuditCoalescing.TieScansAgain` says
  what a coarse clock costs. The times taken for rows of the score history are strictly
  increasing, in the order they are taken; rows may be inserted in another order.
- Quantities the code keeps in `float64` are exact: reals, or whole tenths of a point
  for the score. The square root in the beacon test is squared away (`BeaconDetector.SqrtTest`).
- Map iteration order, goroutine scheduling, lookups, readings of counters and file
  errors are arbitrary: parameters or non-deterministic choices.

## Where the code and its comments differ

These came out of the proofs; each is a lemma with the exact condition.

- main.go and capture.go promise that closing the tab ends tshark. From any moment with
  tshark running, and without another line from it, some schedule abandons it running
  exactly when an overlong line (over 1 MiB) has been read or is in the pipe and the
  goroutine has not chosen the branch that kills (`CaptureCancel.LeftRunningExactly`).
  Once the handler has returned, it is killed in every other case
  (`CaptureCancel.OtherwiseKilled`).
- After an overlong line nobody reads tshark's pipe any more. Once it is full, tshark is
  blocked on the pipe and `cmd.Wait` on tshark, with a client that is there and reading:
  a deadlock that only an exit of tshark from outside ends (`CaptureProgress.NoDeadlock`,
  `CaptureProgress.MutualWaitStays`). It can come about under exactly the same condition
  (`CaptureCancel.MutualWaitExactly`).
- A waiter of `enrichIP` gets nil exactly if its leader's lookup panicked, and it happens
  (`IpEnrichment.WaitersGetTheirLeadersResult`, `IpEnrichment.WaiterWakesWithNil`).
- connections.go says the history appends only when a verdict changed. The query and the
  insertion of recordScoreChange are not one transaction, so two requests can log one
  verdict twice (`ScoreRequests.RepeatReachable`); `ScoreRequests.RepeatsExactly` says when.
- vt.go names a quota of four requests a minute. The bucket keeps to four and one every
  fifteen seconds, which is eight in the first minute (`TokenBucket.EightInAMinute`).
- When the live log cannot be renamed, each write past the limit still removes or shifts
  the archives: three of them empty all archives while nothing is rotated
  (`RotatingLog.StuckLiveEmptiesArchives`).
- timeline.go says every port to the same host lands in one entry. The monitor writes
  remotes as address, colon, port without brackets (monitor.go:212), so this holds exactly
  for addresses without a colon; an IPv6 remote keeps its port in its key
  and never joins the score changes of its address (`Timeline.PortsShareARecord`,
  `Timeline.EventJoinsItsScores`).
- writeEnv preserves other lines only up to a line of 64 KiB, where its scanner stops:
  that line and all after it are dropped (`EnvFile.OverlongLosesTheRest`, `EnvFile.KeyIsLost`). Files it can
  write and read back unchanged are characterised by `EnvFile.SavedLines`.
- A row with missing data is marked partial only if it has no reason at all. A zero
  score from a faint AbuseIPDB report is left unmarked (`ThreatScore.UnmarkedZero`,
  `ThreatScore.UnmarkedZeroExists`).
- The readers of the history compare codes, and a code contains rendered arguments such
  as a rate: a different rate is a different verdict (`ScoreRequests.SameStance`).

## Model

| member | source | states |
|---|---|---|
| DnsName.ReadDNSName | dns.go:83-122 | ends on every input; succeeds with the labels joined by dots and the offset after the name as it stands, or fails with nothing; the end lies past the start and inside the message |
| DnsName.DecodesExactly | dns.go:83-122 | success exactly on the names the compression grammar spells at the offset (pointers backwards or forwards) with at most 16 pointers and 128 labels |
| DnsName.ResolveSound | dns.go:86-121 | whatever is decoded, from any point of the loop, is spelled there and within what is left of both limits |
| DnsName.ResolveComplete | dns.go:86-121 | every spelled name within what is left of the limits is decoded, and as itself |
| DnsName.SpellsUnique | dns.go:79-82 | the octets at a place spell at most one name |
| DnsName.ResolveExtend | dns.go:83-122 | a name decoded in a message is decoded the same in any longer one |
| DnsName.NameText | dns.go:97-119 | the text of a name begins with the label that stands first; a pointer adds nothing to it and ends the name where it stands |
| DnsName.DottedPlaces | dns.go:97 | each label stands in the text at its place, with the octet 46 after it if another follows, and nothing else does |
| DnsMessage.ParseDNSAnswers | dns.go:37-77 | the loops compute the parse: name of the first question, addresses of the records that fit, nothing for an error or a malformed question |
| DnsMessage.ReadAnswers | dns.go:57-75 | the address records from an offset, in order, up to the first record that does not fit |
| DnsMessage.TruncationIsMonotone | dns.go:37-77 | for every message and cut, the cut message yields a prefix of the addresses and the same name or none |
| DnsMessage.ParseEncode | dns.go:33-77 | any response laid out by section 4.1 of RFC 1035, with names plain or compressed within the limits and anything after it, parses to its first name and exactly its type A and AAAA data, in order |
| DnsMessage.ParsePlaced | dns.go:46-76 | the same for any message that holds such parts at their places |
| DnsMessage.ParseIsLaidOut | dns.go:37-77 | converse: a result other than nothing is carried by questions and records that stand in the message by the same layout, and reading stopped only at the announced count or at a record that cannot be read |
| DnsMessage.AnswersWithAddresses | dns.go:57-75 | for every response laid out like that, the records whose data are given, in order and one for each, are exactly those of type 1 with four octets and of type 28 with sixteen |
| DnsMessage.ErrorsGiveNothing | dns.go:38-44 | a message under twelve octets, a query or an error gives nothing |
| DnsMessage.PointerToQuestion | dns.go:98-110 | the usual pointer to offset 12 leads to the first question's name, so the round trip covers ordinary responses |
| BpfFilter.FilterMeaning | dns_linux.go:63-81 | the 17 instructions accept exactly unfragmented UDP datagrams from port 53, IPv4 with options or IPv6, for every byte string |
| BpfFilter.FilterReturns | dns_linux.go:63-81 | the program reaches a return on every frame |
| BpfFilter.AttachableReturns | dns_linux.go:63-81 | so does any program the kernel would attach, from any instruction and registers |
| BpfFilter.FilterAndPayloadAgree | dns.go:137-167 | the kernel accepts all that userspace accepts; of what the kernel accepts userspace refuses exactly the frames shorter than max(20, 4*IHL+8), or 48 for IPv6; the payload is what follows the UDP header |
| BpfFilter.AndMask | dns_linux.go:70-71 | bit masks of the filter are remainders, for every operand |
| CaptureStream.StepKeeps | capture.go:194-239 | every step of handler, capture goroutine, scanner, tshark and client keeps the invariant on channels, lines and packets |
| CaptureStream.NeverPanics | capture.go:223-231 | over every interleaving no closed channel is sent on or closed again, and the client has an in-order prefix of the packets parsed |
| CaptureStream.DoneMeansComplete | main.go:527-532 | the done frame is last and means the client has every packet of what tshark wrote, or of the lines before one over the limit; an error frame is there exactly when tshark reported one |
| CaptureStream.ErrorsAreTold | main.go:527-530 | over every run with a done frame the client has an error frame with a message exactly if tshark's exit or its failed start reported that message |
| CaptureStream.DoneUnlessCancelled | main.go:508-532 | over every run a handler that has returned has sent the done frame exactly if the request was not cancelled |
| CaptureStream.PacketsAre | capture.go:211-216 | the packets of lines and of frames: one for each line that has one and one for each data frame, in order |
| CaptureStream.WaitAfterLastRead | capture.go:235-237 | tshark is reaped only once the scanner has stopped reading |
| CaptureProgress.NoDeadlock | capture.go:194-239 | a state in which the program cannot move is over, waits for a client that does not read, waits for a tshark that is free to go on, or is the deadlock of tshark with cmd.Wait, which takes an overlong line |
| CaptureProgress.MutualWaitStays | capture.go:218-238 | that deadlock lasts through every step but an exit of tshark from outside |
| CaptureCancel.MutualWaitExactly | capture.go:209-238 | with tshark running, some run in which it writes no further overlong line and does not exit by itself ends in that deadlock if and only if an overlong line was read or is in the pipe and the goroutine has not chosen to kill |
| CaptureCancel.MutualWaitReachable | capture.go:209-238 | it is reached from the start of a capture with a client that keeps reading |
| CaptureProgress.WorkShrinks | main.go:508-532 | every step of the program or of tshark's exit uses up a finite measure of work |
| CaptureProgress.EndsAfterKill | capture.go:232-237 | after the kill the number of further steps is bounded, whatever the client does |
| CaptureProgress.EndIsEnd | main.go:495-507 | when they are over, all three goroutines have ended, every channel is closed and the capture is no longer counted |
| CaptureCancel.LeftRunningExactly | main.go:508-512 | with tshark running, some run in which it writes nothing more abandons it under exactly the same condition, whatever the handler and the client do |
| CaptureCancel.OtherwiseKilled | capture.go:220-235 | with the handler returned and without that condition, every run without a new overlong line that comes to rest has killed tshark |
| CaptureCancel.AbandonedIsStuck | capture.go:220-238 | abandoned is exactly where the program stops with the handler gone and tshark running |
| CaptureCancel.AbandonedStays | capture.go:220-238 | from there only tshark's own exit changes it |
| CaptureCancel.AbandonedReachable | capture.go:209-218 | that state is reached from the start of a capture |
| CaptureCounter.CounterKept | capture.go:205-206 | opening a capture, and every step of one, keeps captureActive equal to the captures between their Add(1) and Add(-1) |
| CaptureCounter.CounterCounts | capture.go:36-40 | so over every run of a monitor, with any number of captures: zero means no tshark is running, bar the instant before its Add(1), and it is zero once all captures are over |
| CaptureCounter.CounterMeaning | capture.go:36-40 | what the invariant of the counter says of zero |
| IpEnrichment.IpCache.CachedIP | intel.go:101-117 | answers an unexpired entry and drops an expired one |
| IpEnrichment.IpCache.StoreIP | intel.go:119-139 | stores the entry, shedding expired ones or everything when full |
| IpEnrichment.StoredIsBounded | intel.go:119-139 | the bound holds, the new entry is readable, other entries are unchanged if kept, and below the bound all are kept |
| IpEnrichment.StoredByAge | intel.go:119-139 | with 4096 entries a store keeps those younger than 3600 seconds (300 for a failed geo lookup) if another is not, and none otherwise; below that it keeps all |
| IpEnrichment.LookupShrinks | intel.go:101-117 | looking up never adds an entry |
| IpEnrichment.StepKeeps | intel.go:141-182 | every step of every caller keeps the invariant on cache, in-flight table and callers |
| IpEnrichment.SingleFlight | intel.go:147-163 | over every run at most one lookup per address is under way, and an in-flight entry exists exactly between its leader's registering and removing it |
| IpEnrichment.WaitersGetTheirLeadersResult | intel.go:149-153 | a waiter wakes with the result of the leader it joined, for its own address; over every run it is nil if and only if that leader's lookup panicked |
| IpEnrichment.WaiterWakesWithNil | intel.go:147-163 | a run in which it is |
| IpEnrichment.CacheServesFreshAnswers | intel.go:101-139 | never more than 4096 entries; no answer at or past its time to live; every answer served was given by a lookup of that address |
| IpEnrichment.LeadersStore | intel.go:158-181 | over every run a caller's result is for the address it asked for, and a leader returns what its own lookup returned, after storing it |
| IpEnrichment.StoringIsCaching | intel.go:179-181 | after a store the cache has that lookup's answer, marked as the lookup marked it and dated now |
| IpEnrichment.FreshIsServed | intel.go:101-139 | through every run that neither fills the cache nor stores the address again, whoever asks for a cached address within its 3600 (300) seconds is answered from the cache with that entry |
| IpEnrichment.OwnStepsShrink | intel.go:141-182 | each step of a caller brings it nearer its return |
| IpEnrichment.LeaderComesThrough | intel.go:158-163 | a waiter can wake or its leader can move |
| AuditCoalescing.ScansNeverOverlap | audit.go:354-369 | over every run at most one scan is in progress, whatever the languages |
| AuditCoalescing.AnswersAreFresh | audit.go:342-374 | a refresh is never answered by a scan that finished before it began; other requests get that or a report under a minute old, in their language |
| AuditCoalescing.YoungIsServed | audit.go:349-353 | over every run, while the report of a language is under 60 seconds old a later request without refresh is answered at its first look, with that report or a newer one, and never waits for the lock or scans |
| AuditCoalescing.SecondLook | audit.go:359-367 | with the lock, a request is answered by a report stored after its start, or under 60 seconds old if it asks for no refresh, and scans otherwise |
| AuditCoalescing.AnswersAreScans | audit.go:366-373 | over every run the checks of an answer are those some scan of the same language returned |
| AuditCoalescing.ScanOvertakesTheQueue | audit.go:359-363 | a finished scan overtakes every queued request of its language begun before, refresh or not |
| AuditCoalescing.OvertakenNeverScans | audit.go:354-363 | in every continuation an overtaken request starts no scan and is answered by that scan or a later one |
| AuditCoalescing.TieScansAgain | audit.go:361-363 | a refresh whose start equals the scan's end scans again |
| AuditCoalescing.NoDeadlock | audit.go:354-356 | while a request is unanswered somebody can move |
| WorkQueue.StepKeeps | connections.go:488-519 | every step of enqueuers and worker keeps the conservation equation, through full queues and batches |
| WorkQueue.EachItemInOnePlace | vt.go:49-68 | over every run a pending item is in exactly one of: an enqueuer, the channel, the worker's hands; any other is in none |
| WorkQueue.ResolvedInOrder | connections.go:501-519 | items are resolved once each in the order sent, and an idle worker with an empty queue has resolved them all |
| WorkQueue.HashesAndSignatures | vt.go:44-47 | the same for the queue of hashes (4000, one at a time) and that of signatures (4096, up to 32 together): one place for each pending item, none for others, in order |
| WorkQueue.WorkerNeverStuck | vt.go:60-68 | the worker has a step to take exactly while something is queued or in its hands |
| WorkQueue.DropFrees | vt.go:53-57 | an item a full queue refused is nowhere else until it is deleted, whatever the worker does in between, and can be queued again then |
| TokenBucket.Bucket.Allow | vt.go:24-38 | refills by the time passed up to the capacity, then takes a token if there is one |
| TokenBucket.VtBucket | vt.go:40 | the VirusTotal bucket starts with four tokens, holds four and gains four a minute |
| TokenBucket.WindowBound | vt.go:10-38 | in every run and window the grants are at most the capacity plus what drips in over the window |
| TokenBucket.VtWindowBound | vt.go:40 | for VirusTotal at most 4 + (t - s) / 15 |
| TokenBucket.TokensStayInRange | vt.go:24-38 | tokens stay between zero and the capacity over every run |
| TokenBucket.GrantsArePaid | vt.go:24-38 | tokens granted and left never exceed tokens held and dripped in |
| TokenBucket.PatienceIsRewarded | vt.go:28-36 | after any run a call one token's time after the last call is granted |
| TokenBucket.VtPatience | vt.go:40 | fifteen seconds are enough |
| TokenBucket.PollingIsHarmless | vt.go:60-66 | refused calls postpone nothing: a call one token's time after a granted one is granted, however many refused calls lie between |
| TokenBucket.VtPolling | vt.go:40 | fifteen seconds after the last grant are enough, whatever polling goes on |
| TokenBucket.BoundIsMet | vt.go:40 | the bound is met in windows of any length: 4 + n grants in 15 n seconds, and no fifth at once |
| TokenBucket.EightInAMinute | vt.go:10-11 | eight grants fit in one minute, against the quota of four a minute |
| BeaconDetector.Detector.CheckBeacon | monitor.go:92-129 | forgets idle pairs, keeps the pair's last eight contacts and answers the period they show |
| BeaconDetector.Detector.PruneBeacons | monitor.go:84-90 | forgets exactly the pairs silent for over two hours |
| BeaconDetector.PositiveMeans | monitor.go:105-128 | positive exactly for 4 to 8 contacts whose mean gap (last - first) / (n - 1) is at least 5 s and for which n times the sum of the squared gaps less the square of their sum is below 0.0225 of that square, n gaps in all; the answer is the mean gap |
| BeaconDetector.VarianceOfGaps | monitor.go:117-124 | n squared times the variance is n times the sum of the squared gaps less the square of their sum |
| BeaconDetector.IrregularIsRefused | monitor.go:125-127 | contacts at 0, 10, 20 and 35 seconds, a coefficient of variation of 0.2, are no beacon |
| BeaconDetector.RememberedFor | monitor.go:84-90 | after a call a pair is remembered, unchanged, exactly if it was heard of in the last 7200 seconds |
| BeaconDetector.SqrtTest | monitor.go:125 | comparing the coefficient of variation is comparing the variance with a square |
| BeaconDetector.VarianceBound | monitor.go:120-124 | gaps between two bounds have a variance of at most the product of the mean's distances from them |
| BeaconDetector.SteadyIsFound | monitor.go:92-129 | four or more contacts whose gaps stay within the tolerance of a detectable period are reported within it |
| BeaconDetector.BeaconIsReported | monitor.go:84-129 | over every run, other pairs interleaved: a fresh pair that keeps within the tolerance is reported on every call from its fourth contact on |
| BeaconDetector.ThirteenPercent | monitor.go:74-82 | 13 % is such a tolerance for every period from 6 to 6000 seconds |
| BeaconDetector.RunKeeps | monitor.go:84-104 | over every run the track of a pair holds its last eight contacts, whatever other pairs do |
| BeaconDetector.KeyIsInjective | monitor.go:96 | the joined key names one binary and one address |
| IoSampler.IoSample.Advance | volume.go:110-151 | the whole new sample, on every path the last reading |
| IoSampler.HotIsTrailingRun | volume.go:130-150 | hot and cpuHot are the lengths of the trailing runs of over-threshold intervals, ended by a reset |
| IoSampler.FlagsMeanTheLastSamples | volume.go:130-150 | the flags are up exactly when in each of the last two intervals the process sent 262144 bytes a second, and in each of the last five used 0.8 seconds of CPU a second, without a reset |
| IoSampler.CpuInRange | volume.go:141-144 | CPU stays between 0 and 100 per core |
| IoSampler.CpuOfLastInterval | volume.go:119-146 | the figure times the seconds is a hundred times the CPU seconds used, unless they exceed all cores, when it is 100 for each; a reset clears figures and flags |
| IoSampler.RatesAccountForCounters | volume.go:116-129 | between resets the rates times their seconds add up to what the counters moved |
| Breakdown.DecodeEncode | connections.go:814-838 | every non-empty list of reasons with keys of the alphabet, and any arguments, encodes into the grammar and reads back whole |
| Breakdown.UnescapeEscape | connections.go:816-820 | unescaping undoes escaping on every string, and an escaped argument holds no separator |
| Breakdown.PartMatchesGrammar | connections.go:819 | a part is accepted exactly when the expression can spell it |
| Breakdown.LocalizeEncode | connections.go:844-869 | a rendering shows exactly the encoded reasons when it knows their keys, and the code untouched otherwise |
| Breakdown.EncodeInjective | connections.go:822-838 | different reasons have different codes |
| Breakdown.CodeExample | connections.go:814-838 | a code written out: points in decimal, arguments escaped, parts joined |
| ThreatScore.Conn.ThreatScore | connections.go:674-796 | score, code, rendering and partial mark for every row, whitelists included |
| ThreatScore.Conn.AddProcess | connections.go:696-717 | the running score and reasons after VT, path, port and spawn chain |
| ThreatScore.Conn.AddBehaviour | connections.go:718-749 | the same after egress, CPU, credentials, executable memory and signature |
| ThreatScore.Conn.AddFeeds | connections.go:750-770 | the same after VT-IP, AbuseIPDB, Feodo and ThreatFox |
| ThreatScore.Conn.AddLists | connections.go:771-780 | the same after Spamhaus, Tor and the CVEs |
| ThreatScore.ScoreIsInTheCode | connections.go:674-796 | the score shown is min(100, sum of the points decoded from the code), although AbuseIPDB's term is a fraction |
| ThreatScore.ScoreOfSigns | connections.go:651-796 | for every row the score in numbers alone: 6 a detection up to 10, 25 or 8 for the path, 12, 40, 25, 25, 25, 30, 15 or 10, 4 a hit up to 10, 0.1 or 0.4 for each per cent of abuse, 60, 55, 30, 15, 10, summed, cut to whole points and to 100 |
| ThreatScore.ReasonsOfSigns | connections.go:696-796 | the reasons are those of exactly the signs seen, with points and arguments; without any the one reason says partial or clean, and only partial is marked |
| ThreatScore.ReasonsInOrder | connections.go:686-780 | the reasons come in a fixed order, no key twice; a whitelisted row gives its whitelist as the only one |
| ThreatScore.ScoreIsMonotone | connections.go:674-796 | more evidence in any counts and flags at once never lowers the score, with provider and signature fixed or worse |
| ThreatScore.SameCode | connections.go:681-685 | two rows have one code exactly when they have one list of reasons, and then one score |
| ThreatScore.TooltipShowsReasons | connections.go:683 | every reason is rendered: its key is always known |
| ThreatScore.UnmarkedZero | connections.go:784-794 | which incomplete zero scores are not marked partial: exactly those with a faint abuse report and no other signal |
| ThreatScore.UnmarkedZeroExists | connections.go:758-794 | a row for which that is so: 2 % from AbuseIPDB, everything else unknown |
| ThreatScore.VolumeNeedsDistrust | connections.go:718-733 | egress and CPU weigh 25 points each on an otherwise suspect process and change nothing of any other verdict |
| ScoreHistory.Table.Due | connections.go:1140-1156 | the half before the insertion: due exactly if the verdict is complete, public, of a known binary, and differs from the pair's newest |
| ScoreHistory.Table.RecordScoreChange | connections.go:1140-1158 | a call that no other overlaps appends exactly the verdicts that are due |
| ScoreHistory.RecordsExactly | connections.go:1140-1158 | one row is added exactly for a complete verdict on a binary other than none, N/A and ACCESS_DENIED and a public address, unless the pair's last row says the same |
| ScoreHistory.Table.LastScore | db.go:523-530 | the pair's newest verdict, by epoch |
| ScoreHistory.Table.SaveScoreChange | db.go:513-519 | exactly one row more, epochs stay ascending, the logs of other pairs are as they were, and a latest row ends its pair's log |
| ScoreHistory.Table.Prune | db.go:85-96 | exactly the rows before the cut are gone |
| ScoreHistory.LogIsWithoutRepeats | connections.go:1132-1158 | one call at a time and between purges, a pair's log is its complete public verdicts with adjacent repeats removed, after what it held |
| ScoreHistory.LogIsCurrent | connections.go:1150-1157 | after an eligible verdict recorded by itself the pair's log ends with it |
| ScoreHistory.RepeatsAreNeighbours | db.go:523-530 | a log repeats itself exactly where two rows of the pair with no other between them say the same |
| ScoreHistory.PruneDropsTheOldest | db.go:92-96 | a purge keeps a suffix of the table |
| ScoreRequests.StepKeeps | connections.go:1152-1157 | every query, time taken, insertion and purge, by any number of calls, keeps the invariant on rows and pending calls |
| ScoreRequests.RepeatsExactly | connections.go:1152-1157 | over every interleaving of calls and purges a pair's log has no repeats if and only if no two rows next to each other in it say the same with the insertion of one between the query and the insertion of the other |
| ScoreRequests.RepeatReachable | connections.go:1119 | two requests that both query first log one verdict twice |
| ScoreRequests.OverlapWithoutRepeat | connections.go:1152-1157 | a save of the same verdict in between does no harm when another verdict was saved after it |
| ScoreRequests.SequentialIsARun | connections.go:1140-1158 | calls one after the other are such a run, with the same table, in which nobody misses a row |
| ScoreRequests.RunStaysSane | db.go:513-530 | so without overlap the table stays ascending and no log repeats itself, through every purge |
| ScoreRequests.SameStance | connections.go:1150-1155 | the log takes two verdicts for the same exactly when their reasons are the same |
| ScoreRequests.HistoryTellsReasons | connections.go:1132-1158 | over every interleaving of requests each entry decodes to reasons that add up to its score, and neighbours give different reasons under exactly the condition of RepeatsExactly |
| RotatingLog.RotatingWriter.Open | logging.go:49-60 | attaches to the live file and takes its length as size, or zero when that cannot be told |
| RotatingLog.RotatingWriter.Close | logging.go:82-91 | the file is let go, nothing else changes |
| RotatingLog.RotatingWriter.Rotate | logging.go:66-77 | the files after every combination of failing removals, renames and reopening |
| RotatingLog.RotatingWriter.Write | logging.go:93-108 | rotates when the write does not fit, appends as much of it as lands, drops it when the file is not open |
| RotatingLog.SmoothRun | logging.go:62-108 | when file operations succeed, archives and live file are a suffix of what was there and everything written |
| RotatingLog.SmoothWrite | logging.go:93-108 | one write drops only the oldest archive and only when it does not fit; size is the live length; past the limit the live file is one write or what was found |
| RotatingLog.RunKeepsOrder | logging.go:62-77 | whatever fails, what is kept is what was there and what landed of each write, in order and at most once; size never exceeds the live length and equals it unless a length could not be told |
| RotatingLog.WriteConsistent | logging.go:93-108 | after any luck what landed of the write is the live file's last entry or the writer is closed for good |
| RotatingLog.RotationFiles | logging.go:66-77 | where each of the four files ends up after a rotation, under any failures |
| RotatingLog.WriteFiles | logging.go:93-108 | every file after a write, under any failures: within 5 MiB only the live file grows; past that the files move up one by one and what lands of the write follows |
| RotatingLog.LostExactly | logging.go:71-75 | which file a rotation loses: the oldest archive if removed or replaced, another if its own rename fails and the one below it moves, the live file never |
| RotatingLog.StuckLiveEmptiesArchives | logging.go:71-76 | while the live file cannot be renamed three full writes empty all archives and it grows past the limit |
| RotatingLog.Retention | logging.go:24-28 | from an empty directory nothing is lost until three archives exist; from then on more than 10 MiB are always kept |
| RotatingLog.StartIsHealthy | logging.go:40-46 | a restart keeps the previous contents |
| EnvFile.Settings.WriteEnv | config.go:154-186 | the caller's map is cleaned in place; the file becomes the merged lines, in some order of the new keys, or stays as it was |
| EnvFile.MergeOld | config.go:162-176 | each old line once, in its place, with its value replaced where its key is updated |
| EnvFile.AppendMissing | config.go:178-182 | each missing key once, at the end |
| EnvFile.Updates.CleanAll | config.go:158-160 | every value of the map is cleaned, in whatever order |
| EnvFile.ParseIsTheGrammar | config.go:128 | a line is read as an assignment exactly when the expression matches it, in its only way |
| EnvFile.CleanAssignment | config.go:130-141 | whatever a value holds, its assignment is one line |
| EnvFile.CleanKeepsTheRest | config.go:130-141 | a value between spaces is cleaned to exactly its characters other than newline, carriage return and NUL, in order |
| EnvFile.CleanIsItself | config.go:130-141 | a value on one line without spaces at its ends is kept as it is |
| EnvFile.MergeIsUpdate | config.go:148-186 | read with the last assignment winning, the merge is the old map overridden by the updates |
| EnvFile.MergeKeepsTheRest | config.go:148-186 | every other line keeps its text and order, and the count grows by exactly the missing keys |
| EnvFile.SavedLines | config.go:154-186 | the written file reads back as its lines exactly when there is one, no kept line ends in a carriage return and every assignment fits the scanner |
| EnvFile.SavedFileIsUpdate | config.go:130-186 | then the new file means the old one overridden by the clean updates, and no value can set another key |
| EnvFile.SavedValue | config.go:154-186 | an ordinary value is read back from a storable file as it was given |
| EnvFile.LineLimit | config.go:163-164 | a line of plain text is read as itself up to 65535 characters and not at all from 65536 on |
| EnvFile.OverlongLosesTheRest | config.go:163-176 | a line of 64 KiB ends the file: keys set only from there on are lost |
| EnvFile.KeyIsLost | config.go:163-176 | a file for which that is so, whatever the updates |
| EnvFile.NothingUnseen | config.go:163-176 | the merge starts from all lines exactly when all fit |
| Timeline.BuildTimeline | timeline.go:35-86 | one record for each pair met, each the record of its pair, by risk and then by how recently seen |
| Timeline.JoinScores | timeline.go:50-57 | the entries after every prefix of the score changes, one object each |
| Timeline.JoinEvents | timeline.go:58-68 | the entries after every prefix of the events, local ones skipped |
| Timeline.Collect | timeline.go:69-79 | one record out of each entry, with its bounds set |
| Timeline.Sort | timeline.go:80-85 | the same records, in order |
| Timeline.TimelineIsPartition | timeline.go:35-86 | every score change and every event with a binary and a public remote is in exactly one record |
| Timeline.RecordInFull | timeline.go:41-79 | every record in full: the pair's score changes and events, all and in their order, its host names, block and whitelist marks, the first process named, the bounds with or without events |
| Timeline.PairsOfTimeline | timeline.go:50-68 | there is a record for exactly the pairs with a score change, or with an event of a named binary and a public remote |
| Timeline.OrderOfTimeline | timeline.go:80-85 | higher risk first, and of equal risk the one last seen, texts compared by their first difference |
| Timeline.RecordBounds | timeline.go:70-77 | last seen is the time of a record's first event, first seen of its last |
| Timeline.RecordRisk | timeline.go:50-57 | a record's risk and reasons are those of its first, the latest, score change |
| Timeline.HostOfMonitorRemote | timeline.go:88-94 | the port comes off a monitor's remote exactly when the address has no colon |
| Timeline.HostOfBare | timeline.go:88-94 | a remote without a colon is its own host |
| Timeline.HostOfBracketed | timeline.go:88-94 | with brackets it comes off every address |
| Timeline.PortsShareARecord | timeline.go:32-34 | two ports of one host share a record exactly when the address has no colon |
| Timeline.EventJoinsItsScores | timeline.go:50-68 | an event the monitor wrote joins the score changes of its binary and address exactly when the address has no colon |
| RiskTrail.ScoresMirrorTheLog | db.go:532-548 | a record's scores are its pair's log within the query's limit, newest first |
| RiskTrail.RecentLog | db.go:532-536 | the log within the limit is the newest end of the pair's log, and all of it while the table is no longer |
| RiskTrail.TimelineTellsReasons | timeline.go:50-57 | for every interleaving of requests with scored connections a record shows its pair's latest verdict, as known reasons whose points add up to the risk, and so does each past score |

## Left out

- IEEE rounding: `float64` is exact here, so a comparison at a threshold may differ in the last bit.
- Foreign calls: tshark, the network, SQLite, the firewall, PowerShell and the clock are inputs.
- Text rendering: `fmt.Sprintf`, `humanRate` and the translation tables; a rendering is modelled up to the decoded reasons.
- HTTP handlers, templates, feed downloads and their parsing, and the spacing of retries.
- Whitelists, block lists, port tables, path predicates, settings setters, the session map and the login backoff: small map updates.
- `net.IP.String` and `net.ParseIP`: addresses are octets in `DnsMessage`, and `isPrivateIP` is a parameter.
- The body of an enrichment lookup and of an audit scan: arbitrary results; a scan returns at least one check (audit.go:591-593).
- CaptureStream.NeverPanics: a line written by tshark is one step, and the pipe's capacity is a number of lines, any number from one up.
- BeaconDetector.Detector.CheckBeacon: compares squares, by `BeaconDetector.SqrtTest`, where the code takes a square root.
- ScoreHistory.Table.SaveScoreChange: the insertion succeeds; a failing one is only logged by the source.
- ScoreRequests.RepeatsExactly: two calls never take the same time; the source's epochs are float64 seconds, so it could be.
- EnvFile.Settings.WriteEnv: works on characters of valid UTF-8; the reader is last-assignment-wins by the code's own expression, not the quoting and interpolation rules of godotenv.
- Timeline.Sort: insertion stands for the library's sort, which leaves ties in any order; only the order and the contents are stated.
