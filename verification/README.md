# The frontend of the Sputnik cluster engine

A Sputnik frontend asks the backends of a cluster, cycle after cycle, what they serve. It keeps a
routing table from their replies, prunes what was not confirmed, and chooses a backend for every
request. This project models that frontend and proves what its parts promise together.

- **Routing table and forwarders** (`Entities`, `Lists`, `RoutingTable`, `Forwarders`, `ServiceMap`,
  `Services`). Each URI has a list of services and, beside it, a forwarder with a list of its own.
  An index computed from the second is used on the first. Sweeps erase the first by position and
  the second by first match. `RoutingTable` says as functions what the sweeps do and when the two lists
  agree. The classes are proved against it.
- **Heartbeat protocol** (`Protocol`, `Messages`, `Replies`, `Engine`, `Heartbeat`, `Wraparound`,
  `WrappedPrefixes`, `LockstepRuns`, `EngineRuns`). `Protocol` is the frontend as a state machine whose steps are the single locked
  operations, so a lookup or a removal may fall between two registrations of one reply.
  `Engine` is the engine object; each of its methods is proved to take the machine's steps. `Replies`
  says what a reply leaves behind, field by field of the message. The run theorems are about all traces
  of the machine.
- **Sticky rendezvous hashing** (`Text`, `Fnv`, `Cookies`, `Rendezvous`, `Stickiness`). The selection
  laws of `Rendezvous` hold for every scoring of the backends, not only the hash. `Stickiness` says where a
  client ends up, end to end.
- **Balancing arithmetic, prefix map, sentinels** (`Balancing`, `DoubleRandom`, `PrefixMap`,
  `Sentinels`).
- **Counterexamples** (`Runs`, `Counterexamples`): situations, and runs made of whole replies, in which a
  promise fails.

Main results: lists and forwarders stay in lockstep over whole runs when replies of one backend
arrive in order (`LockstepRuns.LockstepOverRuns`; from the engine's own trace, between any two
registrations, `EngineRuns.EngineLockstep`), without any assumption exactly when every sweep fits
(`LockstepRuns.LockstepExactly`), and one good cycle heals whatever went before
(`LockstepRuns.CycleHeals`). Every index is valid in any order (`Protocol.IndexSafety`). In sticky mode a client keeps its backend exactly under a stated condition
(`Stickiness.KeepsBackendExactly`). For services, info requests and counters, sequence numbers modulo
65535 are as good as unbounded ones (`Wraparound.WraparoundHarmless`). For the prefix map they are
after every step of a run exactly when no removal of the run takes two ids for one
(`WrappedPrefixes.PrefixesAlwaysMatch`). Every engine run whose replies echo is such a wrapped run
(`EngineRuns.EngineRunsUnwrap`), and conversely (`EngineRuns.TimelyRunsEcho`). Silence is tolerated for exactly the configured number of cycles
(`Heartbeat.SilenceTolerance`). The load-aware strategies
do no worse on average than a uniform choice.

An *in-order run* below is one in which the replies of each backend are processed in the order of the
requests they answer, none is 65535 or more cycles late (a *timely* run), and a removal names a
service URI only while same-host entries of one list share one URI. `EngineRuns` derives all three from
what backends send: answers taken in request order, and no backend advertising a URI that begins with
"/" and its own name.

Where code and documentation disagree, the model follows the code:

- `sputnik/StickyForwarder.h:14` promises the same backend while the backend set is unchanged.
  `Counterexamples.LoadMovesClient` moves a client by connection counts alone, and
  `Counterexamples.LateReplyMovesClient` is a whole run in which a late reply does.
  `Stickiness.KeepsBackendExactly` gives the exact condition for in-order runs.
- `sputnik/StickyForwarder.h:23-25` promises that adding or removing a backend remaps only the keys pinned to it.
  A new idle backend lowers the hotspot threshold, and a removed one can raise it: for every client there are
  backends and counts with which either moves it off another backend
  (`Counterexamples.EveryClientCanBeMoved`). `Rendezvous.AddingBackend` and `Rendezvous.RemovingOther` say exactly
  when a client stays.
- `sputnik/BackendForwarder.cpp:79-81` doubts the first-match removal. `RoutingTable.OneErasure` says exactly when
  it is right for one erasure, `RoutingTable.SweepLockstepExactly` for a whole sweep. In-order replies put the
  stale entries first, which makes it right for a sweep.
- `sputnik/Services.cpp:87` asks the prefix map to forget the id of every listed service, not only of the
  removed backend. `Services.PrefixLost` says when the prefix goes, and
  `Counterexamples.OthersRemovalTakesPrefix` is a run in which another backend loses its prefix so while it stays
  listed.

## Model

| member | source | states |
|---|---|---|
| Text.ReadDecimal | sputnik/Services.cpp:140 | the decimal rendering of every integer reads back as that integer |
| Text.DecimalDigits | sputnik/Services.cpp:140 | a port is rendered by digits, the last its remainder by ten, without a leading zero |
| Text.RenderedInjective | sputnik/Services.cpp:140 | name + ":" + port determines name and port, even when the name holds colons |
| Text.LeastExists | sputnik/URIPrefixMap.cpp:73 | every non-empty key set has a lexicographically least member, so an ordered scan can always go on |
| Lists.EraseAgreement | sputnik/Services.cpp:228-230 | erasing position i and erasing the first match leave the same sequence iff every element from the first match to i is equal |
| Fnv.MultiplyInvertible | sputnik/StickyForwarder.cpp:32 | multiplying by the prime modulo 2^64 is undone by multiplying with 14886173955864302971 |
| Fnv.RoundInvertible | sputnik/StickyForwarder.cpp:29-33 | one round of the hash has an inverse, on both sides, for every byte |
| Fnv.Fnv1a | sputnik/StickyForwarder.cpp:26-35 | the loop computes the specified hash of the string from the seed |
| Fnv.KnownHashes | sputnik/StickyForwarder.cpp:26-35 | from the offset, "" has the hash cbf29ce484222325 and "a" the hash af63dc4c8601ec8c, as published |
| Fnv.OneByte | sputnik/StickyForwarder.cpp:29-33 | each byte, modulo 256, is mixed in by exclusive or before the multiplication by 1099511628211 modulo 2^64 |
| Fnv.HashedBijective | sputnik/StickyForwarder.cpp:26-35 | for every string the hash is a bijection of the 64-bit seed |
| Fnv.HashedConcat | sputnik/StickyForwarder.cpp:132-144 | hashing a concatenation is hashing the second part from the first part's hash |
| Fnv.OneByteNeverTies | sputnik/StickyForwarder.cpp:143-144 | two strings that differ in exactly one byte have different hashes from every seed |
| Cookies.ParseCookie | sputnik/StickyForwarder.cpp:39-51 | the loop returns the value of the first trimmed part whose text before the first '=' is the name, or the empty string |
| Cookies.FindKey | sputnik/StickyForwarder.cpp:61-101 | the branching over cookie, forwarded address, peer and user agent yields the key that CookieKey, ForwardedKey and DirectKey spell out |
| Cookies.ForwardedKey | sputnik/StickyForwarder.cpp:77-95 | without the cookie the key is "u:", the text before the first comma of X-Forwarded-For without the white space around it (the peer address if that is blank), a bar and the user agent, empty if none is sent |
| Cookies.EveryHeader | sputnik/StickyForwarder.cpp:79-85 | every X-Forwarded-For header has the form for which ForwardedKey gives the key |
| Cookies.ForwardedRoundTrip | sputnik/StickyForwarder.cpp:77-95 | of addresses rendered "a1, a2, ..." the key holds a1, or the peer address if a1 is blank |
| Cookies.DirectKey | sputnik/StickyForwarder.cpp:86-95 | without cookie and forwarding header the key is "u:", the peer address, a bar and the user agent |
| Cookies.CookieRoundTrip | sputnik/StickyForwarder.cpp:37-51 | on a rendered header (RFC 6265 section 4.2.1) the value of the first pair with exactly that name is found, values holding '=' included |
| Cookies.SplitJoined | sputnik/StickyForwarder.cpp:42-43 | the parts of a header hold no separator and, joined by it, give the header back |
| Cookies.LookupFirst | sputnik/StickyForwarder.cpp:46-48 | of several pairs of one name the first gives the value, of none the empty string |
| Cookies.CookieKey | sputnik/StickyForwarder.cpp:64-74 | with a rendered cookie header the key is "c:" and the value of the first pair of that name, unless that is empty |
| Cookies.CookieIdentity | sputnik/StickyForwarder.cpp:61-75 | a client sending the affinity cookie shares its key exactly with the clients that send the same value, whatever address and agent |
| Cookies.FallbackIdentity | sputnik/StickyForwarder.cpp:77-95 | without the cookie two clients share a key iff effective address and user agent agree, or one address goes on past a bar just as the other client's agent begins; without bars in addresses, iff they agree |
| Rendezvous.CountConnections | sputnik/StickyForwarder.cpp:116-123 | counts in list order, zero if unknown, and their minimum |
| Rendezvous.ThresholdMonotone | sputnik/StickyForwarder.cpp:125-128 | the threshold grows with the least count and always admits the least loaded backend |
| Rendezvous.ThresholdIs | sputnik/StickyForwarder.cpp:125-126 | the threshold is floor(a * min) + 4 for a factor a above one and 2 * min + 4 for any other |
| Rendezvous.BestEligible | sputnik/StickyForwarder.cpp:131-154 | the scan returns the first of the maximal scores among those not above the threshold |
| Rendezvous.GetBackend | sputnik/StickyForwarder.cpp:103-160 | no result iff the list is empty; otherwise, among the backends whose connections are within the threshold, the first for which the FNV-1a hash of key + name + ":" + port is greatest |
| Rendezvous.ChosenMeans | sputnik/StickyForwarder.cpp:131-154 | the index the selection laws speak of is exactly that one |
| Rendezvous.ScoreIsHash | sputnik/StickyForwarder.cpp:132-144 | the score is the hash, from the offset, of the key followed by name, ":" and port |
| Rendezvous.ClientsApart | sputnik/StickyForwarder.cpp:132-144 | every backend scores two clients alike iff the hashes of their keys are the same |
| Rendezvous.NearClientsApart | sputnik/StickyForwarder.cpp:132-144 | clients whose keys differ in exactly one byte are scored differently by every backend |
| Rendezvous.HotspotRule | sputnik/StickyForwarder.cpp:113-154 | for every non-empty list exactly one index qualifies, and its count is at most floor(factor * min) + 4 |
| Rendezvous.NearNamesakesNeverTie | sputnik/StickyForwarder.cpp:143-146 | backends on one port whose names differ in one byte never tie, for any client |
| Rendezvous.MinimalDisruption | sputnik/StickyForwarder.h:23-29 | between any two lists and loads a client leaves a still selectable backend only for one that was not selectable before |
| Rendezvous.StaysExactly | sputnik/StickyForwarder.h:14-29 | between any two lists and loads: the client stays iff its backend is selectable and no newly selectable one scores higher |
| Rendezvous.AddingBackend | sputnik/StickyForwarder.h:23-25 | after adding a backend the client stays iff its own is no hotspot now and the new one is not both selectable and better; if it leaves a selectable one, then for the new one |
| Rendezvous.RemovingOther | sputnik/StickyForwarder.h:23-25 | after removing another backend the client stays iff no released hotspot scores higher; always when the least count is unchanged |
| Rendezvous.OnlyTheSetMatters | sputnik/StickyForwarder.cpp:134-154 | order and multiplicity of the list do not change which backend is chosen |
| Balancing.Normalise | sputnik/LeastConnectionsForwarder.cpp:41-45 | the in-place division yields the list over its sum, and leaves a list of zero sum alone |
| Balancing.SumConcat | sputnik/LeastConnectionsForwarder.cpp:41-45 | the sum of a concatenation is the sum of the sums |
| Balancing.InverseConnectionsWeights | sputnik/InverseConnectionsForwarder.cpp:13-38 | the loops compute the normalised 1 / (1 + a * count), for every factor with which nothing is divided by zero |
| Balancing.InverseLoadWeights | sputnik/InverseLoadForwarder.cpp:13-37 | the loops compute the normalised 1 / (1 + a * load) with loads below one raised to one, for every factor with which nothing is divided by zero |
| Balancing.LeastConnectionsWeights | sputnik/LeastConnectionsForwarder.cpp:10-48 | the two passes give equal weight to the backends that nobody undercuts and none to the rest |
| Balancing.Chebyshev | sputnik/InverseConnectionsForwarder.cpp:22-35 | for antitone weights the weighted sum times the length is at most the product of the sums |
| Balancing.NoWorseThanUniform | sputnik/InverseConnectionsForwarder.cpp:22-35 | under normalised antitone weights the expectation is at most the plain mean |
| Balancing.InverseConnectionsFair | sputnik/InverseConnectionsForwarder.cpp:22-35 | weights are positive, sum to one, never favour more connections; expected connections at most the mean |
| Balancing.InverseRatios | sputnik/InverseConnectionsForwarder.cpp:22-35 | two weights are to one another as 1 + a * x the other way round |
| Balancing.InverseLoadFair | sputnik/InverseLoadForwarder.cpp:20-34 | the same for loads: positive, sum one, never favouring a higher load; expected load at most the mean |
| Balancing.LeastConnectionsFair | sputnik/LeastConnectionsForwarder.cpp:20-45 | positive exactly on the least loaded backends, sum one; expected connections at most the mean |
| Balancing.LeastShares | sputnik/LeastConnectionsForwarder.cpp:31-45 | all who have the least have the same share, everybody else nothing |
| DoubleRandom.GetBackend | sputnik/DoubleRandomForwarder.cpp:10-39 | draws two indices and returns them with the one of fewer connections in the reactor's counts, the first on a tie; nothing for an empty list |
| DoubleRandom.ExactDraws | sputnik/DoubleRandomForwarder.cpp:21-33 | of all n * n draws exactly (number of j with c_j >= c_i) + (number with c_j > c_i) select i |
| DoubleRandom.FewerConnectionsMoreDraws | sputnik/DoubleRandomForwarder.cpp:26-33 | one backend is selected by strictly more draws than another iff it has strictly fewer connections |
| DoubleRandom.DrawsTotal | sputnik/DoubleRandomForwarder.cpp:21-33 | the draws that select the backends sum to n * n |
| DoubleRandom.NoWorseThanUniform | sputnik/DoubleRandomForwarder.cpp:21-33 | over all draws the connections of the selected backend are on average at most the plain mean |
| PrefixMap.URIPrefixMap.AddPrefix | sputnik/URIPrefixMap.cpp:21-39 | the prefix gains the service's id |
| PrefixMap.URIPrefixMap.RemoveBackend | sputnik/URIPrefixMap.cpp:41-68 | the prefix loses the id and disappears with its last one; no prefix is kept without an id |
| PrefixMap.URIPrefixMap.Translate | sputnik/URIPrefixMap.cpp:70-85 | the scan in key order returns the shortest registered prefix of the URI, or the URI |
| PrefixMap.TranslatedSpec | sputnik/URIPrefixMap.cpp:70-85 | a registered prefix is returned iff one matches, and then it is the shortest |
| PrefixMap.TranslationIdempotent | sputnik/URIPrefixMap.cpp:70-85 | translating a translation changes nothing, for every map and URI |
| PrefixMap.ShorterPrefixFirst | sputnik/URIPrefixMap.cpp:73-75 | of two prefixes of one URI the lexicographically smaller is the shorter |
| Sentinels.BackendSentinel.GetAlive | sputnik/BackendSentinel.cpp:26-41 | alive iff the throttle is zero or not exceeded |
| Sentinels.BackendSentinel.SignalSentConnection | sputnik/BackendSentinel.cpp:56-67 | the counter advances by one in 32-bit unsigned arithmetic |
| Sentinels.SentinelMap.Register | sputnik/Services.cpp:359-375 | the backend has a new sentinel with the new throttle and a counter of zero; the others are as before |
| Sentinels.SentinelMap.SetBackendAlive | sputnik/Services.cpp:154-174 | a known backend's counter is reset, an unknown one is ignored |
| Sentinels.SentinelMap.SignalBackendConnection | sputnik/Services.cpp:176-198 | a known backend's counter advances, an unknown one is ignored |
| Sentinels.SentinelMap.QueryBackendAlive | sputnik/Services.cpp:134-152 | alive iff known and its counter does not exceed a non-zero throttle |
| Sentinels.NamesAreKeys | sputnik/Services.cpp:362-375 | over every history the map keyed by the rendered name refines one keyed by (name, port) |
| Sentinels.CounterIsHistory | sputnik/BackendSentinel.cpp:13-67 | the counter is the number of sends since the last registration or answer, modulo 2^32, with the last registered throttle |
| Sentinels.SentinelHistory | sputnik/BackendSentinel.cpp:26-41 | over every history a backend is alive iff registered and its throttle is zero or not below the unanswered sends |
| RoutingTable.EraseNext | sputnik/Services.cpp:216-240 | one step of the erasing walk keeps "settled front plus untouched back" for list and forwarder |
| RoutingTable.KeptContents | sputnik/Services.cpp:215-240 | a sweep keeps every copy of a surviving service and no copy of a doomed one |
| RoutingTable.RemoveFirstMeans | sputnik/BackendForwarder.cpp:79-91 | the first entry of that host and port is cut out of the forwarder, and nothing else |
| RoutingTable.EvictedContents | sputnik/Services.cpp:88-99 | a removal takes from every list the services of that host and port, with a URI only those that serve it; every other service keeps all its copies |
| RoutingTable.EvictedForwarders | sputnik/Services.cpp:88-99 | after a removal without URI no forwarder holds that host and port |
| RoutingTable.StaleContents | sputnik/Services.cpp:216-240 | pruning leaves in every list exactly the services of the given number, with all their copies |
| RoutingTable.SweptRequestsContents | sputnik/Services.cpp:242-270 | and under every name exactly the info requests of that number |
| RoutingTable.SweptRowBalanced | sputnik/Services.cpp:215-240 | in any order a sweep leaves list and forwarder with the same multiset of backends |
| RoutingTable.SweptTableBalanced | sputnik/Services.cpp:84-110 | so it does over the whole table, for pruning and for removal |
| RoutingTable.OneErasure | sputnik/BackendForwarder.cpp:79-91 | from lockstep, one erasure keeps lockstep iff only entries of that backend stand between the first match and the erased position |
| RoutingTable.SweptKeys | sputnik/Services.cpp:215-240 | a sweep takes from the forwarder, for each backend, as many of its first entries as it had doomed services |
| RoutingTable.SweepLockstepExactly | sputnik/Services.cpp:215-240 | from lockstep, a sweep keeps lockstep iff dropping the doomed services drops the same keys as dropping each backend's first ones |
| RoutingTable.SweptRowLockstep | sputnik/Services.cpp:215-240 | in particular when each backend's doomed entries come first |
| RoutingTable.LateReplyBreaksLockstep | sputnik/BackendForwarder.cpp:79-91 | [A new, B new, A old]: pruning leaves A, B beside B, A |
| RoutingTable.EvictionByUriBreaksLockstep | sputnik/Services.cpp:88-99 | removing one URI of a backend listed under two leaves A, B beside B, A |
| RoutingTable.KeptRequestsMembers | sputnik/Services.cpp:242-270 | exactly the info requests of the given sequence survive |
| Forwarders.SomePositive | sputnik/BackendForwarder.cpp:37-39 | on a non-empty list every weighted strategy gives some index positive weight |
| Forwarders.FairWeights | sputnik/BackendForwarder.cpp:32-45 | in all three weighted strategies the weights in use sum to one, never favour more connections or a higher load, and give at most the mean on average |
| Forwarders.InverseConnectionsRatio | sputnik/InverseConnectionsForwarder.cpp:22-35 | in the inverse-connections strategy weight times 1 + a * connections is the same for all backends |
| Forwarders.InverseLoadRatio | sputnik/InverseLoadForwarder.cpp:20-34 | in the inverse-load strategy weight times 1 + a * load is the same for all backends, loads below one counting as one |
| Forwarders.LeastConnectionsShares | sputnik/LeastConnectionsForwarder.cpp:31-45 | in the least-connections strategy who has more than another has no weight, and equals have the same |
| Forwarders.LeastSelects | sputnik/LeastConnectionsForwarder.cpp:31-45 | in the least-connections strategy a backend can be selected iff no other has fewer connections |
| Forwarders.AnybodySelected | sputnik/BackendForwarder.cpp:32-45 | in the inverse strategies and the random one every backend can be selected |
| Forwarders.DoubleRandomSelects | sputnik/DoubleRandomForwarder.cpp:21-33 | for two draws the selected index is the second iff it has strictly fewer connections |
| Forwarders.StickySelects | sputnik/StickyForwarder.cpp:103-160 | in sticky mode the selected index is the first of the greatest hash of key + name + ":" + port within the threshold |
| Forwarders.BackendForwarder.SetBackends | sputnik/BackendForwarder.cpp:15-30 | the list is replaced and the cached load weights are those of the new list |
| Forwarders.BackendForwarder.AddBackend | sputnik/BackendForwarder.cpp:47-69 | one entry is appended and the cached load weights stay current |
| Forwarders.BackendForwarder.RemoveBackend | sputnik/BackendForwarder.cpp:71-99 | exactly the first entry of that host and port goes, if any, and the cached load weights stay current |
| Forwarders.BackendForwarder.Rebalance | sputnik/LeastConnectionsForwarder.cpp:56-59 | before a choice the weights are those of the current list and counts: a distribution that never favours more connections, or a higher load |
| Forwarders.BackendForwarder.GetBackend | sputnik/BackendForwarder.cpp:32-45 | on a non-empty list the index the strategy selects for the numbers drawn, in least-connections mode one that no other undercuts, the weights in use being a fair distribution; on an empty list 0 or an exception, by strategy |
| ServiceMap.ServiceURIMap.Select | sputnik/Services.cpp:62-64 | the forwarder's choice is a position of the service list |
| ServiceMap.ServiceURIMap.Add | sputnik/Services.cpp:306-357 | list and forwarder of the URI gain the service at their ends, new ones for a new URI |
| ServiceMap.ServiceURIMap.EraseDoomed | sputnik/Services.cpp:216-240 | the erasing loop leaves exactly the survivors, and removes one first match from the forwarder per erasure |
| ServiceMap.ServiceURIMap.Sweep | sputnik/Services.cpp:214-240 | the whole table becomes the swept table, no forwarder is shared, lists and forwarders still hold the same backends |
| ServiceMap.ServiceURIMap.AllEmpty | sputnik/Services.cpp:115-119 | true iff no list holds a service |
| Services.Services.GetService | sputnik/Services.cpp:26-76 | nothing known iff the translated URI has no row, an error iff its list is empty, else the service at the index the strategy selects for the numbers drawn, in least-connections mode of a backend no other undercuts; the state is unchanged |
| Services.Services.AddService | sputnik/Services.cpp:280-383 | row, prefix and sentinel are updated and nothing else |
| Services.AfterAddMeans | sputnik/Services.cpp:280-383 | the service goes to the end of the URI's list, its backend with the load to the end of the forwarder's, "name:port:sequence" under the URI if it defines a prefix, and a counter of zero with the throttle under "name:port"; everything else is as before |
| Services.Services.LatestSequence | sputnik/Services.cpp:204-278 | in every list exactly the services, and under every name the info requests, of the given number stay, each as often; prefixes and sentinels stay |
| Services.Services.RemoveBackend | sputnik/Services.cpp:78-132 | the services of that host and port go from every list, with a URI only those that serve it, every other service keeping all its copies; without a URI no forwarder holds the backend; the prefix forgets the ids of all listed services; restart iff all lists are empty |
| Services.EvictMeans | sputnik/Services.cpp:78-132 | so it is for the routing state as a value |
| Services.ListedIdsMeans | sputnik/Services.cpp:87 | the ids a removal asks the prefix map to forget are "name:port:sequence" of exactly the listed services |
| Services.PrefixLost | sputnik/Services.cpp:87 | a removal touches the prefix it names and no other; that loses the ids of the services listed somewhere, and goes iff it has no others |
| Services.OthersPrefixLost | sputnik/Services.cpp:87 | a removal that names one backend takes the prefix of another that stays listed |
| Services.Services.AddBackendInfoRequest | sputnik/Services.cpp:562-598 | the request is appended to the list of its name |
| Services.Services.GetInfoRequestNames | sputnik/Services.cpp:606-628 | the names with a non-empty list |
| Services.Services.SetBackendAlive | sputnik/Services.cpp:154-174 | the counter of a known backend becomes zero, and nothing else changes |
| Services.Services.SignalBackendConnection | sputnik/Services.cpp:176-198 | the counter of a known backend advances by one modulo 2^32, and nothing else changes |
| Services.Services.QueryBackendAlive | sputnik/Services.cpp:134-152 | alive iff the backend has a counter and its throttle is zero or not exceeded |
| Protocol.IndexSafety | sputnik/Services.cpp:59-64 | after every trace, in any order, each list and its forwarder hold the same multiset of backends and are equally long |
| Protocol.KnownUris | sputnik/Services.cpp:301-356 | after every trace the known URIs are those ever added under, every prefix key is one of them, and no prefix is empty |
| Protocol.PrefixAgreement | sputnik/Services.cpp:34-44 | after every trace a matching prefix leads to a known URI; nothing is known iff no prefix matches and the URI was never added |
| Protocol.DeadlineMeans | sputnik/Engine.cpp:195-219 | a deadline after a silent cycle within the limit only counts it; any other leaves exactly the services and requests of the current number, each as often |
| Heartbeat.QuietEntries | sputnik/Engine.cpp:195-219 | while nothing was accepted in a cycle, all entries carry the last pruning cycle's number, at every legal step |
| Heartbeat.CycleBoundary | sputnik/Engine.cpp:195-219 | after every deadline all entries carry one number, that of the last pruning cycle; skipped cycles count the deadlines since and never exceed the limit |
| Heartbeat.Tolerated | sputnik/Engine.cpp:202-216 | silent cycles up to the limit change only the counters |
| Heartbeat.NotTolerated | sputnik/Engine.cpp:208-215 | the first silent deadline beyond the limit sweeps with the current number |
| Heartbeat.SilenceTolerance | sputnik/Engine.cpp:202-216 | the table stands through exactly the allowed silent deadlines; the next empties all lists and names iff the limit plus one is no multiple of 65535 (or all was empty) |
| Heartbeat.ReachableBoundary | sputnik/Engine.cpp:218-227 | the state after every deadline of a legal run is such a boundary |
| Wraparound.PruneAgreement | sputnik/Services.cpp:218 | pruning one entry by the wrapped number agrees with pruning by cycle iff its age is no positive multiple of 65535 |
| Wraparound.EntriesRecent | sputnik/Engine.cpp:196-216 | in timely runs every entry is less than 65535 cycles old at every step |
| Wraparound.StepWrapped | sputnik/Engine.cpp:278 | each step of the wrapping machine matches the step of the unbounded one in services, requests and counters |
| Wraparound.WraparoundHarmless | sputnik/Engine.cpp:278 | over every timely run with limit + 1 < 65535 the engine's services, requests and counters are the unbounded machine's with numbers modulo 65535 |
| WrappedPrefixes.SameWrappedId | sputnik/URIPrefixMap.cpp:11-18 | two prefix ids are one in the engine iff the backend is the same and whole turns of the counter lie between the cycles |
| WrappedPrefixes.WithoutWrapped | sputnik/URIPrefixMap.cpp:41-68 | forgetting ids and wrapping them commute iff no kept id of an unlisted service is taken for a listed one |
| WrappedPrefixes.PrefixKeptByBoth | sputnik/URIPrefixMap.cpp:55-58 | both machines keep the prefix or both lose it, iff all its services are listed or one of them has no listed service of its backend a whole number of turns away |
| WrappedPrefixes.PrefixWraparound | sputnik/Services.cpp:87 | as long as no removal took two ids for one the prefix maps of the two machines match, and the first that does is the first step after which they do not |
| WrappedPrefixes.PrefixesAlwaysMatch | sputnik/Services.cpp:87 | the prefix maps match after every step of a run iff no removal of the run takes two ids for one |
| WrappedPrefixes.SameTranslation | sputnik/URIPrefixMap.cpp:70-85 | in runs without such a removal every URI is translated alike |
| LockstepRuns.StepGood | sputnik/Services.cpp:306-357 | every step keeps lists in lockstep and each backend's entries in cycle order |
| LockstepRuns.LockstepOverRuns | sputnik/Services.cpp:215-240 | with replies of each backend in request order, every interleaving keeps each list and its forwarder equal position by position, in both machines |
| LockstepRuns.LockstepExactly | sputnik/Services.cpp:84-110 | with no assumption: lists and forwarders are equal position by position after every step of a run iff every pruning deadline and every removal, in every list, drops the same keys as dropping each backend's first ones |
| LockstepRuns.CycleHeals | sputnik/BackendForwarder.cpp:79-91 | whatever happened before, a cycle without late replies or removals that ends in pruning leaves every list and its forwarder in lockstep |
| LockstepRuns.EngineHeals | sputnik/BackendForwarder.cpp:79-91 | so it does in the engine |
| EngineRuns.EngineRunsUnwrap | sputnik/Engine.cpp:278 | every legal engine run whose replies echo requests sent fewer than 65535 cycles before is the wrapped form of a legal, timely run, recovered from its own numbers |
| EngineRuns.InOrderExactly | sputnik/Messages.cpp:198-226 | a run is in order iff the sequence of its registrations is ordered backend by backend |
| EngineRuns.TimelyRunsEcho | sputnik/Engine.cpp:278 | conversely, what a timely run looks like to the engine echoes, and unwraps to that run |
| EngineRuns.StepsWrapped | sputnik/Messages.cpp:139-226 | the registrations by cycle, wrapped, are what the engine does with the answer |
| EngineRuns.AnswersInOrder | sputnik/Messages.cpp:139-226 | a run is in order if its registrations are the first of those of answers taken in request order, whatever happens in between and wherever it stops |
| EngineRuns.RepliesFiled | sputnik/Messages.cpp:209-225 | a reply files each service under its own URI or the one that names the host |
| EngineRuns.PlainFromAdverts | sputnik/Messages.cpp:215-225 | when no backend advertises a URI beginning with "/" and its own name, no list ever holds two URIs of one backend, so removals by URI are harmless |
| EngineRuns.RegistrationsFiled | sputnik/Messages.cpp:209-225 | adverts that keep clear of the host URIs register only services filed so and clear of them |
| EngineRuns.ExchangedIsOrderly | sputnik/Messages.cpp:163-249 | an engine run from answers in request order and such adverts is the wrapped form of an in-order run |
| EngineRuns.EngineLockstep | sputnik/Services.cpp:62-64 | the engine, from its own trace: echoed numbers, answers in request order and such adverts keep every list and its forwarder equal position by position after every step, also between two registrations of one reply |
| EngineRuns.EngineStickiness | sputnik/StickyForwarder.h:14 | in such an engine run, at two points with the same set of backends and the same counts, requests with one selection key reach the same backend |
| Stickiness.FoundAsMeant | sputnik/Services.cpp:62-64 | in an in-order run the service at the chosen index is of the backend the forwarder chose |
| Stickiness.SameBackendEverywhere | sputnik/StickyForwarder.cpp:13-16 | in any two states of in-order runs, of one frontend or two, with the same set of listed backends and the same counts, one scoring reaches one backend |
| Stickiness.KeepsBackendExactly | sputnik/StickyForwarder.h:14-29 | between any two states of in-order runs, whatever lists and counts, the client keeps its backend iff it is selectable and no newly selectable one scores higher |
| Stickiness.EndToEndStickiness | sputnik/StickyForwarder.h:14 | at two points of one in-order run with the same set of backends and the same counts, through duplicates, late replies and pruning, requests with one selection key reach the same backend |
| Stickiness.LateReplyBreaksStickiness | sputnik/BackendForwarder.cpp:79-91 | an out-of-order late reply and a prune send the client elsewhere though the set of backends is the same |
| Counterexamples.LoadMovesClient | sputnik/StickyForwarder.h:14 | with the backends unchanged, five connections move a client to the other backend |
| Counterexamples.NewcomerMovesOthers | sputnik/StickyForwarder.h:23-25 | adding an idle backend moves a client from one old backend to another |
| Counterexamples.RemovalMovesOthers | sputnik/StickyForwarder.h:23-25 | removing an idle backend moves a client that was not on it |
| Counterexamples.EveryClientCanBeMoved | sputnik/StickyForwarder.h:14-25 | with the hash as it is, all three happen to every client |
| Counterexamples.LateReplyMovesClient | sputnik/BackendForwarder.cpp:79-91 | a run of whole replies that meets every hypothesis of EngineLockstep but the order of one backend's two answers, and in which a deadline moves the client of the engine |
| Counterexamples.RemovalByUri | sputnik/Services.cpp:88-99 | a run of whole replies that meets every hypothesis of EngineLockstep but the one on adverts, and in which a removal by URI ends lockstep in the engine |
| Counterexamples.OthersRemovalTakesPrefix | sputnik/Services.cpp:87 | a run of one reply and one removal of another backend, before which requests below the prefix are translated to it and after which they are not, though its backend stays listed |
| Counterexamples.PrefixMapsPart | sputnik/URIPrefixMap.cpp:41-68 | a run of 65536 cycles and whole replies after which a URI is translated in the one machine and not in the other |
| Counterexamples.PrefixMapsMeetAgain | sputnik/URIPrefixMap.cpp:21-39 | the same run with one answer arriving twice, after which the prefix maps match again |
| Messages.SequenceEcho | sputnik/Messages.cpp:139-160 | everything a backend's answer registers carries the request's number: two registrations per service, one per info query, one acceptance |
| Messages.OnlyAnswer | sputnik/Messages.cpp:139-160 | there is exactly one answer to a discovery request, the reply with its number and the backend's data, and none to anything else |
| Replies.ReplyCounters | sputnik/Messages.cpp:209-225 | all registrations of a reply leave one fresh counter with the throttle of the message |
| Replies.ServiceIs | sputnik/Messages.cpp:201-206 | the service of an item carries the name, host data and number of the message and the item's own URI and flags |
| Replies.ServiceStep | sputnik/Messages.cpp:198-226 | each item is registered under its own URI and then under "/" + name + URI, with the load of the message |
| Replies.QueryStep | sputnik/Messages.cpp:228-240 | then each info query becomes a request with its name, the host data and the number of the message |
| Replies.ReplyFiles | sputnik/Messages.cpp:198-240 | after an accepted reply each service is listed under both its URIs with the load in their forwarders, each query is filed under its name, and every list begins as before |
| Replies.ReplyFilesOnly | sputnik/Messages.cpp:198-240 | nothing else is listed or filed that was not before |
| Replies.ReplyCounts | sputnik/Messages.cpp:242-243 | a whole reply counts as one received response and leaves number and skipped cycles alone |
| Engine.Engine.constructor | sputnik/Engine.h:76-98 | a new engine is in the start state, with nothing listed and all counters zero |
| Engine.Engine.StartServiceDiscovery | sputnik/Engine.cpp:274-323 | the discovery step; the number advances by one modulo 65535 and the request carries it |
| Engine.Engine.EndCycle | sputnik/Engine.cpp:195-219 | the deadline step of the machine |
| Engine.Engine.HandleDeadlineTimer | sputnik/Engine.cpp:182-233 | nothing when aborted, else the deadline step and then a discovery request with the next number |
| Engine.Engine.RegisterServices | sputnik/Messages.cpp:198-226 | the loop runs two registrations per service, in order, and leaves under "name:port" of the message a counter of zero with its throttle |
| Engine.Engine.RegisterInfoQueries | sputnik/Messages.cpp:228-240 | the loop runs one registration per info query, in order |
| Engine.Engine.ProcessReply | sputnik/Messages.cpp:163-249 | ignored unless a reply with host and services; a negative throttle ends the run with nothing registered; else exactly the reply's steps, a counter of zero with the throttle of the message under its "name:port", and every other counter as before |
| Engine.Engine.RemoveBackend | sputnik/Services.cpp:78-132 | the eviction step: exactly the named services go, without a URI no forwarder holds the backend, and the run goes on iff some list holds a service |
| Engine.Engine.SetBackendAlive | sputnik/Engine.cpp:532-557 | only a stream that ended well resets the counter; the routing state is unchanged |
| Engine.Engine.ProcessRequest | sputnik/Messages.cpp:139-160 | a response exists iff the message is a discovery request; it is a reply with that request's number and the backend's name, host, services and queries, acceptable iff there are services |

## Left out

- Sockets, Asio handlers, timers, sleeping, threads and locks: each locked operation is one step, and the io thread's order of request, reply and deadline is the machine's `Enabled`.
- Protobuf encoding: messages are values, and an unset field is `None`.
- Configuration, status pages, `backends`, `getBackendList`, logging and exception tracing.
- The pause flag, shutdown checks and the suppression of replies under high load.
- `ExponentialConnectionsForwarder`: it rests on floating-point `std::exp`.
- Floating point: weights, loads and the balance factor are reals; random generators are an arbitrary choice of the numbers drawn, of positive weight where there are weights.
- Overflow of the hotspot threshold: the cast to `int` is a floor, for factors and counts whose product fits.
- Overflow of the counters of received replies and skipped cycles (32-bit): they are unbounded here.
- Null service and request pointers, for which the source does nothing.
- Connection counts are non-negative ints, absent means zero, and they do not change during one call.
- Strings are characters standing for bytes (the hash takes them modulo 256); `std::map` order is the order of character codes.
- `setForwarding` is called once: mode, coefficient and cookie name are constants of a table.
- `SIGKILL` in `Services::removeBackend` is the end of the run.
- `itsServicesByURI` and `itsSentinels` are classes of their own here; a swept list is written back to its row after the walk, which no other step can observe under the write lock.
- The prefix map's part of `Services::removeBackend` is a loop before the sweep: it reads only the ids of the entries listed at the start, and the sweep does not read the prefix map.
- Forwarders.BackendForwarder.GetBackend: in the two inverse strategies, and only there, a negative balance factor is excluded: 1 + a * count can then be zero or negative, and a distribution over negative weights has no meaning in the source either.
- Engine.Engine.constructor: the same factors are excluded when an engine is made.
- Engine.Engine.ProcessReply: of the exceptions that leave the io thread and end the process (`sputnik/Engine.cpp:444-449`), only the one for a negative throttle is modelled.
- LockstepRuns.LockstepOverRuns: in order is assumed, and the URIs of removals are restricted; `Counterexamples` has a run for each that fails without.
- Stickiness.EndToEndStickiness: no two listed backends tie for the client; `Rendezvous.NearNamesakesNeverTie` rules ties out for names that differ in one byte.
