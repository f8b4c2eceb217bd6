# gateboard: a verified model

gateboard maps gateway names to AWS API Gateway ids. The server keeps the map in
several repositories at once, accepts updates over HTTP and from a queue, and
clients cache what they read. This project models that behaviour in Dafny and
proves what it promises: over every input and sequential run of the store, and
over every interleaving of the server's PUT handlers, queue messages and reads, of
the goroutines behind one read, and of a client's threads.

`dafny verify dfyconfig.toml` checks everything.

| file | models |
|---|---|
| `GoLib.dfy` | int64 arithmetic, Go string helpers, decimal numbers, map iteration |
| `IdList.dfy` | weighted id lists and the random pick |
| `Ring.dfy`, `Repository.dfy`, `Service.dfy` | one repository, and every operation fanned out over N of them |
| `StoreLaws.dfy`, `HandlerLaws.dfy` | what the replicated store and its PUT and GET handlers guarantee |
| `ConcurrentPuts.dfy` | overlapping writes, interleaved at single repository puts |
| `Server.dfy` | the whole server: PUT handlers and queue messages, with their token checks, retries and deletes, interleaved at single repository operations |
| `ServerRuns.dfy`, `Reads.dfy` | how long a handler can take, and handling one after another; what reads see while the server writes |
| `Collector.dfy` | the goroutines, channel and timer behind one read |
| `Listener.dfy` | the queue listener and its runs |
| `TokenMode.dfy` | write tokens over whole runs |
| `Client.dfy`, `ClientRuns.dfy` | the client's cache, TTL and refresh; its threads and the refresh flag |
| `RecordTable.dfy`, `Redis.dfy` | the redis repository's flat hash and its dump |
| `Discovery.dfy` | discovery's deduplication, renames and bounded retry |

## How it is modelled

The Go objects are classes (`RepoMem`, `Application`, `RepoRedis`, `Client`,
`Queue`, `Saver`) whose methods loop and assign as the Go code does; each method
is proved to do what a function on values says, and the lemmas are about those
functions. Interleavings are step systems over the lock-protected steps. The runs of whole
requests and messages of `TokenMode.dfy` and `Listener.dfy` are kept beside them:
they say the same of one event at a time, in the terms of the sequential handlers,
and `ServerRuns.EventRunsAreInterleavings` shows that each such run is one of the
server's interleavings.

What the environment decides is a parameter. A write fan-out gets a `Call`: the
random start of the ring, the time each repository's call runs at, and which
calls fault. A read gets a `Read`: the order in which answers arrive, which
queries fault, and whether and when the timer wins. A `fault` is a backend call
that fails and leaves the table as it was; the in-memory repository never
faults, it is `broken` for good or works. Times are integers that the caller
supplies. Strings are sequences of Unicode code points.

## What the proofs say about the code

- The sum of weights is an int64 that can wrap. Exact shares hold if and only if
  the total fits (`IdList.WeightedShares`), and two legal weights can make the
  picker panic: the text `a;M,b` does exactly for M = 2^63-1
  (`IdList.PanickingText`).
- Client options take their defaults one by one, so a client given only a maximum
  TTL under five minutes starts above its own maximum
  (`Client.DefaultAboveMaximum`). The TTL suggested by the server is multiplied
  by 10^9 in 64 bits: it is clamped as meant exactly when the product fits or wraps
  high enough (`Client.ClampedUnlessWrapped`), and a large one can end at the
  minimum (`Client.HugeSuggestionShrinks`). A failed refresh still updates the TTL, so it
  can revive an expired entry (`Client.FailedRefreshRevives`); the bound on
  staleness is therefore the maximum TTL, not the TTL at creation.
- A read failure or timeout makes the token check refuse a right token
  (`Listener.RightTokenRefused`). With refused messages consumed, a good message
  then leaves the queue unstored (`Listener.ConsumedUnstored`). A message whose
  delete fails is applied again when it comes back and counts once more
  (`Listener.RedeliveryCountsAgain`).
- A put accepted by some healthy repositories and missed by another through a
  transient fault breaks agreement (`StoreLaws.InStepUnlessMissed`), and no later
  put makes up for it (`StoreLaws.CountersLag`); a read may then not show what was
  written (`StoreLaws.ReadYourPut`).
- On an empty store a broken repository makes the merged dump an error, where a
  single repository gives an empty list (`StoreLaws.DumpRefines`).
- Redis answers a name it does not have, or has only a token for, with a generic
  error instead of "not found", and so it does for one whose counter or time stamp
  was never written (`Redis.AgreesWithMemory`). A first put that fails there is a
  success that cannot be read (`Redis.PartialPut`).
- A redis scan that breaks off ends the dump without an error: it holds the records
  of the keys delivered until then (`Redis.InterruptedDump`).
- `cmd/gateboard/main.go` preloads tokens before it fills the repository list, and
  a random start among zero repositories panics: preloading panics exactly when
  there are tokens but no repositories (`TokenMode.PreloadEstablishes`). The token
  write and the dump require at least one repository here.

## Model

| member | source | states |
|---|---|---|
| StoreLaws.Refines | cmd/gateboard/service.go:178-316 | over every run of puts, token writes and gets, N repositories with one healthy give one healthy repository's replies and end up holding what it holds, whatever the ring starts and arrival orders; a get that faults or times out may fail instead |
| StoreLaws.InStepUnlessMissed | cmd/gateboard/service.go:263-289 | a valid put keeps all healthy repositories equal to the single one iff none of them misses it through a transient fault |
| StoreLaws.InStepOverRuns | cmd/gateboard/service.go:241-316 | over every run of puts, token writes that reach their repositories, and gets: the healthy repositories end in step with one healthy repository iff none of them has missed any valid put |
| StoreLaws.CountersLag | cmd/gateboard/service.go:263-289 | over every run, whatever faults: what a healthy repository's counter gains plus the valid puts it missed is what one healthy repository's counter gains |
| StoreLaws.HealthyNeeded | cmd/gateboard/service.go:285-289 | valid writes succeed iff some repository is healthy |
| StoreLaws.StartIrrelevant | cmd/gateboard/service.go:261-316 | final state and success of put and putToken do not depend on the ring's start |
| Ring.SteppingCovers | cmd/gateboard/service.go:263-264 | stepping r = (r+1) % n reaches every index exactly once in n steps |
| Service.PutOutcome | cmd/gateboard/service.go:256-289 | a write succeeds iff some repository accepts it; otherwise it returns the error of the starting repository, which is visited last |
| Service.Application.PutMultiple | cmd/gateboard/service.go:241-290 | the ring loop updates every repository once, independent of the order |
| Service.Application.PutTokenMultiple | cmd/gateboard/service.go:293-316 | every repository gets the token once; no error iff none of them failed |
| Service.Application.GetMultiple | cmd/gateboard/service.go:178-238 | the receive loop with its early return, not-found memory and timer |
| StoreLaws.GetOutcome | cmd/gateboard/service.go:207-237 | for any arrival order a success is some repository's own answer; without a timeout it succeeds iff some answer did, says not-found iff none did and one was not-found, else returns a repository's own error |
| StoreLaws.GetExactly | cmd/gateboard/service.go:178-238 | for any arrival order and timer, the empty list included: a success iff some receive brings one; not-found iff everything was received, without a success and with a not-found |
| StoreLaws.SuccessNamesItsRepository | cmd/gateboard/service.go:185-237 | a success is what one working repository holds and names that repository; the empty list has its own error |
| StoreLaws.CollectExactly | cmd/gateboard/service.go:207-237 | the first success received wins; else a timeout if the timer fired; else not-found or the last error |
| StoreLaws.OrderIndependent | cmd/gateboard/service.go:229-237 | two reads differing in arrival order agree on success, not-found or failure |
| Service.Application.DumpMultiple | cmd/gateboard/service.go:26-90 | the items list the merge, each name once; an error only when the merge is empty |
| StoreLaws.DumpMerges | cmd/gateboard/service.go:62-75 | a name is in the merge iff some responding repository holds it, with the entry of the last holder in ring order |
| StoreLaws.LastDumpErrorIs | cmd/gateboard/service.go:47-60 | the error kept is that of the failing repository the ring reaches last |
| StoreLaws.DumpRefines | cmd/gateboard/service.go:62-89 | whatever repositories are broken or fail: the merged dump equals the single repository's apart from last_update iff some healthy one answers or there is nothing to dump; exactly when it errs |
| StoreLaws.RetryCountsOnce | cmd/gateboard/service.go:508-546 | under any failure pattern each repository takes the put at most once; 200 iff some attempt is accepted somewhere, otherwise nothing changed |
| HandlerLaws.PutStatus | cmd/gateboard/service.go:448-546 | the exact condition of each PUT status; 200 means some repository holds the trimmed id, any other status that nothing changed |
| HandlerLaws.PaddedPut | cmd/gateboard/service.go:479-486 | a PUT whose id has space around it gets the status and leaves the store of the bare id; it is no bad request if the name is good |
| HandlerLaws.PutLeaves | cmd/gateboard/service.go:508-546 | an authorized PUT leaves exactly the store of its first fan-out that some repository accepts |
| HandlerLaws.BadRequestsAre | cmd/gateboard/service.go:448-486 | a PUT is a bad request iff its name is all space or has a space or one of "${}", or its body does not parse, or its id is all space |
| Repository.RefusedNames | cmd/gateboard/service.go:573-584 | a name is refused iff it is all space or has a space or one of "${}" |
| HandlerLaws.GetStatus | cmd/gateboard/service.go:359-430 | a GET reply never shows the token and has the configured TTL; the exact condition of each status, with timeouts and without repositories |
| Service.Application.ServePut | cmd/gateboard/service.go:433-547 | the handler's checks in order, then the retry loop |
| Service.Application.ServeGet | cmd/gateboard/service.go:327-431 | the handler's name check, read and status |
| Service.Application.CheckToken | cmd/gateboard/service.go:557-571 | invalid iff empty, or the read failed, or the stored token differs |
| StoreLaws.ReadYourPut | cmd/gateboard/service.go:207-289 | every later read that reaches a working repository shows the put's id iff each healthy repository that missed the put had that id already |
| StoreLaws.ReadYourToken | cmd/gateboard/service.go:207-316 | after a token write a read finds the name iff it reaches a working repository, an unknown name too, with an empty id; it shows the new token with the id and changes a healthy repository had; reads of other names are unchanged |
| Repository.RepoMem.Save | cmd/gateboard/repository_mem.go:104-131 | the put of the in-memory repository, with each error |
| Repository.RepoMem.Get | cmd/gateboard/repository_mem.go:75-102 | the get of the in-memory repository, with each error |
| Repository.RepoMem.Dump | cmd/gateboard/repository_mem.go:47-73 | every entry exactly once, in any order |
| ConcurrentPuts.OverlappingPuts | cmd/gateboard/service.go:263-283 | once any number of interleaved calls are done, each repository's counter rose by exactly the puts it accepted, its keys grew by those names, and its id came from one of the calls |
| ConcurrentPuts.HealthyAgree | cmd/gateboard/repository_mem.go:122-129 | healthy repositories then agree on names and counters |
| ConcurrentPuts.OverlappingOutcomes | cmd/gateboard/service.go:256-289 | however calls overlap, each returns what it would return alone: success iff some repository took its put, else the error of the starting repository |
| ConcurrentPuts.AloneIsPutAll | cmd/gateboard/service.go:256-289 | a call alone in the step system leaves the repositories and returns the error of the sequential write loop |
| Server.StoreIsAccounted | cmd/gateboard/service.go:494-546 | at every moment of every interleaving of handlers and messages: a counter rose by one per handler or message whose put the repository took, never two for one; no token changed; a new id came from one of them, with the name's preloaded token where tokens are required |
| Server.VerdictsAreSequential | cmd/gateboard/service.go:494-571 | in every interleaving each handler or message that has ended got the verdict it would have got alone on the initial store, and it is stored iff some repository took its put |
| Server.NoMessageLost | cmd/gateboard/sqs.go:105-190 | in every interleaving with redeliveries and failing deletes each sent message is queued or has left, never both, and one leaves only if some repository took its put, or it is bad or refused and may be consumed for that |
| Server.DeletesExactly | cmd/gateboard/sqs.go:122-188 | in every interleaving, exactly when the ended task of a message can delete it: the delete works, and it is bad and bad ones are consumed, or refused and such ones are consumed, or some repository took its put |
| Server.NobodyIsStuck | cmd/gateboard/service.go:199-225 | until a handler or message has ended, its next turn or a query it waits for can happen |
| Reads.ReadsShowMoments | cmd/gateboard/service.go:178-238 | however writes overlap a read, a success shows what one working repository held at one moment since it began: the first record, or a taken put's id with one change for each put taken by then |
| Reads.ReadsAreFresh | cmd/gateboard/service.go:207-237 | without a timeout a name that a reachable repository held when the read began is found, and one that none holds by the end is not found |
| Reads.QuietReadIsGetAll | cmd/gateboard/service.go:178-238 | a read during which no repository changes is the sequential read |
| Reads.ReadNow | cmd/gateboard/service.go:178-238 | at every moment each read, whatever its arrival order and timer, can be made and gives the sequential result |
| ServerRuns.EveryTaskEnds | cmd/gateboard/service.go:508-546 | in every interleaving a handler or message takes, from its arrival, at most a fixed number of steps of its own, and can take one until it has ended |
| ServerRuns.AloneIsSequential | cmd/gateboard/service.go:433-547 | a handler or message alone in the step system runs a bounded number of steps, stops only when it has ended, and leaves the verdict and store of the sequential code |
| ServerRuns.EventRunsAreInterleavings | cmd/gateboard/service.go:433-571 | every run of whole requests and messages is one of the interleavings: a schedule of single repository operations leaves the same store |
| Server.HttpAlone | cmd/gateboard/service.go:433-547 | that verdict and store are those of the PUT handler |
| Server.MessageAlone | cmd/gateboard/sqs.go:122-188 | and those of the listener's loop body |
| Collector.NeverStuck | cmd/gateboard/service.go:199-225 | in every interleaving querying + buffered + received = N, no sender blocks, a waiting collector always has an answer coming, and it is done within N timeouts |
| Collector.RefinesReadLoop | cmd/gateboard/service.go:146-225 | whatever the interleaving, the result is the read loop's for some arrival order and timer choice |
| Collector.EveryReadHappens | cmd/gateboard/service.go:146-225 | for every arrival order and timer choice some interleaving ends with the read loop's result |
| Collector.TimerRestarts | cmd/gateboard/service.go:207-226 | the timeout starts anew with each receive |
| Listener.NoMessageLost | cmd/gateboard/sqs.go:105-190 | over every run of whole deliveries from an empty queue, with redeliveries and any change of the store between them: each sent message is still queued or left for a justified reason, and sent = queued + stored + bad + refused |
| Listener.StoredExactly | cmd/gateboard/sqs.go:122-188 | a message is stored iff well formed, its token passes and some repository accepts it; else the store is unchanged |
| Listener.RightTokenRefused | cmd/gateboard/service.go:557-571 | for any arrival order and timer a token passes iff it is the stored one, is not empty, and some receive brings a working repository's answer |
| Listener.Listen | cmd/gateboard/sqs.go:105-190 | the receive and batch loops process every delivered message in order |
| Listener.Handle | cmd/gateboard/sqs.go:122-188 | the decisions for one message, and when it is deleted |
| Listener.LeavesExactly | cmd/gateboard/sqs.go:122-188 | a delivered message leaves the queue iff its delete works and it is bad and bad ones are consumed, or its token does not pass and such ones are consumed, or its token passes and some repository accepts its put |
| Listener.PaddedMessage | cmd/gateboard/sqs.go:153-188 | a good message with space around its id is refused, or leaves the store of one fan-out of the bare id and is stored iff some repository accepts that |
| Listener.DeliveriesAreProcessing | cmd/gateboard/sqs.go:105-190 | a run of deliveries is the listener's loop over them: same store, same queue |
| TokenMode.OnlyTheHolderWrites | cmd/gateboard/service.go:494-502 | over every run, with any faults and timeouts, no stored token changes and every new id came from a request with the preloaded token of that name |
| TokenMode.NoTokenNoId | cmd/gateboard/service.go:557-571 | a name without a preloaded token never gets an id |
| TokenMode.HolderPasses | cmd/gateboard/service.go:557-571 | with the preloaded tokens stored, a request passes iff it shows its name's own non-empty token and some receive brings a working repository's answer |
| TokenMode.PreloadTokens | cmd/gateboard/main.go:83-95 | the loop writes each token, stopping at a failed write, and panics without repositories |
| TokenMode.PreloadEstablishes | cmd/gateboard/main.go:83-95 | preloading panics iff there are tokens but no repositories, fails iff a write fails, and else makes every repository, broken or not, hold exactly the tokens |
| TokenMode.PreloadKeepsIds | cmd/gateboard/main.go:83-95 | preloading changes the tokens of its names and nothing else |
| IdList.PrintIsCanonical | gateboard/idlist.go:19-66 | parsing the printed form gives the same list and sum; two texts print alike iff they mean the same list |
| IdList.ParserImage | gateboard/idlist.go:19-58 | the parser's results are exactly the non-empty lists of trimmed, separator-free ids with weights in 1..2^63-1 |
| IdList.NewList | gateboard/idlist.go:46-58 | the loop gives the list with its wrapped sum, or the first part's error |
| IdList.PartMeans | gateboard/idlist.go:19-37 | exactly what each part means in any padding, and which parts fail how; an explicit weight 1 is an entry, and no weight is 1 |
| IdList.EveryPart | gateboard/idlist.go:19-37 | every text is such a part |
| IdList.WeightedPart | gateboard/idlist.go:28-36 | an id with a weight of 1 or more, in any padding and any way of writing the number, is that entry |
| IdList.ListMeans | gateboard/idlist.go:46-58 | parts joined by commas are the list of what they mean, or the error of the first that has one |
| IdList.WeightedShares | gateboard/client.go:226-265 | over the draws 1..sum each position is picked exactly weight times iff the total fits an int |
| IdList.FallbackUnreachable | gateboard/client.go:252-265 | for every parsed list, overflowing or not, no draw up to its sum falls through the loop |
| IdList.NoPanicWhenTotalFits | gateboard/client.go:236-240 | then the sum is the total and at least the length |
| IdList.TwoEntriesPanic | gateboard/client.go:240 | two legal entries make the pick panic iff their total does not fit |
| IdList.PanickingText | gateboard/client.go:240 | the text "a;M,b" parses for every printed weight M, and its sum is below one iff M is the largest int |
| IdList.PickOne | gateboard/client.go:226-250 | errors iff the text does not parse, panics iff the sum is below one, else gives the id of the general pick, the single-entry shortcut included |
| IdList.PickRandom | gateboard/client.go:252-265 | returns the id at the first position whose running sum reaches the draw |
| IdList.PositionExactly | gateboard/client.go:252-265 | for every list and number the pick is the first position whose wrapped running sum reaches the number, and the first of all if none does |
| IdList.PickedByStretch | gateboard/client.go:240-265 | each id is picked for exactly its stretch of the draws 0..sum-1, as long as its weight |
| Client.TTLRange | gateboard/client.go:96-113 | whatever the server suggests the TTL stays within its limits iff the options are consistent |
| Client.Client.GetID | gateboard/client.go:185-218 | serves from the cache iff the entry is younger than the TTL, otherwise refreshes |
| Client.Client.Refresh | gateboard/client.go:269-291 | updates the TTL always and the cache only with a non-empty id |
| Client.RefreshReplaces | gateboard/client.go:269-291 | a refresh that got a list replaces the name's entry by it, stamped now, and keeps every other; one that got none keeps the cache |
| Client.LookupAfterRefresh | gateboard/client.go:185-218 | lookups after it serve the new list from the cache for exactly as long as it is younger than the TTL |
| Client.TTLExactly | gateboard/client.go:96-113 | a suggestion below 1 is ignored; any other is the nanoseconds modulo 2^64, clamped |
| ClientRuns.BoundedStaleness | gateboard/client.go:185-218 | over every interleaving a list served from the cache was the server's reply for that name and was stored less than the maximum TTL before its age was taken; cached lists are never empty |
| ClientRuns.ServesTheLastStore | gateboard/client.go:131-202 | over every interleaving a lookup served from the cache gets what had been stored last for its name when it began, and the cache holds what was stored last |
| ClientRuns.RefreshStartsOne | gateboard/client.go:308-327 | a Refresh call starts a job iff none is running, and does nothing else |
| ClientRuns.SingleRefresh | gateboard/client.go:308-327 | the flag is set iff a refresh job lives, and there is never a second one |
| ClientRuns.RefreshAlone | gateboard/client.go:269-291 | the refresh thread, undisturbed, is the sequential refresh |
| ClientRuns.LookupAlone | gateboard/client.go:185-202 | the lookup thread, undisturbed, serves iff the entry is servable |
| Redis.DecodeEncode | cmd/gateboard/repository_redis.go:89-119 | decoding a key gives its field and name, colons in the name included |
| Redis.WritesAreSeparate | cmd/gateboard/repository_redis.go:200-235 | writes of one name, complete or failing midway, leave all fields of every other name alone |
| Redis.DumpRebuilds | cmd/gateboard/repository_redis.go:70-111 | for any complete scan, in any order with repeats, dump gives one record per name with every stored field and nothing else |
| Redis.InterruptedDump | cmd/gateboard/repository_redis.go:81-111 | a scan that breaks off anywhere gives the records of exactly the keys delivered with their values, the whole hash iff all were |
| Redis.RunKeysProper | cmd/gateboard/repository_redis.go:200-235 | after any run of writes, whichever commands fail, the hash holds only keys that dump decodes |
| Redis.AgreesWithMemory | cmd/gateboard/repository_redis.go:121-198 | after any run of writes with any failing commands: exactly what redis answers, and that it is the in-memory repository's answer iff the name is refused, or put with every change counted and some stamped |
| Redis.RepoRedis.Dump | cmd/gateboard/repository_redis.go:70-111 | the toggling loop lists the decoded table of the items delivered, or nothing and an error where the iterator reports one |
| Redis.RepoRedis.Put | cmd/gateboard/repository_redis.go:200-230 | the three commands, of which only the first one's failure is reported |
| Discovery.Dedup | cmd/gateboard-discovery/main.go:137-169 | the output is duplicate-free and has (name, id) iff that name occurs exactly once, with that id |
| Discovery.FindGateways | cmd/gateboard-discovery/main.go:171-251 | a dry run calls nothing; otherwise the calls are one block of attempts per accepted unique gateway, stopping at the first success |
| Discovery.SavesExactly | cmd/gateboard-discovery/main.go:195-247 | the saves called are exactly those the items ask for: a name occurring once and not filtered out, under account, region and configured or own name, with the item's id and the configured or default token |
| Discovery.TriedUntilSuccess | cmd/gateboard-discovery/main.go:227-247 | each distinct save is tried in one go until it succeeds or has been tried retry times |
| Discovery.SavedIsSuccesses | cmd/gateboard-discovery/main.go:229-247 | saved counts exactly the successful saves |
| Discovery.CallsAreBounded | cmd/gateboard-discovery/main.go:229-245 | each distinct gateway is called between 1 and retry times |
| Discovery.DistinctFullNames | cmd/gateboard-discovery/main.go:199-220 | once the rename check over all credentials has passed, each credential's full names are pairwise distinct iff no kept name equals another gateway's rename |
| Discovery.TargetsDistinct | cmd/gateboard-discovery/main.go:220 | distinct full names make distinct saves |
| Discovery.CheckRenames | cmd/gateboard-discovery/creds.go:49-63 | the check passes iff all configured renames are pairwise distinct |

## Left out

- Repository.RepoMem.Save: counts changes in unbounded integers; the int64 counter wraps only after 2^63 puts.
- ConcurrentPuts.HealthyAgree: says nothing about ids, because overlapping puts can leave repositories with different ones.
- ClientRuns.BoundedStaleness: covers lists served from the cache; a list fetched from the server is returned at once and makes no claim on age.
- Server.StoreIsAccounted: reads are not among its steps, since they change nothing (`Reads.dfy` adds them), and tokens are written only before the server starts, as in main.
- Mongo, DynamoDB and S3 repositories: their behaviour sits in libraries that are not part of this model.
- Group cache, kubegroup and singleflight: external; concurrent lookups of one name each make their own query here, which allows more interleavings.
- HTTP routing, YAML and JSON decoding, tracing, metrics, logging and error texts: requests and messages arrive parsed, errors are kinds.
- Sleeping between retries and after empty receives: it changes no state.
- The listener's endless loop: `Listener.Listen` runs any finite number of rounds.
- Configuration, secrets, the savers behind discovery, the AWS scanner, the example client and gateboard-cache: plumbing.
- Invalid UTF-8 in strings, and redis hashes with keys written by other programs.
