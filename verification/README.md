# A verified model of the RPC sidecar

The repository is a sidecar proxy for microservices. Every sidecar runs a *credit server*, which decides which
client may send it a request, and a *credit client*, which holds sub-requests back until their downstream has
granted a credit. Around that protocol stand an HTTP/1 front end, a perfect-hash table, a t-digest and three
indexes over the RPCs in flight. This project models these parts in Dafny and proves what they are for.

`dafny verify dfyconfig.toml` checks everything.

## How it is built

| files | model |
|---|---|
| `Scheduler`, `SchedulerProofs`, `SchedulerRuns` | the credit queue as a value: three levels of per-endpoint FIFOs, a ring per level, the 16/4/1 rotation, two limits; what one pop does; what whole runs of operations keep |
| `Slots`, `LocalMap`, `CreditQueue` | the classes: the seeded hash table with its wrapping iterator, and both queue classes on top of it; every method is proved equal to the operation on the value |
| `Beats`, `Protocol`, `Sidecar` | the event handlers: functions on the protocol state, and a class whose methods are proved equal to them |
| `World`, `WorldRpcs`, `WorldSteps`, `WorldRuns`, `WorldProgress` | a sidecar among clients, hosted services and downstreams: a step relation, its invariant, theorems over all runs, and runs that lead to a release |
| `Ingress` | the ingress worker with its one outstanding Credit Request |
| `Locking` | the interleaving of threads on one credit queue, one load or store per step |
| `Wire`, `RpcIds`, `RpcMapper` | datagrams, ids, and the three RPC indexes |
| `Chunked`, `ChunkedDecoder`, `ChunkedCoding` | the chunked coding as a byte machine, the in-place decoder proved against it, and the coding it inverts |
| `Head`, `HeadProofs`, `HeadPrinter`, `HeadParser` | the request-head parser as functions and as the program's loops, its shortcut for heads that come in pieces, and the writer |
| `RpcHeaders`, `HeaderRelay` | the header store of a message with the ids and the priority read from it; a request on its way from one parser through the store and the writer to the next parser |
| `TDigest`, `TDigestQueries` | the in-place merge and the two queries of the t-digest |
| `Basics`, `Bytes`, `Sums` | shared vocabulary |

What the model assumes of the surroundings is written into its guards and preconditions:

- UDP neither loses nor duplicates messages (docs/rlp_logic.md:5); a hosted call waits for its synchronous
  sub-calls (docs/rlp_logic.md:27); in the fan-out modes a hosted call makes one whole round of sub-calls.
  `Worlds.Guard` states all three.
- A handler is one atomic step: every sidecar that is not an ingress runs one thread (src/config.cc:264-270).
  `Locking` drops this assumption for the credit queue itself.
- Fatal log lines are preconditions or, where the code cannot exclude them, outcomes.

## Where the code and expectations part

- One pop follows one push or decrement, so a raised limit can leave a grantable request waiting.
  `Beats.StepSettlesIff` says for every such event, with any change of both limits and from any state, when it does;
  `WorldRuns.AlwaysIdleIff` says it for whole runs, `Beats.RaisedLimitsLeaveOne` gives a leaf on which it happens.
- A parallel round that stops half-way leaves its RPC with two slots when it answers, of which it gives back one.
  `WorldRpcs.FinishedHoldsOne` gives the exact condition for an RPC that has heard from all its sub-calls,
  `WorldRpcs.HoldsOneIff` that for any moment, and `WorldProgress.HalfRoundHoldsTwo` a run that gets there.
- The configuration may list a downstream twice (src/config.cc:200-208). A dynamic fan-out that chooses it then
  loses the further credits that this downstream grants. `Protocol.ReturnsAllOthersIff`.
- The length byte of a datagram is written unsigned and read signed: a service name of 102 to 229 bytes passes
  the dispatcher and is then read past the end of the message. `Wires.ServiceIsReadIff`, with a concrete name in
  `Wires.LongNameIsMisread`.
- Not every head that one hop accepts reaches the next. Its headers must be stored: a folded line has a null name,
  names and values of 60 bytes or more are refused, as are bad numbers and a Content-Length. And an ingress adds two
  headers, so of a head with nine or ten it writes one with more than ten, which the next parser refuses.
  `HeaderRelays.RelayIff` gives the exact condition, `HeaderRelays.IngressAddsTwo` reads it at an ingress,
  `HeaderRelays.NineHeadersAreTooMany` is a concrete head.
- A local id of which the running number is a multiple of 2^32 cannot be a parent. `RpcIds.TopIdIsParent`.
- The size counter of the credit queue lags behind a push that has released the lock, and runs ahead of a pop
  inside it. `Locking.SizeLacksPushesIff`.
- docs/rpc_ids.md derives the local id at an ingress from the global id; the code takes it from a counter
  (src/rpc_message.cc:99-109), and so does the model.

## Contract notes

Two members promise less than a caller might expect; the program keeps clear of both cases, or no input is known that
leads to them.

- The writer prints at its own offset, not behind what the buffer holds, so a request written into a buffer that is
  not empty would overwrite its front. Its only caller passes a new buffer (src/state.cc:229-233).
  `HeadParsers.Buffer.WriteRequest`.
- Routing under an upstream key that is in use is silently ignored and would leave the three indexes in disagreement.
  `RpcMappers.RpcMapper.Route`.

## Model

| member | source | states |
|---|---|---|
| SchedulerProofs.ScanFindsReady | src/credit_queue.cc:26-46 | a scan of a level stops at the first endpoint of the ring that has a request and room |
| SchedulerProofs.PopFromSound | src/credit_queue.cc:108-134 | the rotation keeps the queue well-formed and either grants one head from below both limits or changes only the rotation |
| SchedulerProofs.PopSound | src/credit_queue.cc:95-134 | a pop takes the head of one FIFO whose endpoint is strictly below its limit with the total below the global limit, adds one to both counters, and leaves every other FIFO alone |
| SchedulerProofs.FailedPopVisitsAll | src/credit_queue.cc:108-134 | a pop that returns nothing has turned past all three levels and found none ready |
| SchedulerProofs.PopNoneIffNothingGrantable | src/credit_queue.cc:95-134 | a pop returns nothing if and only if no queued request is below both limits |
| SchedulerRuns.ApplyProgress | src/credit_queue.cc:95-134 | every successful pop of another endpoint brings a waiting endpoint nearer, every other operation keeps its distance |
| SchedulerRuns.WaitIsBounded | src/credit_queue.cc:95-134 | the number of grants before the head of a ready endpoint is served is bounded by its distance in the weighted rotation |
| SchedulerRuns.NoStarvation | src/credit_queue.cc:95-134 | an endpoint that stays backlogged and below its limit gets its head request granted within 21 grants per endpoint, whatever else happens |
| SchedulerRuns.FifoOrder | src/credit_queue.cc:13-47 | over any run and for each endpoint and priority, what was queued or pushed is what was granted followed by what still waits, in order |
| SchedulerRuns.LeafStaysWithinLimits | src/credit_queue.cc:95-148 | a leaf service with fixed limits keeps both counters within them in every reachable state |
| Slots.MaskIsModulo | include/fast_map.hpp:707-717 | masking with a power of two less one is the remainder by that power |
| Slots.Pow2Test | include/fast_map.hpp:691-694 | `cap & (cap - 1)` is zero exactly for powers of two |
| Slots.SlotIndexIsModulo | include/fast_map.hpp:707-717 | both layouts index by the remainder of the hash by the capacity |
| Slots.AdvanceIsNextRank | include/fast_map.hpp:572-612 | one iterator step goes to the next occupied slot, wrapping past the end |
| Slots.FullTurn | include/fast_map.hpp:557-626 | stepping as often as there are keys visits every occupied slot exactly once and comes back to the start |
| LocalMaps.TryBuild | include/fast_map.hpp:686-705 | a build succeeds exactly when the seed sends no two keys to one slot, and then each key stands at its slot and nothing else does |
| LocalMaps.BuildTable | include/fast_map.hpp:404-425 | the first seed that fits is taken, first with one slot per key, and when none of the 100000 fits, with a power of two; failure means that none fits either way |
| LocalMaps.DoubleCapacity | include/fast_map.hpp:416-418 | the fallback capacity is the least power of two that holds twice the keys |
| LocalMaps.KeyAtItsPlace | include/fast_map.hpp:439-448 | in a table a key can only stand at the slot its hash names |
| LocalMaps.LocalMap.constructor | include/fast_map.hpp:388-426 | a map that found a seed holds exactly the given keys at that seed's slots, and it is the first seed that fits; duplicates are reported, and key sets that no seed fits in either layout |
| LocalMaps.LocalMap.Probe | include/fast_map.hpp:708-717 | the probed index is inside the table |
| LocalMaps.LocalMap.FindPtr | include/fast_map.hpp:439-448 | lookup finds a slot if and only if the key was built, and then the slot of that key |
| LocalMaps.LocalMap.Get | include/fast_map.hpp:439-448 | the value found is the value a plain map has |
| LocalMaps.LocalMap.Set | include/fast_map.hpp:439-448 | storing a value changes the plain map at that key only |
| LocalMaps.LocalMap.SkipEmpty | include/fast_map.hpp:572-594 | the iterator settles on the first occupied slot at or after its index, wrapping |
| LocalMaps.LocalMap.Next | include/fast_map.hpp:602-612 | one step of the iterator is one step around the ring of keys |
| LocalMaps.TableRing | include/fast_map.hpp:557-626 | the iterator of a table walks a ring that lists each key once |
| CreditQueues.InnerCreditQueue.constructor | src/credit_queue.cc:10-11 | a new level is empty and its iterator stands on the first endpoint |
| CreditQueues.InnerCreditQueue.Push | src/credit_queue.cc:13-17 | the request joins the end of its endpoint's FIFO and nothing else changes |
| CreditQueues.InnerCreditQueue.Scan | src/credit_queue.cc:26-46 | the loop stops at the same endpoint as the plain scan, or comes back to its start |
| CreditQueues.InnerCreditQueue.Take | src/credit_queue.cc:31-38 | the head of the FIFO under the iterator leaves, both counters go up, the iterator moves on |
| CreditQueues.InnerCreditQueue.Pop | src/credit_queue.cc:19-47 | a level grants its first ready endpoint from the iterator on, or nothing when none is ready |
| CreditQueues.CreditQueue.constructor | src/credit_queue.cc:49-68 | an empty queue with the configured limits; a leaf's global limit is over-committed, an intermediate service has none |
| CreditQueues.CreditQueue.Push | src/credit_queue.cc:72-78 | equals the plain push at that priority |
| CreditQueues.CreditQueue.AddInFlight | src/credit_queue.cc:136-148 | both counters of one endpoint move together |
| CreditQueues.CreditQueue.UpdateEndpointLimit | src/credit_queue.cc:80-86 | sets the limit of one endpoint only |
| CreditQueues.CreditQueue.UpdateGlobalLimit | src/credit_queue.cc:88-93 | sets the global limit only |
| CreditQueues.CreditQueue.ModelIsWf | src/credit_queue.cc:49-78 | the size counter is zero exactly when no level holds a request |
| CreditQueues.CreditQueue.Pop | src/credit_queue.cc:95-134 | the class returns what the plain scheduler grants and ends in the state it ends in, rotation included |
| CreditQueues.CreditQueue.Rotate | src/credit_queue.cc:107-133 | the loop visits each level at most once and ends as the plain rotation does |
| CreditQueues.CreditQueue.TryLevel | src/credit_queue.cc:109-120 | one turn grants the first ready endpoint of the level and counts the round, or changes nothing |
| CreditQueues.CreditQueue.PopLevel | src/credit_queue.cc:109-121 | the level under the iterator pops on the shared counters and the size follows |
| CreditQueues.CreditQueue.CountRound | src/credit_queue.cc:112-116 | the last round of a level hands over to the next with that level's weight |
| CreditQueues.CreditQueue.AdvanceLevel | src/credit_queue.cc:122-124 | the rotation moves to the next level with its full weight |
| Beats.StepKeepsIdle | src/state.cc:891-911 | the single pop after a push or decrement leaves no grantable request, as long as limits are not raised and also when increments intervene |
| Beats.OnePopSettlesIff | src/credit_queue.cc:95-134 | one pop leaves nothing grantable if and only if, before it, the total left room for at most one grant, or at most one endpoint had a request and room and none had two of both |
| Beats.StepSettlesIff | src/state.cc:974-1018 | every event that pops, whatever it does to either limit and whatever waited before, leaves nothing grantable exactly under that condition right before its pop |
| Beats.RaiseKeepsIdleIff | src/state.cc:974-1018 | from an idle queue, a raised endpoint limit leaves a grantable request behind exactly when it makes room for a second grant, the total does so too, and a second request waits |
| Beats.RaisedLimitsLeaveOne | src/state.cc:999-1018 | on a leaf with one credit out and its limits used up, an event that raises both limits grants one of two requests and leaves the other grantable |
| Beats.BlockedMeansInFlight | src/credit_queue.cc:95-134 | with positive limits, a queue in which nothing is grantable holds requests only while a credit is out |
| Beats.StepNoWedge | src/state.cc:891-911 | every event keeps: a non-empty credit queue implies at least one credit in flight |
| Protocol.WithoutIsTheRest | src/state.cc:638-662 | the downstreams that get their credit back are all but the chosen one |
| Protocol.CollectKeeps | src/state.cc:638-662 | before the last grant of a dynamic fan-out nothing is sent and the credits of the others are kept |
| Protocol.DynamicFanoutIsExact | src/state.cc:624-672 | whatever the order of the grants, the last one sends the one sub-request to the chosen service and one Credit Return to each other downstream, and the RPC's own slot is released once |
| Protocol.ReturnsAllOthersIff | src/state.cc:638-662 | as many messages leave as there are downstreams, so that each but the chosen has its credit back, if and only if the mapping lists the chosen one once |
| Worlds.GrantPossible | src/state.cc:624-672 | in every reachable state a grant names a known RPC and a sub-request that waits for it, so the fatal branches are never taken |
| WorldRpcs.GrantKeepsRpc | src/state.cc:624-672 | a grant keeps an RPC's counters in step with what happened to its sub-calls, and gives its slot back exactly when the handler decrements |
| WorldRpcs.GrantPending | src/state.cc:655-668 | after a grant the sub-requests without credit are those before it less the one that was sent |
| WorldRpcs.CallKeepsRpc | src/state.cc:563-618 | a sub-call keeps the counters in step and takes no slot |
| WorldRpcs.AnswerKeepsRpc | src/state.cc:727-742 | a sub-response keeps the counters in step and takes the slot again exactly when the handler increments |
| WorldRpcs.FinishedHoldsOne | src/state.cc:418-421 | an RPC that has heard from all its sub-calls holds exactly one slot if and only if its parallel round is whole or absent, and two otherwise |
| WorldRpcs.HoldsOneIff | src/state.cc:624-742 | at any moment an RPC holds exactly one slot if and only if its sub-request side has let go just when its response side has taken hold; in parallel mode, when it holds two and when none |
| WorldSteps.SubCallIsFresh | src/state.cc:563-590 | a sub-call's id is not among those that wait for credit |
| WorldSteps.NextKeepsInv | src/state.cc:398-427 | every event keeps the whole invariant: counters, ledgers, waiting sub-requests, balance |
| WorldRuns.FreshIsInv | src/state.cc:1132-1135 | a sidecar that just started satisfies the invariant |
| WorldRuns.CreditsAreConserved | src/state.cc:624-742 | after any run each endpoint's counter is the grants, requests and returns in transit plus the slots its admitted RPCs hold, and the total is their sum, in all three modes |
| WorldRuns.CountersNotNegative | src/credit_queue.cc:136-148 | no counter is negative in any reachable state |
| WorldRuns.AllCreditsComeBack | src/credit_queue.cc:136-148 | with nothing in transit and no RPC left every counter is zero |
| WorldRuns.NextIsOneBeat | src/state.cc:398-427 | every event touches the credit queue by one push, decrement or increment with at most one pop, or not at all |
| WorldRuns.BeatIsCovered | src/credit_queue.cc:143-148 | no event decrements a counter that is zero |
| WorldRuns.NoGrantableRequestWaits | src/state.cc:1114-1125 | over whole runs without raised limits no event leaves a grantable request waiting |
| WorldRuns.AlwaysIdleIff | src/state.cc:974-1018 | over whole runs with any changes of limits, no event leaves a grantable request waiting if and only if at most one could be granted right before each pop |
| WorldRuns.NothingWedges | src/state.cc:974-1018 | over whole runs with limits of at least one, waiting requests imply a credit in flight |
| WorldRuns.FreshIsQuiet | src/state.cc:1132-1135 | a sidecar that just started meets what these run theorems start from |
| WorldProgress.RpcLeadsToRelease | src/state.cc:624-742 | an admitted RPC can always go on: steps of its own lead to a release, at the latest its answer |
| WorldProgress.CreditsComeBack | src/state.cc:1119-1125 | from every state with a credit in flight, a run without new Credit Requests ends in a decrement with its pop |
| WorldProgress.WaitingLeadsToRelease | src/state.cc:891-911 | while anything waits in an unwedged queue, such a run exists |
| WorldProgress.HalfRoundHoldsTwo | src/state.cc:727-742 | from a fresh sidecar a run leads to a parallel RPC with all its sub-calls answered that holds two slots |
| Sidecars.PPMQueue.constructor | src/ppm_queue.cc:12-18 | an empty queue |
| Sidecars.PPMQueue.Push | src/ppm_queue.cc:20-38 | a sub-request joins the queue under its service and id |
| Sidecars.PPMQueue.Pop | src/ppm_queue.cc:40-64 | exactly the sub-request of that service and id leaves |
| Sidecars.Sidecar.constructor | src/state.cc:68-80 | no RPC, nothing sent, the given credit queue |
| Sidecars.Sidecar.CheckCreditTransmission | src/state.cc:891-911 | one pop; a granted request leaves as one Credit Grant |
| Sidecars.Sidecar.OnCreditRequest | src/state.cc:1068-1115 | limits, push and one pop happen as in the protocol function |
| Sidecars.Sidecar.UpdateLimits | src/state.cc:974-1018 | only the limits that the control law changes are set |
| Sidecars.Sidecar.Release | src/state.cc:1119-1125 | a decrement followed by one pop |
| Sidecars.Sidecar.OnRequest | src/state.cc:369-386 | an admitted request becomes an RPC with a new id (src/rpc_message.cc:17-26) and empty credit fields |
| Sidecars.Sidecar.SubCall | src/state.cc:563-618 | a sub-call waits for credit and asks its downstream, or all of them in dynamic fan-out |
| Sidecars.Sidecar.RequestAll | src/state.cc:603-609 | one Credit Request to each mapped downstream, in order |
| Sidecars.Sidecar.FanoutReqManagement | src/state.cc:624-672 | the handler of a grant ends in the state, with the messages, of the protocol function |
| Sidecars.Sidecar.BranchCredit | src/state.cc:624-672 | the counting, sending and releasing part of that handler, in all three modes |
| Sidecars.Sidecar.DynamicCredit | src/state.cc:638-662 | the dynamic case: count, keep the other credits, and at the last grant send once and return the rest |
| Sidecars.Sidecar.ReturnAll | src/state.cc:654-660 | one Credit Return leaves per kept credit, in the order they were kept |
| Sidecars.Sidecar.FanoutResCreditManagement | src/state.cc:727-742 | the handler of a sub-response increments at the first of a parallel round and at every one otherwise |
| Sidecars.Sidecar.OnResponse | src/state.cc:418-421 | the response of a hosted call decrements once, pops once, and forgets the RPC |
| Ingresses.Ingress.constructor | src/ingress.cc:27-33 | empty deque, no Credit Request out |
| Ingresses.Ingress.EnqueueRpc | src/ingress.cc:55-77 | a request is admitted exactly below the cap and dropped otherwise |
| Ingresses.Ingress.DequeueRpc | src/ingress.cc:79-96 | the head leaves and the request flag is cleared |
| Ingresses.Ingress.SendCreditRequestChecker | src/ingress.cc:185-189 | a Credit Request is due exactly when the deque is not empty and none is out |
| Ingresses.Ingress.IngressPreCredit | src/state.cc:822-836 | asks for the head when a Credit Request is due, and for nothing else |
| Ingresses.Ingress.IngressPostCredit | src/state.cc:838-866 | a grant forwards the head and asks for the next |
| Ingresses.NextKeepsCycle | src/ingress.cc:79-96 | the flag is set exactly when the deque is not empty, one message is out then, a grant never meets an empty deque, and the request it releases is the one it was asked for |
| Ingresses.ForwardedInOrder | src/ingress.cc:55-96 | over any run, with drops and cap changes, requests are forwarded once each in the order of their admission |
| Locking.StepKeepsInv | include/spinlock.hpp:10-14 | one load, store or atomic step of any thread keeps mutual exclusion, loaded values valid, and the counters in order |
| Locking.RunKeepsInv | src/credit_queue.cc:72-148 | so does every interleaving |
| Locking.FreeLockMeansConsistent | src/credit_queue.cc:136-148 | whenever the lock is free the total equals the sum over the endpoints |
| Locking.SizeLacksPushesIff | src/credit_queue.cc:72-121 | size plus the pushes between unlock and count equals the queued buffers modulo 2^64, exactly unless a thread stands inside the lock between changing the queue and releasing or counting |
| Locking.SizeIsExact | src/credit_queue.cc:72-121 | with no push or pop between its change and its count the size is exact |
| Locking.ZeroSizeMeansPushUnderWay | src/credit_queue.cc:95-98 | a pop that reads size zero over a non-empty queue has overtaken a push |
| Wires.UnsignedBigEndian | src/state.cc:744-795 | most significant byte first, a number is read back modulo its width |
| Wires.SignedBigEndian | src/state.cc:500-530 | every number that fits is read back, negative ones included |
| Wires.RequestNumbers | src/state.cc:744-795 | id, send time, delay and priority of a request are read as written |
| Wires.ServiceIsReadIff | src/state.cc:481-490 | the service is read back exactly below 128 bytes in all, while the dispatcher accepts up to 255 |
| Wires.LongNameIsMisread | src/state.cc:481-490 | a name of 102 bytes is dispatched and then read past the message |
| Wires.GrantCarriesRequest | src/state.cc:868-911 | a grant keeps the id, service, priority and send time of its request and goes to the client |
| Wires.ReturnCarriesGrant | src/state.cc:674-694 | a return keeps id and service of its grant and goes to the server |
| Wires.ServiceSurvivesTheTrip | src/state.cc:1035-1066 | request, grant and return name the same service and id and reach the side that handles each |
| Wires.WriteNumber | src/state.cc:757-764 | the bytes of a number are written at a place and nothing around it changes |
| Wires.WriteRequest | src/state.cc:744-795 | the buffer starts with the request; the byte for granted credits keeps what the buffer held |
| Wires.WriteGrant | src/state.cc:868-882 | the buffer holds the request with the grant's flags and waiting time |
| RpcIds.UnpackPack | src/rpc_message.cc:19-26 | neither half of a packed id is lost, also when the number is negative |
| RpcIds.PackedIdsDiffer | src/rpc_message.cc:19-26 | two ids are equal exactly when both halves are; ids made within 2^32 of each other differ |
| RpcIds.TopIdIsParent | src/rpc_message.cc:112-126 | an id made without parent lies in the range a parent must have exactly when the running number is not a multiple of 2^32 |
| RpcIds.SubRequestFindsParent | src/rpc_mapper.cc:85-96 | the upper half of a sub-request's id is its parent's id |
| RpcIds.NoIdIff | src/rpc_message.cc:19-33 | a packed id reads as "no id" at exactly one pair of halves |
| RpcIds.IdSource.NewLocalId | src/rpc_message.cc:17-26 | the counter goes up by one and the id holds it and the parent |
| RpcMappers.RpcMapper.constructor | src/rpc_mapper.cc:9-44 | empty indexes agree |
| RpcMappers.RpcMapper.Allocate | src/rpc_mapper.cc:46-59 | a new RPC is found under its downstream key and the indexes still agree |
| RpcMappers.RpcMapper.Route | src/rpc_mapper.cc:67-83 | the id index gains the RPC, the upstream index only if the key was free; the indexes agree afterwards if and only if it was |
| RpcMappers.RpcMapper.Remove | src/rpc_mapper.cc:129-136 | no index has an entry for the RPC any more, and all other entries stay |
| RpcMappers.RpcMapper.RoutedIsFound | src/rpc_mapper.cc:98-127 | a routed RPC is found under its downstream, upstream and id keys and under no other |
| RpcMappers.RpcMapper.SubRequestFindsHost | src/rpc_mapper.cc:85-96 | a sub-request's packed id finds the routed call it was made for |
| Chunks.StepIsSound | src/picohttpparser.c:552-585 | sixteen digits never leave a 64-bit word, and the other phase facts hold after every byte |
| Chunks.RunSplits | src/picohttpparser.c:543-676 | one reading of two pieces is two readings |
| Chunks.PiecesDoNotMatter | src/picohttpparser.c:543-676 | any segmentation gives the payload, end and completion point of one reading, unless the overhead guard fires at the end of an unfinished call, and then it fails |
| ChunkedDecoders.MoveDown | src/picohttpparser.c:605-621 | bytes move down over an overlapping stretch unharmed |
| ChunkedDecoders.ChunkedDecoder.constructor | src/picohttpparser.c:543-552 | a new decoder expects a chunk size |
| ChunkedDecoders.ChunkedDecoder.ScanSize | src/picohttpparser.c:552-585 | the digit loop ends where and as the byte machine does |
| ChunkedDecoders.ChunkedDecoder.ScanLine | src/picohttpparser.c:586-593 | skipping to the line feed changes nothing of what lies ahead |
| ChunkedDecoders.ChunkedDecoder.SkipReturns | src/picohttpparser.c:623-629 | nor does skipping carriage returns |
| ChunkedDecoders.ChunkedDecoder.TurnExt | src/picohttpparser.c:586-604 | the extension ends at its line feed; size zero ends the body or starts the trailer |
| ChunkedDecoders.ChunkedDecoder.TurnData | src/picohttpparser.c:605-622 | payload is moved down as far as it is there, and the unread input stays as it was |
| ChunkedDecoders.ChunkedDecoder.TurnCrlf | src/picohttpparser.c:623-636 | returns and one line feed must follow the payload |
| ChunkedDecoders.ChunkedDecoder.TurnHead | src/picohttpparser.c:637-647 | an empty trailer line ends the body |
| ChunkedDecoders.ChunkedDecoder.TurnMiddle | src/picohttpparser.c:648-658 | any other trailer line is skipped |
| ChunkedDecoders.ChunkedDecoder.Turn | src/picohttpparser.c:550-661 | one phase keeps: payload at the front, input unread, same result ahead |
| ChunkedDecoders.ChunkedDecoder.Turns | src/picohttpparser.c:550-661 | the loop ends with the input used up or the outcome known, payload in front |
| ChunkedDecoders.ChunkedDecoder.Decode | src/picohttpparser.c:543-676 | a call leaves the payload at the front of the buffer with the undecoded bytes behind it, and returns their number, -2 or -1, as the byte machine and the guard say |
| ChunkedCodings.DecodeEncode | src/picohttpparser.c:543-676 | decoding a coded body followed by anything gives its payload and stops right behind it, with and without trailers |
| ChunkedCodings.HexRoundTrip | src/picohttpparser.c:530-541 | a size written in hex is read back, with no more digits than needed |
| ChunkedCodings.AnyPayloadHasAChunk | src/picohttpparser.c:552-585 | every non-empty payload that a 64-bit word can count has a valid chunk |
| HeadProofs.HeadAgrees | src/picohttpparser.c:355-399 | a definite outcome depends only on the bytes taken, or on the bytes there were |
| HeadProofs.HeadIsStable | src/picohttpparser.c:355-399 | more bytes never change an outcome |
| HeadProofs.HeadIsTight | src/picohttpparser.c:355-399 | an accepted head is accepted from its own bytes alone and from no fewer |
| HeadProofs.HeadEnds | src/picohttpparser.c:298-399 | in an accepted head every carriage return precedes a line feed, and an empty line closes it |
| HeadProofs.TwoEndsFinds | src/picohttpparser.c:197-223 | started before the last line end, the shortcut finds the head complete |
| HeadProofs.ShortcutAccepts | src/picohttpparser.c:401-427 | with the previous length the parser accepts a read exactly when a parse from scratch does, with the same result |
| HeadProofs.ShortcutWaits | src/picohttpparser.c:401-427 | while a head that will be accepted is unfinished, the shortcut waits |
| HeadProofs.SessionsAgree | src/connection.cc:679-701 | over any segmentation the connection accepts at the read where parsing from scratch first accepts, with the same length and fields |
| HeadPrinters.PrintThenParse | src/connection.cc:1005-1031 | parsing what the writer's format makes of a request that the parser can yield gives the request back and takes every byte, unless a header has no name: then it is refused |
| HeadPrinters.RefusesTooMany | src/picohttpparser.c:298-314 | more than ten headers in the writer's format are refused |
| HeadPrinters.PrintManyThenParse | src/connection.cc:1005-1031 | a request with valid headers, however many, is read back up to ten of them and refused beyond |
| HeadPrinters.HeadYields | src/picohttpparser.c:298-399 | what the parser yields: token names, values without controls and trimmed, at most ten headers |
| HeadPrinters.ReadBackIff | src/connection.cc:1005-1031 | format and parser invert each other on a request if and only if the parser can yield it and every header has a name |
| HeadPrinters.ParsePrintParse | src/connection.cc:1005-1031 | about the format and the parser alone: a parsed request in the writer's format parses to itself if and only if no header is folded |
| HeadParsers.ParseToken | src/picohttpparser.c:245-277 | the token loop |
| HeadParsers.TokenToEndOfLine | src/picohttpparser.c:134-195 | the scan to the end of a line |
| HeadParsers.TrimEnd | src/picohttpparser.c:341-350 | blanks at the end of a value are dropped |
| HeadParsers.ParseName | src/picohttpparser.c:315-331 | name, colon and blanks |
| HeadParsers.ParseHeader | src/picohttpparser.c:315-350 | one header line, named or folded |
| HeadParsers.ParseHeaders | src/picohttpparser.c:298-353 | the header loop ends with the headers and outcome of the recursive definition |
| HeadParsers.ParseVersion | src/picohttpparser.c:280-296 | the version is looked at once nine bytes are there |
| HeadParsers.SkipSpaces | src/picohttpparser.c:372-375 | spaces are skipped up to a byte that must be there |
| HeadParsers.ParseTarget | src/picohttpparser.c:369-384 | method, spaces, path, spaces, in the order the checks happen |
| HeadParsers.ParseRequest | src/picohttpparser.c:355-399 | the parser computes the head that the lemmas speak of |
| HeadParsers.IsComplete | src/picohttpparser.c:197-223 | the shortcut loop, from three bytes before the last length |
| HeadParsers.ParseSince | src/picohttpparser.c:401-427 | the parser with its shortcut |
| HeadParsers.Http1Connection.constructor | src/connection.cc:627-640 | an empty buffer |
| HeadParsers.Http1Connection.Read | src/connection.cc:667-832 | a read that does not fit stops the program; any other appends its bytes, parses with the previous length, waits, refuses, or hands over the request and empties the buffer |
| HeadParsers.Buffer.constructor | src/connection.cc:986-1003 | an empty output buffer |
| HeadParsers.Buffer.Append | src/connection.cc:986-1003 | text goes where the write stands, exactly when it and a zero byte fit into what is not filled |
| HeadParsers.Buffer.WriteRequest | src/connection.cc:1005-1031 | the head stands at the front of the buffer as the printer defines it, exactly when it fits; it is the whole contents when the buffer was empty |
| RpcHeaders.NumberOfDecimal | src/rpc_message.cc:377-386 | a printed number consists of digits and reads as itself |
| RpcHeaders.StollOfDecimal | src/rpc_message.cc:335-337 | the library's signed conversion reads a printed 63-bit number back, whatever stands behind its digits |
| RpcHeaders.Message.constructor | src/rpc_message.cc:30-32 | a message without ids and headers; its priority is what the pool left |
| RpcHeaders.Message.AddHeaderField | src/rpc_message.cc:313-375 | one header is stored, or sets an id or the priority, or stops the program, in all the cases of the plain function |
| RpcHeaders.Message.AddHeaderFields | src/connection.cc:783-788 | the loop over the parsed headers ends as the plain fold does |
| RpcHeaders.HostIdComesBack | src/rpc_message.cc:335-352 | the id printed for a hosted call and handed back on a sub-request is accepted exactly unless its running number is a multiple of 2^32, leads to that call, and is not passed on |
| HeaderRelays.AddAllIff | src/rpc_message.cc:313-375 | a request's headers are all stored if and only if each is named, short and, where it carries a number, in range; what is then kept, and which ids and priority result |
| HeaderRelays.CompleteAtIngress | src/ingress.cc:129-152 | the two headers an ingress adds always fit, give the request an id and a priority, and print without their padding |
| HeaderRelays.CompleteToService | src/rpc_message.cc:377-386 | a call with an id is handed to its service with that id behind its headers; one without is fatal |
| HeaderRelays.RelayedIsParsed | src/state.cc:304-334 | when anything is written for a parsed request, what it is, and whether the next parser reads it as the headers passed on or refuses it |
| HeaderRelays.RelayIff | src/connection.cc:667-811 | what is received reaches the next hop's parser intact if and only if it is one admitted head whose headers are fine, that has its ids, fits the buffer, and is passed on with at most ten headers |
| HeaderRelays.IngressAddsTwo | src/ingress.cc:55-77 | at an ingress: if and only if, among the rest, the head has at most eight headers |
| HeaderRelays.NineHeadersAreTooMany | src/ingress.cc:55-77 | a concrete head with nine headers is accepted and written, and refused by the next hop |
| TDigests.QSort | src/tdigest.c:261-278 | some sorted reordering of the nodes |
| TDigests.JoinConserves | src/tdigest.c:291-294 | joining two nodes keeps count and mass, and the mean stays between theirs |
| TDigests.PackedConserves | src/tdigest.c:282-306 | a pass over sorted nodes keeps total count and mass and leaves the means sorted, for any size policy |
| TDigests.Histogram.constructor | src/tdigest.c:66-86 | an empty histogram |
| TDigests.Histogram.TotalSum | src/tdigest.c:120-129 | the sum of mean times count over all nodes |
| TDigests.Histogram.Merge | src/tdigest.c:273-311 | the in-place merge is the packing of a sorted reordering of the nodes and keeps both totals |
| TDigests.Histogram.SortAndPack | src/tdigest.c:277-306 | sorting and packing keep both totals and leave sorted positive nodes in front |
| TDigests.Histogram.Pack | src/tdigest.c:282-306 | the loop leaves the packed nodes in front and zero nodes behind them |
| TDigests.Histogram.PackOne | src/tdigest.c:285-305 | one turn joins the node or starts a new one |
| TDigests.Histogram.Add | src/tdigest.c:249-259 | both totals grow by what is added; with room the node is appended |
| TDigests.Histogram.MergeFrom | src/tdigest.c:90-97 | both totals grow by the nodes taken over and the other histogram keeps its own |
| TDigests.Histogram.Pour | src/tdigest.c:93-96 | the nodes of the other histogram are added one by one |
| TDigestQueries.ValueIsMonotone | src/tdigest.c:171-213 | the value found never falls as the goal grows and stays between the first and last mean |
| TDigestQueries.ValueAtIsMonotone | src/tdigest.c:171-213 | so for quantiles from zero to one, both included |
| TDigestQueries.ValueAtCentre | src/tdigest.c:189-192 | at its own centre a node's mean is found |
| TDigestQueries.RankIsPlaced | src/tdigest.c:131-169 | the rank of a value lies between the centres around it, runs of equal means included |
| TDigestQueries.RankIsMonotone | src/tdigest.c:131-169 | larger values have no smaller ranks |
| TDigestQueries.QuantileOfIsMonotone | src/tdigest.c:131-169 | quantiles are monotone and lie between zero and one |
| TDigestQueries.ValueOfRankOfMean | src/tdigest.c:131-213 | the value at the quantile of a mean is that mean, also inside a run of equal means |
| TDigestQueries.ValueOfRankBetween | src/tdigest.c:131-213 | between two means the value at the quantile of v is v if and only if no centre is near enough to snap to |
| TDigestQueries.FindNode | src/tdigest.c:178-188 | the scan stops at the first node that ends past the goal |
| TDigestQueries.Read | src/tdigest.c:189-213 | the interpolation returns the value the lemmas speak of, also when the scan ran out |
| TDigestQueries.ValueAt | src/tdigest.c:171-213 | merges, then returns that value, or none for a bad quantile or an empty digest |
| TDigestQueries.Search | src/tdigest.c:178-213 | scan and interpolation of a merged digest |
| TDigestQueries.ScanBelow | src/tdigest.c:136-145 | the scan stops at the first node whose mean reaches the value |
| TDigestQueries.CountBelow | src/tdigest.c:131-169 | the scan and its three cases compute the rank |
| TDigestQueries.CountAt | src/tdigest.c:149-152 | the count of a run of equal means |
| TDigestQueries.QuantileOf | src/tdigest.c:131-169 | merges, then returns the rank over the total, or none for an empty digest |

## Left out

- Sockets, io_uring, listeners, connection pools, DNS, HTTP/2 (nghttp2), YAML, logging, state dumps: plumbing and foreign libraries.
- Response heads (`parse_response`) and stand-alone header parsing: the same pieces again.
- HeaderRelays.Relay: an empty Content-Length value is converted from what follows it in the buffer, which enters as an arbitrary number; that an ingress drops requests above its cap is `Ingresses.Ingress.EnqueueRpc`.
- The down-connection branch of `route_request`, plain-frontend mode and connection tear-down.
- The control laws (RTT averages, utilization, AIMD): what they decide enters as an arbitrary new limit or cap.
- The FNV hash: any function of key and seed. The empty key set is not supported by the table's users and is not modelled.
- SSE scans and the eight-byte unrolled loop: the portable scan they equal.
- Buffer and message pools: buffers are values, a removed RPC is not reused.
- `td_decay`, `td_reset`, `td_trimmed_mean` and the logarithmic size limit of a merge: decay and reset are one loop each; the limit is an arbitrary policy. Floating-point rounding: reals.
- TDigests.Histogram.Add: the program writes past the array when a merge frees no node; here that is an outcome that adds nothing.
- TDigests.Histogram.MergeFrom: stops counting at the first node without room, for the same reason.
- Chunks.Feed: the two overhead totals are unbounded; the program keeps them in 64-bit words.
- CreditQueues.CreditQueue.AddInFlight: counters and limits are unbounded; the program keeps them in 32-bit words.
- Sidecars.Sidecar.OnRequest: RPC objects are values in a table keyed by id, so aliasing between the tables that hold one object is modelled only in `RpcMapper`.
- Worlds.Guard: a lost or duplicated datagram, and a second or partial fan-out round, are excluded; `WorldProgress.HalfRoundHoldsTwo` shows what a partial round does.
- Locking.Step: which endpoint a pop picks is arbitrary among those the limits allow; the choice itself is `CreditQueues.CreditQueue.Pop`. Memory is sequentially consistent.
- RpcMappers.RpcMapper.Route: the nested tables by connection type, descriptor and stream are one table each.
- HeadParsers.Http1Connection.Read: what follows a received request (routing, admission at an ingress) is in the other modules.
