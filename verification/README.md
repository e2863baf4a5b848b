# LocalGateway: verified model

LocalGateway sits between chat clients and several LLM providers. It picks an order of backends, tries
them one after another, relays the answer as an event stream, and keeps the state this needs: circuit
breakers, cooldowns, client quotas, a response cache, cache warmth, a batch writer for its tables and a
configuration file with backups. This project models those parts in Dafny and proves what they promise.

Run `dafny verify dfyconfig.toml` to check everything.

## How the model is organised

Code of the program that works on state step by step is a class or a method with loops. Each is proved
equal to a specification function; the laws are then proved about the specification. What a method and its
specification both call, a sort key or a list of statuses say, has laws of its own that spell it out in numbers,
bytes and fields.

| files | part of the program |
|---|---|
| `routing`, `routing_laws`, `routing_affinity`, `routing_draws`, `routing_decay`, `router` | backend selection |
| `routing_order`, `routing_lead` | which backends a selection yields, which of two comes first and who leads, in terms of a call's fields |
| `json_values`, `provider`, `streaming`, `streaming_laws` | one upstream stream, and the failover over several |
| `usage_shift`, `streaming_shift`, `streaming_cuts`, `streaming_raises` | moving prompt tokens to cached tokens in relayed usage numbers, what a client then reads, and when a request breaks off |
| `request` | chat requests that are not streamed |
| `failover` | which failures pass a request on and which end it, by status |
| `sse`, `sse_laws`, `sse_roundtrip`, `sse_bytes` | the event-stream parser and printer |
| `reasoning`, `reasoning_stream`, `reasoning_laws` | the rewriting of reasoning fields, on objects and on streams |
| `usage_laws`, `utf8_laws` | the moved tokens field by field, and the chunks that are looked at byte by byte |
| `dbwriter` | the background batch writer and every interleaving of its clients |
| `config` | saving, rotating, loading and restoring the configuration file |
| `circuitbreaker`, `ratelimit`, `clientquota` | admission state driven by time |
| `respcache`, `stats`, `usage` | response cache, in-flight counts and warmth, percentiles |
| `inflight` | the in-flight counts under concurrent requests |
| `sorting`, `sequences`, `wrappers` | stable sorting, sequences, options |

## Assumptions

- Clocks are parameters that do not decrease; times, weights and prices are exact reals. So the circuit
  breaker is modelled up to trip 1024 of one circuit: at the next the program multiplies a float by
  2**1024, which raises OverflowError (src/localgateway/circuitbreaker.py:96).
- What runs under a lock is one step. The batch writer has no lock, so its enqueue, stop and worker are
  split into the steps that other threads can come between.
- One selection sees one snapshot of availability, in-flight counts, warmth and statistics. The program
  asks for availability again at src/localgateway/router.py:357-358, 382, 451-452 and 513.
- Random numbers are parameters: one for each tier and one for the order of the tiers.
- Provider ids hold no colon, so a provider and a model make one key.
- Text is a sequence of code points that may be halves of surrogate pairs, as a Python str is. Reading JSON
  is a function that joins pairs; printing it as UTF-8 succeeds exactly when no half is left, printing it
  escaped to ASCII may fail; both are undone by reading. Printed JSON has no raw line end, and the end mark
  `[DONE]` is not JSON. Adding an integer to a float is a function that may fail.
- Applying an SQL statement is a function that may fail and then changes nothing. Reading a configuration
  file and validating it are functions that may fail in a way the load expects, or in another.
- A file rename or replace is atomic, a write is not: it can leave any content in its target, and any
  file step can fail. Every state the files pass through is recorded and is a possible crash.

## Findings

What the proofs showed about the program. Where a promise fails, one lemma gives an input that shows it and
another the exact condition under which it holds.

- A CRLF pair cut by the network counts as two line ends: src/localgateway/sse.py:85 turns a trailing CR
  into LF at once, so the branch at 78-81 is never taken (`SseRoundTrip.CutInCrLfIsTwoEvents`,
  `SseLaws.CleanCutsExactly`; `SseLaws.ChunkingShowsExactly` says when payloads differ). The comment at line 116
  names section 9.2.4; event-stream parsing is section 9.2.6 of the HTML Living Standard.
- An upstream that ends inside an event is relayed with its tail twice, because
  src/localgateway/provider.py:332-333 hands on bytes that line 330 has handed on already
  (`StreamingLaws.UnendedTailIsRepeated`, `StreamingLaws.TailRepeatedExactly`).
- A first chunk whose event has a number, or `true`, for its content makes `len` raise
  (src/localgateway/sse.py:207) after the chunk was counted as sent (src/localgateway/provider.py:328-330):
  the stream fails "in mid-stream" with nothing before it, the client gets error bytes without a dict of
  headers, and no other backend is tried (`StreamingLaws.NumericContentComesFirst`,
  `Provider.MidStreamExactly`, `StreamingLaws.MetaFirstExactly`, `StreamingLaws.MetaComesFirst`).
- Half an emoji in a reasoning delta, as a provider sends it that splits its text between the two halves of a
  surrogate pair, cannot be printed as UTF-8: `.encode("utf-8")` at src/localgateway/reasoning.py:77, 105 and
  123 raises outside every `try`, so a stream breaks off after its headers and a plain request raises, both
  without a usage row (`StreamingLaws.HalfEmojiBreaksOff`, `ReasoningStream.RewriteRaisesExactly`,
  `Request.NormalizingRaisesExactly`, `StreamingRaises.RequestBreaksOffExactly`).
- Without a price for cached input, which is the default, a count of cached tokens that is a text, say, makes
  the addition at src/localgateway/streaming.py:72 or 74 raise outside every `try`: a stream breaks off after
  its headers, a plain request raises, and neither leaves a usage row (`StreamingRaises.TextCountBreaksOff`,
  `UsageShift.LineRaisesExactly`, `StreamingRaises.RequestBreaksOffExactly`). A plain reply like `[]`, which is
  JSON and no object, raises at line 60 (`Request.EmptyListRaises`, `Request.SendingRaisesExactly`).
- Without a price for cached input, which is the default, a chunk is searched for the plain text `"usage"`
  before its numbers are moved (src/localgateway/streaming.py:98), and a changed chunk gets a line end more
  (line 122). So lines that escape that key, or share a chunk with malformed UTF-8, may be relayed as they are
  (`StreamingShift.ShiftedStreamExactly`), and both the payloads and the bytes a client gets can depend on the
  chunking (`StreamingCuts.EscapedKeyMovesPayload`, `StreamingShift.ExtraLineEndMoves`,
  `StreamingCuts.CutsShowExactly`); with plainly written keys the payloads do not
  (`StreamingShift.PlainUsageIsShifted`, `StreamingCuts.PlainPayloadsIgnoreCuts`).
- A row put after the worker's get has timed out and before it reads the running flag is lost when `stop`
  begins in between (src/localgateway/dbwriter.py:87-92), although it was accepted and nothing overlapped
  the stop. The flush in between makes that time long (`DbWriter.AcceptedRowIsLost`,
  `DbWriter.QuietStopExactly`, `DbWriter.LogShowsEveryLoss`).
- An enqueue that overlaps `stop` can write ahead of rows accepted earlier
  (`DbWriter.OverlappingEnqueueOvertakes`, `DbWriter.LogShowsEveryRace`).
- Renaming a provider onto an id in use lets a cooldown that expired long ago replace one that is
  running, so a limited backend looks free (`RateLimit.RenameOntoUsedIdShowsDrop`,
  `RateLimit.RenameShowsDropExactly`, `RateLimit.AlikeAfterRename`).
- Clearing the response cache does not cancel inserts still queued: a cleared answer comes back
  (`RespCache.ClearedEntryComesBack`, `RespCache.ClearHoldsExactly`).
- The rotation of backups moves slots 3 to 0 but not 4 out of the way when slot 3 is empty, so it is an
  exact shift only if slot 3 is filled or slot 4 is empty (`Config.GapKeepsTheOldest`,
  `Config.RotatedIsShiftExactly`).
- A configuration file like `{"providers": null}` stops the start of the gateway, however good its backups:
  src/localgateway/config.py:376 raises a TypeError, which line 409 does not catch
  (`Config.NullProvidersStopTheLoad`, `Config.FileRaisesExactly`, `Config.LoadFailsExactly`).
- A save while every file but slot 4 is malformed loses the only configuration that loads, if slot 3 is
  filled: until the new file is in place a load gives nothing (`Config.OnlyOldestIsLost`,
  `Config.ConfigStore.SaveConfig`).
- A write that fails is swallowed (src/localgateway/respcache.py:165-166), so with immediate writes too a
  hit can return an older body than the one stored last (`RespCache.FailedInsertShowsOlderBody`,
  `RespCache.LaterHitsExactly`, `RespCache.LastStoreExactly`).
- A `routing_decay` of -1, which the configuration accepts, divides by zero when an even number of tiers is
  drawn from (src/localgateway/router.py:594-596); no other value does (`RoutingDraws.SamplingFailsExactly`).
  The "decaying probability" that line 593 promises needs a decay from -1 to 1: above 1 a later tier is
  likelier to come first than the one before it, from -1 up to 0 the highest tier always does, and below -1
  only every other tier ever does (`RoutingDecay.LowestOfTwoAlways`, `RoutingDecay.DecaysExactly`,
  `RoutingDecay.SampledShare`).
- A client that waits exactly the time it was told is refused again; any longer and it is admitted
  (`ClientQuota.RetryAfterIsExact`).
- A provider named twice in a request's `order` has its backends tried twice, and refusing fallbacks has
  no effect when no named provider is eligible or affinity is on
  (`RoutingLaws.EmissionPermutesExactly`, `RoutingLaws.OnlyListedExactly`).
- Percentiles are rounded to two places, so they can leave the range of the values: those of 0.001 alone
  are 0 (`Usage.PercentileLeavesRange`, `Usage.PercentilesInRangeExactly`).
- The deferred ordered backends sorted at src/localgateway/router.py:362 are dropped; lines 381-384 collect
  them again and emit them unsorted (`RoutingLaws.DeferredUnsorted`, `RoutingLaws.DeferredSortedExactly`).
- The exits for a request that has committed at src/localgateway/streaming.py:844-846 and 924-928 cannot be
  reached: the corresponding branches of `Streaming.TryBackend` and `Streaming.HandleRequestStream` are proved dead.

## Model

| member | source | states |
|---|---|---|
| Router.BackendRouter.SelectBackends | src/localgateway/router.py:155-389 | the loops over dictionaries and lists yield exactly the specified order for this model's counter, for every configured decay, or raise exactly when drawing the tiers does; the counter advances exactly when the call gets past its early returns |
| Router.BackendRouter.NextRotation | src/localgateway/router.py:64-68 | returns the model's counter, 0 at first, and adds one to that model only |
| Router.GroupByPriority | src/localgateway/router.py:233-263 | each tier is the eligible backends of that priority in configuration order |
| Router.CollectPreferred | src/localgateway/router.py:270-278 | the index by provider gives each named provider's backends in tier order, once for each time it is named |
| Router.ArrangeTiers | src/localgateway/router.py:299-331 | skipping by backend key skips exactly the ordered providers; each tier is then sorted, drawn or rotated |
| Router.OutsideIsUnlisted | src/localgateway/router.py:302-309 | an eligible backend's key is among the preferred keys exactly when its provider is named |
| Router.WeightedRotation | src/localgateway/router.py:525-557 | the running-total loop stops at the drawn leader and the others follow in turn |
| Router.StaticWeightRotation | src/localgateway/router.py:560-585 | the same for configured weights, plain rotation when they add up to nothing |
| RoutingDecay.LowestOfTwoAlways | src/localgateway/router.py:588-610 | of two tiers the lower always comes first when the decay is below -1 |
| Router.SampleTierOrder | src/localgateway/router.py:588-610 | comparing with cumulated probabilities is comparing with cumulated shares, whatever the sign of the decay, and raises exactly when these total nothing; the drawn tier moves to the front |
| Router.EmitCacheAffinity | src/localgateway/router.py:423-522 | the routable part is one stable sort of ordered backends and tiers; the others follow unsorted |
| RoutingAffinity.OrderByAffinity | src/localgateway/router.py:463-508 | partitions, four sorts, the cap and the spill together are one stable sort by band, order rank, spilled before cold, and load; of any two backends the first may precede the second by warmth, load and cap |
| RoutingAffinity.BandsWithoutSpill | src/localgateway/router.py:465-508 | with nobody over the cap the four bands in sequence are that sort |
| RoutingAffinity.BandsWithSpill | src/localgateway/router.py:465-508 | moving warm backends over the cap before the cold busy ones, and breaking ties again, gives that sort too |
| RoutingAffinity.SpillBand | src/localgateway/router.py:497-503 | breaking ties a second time over spilled and cold backends leaves them sorted by rank, spilled first, then load |
| RoutingLaws.EmissionCount | src/localgateway/router.py:265-389 | on every path each eligible backend is yielded as often as the order names its provider, an unnamed one once unless only named ones are tried, and nothing else is |
| RoutingLaws.EmissionPermutesExactly | src/localgateway/router.py:265-389 | a selection is a reordering of the eligible backends if and only if the order names each of their providers at most once, and all of them when only they are tried |
| RoutingLaws.OnlyListedExactly | src/localgateway/router.py:280-293 | refusing fallbacks takes effect if and only if affinity is off and a named provider has an eligible backend |
| RoutingLaws.RoutableFirst | src/localgateway/router.py:280-389 | on every path no limited or broken backend comes before a routable one |
| RoutingLaws.TiersInOrder | src/localgateway/router.py:368-389 | in failover mode without order and affinity a tier is used up before the next, over the routable backends and again over the others |
| RoutingLaws.DeferredUnsorted | src/localgateway/router.py:357-384 | two deferred backends named slower first are emitted slower first although the lowest latency was asked for |
| RoutingLaws.DeferredSortedExactly | src/localgateway/router.py:357-384 | the deferred part is what the dropped sort would have given if and only if the caller's order already is so sorted |
| RoutingOrder.YieldedExactly | src/localgateway/router.py:185-293 | a backend is yielded if and only if it is one of the named model's, is enabled, is not ignored, its provider is switched on, the output and context limits and the time slot let it, and it is named when only named ones are tried |
| RoutingOrder.NamedExactly | src/localgateway/config.py:171-179 | a model's own id wins over any alias, and an earlier model over a later one |
| RoutingOrder.CheapestFirst | src/localgateway/router.py:71-115 | sorting by price puts the lower sum of input and output price first and the unpriced last, within a tier and among named providers |
| RoutingOrder.ShortestLatencyFirst | src/localgateway/router.py:93-96 | sorting by latency puts the shorter average first and the unmeasured last |
| RoutingOrder.FastestFirst | src/localgateway/router.py:97-112 | sorting by throughput puts the faster first and the unmeasured last; without measurements the higher success rate, and of equal ones the shorter latency |
| RoutingOrder.BestValueFirst | src/localgateway/router.py:116-124 | sorting by value puts more speed per price first, and last those without a speed or a price |
| RoutingOrder.WarmestFirst | src/localgateway/router.py:125-130 | sorting by cache puts the higher hit rate of a warm backend first, and of equal ones the shorter latency |
| RoutingOrder.AffinityFirst | src/localgateway/router.py:423-522 | with cache affinity every routable backend comes before the others, and of two routable ones the first may precede the second by warmth, load, cap and the caller's order |
| RoutingOrder.AffinityTiesByTier | src/localgateway/router.py:440-460 | of two unnamed routable backends, equally warm and equally loaded, the higher tier comes first |
| RoutingAffinity.AffinityKeepsRules | src/localgateway/router.py:463-508 | warm and idle before all others, warm and busy below the cap before the cold and the over-full, cold and idle before the cold and busy and the over-full; within these the caller's order, the last place of a provider counting, then warmth, then load |
| RoutingLead.CounterLeads | src/localgateway/router.py:317-329 | where all weigh 1, or nothing weighs more than 0, the model's counter decides who leads a tier |
| RoutingLead.WeightLeads | src/localgateway/router.py:320-326 | where weights differ, the backend leads whose part of the total, negative weights counting as 0, the draw falls on |
| RoutingLead.SpeedLeads | src/localgateway/router.py:203-212 | in explore mode with statistics the same by measured speed, the unmeasured having the average of all |
| RoutingLead.UnmeasuredLeads | src/localgateway/router.py:541-544 | a tier without measurements is led by the counter in that mode |
| RoutingLead.TierLeads | src/localgateway/router.py:368-379 | in explore mode without order and affinity the first backend tried is of a tier with just the probability that the configured decay gives it, 0 standing for 0.4 |
| RoutingDraws.LeadsExactly | src/localgateway/router.py:548-557 | a draw u picks item i if and only if u times the total lies between the running totals around i, an interval as long as its weight |
| RoutingDraws.StaticShare | src/localgateway/router.py:573-585 | configured weights give exact shares, and weight 0 or less never leads while the total is positive |
| RoutingDraws.TpsShare | src/localgateway/router.py:540-557 | measured speeds give exact shares, and a backend without measurements gets exactly one part in n |
| RoutingDecay.SampledShare | src/localgateway/router.py:588-610 | for every decay that draws: tier i comes first with its share of the geometric total; for a decay from -1 up to 0 the highest tier always; below -1 every other tier, counted from the lowest, with the share of it and its neighbour |
| RoutingDecay.ChanceIsLength | src/localgateway/router.py:598-605 | those draws are a stretch of the unit interval, so its length is the probability of coming first |
| RoutingDecay.DecaysExactly | src/localgateway/router.py:588-610 | that probability falls from tier to tier, as promised, if and only if the decay lies between -1 and 1 |
| RoutingDraws.GeometricTotal | src/localgateway/router.py:594-595 | the total of those weights in closed form |
| RoutingDraws.SamplingFailsExactly | src/localgateway/router.py:594-596 | dividing by the total raises if and only if the decay is -1 and the number of tiers even |
| RoutingDraws.EachLeadsOnce | src/localgateway/router.py:320-329 | with even weights, among k consecutive selections each of a tier's k routable backends leads it in exactly one |
| RoutingDraws.EachIsTriedFirst | src/localgateway/router.py:320-379 | in failover mode each routable backend of the highest tier is the first one tried in such a cycle |
| Routing.LastAt | src/localgateway/router.py:414-417 | a provider named twice ranks by its last place |
| Streaming.HandleRequestStream | src/localgateway/streaming.py:622-928 | the failover loop leaves exactly the specified output, usage rows, breaker news, in-flight marks and stored body, for every list of backends and every upstream, those whose first chunk cannot be observed and those whose rewrite cannot be printed among them |
| Streaming.TryBackend | src/localgateway/streaming.py:700-904 | one attempt, with its exits after commit proved dead: it ends the request if and only if it does not fall back, and has committed only if it ends it |
| StreamingLaws.ServedByDecider | src/localgateway/streaming.py:700-904 | a request is the failures passed over followed by what the first other backend alone would leave |
| StreamingLaws.OneMetaThenOneBackend | src/localgateway/streaming.py:697-928 | what is yielded is what the deciding backend alone yields: its headers and then bytes, an error dict, or, when its first chunk cannot be observed, just the two closing bytes items; nobody after it is attempted |
| StreamingLaws.MetaFirstExactly | src/localgateway/streaming.py:697-928 | exactly one dict is yielded, first, if and only if no event completed by the deciding backend's first chunk makes observing raise |
| StreamingLaws.MetaComesFirst | src/localgateway/streaming.py:640-695 | the same whatever the routing: cache hits and requests that cannot be routed always begin with their dict |
| StreamingLaws.NumericContentComesFirst | src/localgateway/sse.py:196-207 | a first event with the number 1 for content gives one mid-stream failure and no chunk, and the client gets error bytes without headers |
| StreamingLaws.AttemptsAccounted | src/localgateway/streaming.py:700-904 | usage rows are those of the attempted backends, one each and in order unless the last one raised, only the last can be a success, and each attempt is ended before the next starts |
| Failover.FallsBackExactly | src/localgateway/provider.py:15-358 | an attempt passes the request on if and only if it answers 429, 500, 502, 503 or 504, or its connection fails before the first byte |
| Failover.RetriedPassesOn | src/localgateway/streaming.py:805-855 | then the answer is that of the backends after it, behind one failed row, one start and end, and a failure for the circuit breaker unless the status is 429 |
| Failover.OtherStatusEnds | src/localgateway/streaming.py:805-843 | any other error status ends the request with that very status, or 502 for none, and nobody else has a flight; the circuit breaker hears of it from 500 on |
| Failover.OpenedStreamDecides | src/localgateway/streaming.py:750-904 | a stream that has begun or that ends well is the last one asked, and the row and the circuit breaker say whether it ended well |
| Failover.DecidedExactly | src/localgateway/streaming.py:700-904 | the backend that decides is the first whose upstream does not pass the request on |
| Failover.EndMarkIsRead | src/localgateway/streaming.py:790-794 | the end mark that closes a relayed stream is, byte for byte, a data line with the six bytes that end a stream and a blank line |
| Failover.ObjectsExactly | src/localgateway/sse.py:182-207 | observing an event raises if and only if the first of the three content fields of its first choice that holds something holds a number or true |
| StreamingLaws.StoredIsWhatWasSent | src/localgateway/streaming.py:785-801 | a body is stored exactly when a cacheable stream came to its end and sent something, and it is byte for byte what followed the headers |
| StreamingRaises.RequestBreaksOffExactly | src/localgateway/streaming.py:700-904 | a request breaks off if and only if relaying the chunks of its deciding attempt raises, or the end of its stream does; it has a usage row for every attempt if and only if relaying does not raise, and else for all before that one |
| StreamingRaises.BreaksOffExactly | src/localgateway/streaming.py:884-902 | one attempt, with usage numbers shifted or not: it breaks off if and only if rewriting an event handed on raises, or a line of a piece that is looked at while numbers are shifted, or rewriting what was held back at the end |
| StreamingRaises.RowIsMissingExactly | src/localgateway/streaming.py:785-801 | it lacks its usage row if and only if one of the first two raises |
| StreamingRaises.TextCountBreaksOff | src/localgateway/streaming.py:71-74 | a first event whose count of cached tokens is a text leaves headers, no bytes and no usage row, whatever follows and whoever comes next |
| UsageShift.ShiftRaisesExactly | src/localgateway/streaming.py:60-74 | shifting an object raises if and only if it has prompt tokens to move and a count of cached tokens that is a non-empty text, list or object, or a float too far from them |
| UsageShift.LineRaisesExactly | src/localgateway/streaming.py:102-119 | a line raises if and only if it holds such an object, or one that cannot be printed after its tokens have moved |
| StreamingLaws.HalfEmojiBreaksOff | src/localgateway/reasoning.py:80-108 | half an emoji in the first reasoning delta leaves headers, no bytes and no usage row, whatever follows and whoever comes next |
| StreamingLaws.PlainStreamRelayed | src/localgateway/streaming.py:884-902 | a backend with a price for cached input, an upstream ending after a blank line and cut anyhow outside CRLF pairs: the client receives the rewrite of all its events, with an end mark if it lacked one |
| StreamingShift.ShiftedStreamReads | src/localgateway/streaming.py:884-902 | a backend without that price: the client reads the payloads of the pieces, each shifted line by line if it decodes and mentions usage |
| StreamingShift.ShiftedStreamExactly | src/localgateway/streaming.py:92-122 | the client reads the whole stream with every line shifted, for any chunking, if and only if every piece with a line to shift decodes and mentions usage |
| StreamingShift.PlainUsageIsShifted | src/localgateway/streaming.py:92-122 | so it does when the stream is well-formed UTF-8 and spells the usage key plainly, whatever the chunking |
| StreamingShift.ExtraLineEndMoves | src/localgateway/streaming.py:120-122 | a family of inputs: two events of which only the first changes are sent otherwise in one piece than in two |
| StreamingCuts.CutsShowExactly | src/localgateway/streaming.py:884-902 | for a sound upstream: the client reads the same payloads as from the uncut one if and only if every piece with a line to shift is looked at exactly when the uncut one is; and receives the same bytes if and only if, besides, nothing is sent after a piece that changes |
| StreamingCuts.BytesIgnoreCutsExactly | src/localgateway/streaming.py:92-122 | the bytes condition for any pieces of whole events: nothing but line ends after a piece that changes |
| StreamingCuts.PayloadsIgnoreCutsExactly | src/localgateway/streaming.py:92-122 | the payload condition for any pieces of whole events |
| StreamingCuts.EscapedKeyMovesPayload | src/localgateway/streaming.py:98-99 | a second piece that escapes the key only the first spells out reads otherwise apart than together |
| StreamingCuts.PlainPayloadsIgnoreCuts | src/localgateway/streaming.py:92-122 | with plain keys the payloads are those of the uncut bytes |
| UsageShift.ShiftStreamUsage | src/localgateway/streaming.py:92-122 | the line loop sends the shifted lines and one line end more, the chunk itself if no line changed, or raises |
| UsageShift.ShiftUsageObject | src/localgateway/streaming.py:53-75 | the successive updates move all prompt tokens to both counts of cached tokens, or raise as adding does |
| UsageShift.ShiftConserves | src/localgateway/streaming.py:53-75 | integer counts of cached tokens grow by exactly the prompt tokens removed, and a second shift changes nothing |
| UsageLaws.TokensMoveExactly | src/localgateway/streaming.py:53-75 | an object is left alone if and only if it has no prompt tokens; otherwise they become 0, cached_tokens and cache_read_input_tokens each hold what they held before and the prompt tokens more, absent, null and falsy counting as 0 and true as 1, and every other field stays |
| UsageLaws.MovingRaisesExactly | src/localgateway/streaming.py:71-74 | moving raises if and only if there are prompt tokens and one of the two counts is a text, list or object that is not empty, or a float that cannot be added to |
| UsageLaws.UsageLineIsRewritten | src/localgateway/streaming.py:101-122 | a data line with such an object is printed anew in its place, with one line end more |
| UsageLaws.OtherLinesStay | src/localgateway/streaming.py:101-122 | a line that does not begin with the six bytes of the data field and a space stays, and so does the end mark |
| Utf8Laws.InspectedExactly | src/localgateway/streaming.py:94-99 | a chunk is looked at if and only if it encodes code points other than surrogates in UTF-8 and holds the bytes of the quoted key |
| Utf8Laws.Utf8Exactly | src/localgateway/streaming.py:94-97 | a chunk decodes if and only if it is the encoding, by section 3 of RFC 3629, of some code points other than surrogates |
| StreamingLaws.UnendedTailIsRepeated | src/localgateway/provider.py:329-336 | an unended last event reaches the reader with its data twice |
| StreamingLaws.TailRepeatedExactly | src/localgateway/provider.py:329-336 | the bytes handed on are the bytes received if and only if every event could be observed and the flush has none to deliver that can |
| Request.CallsAccounted | src/localgateway/streaming.py:457-619 | without streaming: one row per call in order, success only as the last, and the answer is its rewritten body; a good reply that cannot be rewritten or printed raises and alone leaves no row |
| Failover.RetriedCallPassesOn | src/localgateway/streaming.py:457-600 | without streaming the same five statuses, and none at all, leave the answer to the later backends |
| Failover.OtherCallEnds | src/localgateway/streaming.py:548-582 | any other status ends the request with that very status and nobody else has a flight |
| Failover.TriedExactly | src/localgateway/streaming.py:457-600 | a call is made if and only if every one before it failed in one of these ways |
| Request.HandleRequest | src/localgateway/streaming.py:419-619 | cache hits, refusals and the loop over backends leave exactly the specified answer, rows, breaker news, in-flight marks and stored body, or raise |
| Request.NormalizeBody | src/localgateway/reasoning.py:67-77 | the body with its reasoning fields filled; unchanged if it is no JSON object or nothing changed; raises as joining and printing do |
| Request.NormalizingRaisesExactly | src/localgateway/reasoning.py:67-77 | it raises if and only if joining does, or something changes in an object that holds half a surrogate pair |
| Request.ShiftBody | src/localgateway/streaming.py:78-89 | the body with its usage numbers shifted; raises for JSON that is no object |
| Request.ShiftingRaisesExactly | src/localgateway/streaming.py:78-89 | it raises if and only if the body is JSON and no object, or an object whose counts raise, or one that cannot be printed after its tokens have moved |
| Request.SendingRaisesExactly | src/localgateway/streaming.py:486-489 | a good reply raises if and only if normalising it does, or, its numbers being shifted, what was read is JSON and no object, or holds counts that raise, or cannot be printed then |
| Request.EmptyListRaises | src/localgateway/streaming.py:60-86 | the reply `[]` to a request without a price for cached input raises, leaves no usage row, and nobody else is asked |
| Provider.CallProviderStream | src/localgateway/provider.py:265-361 | chunk by chunk the loops yield the specified events for every upstream, ending in a failure where observing raises |
| Provider.ReadChunks | src/localgateway/provider.py:312-330 | hands on the chunks before the first that cannot be observed, that one having counted as received |
| Provider.EventGrammar | src/localgateway/provider.py:265-361 | the events are chunks and then exactly one end or failure; a failure after a chunk is called mid-stream, and a mid-stream one is retryable with status 0 |
| Provider.MidStreamExactly | src/localgateway/provider.py:312-361 | a failure is called mid-stream exactly when a chunk came before it, if and only if no event completed by the first chunk makes observing raise |
| Provider.StreamAccumulator.Feed | src/localgateway/sse.py:155-161 | parses a chunk and observes its events up to the first that raises, keeping the parser and the end mark equal to those of all bytes so far |
| Provider.StreamAccumulator.Finish | src/localgateway/sse.py:163-168 | the flushed event, the end mark with it, and what observing it raises |
| Sse.SseParser.Feed | src/localgateway/sse.py:70-94 | the cutting loop delivers the events of all complete blocks and keeps the rest |
| Sse.SseParser.Flush | src/localgateway/sse.py:96-106 | delivers the unended rest as one event and empties the buffer |
| Sse.ParseBlock | src/localgateway/sse.py:108-123 | the line loop finds the joined data of a block, and none for a block without data lines |
| Sse.TwoReplacementsNormalise | src/localgateway/sse.py:82-86 | replacing CRLF and then CR is one left-to-right pass that turns every line end into LF |
| Sse.SplitConserves | src/localgateway/sse.py:88-93 | blocks and rest make up the input again |
| Sse.SplitIsComplete | src/localgateway/sse.py:88-93 | the rest holds no blank line and every block ends with its only one |
| Sse.SplitJoined | src/localgateway/sse.py:88-93 | cutting a concatenation of whole blocks gives those blocks back |
| SseLaws.BufferStaysSettled | src/localgateway/sse.py:70-94 | between calls the buffer holds no CR and no blank line, after any run of chunks |
| SseLaws.CleanCutsExactly | src/localgateway/sse.py:78-86 | normalising chunk by chunk equals normalising the whole if and only if no cut falls between CR and LF |
| SseLaws.CutShowsExactly | src/localgateway/sse.py:78-123 | a cut between two chunks leaves the payloads as they are if and only if it is none inside a CRLF pair, or no data was waiting, or the lines after it end the event before they add data; otherwise it adds payloads |
| SseLaws.ChunkingShowsExactly | src/localgateway/sse.py:70-123 | any chunks from any settled buffer give the payloads of their concatenation if and only if each cut is hidden so, the bytes before it fed in chunks and those after it uncut; otherwise they give more |
| SseLaws.ChunkingIndependence | src/localgateway/sse.py:70-94 | for such chunkings events and buffer are those of one feed of the concatenation |
| SseLaws.RefinesLineDispatch | src/localgateway/sse.py:88-123 | the payloads are those of a reader that goes line by line and dispatches on empty lines |
| SseLaws.RelayReparses | src/localgateway/sse.py:88-140 | relaying parsed events gives back the input minus blocks without data, and parses to the same events |
| SseBytes.LinesAreOneEvent | src/localgateway/sse.py:108-123 | any lines and a blank one are one event whose payload is the values of those that begin with the five bytes of the data field, each without one leading space, or no event if none does |
| SseBytes.DataLineIsOneEvent | src/localgateway/sse.py:115-119 | the field name, any value and a blank line are one event, its payload being the value without one leading space |
| SseBytes.OtherLinesAddNothing | src/localgateway/sse.py:110-121 | a comment or a line of another field gives no event alone, and beside a data line leaves the payload as it is |
| SseBytes.TailIsOneEvent | src/localgateway/sse.py:96-106 | a data line that the stream ends in is delivered by the flush and handed on with the blank line it lacks |
| SseBytes.DoneExactly | src/localgateway/sse.py:123 | a payload ends the stream if and only if it is the six bytes of the end mark and ASCII white space around them |
| SseRoundTrip.PrintThenParse | src/localgateway/sse.py:108-140 | parsing printed events gives their payloads back if and only if none holds a CR |
| SseRoundTrip.ParsedPayloadsHaveNoCr | src/localgateway/sse.py:70-94 | no parsed payload holds a CR |
| SseRoundTrip.UncutIsOneEvent | src/localgateway/sse.py:70-94 | two data lines joined by CRLF in one chunk are one event |
| SseRoundTrip.CutInCrLfIsTwoEvents | src/localgateway/sse.py:78-86 | the same bytes cut inside that CRLF are two events |
| Reasoning.NormalizeDelta | src/localgateway/reasoning.py:11-48 | the loops over fields and parts fill every empty reasoning field from the first text found, or raise as joining does |
| Reasoning.NormalizeObject | src/localgateway/reasoning.py:51-64 | the same for every choice of an object and for the object itself, and whether anything changed |
| Reasoning.NormalizedDeltaIdempotent | src/localgateway/reasoning.py:11-48 | a normalised delta is normalised to itself |
| ReasoningLaws.PartsFillBothFields | src/localgateway/reasoning.py:20-48 | reasoning that comes in parts fills both fields with the joined texts of the parts that are text, or objects without a type or of the types for thinking and text; others are skipped |
| ReasoningLaws.EveryMessageIsFilled | src/localgateway/reasoning.py:51-64 | the delta and the message of every choice are normalised and nothing else of a choice changes, and then the object itself is |
| Reasoning.FirstTextUnrolled | src/localgateway/reasoning.py:20-40 | the text is that of the first of the three fields, in their order, that has any |
| Reasoning.NormalizedObjectIdempotent | src/localgateway/reasoning.py:51-64 | and so is a normalised object |
| Reasoning.NormalizingKeepsPrintable | src/localgateway/reasoning.py:11-64 | normalising neither brings in a surrogate nor takes the last one away |
| ReasoningStream.TransformStreamChunk | src/localgateway/reasoning.py:80-108 | the transform of a chunk is the rewrite of the events it completes, or raises where one does |
| ReasoningStream.RewriteRaisesExactly | src/localgateway/reasoning.py:96-105 | rewriting a payload raises if and only if joining does, or something changes in an object that holds half a surrogate pair anywhere |
| ReasoningLaws.EventIsRewrittenExactly | src/localgateway/reasoning.py:80-107 | an event passes as it is unless it holds one of two words, byte for byte, and is an object that normalising changes; then it is printed as one data line |
| ReasoningStream.FlushStreamChunk | src/localgateway/reasoning.py:111-124 | the rewrite of the flushed event, or raises as that does |
| ReasoningStream.TransformIsMap | src/localgateway/reasoning.py:80-108 | over any chunks the transform is the concatenated rewrite of all events parsed |
| ReasoningStream.TransformIgnoresChunking | src/localgateway/reasoning.py:80-108 | it does not depend on the chunking outside CRLF pairs |
| ReasoningStream.TransformIdempotent | src/localgateway/reasoning.py:80-108 | transforming what was sent on sends the same bytes, with nothing held back |
| DbWriter.BackgroundWriter.Run | src/localgateway/dbwriter.py:59-98 | the worker loop does what its gets demand and leaves by the sentinel or by a timeout once stopped |
| DbWriter.BackgroundWriter.Flush | src/localgateway/dbwriter.py:100-115 | one transaction, or after a rollback row by row, amounts to applying the rows in order and skipping those that fail |
| DbWriter.TookAllApplies | src/localgateway/dbwriter.py:59-98 | wherever batches end, table and held-back rows amount to the rows taken |
| DbWriter.FlushWritesAll | src/localgateway/dbwriter.py:73-95 | after a flush request, a timeout or the sentinel nothing is held back and the table holds all rows taken, applied in order |
| DbWriter.FiftyAtATime | src/localgateway/dbwriter.py:83-86 | rows alone are written fifty at a time, and the rest is held back |
| DbWriter.WriterRefinement | src/localgateway/dbwriter.py:39-115 | for every interleaving without a racing write the table at the end is the rows the worker took and then those written directly, applied in order; the rows taken are those put, less the ones still queued when a flag read ended the worker, and begin with every row accepted before stop if and only if none of these is one of them |
| DbWriter.QuietStopExactly | src/localgateway/dbwriter.py:39-98 | if no enqueue overlaps the stop, exactly the accepted rows are written if and only if that flag read found no row queued |
| DbWriter.AcceptedRowIsLost | src/localgateway/dbwriter.py:87-92 | a run with a quiet stop that loses a row accepted before it |
| DbWriter.NothingLostWhileRunning | src/localgateway/dbwriter.py:48-98 | at every moment before stop, table, batch and queue amount to the accepted rows |
| DbWriter.OverlappingEnqueueOvertakes | src/localgateway/dbwriter.py:39-54 | an enqueue that overlaps stop can land ahead of an earlier row |
| DbWriter.LogShowsEveryRace | src/localgateway/dbwriter.py:39-115 | an append-only table holds the rows taken and then those written directly if and only if no enqueue wrote on its own while the worker was alive |
| DbWriter.LogShowsEveryLoss | src/localgateway/dbwriter.py:39-115 | and after a quiet stop it holds every accepted row if and only if none was lost |
| Config.ConfigStore.RotateBackups | src/localgateway/config.py:327-351 | moves the slots one up if nothing fails; whatever fails, nothing but the slots differs in any state on the way |
| Config.ConfigStore.SaveConfig | src/localgateway/config.py:426-441 | through every crash, failure and torn write a load gives the new configuration or what it looked at first before, be that in the primary or in slot 0; nothing failing, every crash leaves the new configuration or the one that loaded before, from whatever slot, if and only if rotating did not drop that one from slot 4 |
| Config.ConfigStore.LoadConfig | src/localgateway/config.py:382-423 | the first of primary and backups, newest first, that parses, and whether it was a backup; an unexpected error of one ends the load |
| Config.LoadFailsExactly | src/localgateway/config.py:402-416 | the load fails if and only if a file raises an unexpected error and all newer ones are malformed |
| Config.OnlyOldestIsLost | src/localgateway/config.py:327-436 | with slots 3 and 4 filled and all but slot 4 malformed, the rotation of a save leaves nothing that loads |
| Config.ParseFile | src/localgateway/config.py:372-379 | the loop over the providers drops the stale key of each dictionary, and raises for providers that cannot be gone through |
| Config.FileRaisesExactly | src/localgateway/config.py:372-379 | a file raises what a load does not expect if and only if it is an object whose providers are null, a truth value or a number |
| Config.MigrationDropsOneKey | src/localgateway/config.py:372-378 | every provider that is an object loses the stale key and keeps its other fields, and nothing else of the file changes |
| Config.NullProvidersStopTheLoad | src/localgateway/config.py:372-409 | a primary with null providers stops the load although slot 0 would be loaded without it |
| Config.ConfigStore.RestoreBackup | src/localgateway/endpoints/admin.py:937-971 | the error answers change nothing; otherwise every crash leaves the current or the restored configuration loadable |
| Config.RotatedIsShiftExactly | src/localgateway/config.py:327-351 | the rotation is an exact shift of the slots if and only if slot 3 is filled or slot 4 is empty |
| Config.GapKeepsTheOldest | src/localgateway/config.py:327-351 | with only slots 0 and 4 filled slot 4 keeps its old content |
| Config.SlotsHoldLastFive | src/localgateway/config.py:327-441 | after any saves and restores primary and slots hold the newest version and the five before it, newest first |
| Config.ChangeKeepsHistory | src/localgateway/endpoints/admin.py:964-967 | a restore puts the configuration before it in slot 0 and moves the others up, as a save does |
| CircuitBreaker.Breaker.RecordOutcome | src/localgateway/circuitbreaker.py:76-99 | the new circuit for every outcome, tripping or not, and all other circuits unchanged |
| CircuitBreaker.Breaker.IsOpen | src/localgateway/circuitbreaker.py:128-139 | open exactly while enabled and before the end of the backoff |
| CircuitBreaker.FirstTripAtThreshold | src/localgateway/circuitbreaker.py:92-97 | in any run of failures the first trip is at the threshold-th |
| CircuitBreaker.TripsAreSpaced | src/localgateway/circuitbreaker.py:92-97 | trip k+1 comes no sooner than the k-th backoff after trip k |
| CircuitBreaker.TripsTakeTime | src/localgateway/circuitbreaker.py:92-97 | so trip k comes no sooner than the sum of the backoffs before it |
| CircuitBreaker.BackoffDoubles | src/localgateway/circuitbreaker.py:95-97 | the first backoff is the configured one and each further one twice the one before, never more than 1800 seconds |
| CircuitBreaker.TotalBackoffBelowCap | src/localgateway/circuitbreaker.py:95-97 | that sum in closed form below the cap |
| CircuitBreaker.OpenFailuresChangeNothing | src/localgateway/circuitbreaker.py:92-99 | a failure while open neither trips nor extends the window |
| CircuitBreaker.OpenExactlyDuringBackoff | src/localgateway/circuitbreaker.py:128-139 | after any run the circuit is open exactly during the backoff of its last trip |
| ClientQuota.Quotas.CheckRpm | src/localgateway/clientquota.py:30-43 | prunes, decides and registers as specified; keys without a limit are never counted |
| ClientQuota.WindowNeverOverfull | src/localgateway/clientquota.py:30-43 | in any run every closed 60-second interval holds at most rpm admitted requests |
| ClientQuota.RefusedExactlyWhenFull | src/localgateway/clientquota.py:38-41 | a request is refused if and only if the window ending with it already holds rpm |
| ClientQuota.RetryAfterIsExact | src/localgateway/clientquota.py:40-41 | with no admission in between, a later call succeeds if and only if it comes strictly after the time told |
| ClientQuota.PeeksAreInvisible | src/localgateway/clientquota.py:46-55 | pruning by the read-only count changes no later decision |
| RateLimit.RateLimitState.IsAvailable | src/localgateway/ratelimit.py:74-86 | answers for the state before, and drops an expired cooldown |
| RateLimit.RateLimitState.Save | src/localgateway/ratelimit.py:137-155 | what is written: the permanent keys and the running cooldowns as wall times |
| RateLimit.RateLimitState.Load | src/localgateway/ratelimit.py:157-175 | the loop merges the entries still running into the state |
| RateLimit.RateLimitState.RenameProvider | src/localgateway/ratelimit.py:114-135 | the two loops move exactly the keys of the old id, a moved cooldown winning |
| RateLimit.LazyDropInvisible | src/localgateway/ratelimit.py:35-97 | over any run of cooldowns, snoozes, removals and queries every answer is that of a state that never drops |
| RateLimit.SaveLoadInvisible | src/localgateway/ratelimit.py:137-175 | saving, and loading later into a fresh process, changes no answer of any later run |
| RateLimit.LastOperationDecides | src/localgateway/ratelimit.py:35-86 | whatever happens to other keys meanwhile, a key is free if and only if its last cooldown, 5 seconds if the provider asked for none, or its last snooze is over, each lasting a tenth of a second at least; a permanent snooze never ends, and removing or clearing frees it |
| RateLimit.RenameMovesAvailability | src/localgateway/ratelimit.py:114-135 | after a rename, onto any id, the new key is free if and only if neither key was permanent and the winning cooldown is over; where the new key was unknown that is the old availability, and the old key is free |
| RateLimit.AlikeAfterRename | src/localgateway/ratelimit.py:114-135 | states that no query tells apart stay so if and only if the same expired cooldowns are about to replace running ones in both |
| RateLimit.RenameOntoUsedIdShowsDrop | src/localgateway/ratelimit.py:114-135 | onto a used id an expired cooldown can hide a running one |
| RateLimit.RenameShowsDropExactly | src/localgateway/ratelimit.py:114-135 | it does if and only if the old key's cooldown has expired undropped and the new key's is still running, neither being permanent |
| RespCache.ResponseCache.Lookup | src/localgateway/respcache.py:176-216 | memory before table, expiry by the smaller positive lifetime, recency and the writes this causes |
| RespCache.ResponseCache.Store | src/localgateway/respcache.py:219-238 | puts a fresh entry in memory and queues, or attempts, the insert and the eviction |
| RespCache.EvictionKeepsRecent | src/localgateway/respcache.py:231-238 | taking rows from the front of a list by last access leaves at most the bound, unchanged, and none accessed before one it takes |
| RespCache.ResponseCache.PutInMemory | src/localgateway/respcache.py:169-173 | the eviction loop drops least recently used keys down to the capacity |
| RespCache.RunSound | src/localgateway/respcache.py:169-254 | in any run every entry in memory, table and queue is that of one store call for its key, with that call's time |
| RespCache.HitIsFreshStore | src/localgateway/respcache.py:176-216 | so no hit is older than the positive effective lifetime, however often the entry was hit |
| RespCache.FoundExactly | src/localgateway/respcache.py:176-216 | a lookup finds exactly what is in memory, or else in the table, and has not outlived the smaller of the stored and the asked time to live, 0 or less being no bound |
| RespCache.MemoryBounded | src/localgateway/respcache.py:169-173 | memory never exceeds its capacity and its recency list names exactly its keys |
| RespCache.OneIsDropped | src/localgateway/respcache.py:169-173 | memory takes 256 keys, and one more drops the least recently used and only that |
| RespCache.ImmediateHitIsLastStore | src/localgateway/respcache.py:150-238 | with immediate writes a hit returns the last body stored since the last clear, if every store and clear of the run takes |
| RespCache.LastStoreExactly | src/localgateway/respcache.py:150-254 | hits are the last store at every time of a run, and whatever continues it without storing the key or clearing, if and only if every store and clear of it takes |
| RespCache.LaterHitsExactly | src/localgateway/respcache.py:157-216 | after a store every hit in every continuation without a store of the key or a clear returns what was stored, if and only if its insert is written, or no row or one with the same answer was there, or its eviction takes that row |
| RespCache.TableComesBack | src/localgateway/respcache.py:169-216 | stores of 256 other keys bring the row of the table back, from any state |
| RespCache.FailedInsertShowsOlderBody | src/localgateway/respcache.py:157-173 | one failed insert and 256 other stores bring the older body back |
| RespCache.ClearedEntryComesBack | src/localgateway/respcache.py:241-254 | with queued writes a cleared entry can return |
| RespCache.ClearHoldsExactly | src/localgateway/respcache.py:241-254 | after a clear that succeeds its keys stay out of the table, however much of the queue is applied and whichever writes fail, if and only if no insert of them was pending |
| Stats.InFlight.EndRequest | src/localgateway/stats.py:62-67 | the clamped decrement of one backend's count |
| Stats.InFlightIsExact | src/localgateway/stats.py:56-67 | under any interleaving a count is the number of attempts between start and end, and the clamp never fires |
| InFlightRuns.CountsAreFlyingRequests | src/localgateway/stats.py:56-67 | however any requests interleave, each count is the number of them with an attempt under way on that backend, and all are zero once every request is done |
| InFlightRuns.StreamIsPaired | src/localgateway/streaming.py:700-904 | a streaming request ends each attempt it starts before the next |
| InFlightRuns.RequestIsPaired | src/localgateway/streaming.py:457-468 | and so does one without streaming |
| Stats.Warmth.RecordCacheActivity | src/localgateway/stats.py:96-153 | updates one entry and evicts at most the least recently seen bucket; ignored without a cache key |
| Stats.Warmth.OldestBucket | src/localgateway/stats.py:148-153 | finds a bucket none of whose entries was seen after all of another's |
| Stats.Warmth.WarmBackendsFor | src/localgateway/stats.py:156-182 | the candidates with a live entry, each once, by hit rate and then recency, after sweeping that bucket |
| Stats.RecordKeepsInv | src/localgateway/stats.py:129-153 | evicting one bucket is enough to stay within both bounds |
| Stats.SweepKeepsInv | src/localgateway/stats.py:167-176 | sweeping leaves no bucket empty |
| Stats.RegistryInvariant | src/localgateway/stats.py:129-182 | in any run no bucket is empty, at most 2000 keys and 20000 entries remain, and each hit rate is exact and within 0 and 1 |
| Usage.PercentileMonotone | src/localgateway/usage.py:307-316 | a higher percentile is never smaller |
| Usage.ReportedPercentilesOrdered | src/localgateway/usage.py:307-316 | p99 is at least p90, and p90 at least p50 |
| Usage.PercentileInterpolates | src/localgateway/usage.py:307-316 | in whichever sorted list of the values, the percentile lies the share t of the way between the values at ranks f and f + 1 where p of the last rank is f + t, rounded to the nearest hundredth, halves to the even one |
| Usage.PercentileInRange | src/localgateway/usage.py:307-316 | percentiles lie between the rounded extremes, which are percentiles 0 and 1 |
| Usage.PercentileLeavesRange | src/localgateway/usage.py:307-316 | every percentile of 0.001 alone is 0 |
| Usage.PercentilesInRangeExactly | src/localgateway/usage.py:307-316 | all percentiles lie between the extremes if and only if neither extreme is rounded outwards |
| Usage.PercentileIgnoresOrder | src/localgateway/usage.py:307-316 | the order of the measurements does not matter |
| Sorting.StableSortUnique | src/localgateway/router.py:407-420 | there is only one stable sort of a list |
| Sorting.SortLex | src/localgateway/router.py:407-420 | sorting again by another key keeps the earlier order among ties |

## Left out

- DbWriter.WriterRefinement: does not say where rows of an enqueue overlapping `stop` end up when they are written on their own while the worker is alive, which LogShowsEveryRace is about, nor that rows put behind the sentinel or after the worker has ended stay in the queue.
- DbWriter.QuietStopExactly: states the order of the rows taken, not that of the table, whose rows may commute; LogShowsEveryLoss states it for a table that shows every row.
- StreamingShift.ShiftedStreamReads: speaks of streams of which nothing raises; RequestBreaksOffExactly says when something does.
- UsageShift.ShiftConserves: speaks of integer counts; a count that is a float is added to by a function that is a parameter.
- RespCache.EvictionKeepsRecent: leaves the order of rows with the same last access to the table, as the statement does.
- RespCache.ResponseCache.Lookup: does not model a failing read of the table, which counts as a miss, nor the hit counter of the statistics.
- StreamingLaws.UnendedTailIsRepeated: shows one family of inputs; TailRepeatedExactly gives the condition.
- Reasoning.NormalizeDelta: models the dictionary as a value, so that two references to one nested dictionary being updated together is not captured.
- The reason strings of the X-Routing-Reason header.
- Integers of more than 4300 digits in the JSON library, and nesting beyond Python's recursion limit.
- Text decoding: payloads stay bytes, so replacement of malformed UTF-8 and stripping of non-ASCII white space around `[DONE]` are not modelled.
- Usage, latency, first-token and cost numbers, log texts, and the cooldown set on status 429.
- Failures of opening the database and of a commit, and the time limit of `stop` after which it no longer waits for the worker.
- The in-memory copy of the configuration and its reload by modification time.
- A client that goes away in the middle of a stream.
- Rounding: floating point, and the retry time rounded to a tenth of a second.
- Time zones and hours of time slots: the whitelist of the active slot is given.
- The `/v1/responses` and embeddings handlers, which follow the chat handlers closely, and answering a streamed request from a body stored without streaming.
- HTTP clients, web routes, alerts, events, the prober, the supervisor, usage queries and exports: input and output, and library queries.
