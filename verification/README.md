# A verified model of the Go TRex client

The client drives a TRex traffic generator over a synchronous RPC connection and an asynchronous event channel, loads
stream profiles, and searches for the highest rate a device forwards without dropping. This project models the parts of
it that carry an invariant and proves those invariants for every input, every run and every interleaving. Check it with
`dafny verify dfyconfig.toml`.

| module (file) | models |
|---|---|
| `Traffic` (Traffic.dfy) | one NDR measurement as a plan of port operations against a server that may fail, or be cancelled, at any of them; the ramp schedule |
| `Search` (Search.dfy) | the bracketed search, its optimized variant and `Find`, for an arbitrary measurement |
| `NdrEngine` (Engine.dfy) | the same, step by step, as the code does it; each method is proved to carry out the plan or search |
| `Sessions` (Sessions.dfy) | a device whose wrapping counters run while traffic flows: what a session of ramp, hold and drain adds to them, and the verdict on it |
| `Dilution` (Dilution.dfy) | what counting the ramp does to that verdict |
| `Bench` (Bench.dfy) | what the engine's `Find` answers about such a device |
| `Counters` (Counters.dfy) | flow-group sums in wrapping 64-bit counters and the pass/fail verdict |
| `ChecksumSweep` (ChecksumSweep.dfy) | the `checksum_sweep` compiler, an explicit field-engine model, and the one's-complement checksum |
| `Packets` (Packets.dfy), `Headers` (Headers.dfy) | layer offsets and symbolic field references; the headers they point into, byte by byte |
| `Srh` (Srh.dfy) | the SRv6 header codec |
| `Events` (EventBus.dfy), `JobDone` (JobDone.dfy) | the event bus under every interleaving, and the job-done waiter on it |
| `Connection` (Connection.dfy) | callers sharing one request socket under a mutex, request ids, the API handle |
| `AsyncEvents` (AsyncEvents.dfy) | pulled event batches and their sequence numbers |
| `Profiles` (Profiles.dfy), `Pcap` (Pcap.dfy), `Imix` (Imix.dfy) | id allocation, links, direction split, flow-stat tagging; capture replay; the imix split |

`Prelude` and `Text` hold options, results, fixed-width integers, a little real arithmetic and decimal numbers.

Conventions. `float64` is `real`: rates and percentages are exact. `uint8`, `uint16` and `uint64` arithmetic that the code
relies on wraps explicitly; stream ids, group ids and bus keys are unbounded. The world outside the client is a parameter:
the NDR server answers each operation as an arbitrary function of everything attempted so far, a concurrent run is an
arbitrary sequence of atomic actions, and JSON, framing and packet decoding appear as the outcome they have. Map iteration
order is an arbitrary choice in each step of the loop.

## Where the code and its own text disagree

- pkg/stl/stream.go:130 says duplicate stream ids are an error; the code renumbers the later stream
  (`Profiles.DuplicateIdIsRenumbered`).
- pkg/stl/stream.go:41-43 says a StreamID forces a specific id. An explicit id that nobody repeats is lost all the same when
  an earlier automatic stream took it (`Profiles.ExplicitIdIsLost`). `Profiles.HonouredIff` states exactly when every explicit
  id is honoured; `Profiles.ExplicitFirstHonouredIff` and `Profiles.RisingHonouredIff` say it for profiles that list explicit
  streams first, and for explicit ids that rise.
- pkg/session/port.go:205 says that subscribing before the start makes the job-done event impossible to miss. Eight events of
  other ports, published before the goroutine is scheduled, make it miss (`JobDone.OwnEventCanBeMissed`);
  `JobDone.SignalledIff` states exactly when it does not.
- pkg/stl/dsl/vm.go:90-96 promises a valid checksum for the whole sweep. That needs the field to start where the packet was
  built and to stay within 16 bits, and neither is checked: `ChecksumSweep.DefaultSweepBreaks` is a packet whose checksum the
  default sweep breaks, `ChecksumSweep.SweepIsValidIff` and `ChecksumSweep.UdpSweepIsValidIff` state exactly which sweeps are
  valid, and `ChecksumSweep.DefaultSweepIsValidIff` which are with the default minimum.
- pkg/stats/pgid.go:48-49 describes the drop as transmitted minus received across all flow groups. It is computed from the two
  wrapping totals, and can exceed the groups' drops once the received total wraps (`Counters.AggregateDropCanExceed`);
  `Counters.AggregateDropBoundedIff` states exactly when it does not.
- pkg/ndr/config.go:4-6 promises generator-health validity gates; with no transmitted packet the queue-full gate is off
  (`Counters.StarvedGeneratorPasses`, `Counters.PassExactly`).
- pkg/ndr/engine.go:305 says a run passes only if the device stayed healthy. A run counts its ramp (pkg/ndr/engine.go:228,
  pkg/ndr/config.go:27-30), and the clean traffic of the slower steps makes room for losses at the target. A rate at which
  the device breaks its limits over the whole hold can pass: `Dilution.DefaultRampDilutes` shows it with the default ramp,
  hold and limits. `Dilution.RampIsHarmlessIff` states exactly for which configurations the verdict at a rate is the
  device's own behaviour at it, `Bench.EngineIsAccurateIff` the same for the answer of `Find`, and
  `Dilution.PassedIsNearlyForwarded` with `Dilution.RampAddsHalf` how far off a passing rate can be.
- Lines 55-56 of the client's own README.md and the comment at pkg/ndr/engine.go:217 describe server-timed runs; the code
  holds with a client-side sleep, and so does the model.
- pkg/rpc/jsonrpc.go:54 calls request ids process-unique; they are so for 2^64 draws and no longer
  (`Connection.IdsNeverRepeat`, `Connection.IdRepeatsAfterWrap`).
- pkg/stl/dsl/vm.go:106-109 means to reject a checksum offset out of range; a negative one passes and panics
  (`ChecksumSweep.SweepPanicsIff`).
- pkg/stl/dsl/dsl.go:246-247 says that the payload reaches the target frame size given the header layers. Layers that the
  table does not list, vxlan and srh among them, count as zero: the frames are longer by these
  (`Imix.FrameHasRowSizeIff`).
- A segment list of 128 or more entries is serialized with a wrapped length (`Srh.RoundTripIff`).

## Model

| member | source | states |
|---|---|---|
| Traffic.PerfRunIsSafe | pkg/ndr/engine.go:219-270 | for every schedule of RPC failures and cancellations, after a measurement at a positive rate every port has a stop attempt after its last start or update; a non-positive rate attempts nothing |
| Traffic.PerfRunSucceeds | pkg/ndr/engine.go:219-270 | a verdict is reached exactly when nothing but stops failed, and then exactly this was attempted: stop, baseline, ramp, hold, stop, drain, final read, stop |
| Traffic.ReadsBracketTraffic | pkg/ndr/engine.go:228-267 | in a successful run ports are driven only between the two reads, and every port is stopped between the ramp and the final read |
| Traffic.ExecutePrefix | pkg/ndr/engine.go:319-349 | what is attempted is a prefix of the plan, all of it exactly when no operation other than a stop fails |
| Traffic.RampSchedule | pkg/ndr/engine.go:312-349 | every port goes through the same equal increments up to exactly the target, one more than the whole tenths of a second in the ramp time; every wait is the ramp time over the number of steps in whole nanoseconds, under 100 ms, and all of them together less than the ramp time |
| Traffic.NoRampSchedule | pkg/ndr/engine.go:320-336 | without a ramp time every port is started once, at the target, and nothing is waited for |
| Search.BracketHalves | pkg/ndr/engine.go:198-214 | after i runs the bracket is the initial width over 2^i, no earlier width was inside the window, and the search stops at the earlier of cap and window |
| Search.EndsAreMeasured | pkg/ndr/engine.go:198-214 | whatever is measured, the floor is the last recorded pass or the seed and the ceiling the last recorded fail or the initial one |
| Search.RunsTakeSides | pkg/ndr/engine.go:198-214 | even for a non-monotone device, every recorded pass is at or below the final bracket and every recorded fail at or above it |
| Search.OptSearchIsSound | pkg/ndr/engine.go:96-122 | through all three branches and clamping, a positive answer is a recorded passing run at that rate, at most MaxIterations + 2 runs are recorded, and no recorded pass is higher as long as the clamped window is the right way round |
| Search.HighestIff | pkg/ndr/engine.go:96-122 | that condition is exact: no recorded pass is higher, whatever is measured, if and only if the low edge of the window is not above the high one |
| Search.InvertedSearch | pkg/ndr/engine.go:96-122 | with a negative window half-width the bracket is upside down and the answer is still a percentage |
| Search.FindIsSound | pkg/ndr/engine.go:55-133 | the same for the whole of Find, the first run included, under the same condition on the window when the optimized search is on; a first run that passes is the answer and nothing else is run |
| Search.SearchIsSafe | pkg/ndr/engine.go:179-214 | a search of measurements that each leave the ports quiet leaves them quiet, also when aborted |
| Search.FindIsSafe | pkg/ndr/engine.go:55-122 | however Find ends, no port is left driven |
| Search.SearchStraddles | pkg/ndr/engine.go:198-214 | for a fixed monotone device the bracket always has a passing floor and a failing ceiling |
| Search.SearchIsAccurate | pkg/ndr/engine.go:179-214 | the answer passes and fails with the window added, or with what the cap makes of the bracket it started from |
| Search.OptSearchMeasuresEdges | pkg/ndr/engine.go:96-122 | whatever is measured, the first recorded run is at 100 less the first run's drop and the half-width, the second, if that passed, at 100 less the drop plus the half-width, each held within 0 and 100 |
| Search.OptSearchStaysInWindow | pkg/ndr/engine.go:96-122 | if the device passes at the low edge and fails at the high one, every recorded run lies between the two, and the answer is as accurate as a search of twice the half-width |
| Search.FindLooksAroundRate | pkg/ndr/engine.go:55-122 | of a device that passes exactly up to a rate and drops just the rest of the first run, the optimized search measures nothing further from that rate than the half-width |
| Search.FindFailures | pkg/ndr/engine.go:55-91 | without active groups, or an answer about them, Find fails with nothing attempted; otherwise it fails only if a run does |
| Search.OptSearchIsAccurate | pkg/ndr/engine.go:96-122 | the same through all branches of the optimized search, each with the width of its own bracket, whatever the first run's drop was |
| Search.OptWidthBounded | pkg/ndr/engine.go:96-122 | that bracket is at most 100 wide, and at most twice the half-width when the rate lies in the window |
| Search.FindIsAccurate | pkg/ndr/engine.go:55-122 | the same for Find, for every monotone device that fails at 100% |
| Search.StrategiesAgree | pkg/ndr/engine.go:78-122 | with enough iterations plain and optimized answers both pass, are less than PDRError from failing, and differ by less than PDRError |
| Search.CloseToThreshold | pkg/ndr/engine.go:175-191 | in terms of the device's own no-drop rate, the answer is below it by at most PDRError, and by less when the device passes at it |
| NdrEngine.Engine.StopAll | pkg/ndr/engine.go:351-359 | attempts a stop of every port whatever fails |
| NdrEngine.Engine.RampTo | pkg/ndr/engine.go:319-349 | attempts exactly the ramp plan up to the first failure |
| NdrEngine.Engine.Session | pkg/ndr/engine.go:240-266 | ramp, hold, stop, drain and final read, up to the first failure |
| NdrEngine.Engine.PerfRun | pkg/ndr/engine.go:219-270 | the imperative measurement, deferred stop included, is the measurement of the safety theorems |
| NdrEngine.Engine.Probe | pkg/ndr/engine.go:66-70 | the first run uses its own duration and is not recorded as an iteration |
| NdrEngine.Engine.Measure | pkg/ndr/engine.go:124-133 | records exactly the successful runs, in order |
| NdrEngine.Engine.BinarySearch | pkg/ndr/engine.go:175-214 | the loop that narrows the bracket in place is the search of the theorems, recorded runs included |
| NdrEngine.Engine.OptBinarySearch | pkg/ndr/engine.go:93-122 | likewise for the optimized search |
| NdrEngine.Engine.Find | pkg/ndr/engine.go:53-91 | likewise for Find, error paths included |
| NdrEngine.EngineFindIsSoundAndSafe | pkg/ndr/engine.go:53-133 | for every server, configuration and set of ports: Find's answer is evidenced, with the optimized window the right way round no recorded pass is higher, and no port is left driven |
| Sessions.SessionCounts | pkg/ndr/engine.go:240-266 | a session adds to a counter what the device does over each ramp interval at that step's rate, over the hold at the target, and over the drain with nothing driven |
| Sessions.SessionSplits | pkg/ndr/engine.go:240-266 | over a session, ramp included, what is received and what is lost add up to what is sent |
| Sessions.PerfRunMeasures | pkg/ndr/engine.go:219-310 | through counters that wrap, a measurement reports the session's sent, lost, refused and errored packets, ramp included, with their percentages of what was sent, and passes exactly when these are within the limits |
| Dilution.ForwardedPasses | pkg/ndr/engine.go:219-310 | for every ramp and all limits, a run at a rate the device forwards passes |
| Dilution.PassedIsForwarded | pkg/ndr/engine.go:219-310 | without ramp steps, or with limits that clean packets cannot dilute, a run that passes was at a rate the device forwards |
| Dilution.SomeDeviceIsDiluted | pkg/ndr/engine.go:228 | for every other configuration, hold and rate there is a device that breaks a limit over the whole hold and passes |
| Dilution.RampIsHarmlessIff | pkg/ndr/config.go:27-30 | so the verdict at a rate is, for every device, its own behaviour at it if and only if the run starts straight at the target or the limits cannot be diluted |
| Dilution.PassedIsNearlyForwarded | pkg/ndr/engine.go:301-308 | if a session sends at most k times what its hold sends, a run that passes was, over the hold, within limits relaxed k times |
| Dilution.RampAddsHalf | pkg/ndr/engine.go:312-349 | for a generator that sends in proportion to rate and time, k is 1 plus half the ramp time over the hold |
| Dilution.DefaultRampDilutes | pkg/ndr/config.go:45-58 | with the default ramp, hold and limits, a proportional generator that has 2.04% refused over the hold passes the 2% limit |
| Search.FindIsHighest | pkg/ndr/engine.go:55-122 | with a window half-width that is not negative, or without the optimized search, no recorded pass is higher than the answer, whatever is measured |
| Search.FindReachesTop | pkg/ndr/engine.go:55-122 | measurements that pass at least what the device forwards give an answer of 100, or one that fails with the window, or what the cap makes of a full bracket, added |
| Search.AnswerIsFit | pkg/ndr/engine.go:55-122 | measurements that pass only what has a property lead Find only to answers that have it, through every strategy, window and cap |
| Bench.EngineFindIsAccurate | pkg/ndr/engine.go:53-310 | where the ramp is harmless, for every device with a no-drop rate below 100%, Find on the engine's own measurements returns a rate the device forwards, within the accuracy of the search |
| Bench.EngineIsAccurateIff | pkg/ndr/engine.go:53-349 | that condition on the configuration is exact: otherwise there is a device for which Find answers 100% though it does not forward that |
| Bench.EngineStrategiesAgree | pkg/ndr/engine.go:53-310 | where the ramp is harmless the engine's plain and optimized searches of one device differ by less than PDRError |
| Bench.EngineLooksAroundRate | pkg/ndr/engine.go:53-310 | where the ramp is harmless: a device that loses, over the session at 100%, just what is beyond its rate, is measured by the optimized search within the half-width of that rate only |
| Bench.EngineFindIsBracketed | pkg/ndr/engine.go:53-349 | for every ramp and all limits the answer is not short of what the device forwards by more than the accuracy, and at it the device is, over the hold, within limits relaxed by what the ramp adds |
| Bench.EveryBehaviourHasADevice | pkg/ndr/engine.go:282-310 | every monotone behaviour that fails at 100% is that of a device, for every ramp and all limits that are not negative, so the results above cover all of them |
| Counters.SumTx | pkg/stats/pgid.go:30-37 | the sum modulo 2^64, for every iteration order of the map |
| Counters.SumRx | pkg/stats/pgid.go:39-46 | the sum modulo 2^64, for every iteration order of the map |
| Counters.Drop | pkg/stats/pgid.go:48-56 | transmitted minus received, or zero when more was received |
| Counters.SumRemove | pkg/stats/pgid.go:30-46 | the sum over a map does not depend on which key comes first |
| Counters.AggregateDropBoundedIff | pkg/stats/pgid.go:48-56 | the aggregate drop is at most the sum of the groups' drops if and only if it is clamped to zero or the received total's extra turns of the counter are covered by what groups received in surplus |
| Counters.AggregateDropBounded | pkg/stats/pgid.go:48-56 | in particular whenever the received total wrapped no more often than the transmitted one |
| Counters.AggregateDropCanExceed | pkg/stats/pgid.go:48-56 | when the received total wraps it can exceed it: two groups without loss, nearly 2^64 reported |
| Counters.Evaluate | pkg/ndr/engine.go:282-310 | computes the verdict from the totals of both snapshots |
| Counters.DeltaIsTrueIncrement | pkg/ndr/engine.go:284-285 | the difference of two wrapped sums is the true number of packets, however many counters wrapped, if that is below 2^64 |
| Counters.EvaluatedCountsRealTraffic | pkg/ndr/engine.go:283-310 | a run's tx, rx and drop are the real traffic between its readings, drop is at most the groups' drops, the reported percentages are 100 times drop and queue-full count over tx, or zero if nothing was sent, and drop percent is in [0, 100] |
| Counters.PassExactly | pkg/ndr/engine.go:301-308 | exactly when a run passes, without division, for limits of either sign |
| Counters.StarvedGeneratorPasses | pkg/ndr/engine.go:301-308 | a run that transmitted nothing passes whatever its queue-full count, exactly when neither limit is negative |
| ChecksumSweep.LockStep | pkg/stl/dsl/vm.go:113-123 | at every packet of the unbounded run both variables are at the same phase of period `base`, so they wrap together, and the checksum variable stays in [1, base], for a range whose end fits in 64 bits |
| ChecksumSweep.ProgramSweeps | pkg/stl/dsl/vm.go:118-123 | every packet is the built one with exactly the field and the checksum overwritten |
| ChecksumSweep.VerifiesIffDivisible | pkg/stl/dsl/vm.go:90-96 | a receiver that folds carries (RFC 1071) accepts exactly the positive sums divisible by 65535 |
| ChecksumSweep.SweepSumIsConstant | pkg/stl/dsl/vm.go:90-124 | within 16 bits every packet of the run has the same one's-complement sum |
| ChecksumSweep.ValidAtAllStepsOrNone | pkg/stl/dsl/vm.go:90-124 | within 16 bits the checksum is valid in every packet or in none |
| ChecksumSweep.SweepIsValidIff | pkg/stl/dsl/vm.go:90-124 | for an initially valid packet and any minimum the whole run is valid exactly when the field stays within 16 bits and starts congruent, modulo 65535, to the value it was built with |
| ChecksumSweep.WrappedSweepFails | pkg/stl/dsl/vm.go:118-123 | a minimum so large that the end of its range wraps in 64 bits breaks the checksum within three packets |
| ChecksumSweep.DefaultSweepIsValidIff | pkg/stl/dsl/vm.go:114-117 | with the default minimum: exactly when the field was built as 1024 and the checksum is at most 64512 |
| ChecksumSweep.DefaultSweepBreaks | pkg/stl/dsl/vm.go:90-124 | a packet with a valid checksum that the compiled default sweep breaks |
| ChecksumSweep.SweepOnWire | pkg/stl/dsl/vm.go:97-124 | on the wire, packet n of a compiled sweep has the profile's minimum, or 1024, plus n modulo the built checksum in its field and that checksum less n modulo itself in the checksum's place, and every other byte as built |
| ChecksumSweep.SweepPanicsIff | pkg/stl/dsl/vm.go:98-109 | compiling panics exactly when both offsets stand for numbers and that of the checksum is negative but gets past the range check |
| ChecksumSweep.OffsetIsOrFails | pkg/stl/dsl/vm.go:150-167 | an offset is a number, a fraction cut towards zero or a resolved reference; a missing, unusable or unresolved one is reported as such |
| ChecksumSweep.UdpSweepIsCovered | pkg/stl/dsl/vm.go:152-167 | references to the UDP source port and checksum always meet the alignment conditions |
| ChecksumSweep.UdpSweepIsValidIff | pkg/stl/dsl/vm.go:97-167 | from the profile to the wire: for a valid UDP packet the sweep compiles exactly when the checksum is at least 2, and what it compiles to keeps every packet valid exactly when the port runs within 16 bits from its built value, with the profile's minimum or 1024 |
| Packets.DecodeLayerStarts | pkg/stl/packet.go:66-83 | the index holds exactly the layer names that occur, each with the byte offset of its outermost layer |
| Packets.CutDot | pkg/stl/packet.go:90 | splits at the first dot, losing nothing |
| Packets.ResolvesToField | pkg/stl/packet.go:89-111 | a reference resolves exactly when its field is known, to the place in the packet where the outermost layer's own bytes of that field are |
| Headers.ReferenceReadsField | pkg/stl/packet.go:89-169 | for an Ethernet, 802.1Q, IPv4, IPv6, UDP or TCP header laid out as its standard says, a reference by any name of the layer resolves exactly for the fields of the table, and what the packet holds there is that field of the outermost such header |
| Headers.BareNameFindsLayer | pkg/stl/packet.go:99-101 | a bare layer name leads to where the outermost such layer begins, and all of the layer is found there |
| Headers.BadLayerIsReported | pkg/stl/packet.go:90-98 | a layer name is unknown exactly when no layer goes by it, and absent exactly when the packet has no layer of that kind |
| Packets.AbsentLayerFails | pkg/stl/packet.go:89-98 | a layer that does not occur cannot be referred to |
| Packets.WriteStaysInLayer | pkg/stl/packet.go:73-81 | a write that fits in a layer changes that layer's contents and no other layer |
| Srh.SerializeTo | pkg/stl/dsl/srh.go:51-68 | the bytes written in place are the encoding of the header |
| Srh.CopySegment | pkg/stl/dsl/srh.go:64-66 | writes the 16 bytes of a segment and keeps everything before them |
| Srh.DecodeSRH | pkg/stl/dsl/srh.go:72-93 | the decoder with its loop and both errors |
| Srh.EncodedIsLaidOut | pkg/stl/dsl/srh.go:51-68 | every field and segment is at its place of section 2 of RFC 8754, with the length in 8-octet units and routing type 4 |
| Srh.RoundTripIff | pkg/stl/dsl/srh.go:51-93 | decoding a serialized header followed by any payload gives back header, contents and payload exactly up to 127 segments |
| Srh.DecodeAccepts | pkg/stl/dsl/srh.go:72-93 | exactly which inputs are accepted, and which error the others give; the header read is the one laid out in the contents; contents followed by payload is the input; the segment count is half the length field |
| Srh.ReencodeIff | pkg/stl/dsl/srh.go:51-93 | serializing what was decoded reproduces it exactly for routing type 4 and an even length field, which the decoder does not check |
| Srh.BuiltHeader | pkg/stl/dsl/srh.go:95-139 | on the wire a built header has the segments in order, Last Entry the index of the last and, unless given, active, and the low bits of what was given; it round-trips exactly up to 127 segments |
| Events.NeverPanics | pkg/session/events.go:61-98 | in every interleaving no send or second close hits a closed channel, buffers hold at most 8, keys are never reused |
| Events.BusFollowsHistory | pkg/session/events.go:61-98 | in every run each channel holds exactly what that subscriber's own history says, and is closed exactly when cancelled |
| Events.Delivery | pkg/session/events.go:61-98 | received followed by buffered is the matching events published between subscribe and cancel, in order, without exactly those that found 8 waiting |
| Events.ReceivedIsTaken | pkg/session/events.go:61-98 | what a subscriber received is the first part of what its channel accepted |
| Events.AcceptedHadRoom | pkg/session/events.go:92-97 | the accepted events are exactly those offered with fewer than 8 waiting |
| Events.OthersAreHarmless | pkg/session/events.go:85-98 | removing every receive and cancel of the others changes nothing for a subscriber |
| Events.EventBus.Subscribe | pkg/session/events.go:61-83 | is the subscribe step of the model |
| Events.EventBus.Cancel | pkg/session/events.go:73-81 | is the cancel step, on every call |
| Events.EventBus.Publish | pkg/session/events.go:89-98 | is the publish step, for every iteration order of the map |
| Events.EventBus.Receive | pkg/session/port.go:210 | hands out the oldest buffered event, also after the close |
| JobDone.SignalsAtMostOnceForItsOwnPort | pkg/session/port.go:206-218 | in every run the waiter never blocks on its signal, sends at most one, and only if a job-done event of its own port was published after it subscribed |
| JobDone.PlayIsGood | pkg/session/port.go:206-218 | in every run: a waiting waiter has read no own event, a signalled one has read exactly up to the first, a drained one was cancelled and had none |
| JobDone.BufferedIsSignalled | pkg/session/port.go:210-215 | an own event in the channel is signalled once the waiter has had enough turns to reach it, whatever the others do |
| JobDone.EndsAfterCancel | pkg/session/port.go:206-218 | after a cancel the waiter ends within one turn per buffered event and one more, having signalled exactly if its event was accepted |
| JobDone.OwnEventIsSignalled | pkg/session/port.go:203-218 | subscribed first and never overflowed, an own event is always signalled once the waiter is scheduled |
| JobDone.SignalledIff | pkg/session/port.go:203-218 | a published own event with no other to come is signalled if and only if there was room for it or another was buffered |
| JobDone.OwnEventCanBeMissed | pkg/session/port.go:205 | eight events of another port first, and the own event is never signalled |
| JobDone.Waiter.constructor | pkg/session/port.go:207-208 | subscribes on the shared bus and starts waiting |
| JobDone.Waiter.Turn | pkg/session/port.go:210-215 | one turn of the loop is the wake step of the model |
| JobDone.Waiter.Observe | pkg/session/events.go:61-98 | an action of another user of the bus between turns is the model's step of that user, and leaves the waiter as it was |
| JobDone.Waiter.Meanwhile | pkg/session/events.go:89-98 | a publish on the shared bus between turns keeps the waiter's run in step with the bus |
| Connection.RunKeeps | pkg/rpc/connection.go:55-175 | the invariant of every interleaving: wire, messages in flight, requests, handle and ids |
| Connection.WireAlternates | pkg/rpc/connection.go:55-71 | the wire strictly alternates send and receive, and each reply answers the message just before it |
| Connection.EveryCallerGetsItsOwnReply | pkg/rpc/connection.go:76-132 | the k-th finished job sent exactly the k-th message, its caller's entries under the current handle, and returned what the reply to its own ids says: a call its result or the RPC error, a batch all responses in order, a handshake success exactly with a handle that is not empty |
| Connection.ServerSeesWhatCallersAsk | pkg/rpc/connection.go:76-175 | every message on the wire, answered or in flight, is its caller's: a call or handshake one request, a batch an array, method and params as given, with the handle of the last handshake that succeeded before it |
| Connection.HandleIsCarried | pkg/rpc/connection.go:134-175 | every request on the wire after the reply to a successful handshake, answered or still in flight, carries the handle last negotiated, and otherwise just what its caller gave |
| Connection.IdsNeverRepeat | pkg/rpc/jsonrpc.go:52-57 | no id is sent twice within 2^64 draws, whoever else draws ids |
| Connection.SameIdIff | pkg/rpc/jsonrpc.go:52-57 | two requests share an id exactly when their draws are congruent modulo 2^64 |
| Connection.IdRepeatsAfterWrap | pkg/rpc/jsonrpc.go:52-57 | the bound is exact: a run in which an id goes out twice |
| Connection.WithAPIHandle | pkg/rpc/connection.go:134-146 | returns the caller's own map before the handshake and a fresh copy with the handle after it; nothing that exists is changed |
| Connection.ScriptRuns | pkg/rpc/connection.go:76-132 | a job that holds the mutex throughout is one of the interleavings |
| Connection.Client.Perform | pkg/rpc/connection.go:76-175 | Call, CallBatch and Handshake under the mutex continue the run by exactly the model's steps, failures to build a request and bad replies included, and return what the reply says; every request built draws one id; the caller's maps hold afterwards what they held |
| Connection.Client.BuildAll | pkg/rpc/connection.go:109-116 | the building loop is that many build steps, or those before the first request that fails and that failure |
| Connection.Client.BuildOne | pkg/rpc/connection.go:85-89 | one request from the caller's own map, by way of its copy with the handle, is the build step; a failure has drawn its id |
| Connection.Client.RoundTrip | pkg/rpc/connection.go:55-71 | one message out, its reply in, the outcome what the reply says, and the handle set by a successful handshake only |
| AsyncEvents.Subscriber.Pull | pkg/rpc/subscriber.go:127-154 | takes the pulled events in order, or reports the failed call |
| AsyncEvents.Subscriber.Handle | pkg/rpc/subscriber.go:106-125 | dispatches, pulls or reports |
| AsyncEvents.RunAccounts | pkg/rpc/subscriber.go:108-165 | over any run, however split into batches: every event is dispatched once and in order, gaps are reported exactly at the mismatches no wildcard excuses, and each message or pull that fails is one further error |
| AsyncEvents.ConsecutiveIsSilent | pkg/rpc/subscriber.go:146-165 | events numbered first, first + 1, first + 2 and so on report no gap, however batched, and the number after the last is expected next |
| AsyncEvents.MissingBlockIsOneGap | pkg/rpc/subscriber.go:146-165 | if after n such events the numbers go on k too far, or k back, exactly one gap is reported, with the number expected and the number that came |
| AsyncEvents.OneEvent | pkg/rpc/subscriber.go:156-165 | one pulled event reports a gap exactly when its number and the expected one are both set and differ; its successor is expected next |
| AsyncEvents.GapsComeFirst | pkg/rpc/subscriber.go:146-153 | in every run each gap is reported just before the event that shows it is dispatched |
| AsyncEvents.DirectIsTransparent | pkg/rpc/subscriber.go:108-165 | a direct message inserted anywhere in a run is dispatched at its place and changes neither the errors of the whole run nor the number expected at its end |
| AsyncEvents.OneBreakOneError | pkg/rpc/subscriber.go:146-165 | a run that pulls two contiguous stretches, however batched and interleaved, raises exactly one error at the missing block between them, and none if a side of the break is a wildcard |
| Profiles.Choose | pkg/stl/stream.go:139-146 | the chosen id is not taken; where the wanted one is, it is the least free id past the automatic one |
| Profiles.AllocateOne | pkg/stl/stream.go:139-146 | the inner loop ends, with the wanted id if free and else the least free one past the automatic id |
| Profiles.AllocationIsInjective | pkg/stl/stream.go:132-156 | for every mix of automatic and explicit ids, all allocated ids are distinct |
| Profiles.HonouredIff | pkg/stl/stream.go:41-156 | every explicit id is honoured exactly when the ids the profile means, explicit ones as they stand and automatic ones counting on, do not collide; those are then the ids |
| Profiles.ExplicitFirstHonouredIff | pkg/stl/stream.go:41-156 | with explicit streams first: exactly when no explicit id is repeated |
| Profiles.RisingHonouredIff | pkg/stl/stream.go:41-156 | with explicit ids that rise from 0 or more: exactly when each leaves room for the automatic streams before it |
| Profiles.ExplicitIdIsLost | pkg/stl/stream.go:41-43 | an automatic stream followed by one that asks for 0 gives ids 0 and 2 |
| Profiles.AutomaticIdsArePositions | pkg/stl/stream.go:128-149 | without explicit ids stream i gets id i |
| Profiles.DuplicateIdIsRenumbered | pkg/stl/stream.go:130 | a repeated explicit id is not an error: two streams asking for 5 get 5 and 7 |
| Profiles.Resolve | pkg/stl/stream.go:132-202 | ids and links of a resolvable profile, or the first error found: duplicate name, missing packet or unknown next |
| Profiles.SucceedsIffResolves | pkg/stl/stream.go:132-202 | resolution succeeds exactly when names are unique, packets present and every next known |
| Profiles.ForPort | pkg/stl/stream.go:55-67 | exactly the undirected streams, those of direction 0 on even ports and those of direction 1 on odd ones, each once and in order |
| Profiles.SplitResolvesIff | pkg/stl/stream.go:55-202 | the sub-profile of a resolvable profile resolves exactly when no kept link leaves it |
| Profiles.ResolvesOnEveryPortIff | pkg/stl/stream.go:55-202 | a resolvable profile resolves on every port exactly when every link is direction-compatible |
| Profiles.SplitPreservesGraph | pkg/stl/stream.go:55-202 | then each port's next ids are the order-preserving induced subgraph of the profile's links |
| Profiles.EnsureFlowStats | pkg/stl/stream.go:99-113 | new group ids are exactly [start, result), each once; other streams are untouched; tags are distinct if the prior ones were and lay outside the range |
| Profiles.TagTwice | pkg/stl/stream.go:99-113 | tagging again, from any id, leaves every stream with exactly the rule it had after the first pass |
| Pcap.LoadPcap | pkg/stl/loaders/pcap.go:46-89 | the chain of a capture, or the first undecodable packet |
| Pcap.ChainResolves | pkg/stl/loaders/pcap.go:68-88 | the chain of every decodable capture resolves, with ids equal to positions |
| Pcap.ReplayIsCaptureOrder | pkg/stl/loaders/pcap.go:68-88 | following next ids from a self-starting stream until -1 is possible in exactly one way: every packet once, in capture order |
| Pcap.StreamsOfCapture | pkg/stl/loaders/pcap.go:63-108 | in every configuration: names, packets and the one self-starting stream of a capture, and the gap before each packet: the fixed one, none before the first, else the whole microseconds since the packet before over the speedup, but at least the minimum |
| Pcap.GapsFollowTimestamps | pkg/stl/loaders/pcap.go:97-108 | for chronological timestamps the gaps add up to the capture span over the speedup, short by less than a microsecond a gap |
| Imix.HeaderLen | pkg/stl/dsl/dsl.go:256-264 | the header lengths of the layers, summed |
| Imix.PayloadForSize | pkg/stl/dsl/dsl.go:246-254 | headers and payload together are the target size, or the headers alone when they are longer |
| Imix.FrameHasRowSizeIff | pkg/stl/dsl/dsl.go:246-285 | with header layers that fit a row's size, its frames come out at that size exactly when the table knows every layer that is not empty, and are longer by the other layers otherwise |
| Imix.BuildImix | pkg/stl/dsl/dsl.go:205-244 | one stream per row with its name, tag, size and share of the rate, the rates adding up to the base rate; errors for a zero weight sum, an invalid mode and the first row whose packet cannot be built |
| Imix.RatesAddUp | pkg/stl/dsl/dsl.go:207-244 | the rows' rates are the rate of the summed weights |
| Imix.RateIsConserved | pkg/stl/dsl/dsl.go:207-244 | the rows' rates add up to exactly the base rate for every weight list with a non-zero sum |
| Text.DecimalReadsBack | pkg/rpc/jsonrpc.go:54-57 | ids and generated names are decimal: digits without a leading zero that read back as the number |
| Imix.RowNamesDistinct | pkg/stl/dsl/dsl.go:223 | rows of one entry never share a name |

## Left out

- ZeroMQ sockets, zlib framing, JSON and YAML, text templates and file reading: library and I/O behaviour.
- gopacket serialization, minimum-frame padding and its checksum computation: a built packet is bytes with the layers that tile it.
- The server's flow-variable engine is not in the repository: `ChecksumSweep.Run` states what is assumed of it, also for a range whose maximum is below its minimum.
- Which params maps and packets fail to marshal or build is a parameter: `bad` in `Connection.Client.Perform`, `builds` in `Imix.BuildImix`; layers the header table does not know count as zero, as in the code.
- Transport failures in the middle of a request: a failed send or receive leaves the socket in a state that belongs to the library.
- Real time: sleeps are durations in a trace, cancellation is a failed sleep; `report` and `verbose` print and are not modelled.
- Rounding of `float64`, conversions of out-of-range floats, and overflow of Go `int` in stream ids, group ids and bus keys.
- The reduction of get_pgid_stats over ports (`parsePgidStats`, `sumPorts`), `splitParams`, `ParseRate`, unit conversions, mode builders, stream flags and snapshot copying: easy members.
- The terminal interface, the shell, command history, the statistics stores and `Client.Barrier`.
