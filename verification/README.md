# Verified model of the edge telemetry stack

A Dafny 4.11 model of the parts of the repository whose correctness is not obvious: the MAVLink v2
receiver, the store-and-forward data mule, the cross-domain guard, key matching, the flight simulator,
the gateway's intake and the dashboard's freshness guard. `dafny verify dfyconfig.toml` checks all of it.

Code that changes state step by step is a class with methods, each proved against a specification
function on values (`Scan`, `Ingested`, `Stepped`, `Next`, ...). The laws are lemmas about those functions,
over all inputs, runs or reachable states.

| file | models |
|---|---|
| Crc, Frame, Stream, Messages | checksum, packet codec, resynchronising decoder, field codecs (`pkg/mavlink`) |
| Bridge | the autopilot aggregator and its read loop (`pkg/mavlink`) |
| Windows, DataMule, DeadLetter | bounded windows, the data mule (`pkg/zenohutil`), the dead letter queue (`pkg/policy`) |
| Rounding, Schema, Policy, Guard | decimal rounding, envelopes (`pkg/schema`), sanitiser (`pkg/policy`), `cmd/cds-guard` |
| Text, Topic, Selector, Bus | strings, keys, selector matching, the in-memory bus (`pkg/zenohutil`) |
| Vehicle, Orders, Motion, Flight | `VehicleSim` of `cmd/edge-agent`: whom it obeys, how it heads, climbs, turns and drains in each state, its invariants |
| Landing, Approach, Patrol, Rejoin, Stall | how every recall and every patrol order ends, the altitude on the way home, when a step is too short to count, how true its reports are |
| Gateway, Dashboard | `handleTelemetry` of `cmd/c2-gateway`, `handleIncomingTelemetry` of `web/app.js` |

## Main results

- The byte-wise CRC update is eight steps of bit-serial division by the reflected polynomial 0x8408
  (section 2.2.7 of ITU-T X.25), and the checksum is the remainder of polynomial long division. Damage
  within 16 consecutive bits always changes it. A whole packet of a known message decodes exactly if dividing
  its body, its message's extra byte and its checksum leaves zero.
- `NextFrame` returns the leftmost acceptable packet however the bytes arrive. Over a line with noise and
  damaged frames, draining it returns every intact frame in order and nothing else; the aggregator's status
  is then the one the intact frames determine.
- The data mule accounts for every packet in every run. Over a run, what the upstream has and will have
  received is in ingest order at every moment exactly if no packet was published directly over a buffer that
  was not empty, which its metrics show before the call. A restore after an outage of any length publishes
  what the buffer holds of it in ingest order, each packet under its own topic.
- Whatever the guard publishes, over any run, is a valid TIER-1 envelope that came from a valid TIER-1 or
  TIER-2 packet. Two sanitised TIER-2 packets are published alike, key and bytes, exactly when they agree on
  what may show, and runs of such pairs publish the same. A constructed envelope whose payload was exchanged
  afterwards is isolated, as far as digests do not collide.
- A vehicle obeys exactly the commands for its own name or for nobody in particular. A returning vehicle is on
  its pad after a number of steps computed from its distance and altitude, and a patrolling one on its circle
  after a number computed from its gap and speed; both then stay there. The steps may have any lengths from one
  on that outdoes the rounding: 14.5 dt > 0.08 m on the way home, and 0.98 w dt > 0.08 m at a speed w on the way
  to the circle. Shorter than half the sixth decimal (0.056 m), no step moves the vehicle at all and it never
  arrives. On the way home a vehicle that starts at 15 m or higher stays there until 10 m from the pad.
- The dashboard shows the highest sequence number received, at every moment, exactly if no packet was taken
  for a restart; the same packets in any order and multiplicity then leave the same picture.

## Where the code falls short

Each of these is a lemma: a concrete input, or the exact condition under which the property holds.

- `Stream.TruncatedCandidateHidesFrame`: two stray bytes 0xFD 0xFF before a complete frame make `NextFrame`
  report end of file, and the read loop then stops, although the frame is pending.
- `Frame.RoundTripExactly`: a message ID of 2^24 or more loses its top byte.
- `Selector.MatchingIsTheMeaningExactly`, `Selector.MatchesAreCompleteExactly`: a `**` in the middle accepts
  too much, and `a/**/**` rejects `a`; the comment in the source promises only that `**` matches the remainder.
- `DataMule.CounterIsTrueExactly`: without an upstream, and only then, a flush counts packets as synced that
  were never sent, and drops them.
- `DataMule.FailedRestoreLosesOrder`: a restore whose flush fails leaves the mule online with packets waiting,
  and newer ones overtake them; `DataMule.OrderKeptExactly` says when.
- `Guard.CrashExactly`: a valid TIER-1 envelope without telemetry makes the guard dereference nil;
  `Guard.PublicCommandPanics` builds one from any stamped command.
- `Guard.TracedExactly`: a packet whose sanitised form cannot be printed counts as redacted and leaves neither a
  publication nor a dead letter.
- `Schema.CommandEnvelopeValidExactly`: a command envelope whose issue time is left to the constructor fails
  its own validation, for the digest is taken before the time is filled in.
- `Flight.BatteryFrozenExactly`: a step that drains at most 0.05 percent is rounded away. At the usual rates
  and one step a second the battery never drains.
- `Motion.TurnsAtPace`: a patrolling vehicle that has no speed, near its circle, still moves along it by 0.08
  radians a second.
- `Stall.LandsExactly`, `Stall.RejoinsExactly`: at step rates so high that a step is shorter than half the sixth
  decimal, a vehicle neither lands nor reaches its circle.
- `Stall.RebasedDescentHangs`: moving the pad by more than 10 m during the final descent leaves the vehicle
  hanging there at speed 0. The program only sets pads before the flight.
- `Dashboard.RestartTurnsBack`: once a restart is accepted, the order of arrival decides what is shown.

## Model

| member | source | states |
|---|---|---|
| `Crc.X25CRC.Accumulate` | pkg/mavlink/crc.go:14-18 | one byte moves the register as the bit formula says |
| `Crc.X25CRC.AccumulateBytes` | pkg/mavlink/crc.go:21-25 | the loop folds the update over the slice |
| `Crc.GeneratorIsReflected8408` | pkg/mavlink/crc.go:17 | the taps of the bit-serial register are the set bits of 0x8408 |
| `Crc.AccumulatedIsDivision` | pkg/mavlink/crc.go:14-18 | a byte update is eight bit-serial division steps, for every register and byte |
| `Crc.AccumulatedBytesIsDivision` | pkg/mavlink/crc.go:21-25 | so a slice update is bit-serial division of its bits |
| `Crc.AccumulatedBytesConcat` | pkg/mavlink/crc.go:21-25 | feeding two slices is feeding their concatenation |
| `Crc.DivideIsRemainder` | pkg/mavlink/crc.go:14-25 | bit-serial division leaves the remainder of long division over GF(2) |
| `Crc.ChecksumIsPolynomialRemainder` | pkg/mavlink/crc.go:14-25 | the register is the polynomial remainder of seed and message |
| `Crc.DivideLinear` | pkg/mavlink/crc.go:14-25 | division is linear under xor |
| `Crc.ReachesZeroExactly` | pkg/mavlink/crc.go:14-25 | 16 message bits bring the register to 0 exactly if they equal it |
| `Crc.BurstChangesRegister` | pkg/mavlink/crc.go:14-25 | differing bit strings that agree outside 16 consecutive bits end in different registers |
| `Crc.BurstDetected` | pkg/mavlink/crc.go:21-25 | the same for byte strings |
| `Crc.TwoAdjacentBytesAreABurst` | pkg/mavlink/crc.go:21-25 | overwriting one byte or two adjacent bytes is such a burst |
| `Crc.LaterBytesKeepDifference` | pkg/mavlink/crc.go:21-25 | equal bytes that follow neither create nor undo a difference |
| `Crc.OwnBytesLeaveZero` | pkg/mavlink/crc.go:14-25 | two more bytes leave 0 exactly if they are the register's own, low byte first |
| `Frame.ComputeChecksum` | pkg/mavlink/messages.go:221-226 | seed, body and CRC_EXTRA byte of a known ID, through the CRC object |
| `Frame.ChecksumExactly` | pkg/mavlink/messages.go:182-192 | two bytes are the checksum of a body exactly if bit-serial division of body, extra byte and these two, from all ones, leaves zero |
| `Frame.KnownDecodesExactly` | pkg/mavlink/messages.go:151-195 | a whole packet of a known ID decodes exactly if that division of its body, its ID's extra byte and its two checksum bytes leaves zero |
| `Frame.EncodedIsCodeword` | pkg/mavlink/messages.go:221-226 | what the encoder writes passes that division |
| `Frame.ExtraTellsMessagesApart` | pkg/mavlink/crc.go:33-60 | one body under two known IDs has equal checksums exactly if the IDs are equal |
| `Frame.WirePlaces` | pkg/mavlink/messages.go:198-230 | which byte of the packet holds which field, ID and checksum low byte first |
| `Frame.DecodeFrame` | pkg/mavlink/messages.go:151-195 | every branch of decoding: short, foreign, truncated, CRC mismatch, frame |
| `Frame.EncodeFrame` | pkg/mavlink/messages.go:198-230 | the buffer filled in place is the wire layout of the outgoing frame; long payloads are refused |
| `Frame.DecodedWire` | pkg/mavlink/messages.go:151-195 | a well-formed frame's layout decodes to that frame if its checksum fits or its ID is unknown, else to a CRC error |
| `Frame.DecodedInverts` | pkg/mavlink/messages.go:151-195 | accepted data starts with the layout of the frame it yields |
| `Frame.OutgoingIsAcceptable` | pkg/mavlink/messages.go:198-230 | what the encoder writes the decoder accepts |
| `Frame.RoundTripExactly` | pkg/mavlink/messages.go:198-230 | decoding an encoded packet with anything behind it gives the frame back exactly for IDs below 2^24 |
| `Frame.ReencodeExactly` | pkg/mavlink/messages.go:151-230 | re-encoding an accepted packet reproduces its bytes exactly if both flag bytes are 0 and the checksum fits |
| `Frame.AdjacentBytesAreDamage` | pkg/mavlink/messages.go:182-192 | one byte or two adjacent bytes overwritten in header bytes 2..6, in the payload or in the checksum are such damage |
| `Frame.DamageRejected` | pkg/mavlink/messages.go:182-192 | a known frame with one burst of at most 16 bits in header bytes 2..6 and payload, or with any damage to its checksum bytes, is always rejected |
| `Stream.BufferedReader.ReadByte` | pkg/mavlink/stream.go:28-34 | takes the first pending byte, or reports the end |
| `Stream.BufferedReader.Peek` | pkg/mavlink/stream.go:37-50 | the next n pending bytes without consuming them, an error if there are fewer or n exceeds the buffer |
| `Stream.BufferedReader.Discard` | pkg/mavlink/stream.go:65 | consumes peeked bytes |
| `Stream.StreamDecoder.TakePacket` | pkg/mavlink/stream.go:36-66 | at a magic byte: end of file, nothing consumed, or a whole packet consumed and decoded |
| `Stream.StreamDecoder.NextFrame` | pkg/mavlink/stream.go:25-68 | result and consumption are those of the scan of all pending bytes, whatever the chunking; the loop ends |
| `Stream.ScanIsLeftmostParse` | pkg/mavlink/stream.go:25-68 | a returned frame lies at the first position that is acceptable or cut short; a cut-short one costs one byte past what precedes it |
| `Stream.LeftmostParseIsUnique` | pkg/mavlink/stream.go:25-68 | that description fits no other result |
| `Stream.DrainReturnsIntactFrames` | pkg/mavlink/stream.go:25-68 | over sent frames, noise and damaged frames, the intact frames come out, in order, and nothing else, and all bytes are read |
| `Stream.FrameBehindBytesExactly` | pkg/mavlink/stream.go:25-68 | a frame behind arbitrary bytes is returned next exactly if no earlier position is acceptable or cut short |
| `Stream.TruncatedCandidateHidesFrame` | pkg/mavlink/stream.go:47-50 | two stray bytes make the decoder report end of file before a complete frame |
| `Messages.GetPut` | pkg/mavlink/messages.go:248-257 | little-endian writing, then reading, gives a number back |
| `Messages.PutGet` | pkg/mavlink/messages.go:233-245 | reading, then writing, gives the bytes back |
| `Messages.UnpackPack` | pkg/mavlink/messages.go:278-290 | a row of fields survives, whatever follows |
| `Messages.PackUnpack` | pkg/mavlink/messages.go:260-275 | a row of bytes survives |
| `Messages.MessageRoundTrip` | pkg/mavlink/messages.go:233-360 | heartbeat, position, status and attitude survive encoding and decoding, signed fields included |
| `Messages.PayloadRoundTrip` | pkg/mavlink/messages.go:233-360 | a decodable payload is the encoding of what it decodes to, up to trailing bytes |
| `Messages.HeartbeatBytes` | pkg/mavlink/messages.go:233-245 | every field of a decoded heartbeat by the payload bytes it stands in |
| `Messages.PositionBytes` | pkg/mavlink/messages.go:260-275 | the same of a position; signed fields take their sign from the top bit of their last byte |
| `Messages.StatusBytes` | pkg/mavlink/messages.go:293-312 | the same of a system status |
| `Messages.AttitudeBytes` | pkg/mavlink/messages.go:334-347 | the same of an attitude |
| `Messages.DecodableExactly` | pkg/mavlink/messages.go:233-347 | which IDs decode, and from which payload length on |
| `Messages.ArmedExactly` | pkg/mavlink/messages.go:233-245 | the armed flag is the top bit of byte 6 |
| `Messages.MessagesSurviveTheLine` | pkg/mavlink/messages.go:151-360 | messages framed and sent over a noisy line are read back, each and in order |
| `Messages.CarryingIsAcceptable` | pkg/mavlink/messages.go:198-230 | the frame of every message may stand on such a line |
| `Bridge.VehicleState.IngestFrame` | pkg/mavlink/bridge.go:61-121 | the new state for every kind of frame, and which frames are errors |
| `Bridge.VehicleState.BuildSecurityEnvelope` | pkg/mavlink/bridge.go:124-176 | the next sequence number and an envelope of the current state |
| `Bridge.StateSummarizesHistory` | pkg/mavlink/bridge.go:61-121 | every field is determined by the last frame of the kind it comes from, the status by the last heartbeat and the altitudes since |
| `Bridge.StatusExactly` | pkg/mavlink/bridge.go:73-99 | STANDBY, ARMED and IN_FLIGHT each exactly when the history says so |
| `Bridge.ReadingsAreNear` | pkg/mavlink/bridge.go:89-96 | against the numbers sent: velocities exact, position and altitude within 5 units of the last digit on the wire, heading within 0.05 degrees |
| `Bridge.SpeedIsNear` | pkg/mavlink/bridge.go:92-96 | the stored speed is the length of the ground velocity sent, to half a hundredth |
| `Bridge.AboveOneMetreExactly` | pkg/mavlink/bridge.go:91-99 | flight starts at 1005 mm, since the altitude is rounded first |
| `Bridge.UnreadableFramesOnlyTouchTheClock` | pkg/mavlink/bridge.go:65-118 | striking out frames that do not decode changes at most the update time |
| `Bridge.StateOnGrids` | pkg/mavlink/bridge.go:85-108 | every stored number is rounded, and the battery stays in 0..100 |
| `Bridge.EnvelopeValidExactly` | pkg/mavlink/bridge.go:124-176 | the reported payload is in normal form, and its envelope validates exactly if the unit has an ID and the position is on the globe |
| `Bridge.EnvelopeReports` | pkg/mavlink/bridge.go:124-176 | the envelope names unit, team, type and tier with their defaults, and reports the state unchanged |
| `Bridge.ReadLoop` | pkg/mavlink/stream_client.go:68-95 | all frames up to the first cancelled look at the context or else the first end of file go into the state, in order |
| `Bridge.NoisyLineStatus` | pkg/mavlink/stream_client.go:68-95 | over a noisy line the state is the one the intact frames determine |
| `Windows.PushIsLastN` | pkg/policy/dlq.go:74-78 | dropping the oldest when full and appending keeps exactly the last n of the history |
| `Windows.LastOfLast` | pkg/policy/dlq.go:93-105 | a window of a window is a window of the history |
| `DeadLetter.DeadLetterQueue.Quarantine` | pkg/policy/dlq.go:59-90 | the record with its number is added to the history; the records stay its last maxCapacity entries and the audit file all of it if every write works |
| `DeadLetter.DeadLetterQueue.GetRecords` | pkg/policy/dlq.go:93-105 | the last n records of those kept |
| `DeadLetter.DeadLetterQueue.Count` | pkg/policy/dlq.go:108-112 | the length of the history, up to the capacity |
| `DataMule.DataMule.Ingest` | pkg/zenohutil/datamule.go:100-139 | forwarded, or spooled with its number and time; a refused publish switches to buffering |
| `DataMule.DataMule.Flush` | pkg/zenohutil/datamule.go:142-182 | a prefix of the buffer is published; the buffer is cleared only when all of it was |
| `DataMule.DataMule.Metrics` | pkg/zenohutil/datamule.go:205-224 | status, latency, packets and bytes in the buffer, counter and mode |
| `DataMule.DataMule.SetSimulationMode` | pkg/zenohutil/datamule.go:185-202 | blackout on, or off with a flush; latency and the metrics returned |
| `DataMule.BufferIsWindow` | pkg/zenohutil/datamule.go:118-136 | the buffer is the last maxBuffer packets spooled since the last clear, in every run |
| `DataMule.BufferIsOnDisk` | pkg/zenohutil/datamule.go:130-178 | if the disk works the buffer is a suffix of the spool file |
| `DataMule.EveryPacketAccountedFor` | pkg/zenohutil/datamule.go:100-202 | each ingested packet was published, is buffered, or was evicted from an overflowing buffer, even with calls between the two sections of a restore |
| `DataMule.NothingLostWithoutOverflow` | pkg/zenohutil/datamule.go:100-182 | without overflow it was published or is buffered |
| `DataMule.LinkExactly` | pkg/zenohutil/datamule.go:100-202 | what takes the link down and what brings it up again |
| `DataMule.OutageSpools` | pkg/zenohutil/datamule.go:115-139 | over any ingests while the link is down nothing is published and all of them are spooled in order |
| `DataMule.OutageIsMadeUp` | pkg/zenohutil/datamule.go:142-202 | a restore that succeeds publishes, in ingest order, the last maxBuffer of what was spooled before and during an outage of any length, and leaves the link up |
| `DataMule.SyncedCountsPublishes` | pkg/zenohutil/datamule.go:111-160 | the counter is the number of successful publishes, repeats included |
| `DataMule.FlushWithoutBusLosesPackets` | pkg/zenohutil/datamule.go:152-165 | without an upstream a flush counts and discards |
| `DataMule.CounterIsTrueExactly` | pkg/zenohutil/datamule.go:111-160 | the counter tells the publishes in every run exactly if there is an upstream |
| `DataMule.NewestIsUnsent` | pkg/zenohutil/datamule.go:100-182 | in every run the buffer is in ingest order and its newest packet was never sent |
| `DataMule.OvertakingShows` | pkg/zenohutil/datamule.go:104-113 | in a run, a step overtakes an unsent packet exactly if it publishes directly while the buffer is not empty |
| `DataMule.OrderedShows` | pkg/zenohutil/datamule.go:142-182 | in a run, the order invariant holds exactly if a complete flush leaves first deliveries in ingest order |
| `DataMule.OrderKeptExactly` | pkg/zenohutil/datamule.go:100-202 | at every moment of a run what is and will be delivered is in ingest order exactly if no packet was published directly over a buffer that was not empty |
| `DataMule.OvertakenGoesOutLate` | pkg/zenohutil/datamule.go:100-182 | once a packet is overtaken no later flush can repair the order |
| `DataMule.TameRunsKeepOrder` | pkg/zenohutil/datamule.go:100-202 | if every restore succeeds as one step, online without blackout means an empty buffer, and the log without repeats is in ingest order |
| `DataMule.FailedRestoreLosesOrder` | pkg/zenohutil/datamule.go:194-198 | a run with a failed restore in which order is lost |
| `DataMule.TopicSurvives` | pkg/zenohutil/datamule.go:238-243 | behind the prefix a forwarded topic is the topic; topics are forwarded alike exactly if they are equal up to that prefix |
| `DataMule.ReceivedKeepsTopic` | pkg/zenohutil/datamule.go:100-182 | every packet on the upstream has the topic and the payload of the ingested packet that its serial points to |
| `DataMule.UpstreamTopicIsForeign` | pkg/zenohutil/datamule.go:238-243 | a forwarded topic lies under upstream/, formatting it again changes nothing, and no selector starting with another literal matches it |
| `Rounding.RoundToFixedExactly` | pkg/schema/telemetry.go:85-88 | rounding changes nothing exactly on the decimal grid |
| `Rounding.RoundToMonotone` | pkg/policy/policy.go:53-56 | rounding is monotone |
| `Rounding.RoundToIsNearest` | pkg/policy/policy.go:53-56 | the result is within half a unit of the last place |
| `Rounding.RoundToKeepsGrid` | pkg/policy/policy.go:53-56 | rounding to a second precision keeps a value on its first grid |
| `Schema.SecurityEnvelope.Validate` | pkg/schema/telemetry.go:193-266 | the error reported, in the order of the checks, and the payload normalised in place once the header passed |
| `Schema.NormalizedIsNormal` | pkg/schema/telemetry.go:91-118 | normalising is idempotent |
| `Schema.NormalExactlyOnGrid` | pkg/schema/telemetry.go:91-118 | normal form means every number on its grid |
| `Schema.ValidationIsStable` | pkg/schema/telemetry.go:193-266 | validating again gives the same verdict and changes nothing |
| `Schema.TelemetryValidExactly` | pkg/schema/telemetry.go:193-266 | a telemetry envelope validates exactly if every field, once rounded, is present and in its range and the digest fits |
| `Schema.CommandValidExactly` | pkg/schema/telemetry.go:193-266 | the same of a command envelope |
| `Schema.DigestCaseIsIgnored` | pkg/schema/telemetry.go:261 | letter case of the digest changes no verdict |
| `Schema.ConstructedHeader` | pkg/schema/telemetry.go:135-190 | when the constructors succeed, and what header and payload they make |
| `Schema.TelemetryEnvelopeValidExactly` | pkg/schema/telemetry.go:135-160 | a constructed telemetry envelope validates exactly if origin and identity are present and its values in range |
| `Schema.AlteredTelemetryExactly` | pkg/schema/telemetry.go:193-266 | with another payload put in, it validates exactly if that payload is in order and, once rounded, the old one |
| `Schema.AlteredTelemetryIsMismatch` | pkg/schema/telemetry.go:257-263 | a payload in order that is another one is a digest mismatch |
| `Schema.AlteredCommandExactly` | pkg/schema/telemetry.go:193-266 | with another command put in, a command envelope validates exactly if that command is in order and the one its digest was taken of |
| `Schema.CommandEnvelopeValidExactly` | pkg/schema/telemetry.go:163-190 | a constructed command envelope validates exactly if, besides, the caller set the issue time |
| `Policy.PolicyEngine.New` | pkg/policy/policy.go:43-50 | a positive precision is kept, any other becomes 2 |
| `Policy.PolicyEngine.Evaluate` | pkg/policy/policy.go:59-97 | verdict and reason of the envelope on entry; validation revises it |
| `Policy.PolicyEngine.RedactAndSanitize` | pkg/policy/policy.go:100-145 | the sanitised copy; the original is untouched |
| `Policy.VerdictExactly` | pkg/policy/policy.go:59-97 | an envelope passes exactly if valid and TIER-1, is redacted exactly if valid and TIER-2 |
| `Policy.ReasonExactly` | pkg/policy/policy.go:59-97 | each reason for quarantine of a telemetry envelope, by what is wrong with it |
| `Policy.CoarsenedIsNormal` | pkg/policy/policy.go:108-112 | coarsening keeps normal form and bounds, at every precision of at least 1 |
| `Policy.SanitizedIsValid` | pkg/policy/policy.go:100-145 | a sanitised envelope is TIER-1, passes validation unchanged, and coarsening it again changes nothing |
| `Policy.SanitizedIsNear` | pkg/policy/policy.go:108-112 | within half a unit of the position and at most 50 m below the altitude |
| `Policy.SanitizerHidesExactly` | pkg/policy/policy.go:100-145 | two envelopes have one sanitised form exactly if they agree on coarse position, altitude bucket, presence of a mission and passed-through fields |
| `Policy.SanitizedHeader` | pkg/policy/policy.go:114-142 | origin, message ID and caveats are the original's with the marks behind, the time stamp is kept, tier and mission are replaced, the digest is that of the new payload |
| `Policy.CoarsenedKeepsRest` | pkg/policy/policy.go:105-121 | position on the coarse grid, altitude a multiple of 50 m, nothing else but the mission touched |
| `Guard.CDSGuard.ProcessPacket` | cmd/cds-guard/main.go:48-128 | counters, publications and dead letters (topic, reason, enclave, tier, raw packet) after a packet are those of the value-level step |
| `Guard.AdmittedExactly` | cmd/cds-guard/main.go:169-177 | which keys the guard's subscription and filter let through |
| `Guard.OutcomeExactly` | cmd/cds-guard/main.go:48-128 | what becomes of a packet, by what it carries |
| `Guard.LetterNamesPacket` | cmd/cds-guard/main.go:53-82 | a dead letter holds its packet's key, bytes, origin and tier, and the reason |
| `Guard.TracedExactly` | cmd/cds-guard/main.go:96-110 | a packet leaves one publication or one dead letter, exactly unless it crashes the guard or its sanitised form cannot be printed |
| `Guard.AlteredIsIsolated` | cmd/cds-guard/main.go:64-82 | a constructed envelope whose payload was exchanged afterwards is isolated and publishes nothing |
| `Guard.EgressKeyIsPublic` | cmd/cds-guard/main.go:112-119 | a down-tagged key lies under sec/tier1/ and is refused by the guard's own subscription |
| `Guard.EgressKeysTellVehicles` | cmd/cds-guard/main.go:112-119 | packets under one unstructured key leave under one key exactly if they are of one vehicle |
| `Guard.EgressKeepsAddress` | cmd/cds-guard/main.go:112-119 | down-tagging a structured key changes its tier and case only |
| `Guard.EgressIsSafe` | cmd/cds-guard/main.go:84-127 | a publication is releasable and came from a valid TIER-1 packet unchanged or from a valid TIER-2 packet under a public key; it re-enters the guard exactly in the first case |
| `Guard.CriticalNeverLeaves` | cmd/cds-guard/main.go:68-82 | a valid TIER-3 packet is isolated and publishes nothing |
| `Guard.PanicExactly` | cmd/cds-guard/main.go:86-89 | a packet makes the guard panic exactly if it is a valid TIER-1 envelope without telemetry |
| `Guard.PublicCommandPanics` | cmd/cds-guard/main.go:86-89 | every stamped, complete command in a constructed TIER-1 envelope is such a packet, on an admitted key |
| `Guard.CrashExactly` | cmd/cds-guard/main.go:86-89 | a run survives exactly if it has no such packet |
| `Guard.RunBalances` | cmd/cds-guard/main.go:48-128 | every counter is the number of packets with its outcomes, dead letters and publications are those of the packets, in order, and passed, redacted and quarantined add up to ingress plus redaction failures |
| `Guard.RunIsSafe` | cmd/cds-guard/main.go:48-128 | everything published in a run is releasable and comes from a packet of the run that was valid TIER-1 or TIER-2 |
| `Guard.CriticalIsInvisible` | cmd/cds-guard/main.go:68-82 | runs that agree but for isolated TIER-3 packets publish the same |
| `Guard.PublishedAlikeExactly` | cmd/cds-guard/main.go:96-127 | two sanitised packets are published alike, key and bytes, exactly if their keys down-tag alike and they agree on what may show |
| `Guard.InterchangeableRunsPublishAlike` | cmd/cds-guard/main.go:48-128 | runs of pairwise such packets publish the same |
| `Text.SplitJoinExactly` | pkg/zenohutil/topic.go:54-67 | joined parts split back exactly if there are some and none holds the separator |
| `Topic.ParseBuildExactly` | pkg/zenohutil/topic.go:34-67 | a built key parses back to its lower-cased fields exactly if no field holds a slash and the stream type is not empty |
| `Topic.ParsedIsClean` | pkg/zenohutil/topic.go:54-67 | parsed fields hold no slash and the stream type is not empty |
| `Topic.ParseExactly` | pkg/zenohutil/topic.go:54-67 | a key parses to given fields exactly if, without outer slashes, it is those joined behind sec and none holds a slash |
| `Topic.OuterSlashesAreIgnored` | pkg/zenohutil/topic.go:54-56 | slashes around a key do not matter |
| `Topic.TierTablesInverse` | pkg/zenohutil/topic.go:20-31 | the two tier tables are inverse, and number the tiers |
| `Topic.TelemetryKeyNamesItsTier` | pkg/zenohutil/topic.go:45-67 | a telemetry key is built for exactly the three tiers, holds tier, type, team and unit in that order, and parsing it gives them back |
| `Topic.Tier1KeyPrefix` | pkg/zenohutil/topic.go:34-42 | public keys lie under sec/tier1/ |
| `Selector.MatchesSelector` | pkg/zenohutil/client.go:47-76 | the two-index loop and its shortcuts compute the recursive greedy match |
| `Selector.MeaningOfWildcards` | pkg/zenohutil/client.go:46-76 | a row of wildcards only bounds the number of chunks |
| `Selector.MatchingIsTheMeaningExactly` | pkg/zenohutil/client.go:46-76 | on every key the match is that of the nondeterministic meaning exactly for selectors that can be read off their chunks |
| `Selector.MatchesAreCompleteExactly` | pkg/zenohutil/client.go:46-76 | no key that the meaning accepts is rejected, exactly unless only further `**` follow the first, which is not the first chunk |
| `Bus.MemoryBus.Subscribe` | pkg/zenohutil/client.go:96-106 | the subscription is recorded, unless the bus is closed |
| `Bus.MemoryBus.Publish` | pkg/zenohutil/client.go:78-94 | each handler is called as often as it subscribed under a matching selector; a closed bus calls none |
| `Bus.MemoryBus.Close` | pkg/zenohutil/client.go:108-114 | the bus is closed and empty |
| `Bus.ForwardedCallsNobodyElse` | pkg/zenohutil/datamule.go:238-243 | what the mule forwards calls no subscriber of selectors that begin with another literal |
| `Vehicle.VehicleSim.constructor` | cmd/edge-agent/main.go:48-81 | defaults and start position |
| `Vehicle.VehicleSim.SetBase` | cmd/edge-agent/main.go:380-385 | the pad moves and nothing else |
| `Vehicle.VehicleSim.HandleCommand` | cmd/edge-agent/main.go:388-435 | the effect of every command, and of commands for others |
| `Vehicle.VehicleSim.Step` | cmd/edge-agent/main.go:89-377 | new state and reported payload, state by state |
| `Orders.ObeysExactly` | cmd/edge-agent/main.go:388-400 | a vehicle obeys a target with its own name, whatever team either is prefixed with, or no target at all, and ignores every command for any other |
| `Orders.CaseIsIgnored` | cmd/edge-agent/main.go:391-400 | letter case of the target does not matter |
| `Orders.OrdersDoNotMove` | cmd/edge-agent/main.go:388-435 | a command never moves a vehicle over ground, nor touches its battery, pad or numbering |
| `Orders.HoverHolds` | cmd/edge-agent/main.go:239-256 | a hovering vehicle keeps its place and altitude for any number of steps |
| `Orders.DisarmGrounds` | cmd/edge-agent/main.go:428-431 | a disarmed vehicle stays on the ground where it is |
| `Orders.ArmExactly` | cmd/edge-agent/main.go:422-427 | arming acts on a landed vehicle only, and how |
| `Orders.ToggleTwice` | cmd/edge-agent/main.go:432-433 | toggling twice changes nothing |
| `Orders.StartSpeeds` | cmd/edge-agent/main.go:404-421 | the speeds that recall and patrol orders set |
| `Motion.HeadsHome` | cmd/edge-agent/main.go:268-311 | on the way home heading and reported velocity point to the pad, up to rounding |
| `Motion.HeadsOut` | cmd/edge-agent/main.go:113-184 | on the way out they point to the entry point, and the report tells take-off from transit |
| `Motion.InTransitExactly` | cmd/edge-agent/main.go:97-113 | a patrol step is a transit exactly if the entry point is over 8 m and over one step away |
| `Motion.ClimbsInTransit` | cmd/edge-agent/main.go:117-127 | it then climbs by 10 dt up to the cruise altitude, and never sinks |
| `Motion.TurnsAtPace` | cmd/edge-agent/main.go:186-203 | on the circle it covers speed times dt metres of arc, counter-clockwise, or 0.08 dt without speed |
| `Motion.HeadsAround` | cmd/edge-agent/main.go:205-211 | there heading and reported velocity are tangential, up to rounding |
| `Motion.ReportsSay` | cmd/edge-agent/main.go:149-360 | the state, mission and rest that each kind of step reports |
| `Motion.BatteryFalls` | cmd/edge-agent/main.go:149-266 | what each state takes off the battery |
| `Flight.FlightsStayAirworthy` | cmd/edge-agent/main.go:89-435 | over any interleaving of commands and steps: five states, a landed vehicle still and on the ground, battery in 5..98.5 and never rising, altitude under its ceiling, recall speed kept until 10 m from base |
| `Flight.LaunchIsAirworthy` | cmd/edge-agent/main.go:48-81 | every launched vehicle starts so, with these defaults, over its own pad |
| `Flight.RebaseKeepsAirworthyExactly` | cmd/edge-agent/main.go:380-385 | moving the pad keeps the invariants exactly unless the vehicle is stopped in its descent and the new pad is more than 10 m away |
| `Flight.BatteryFrozenExactly` | cmd/edge-agent/main.go:266 | a step leaves the battery unchanged exactly at 5 percent or when it drains at most 0.05 |
| `Flight.UnitBearing` | cmd/edge-agent/main.go:270-280 | cosine and sine of the bearing are the unit vector towards the base |
| `Flight.AdvanceShortens` | cmd/edge-agent/main.go:274-281 | a rounded advance leaves at most the distance less the step, plus the rounding error |
| `Landing.TransitStep` | cmd/edge-agent/main.go:268-311 | a transit step comes nearer by 14.5 dt - 0.08 m or arrives, and does not climb |
| `Landing.DescentStep` | cmd/edge-agent/main.go:313-340 | within 10 m a step sinks by 10 dt, and lands on the pad once 5 m or less remain |
| `Landing.Lands` | cmd/edge-agent/main.go:258-340 | n transit and k descent steps of a length suffice for the distance and altitude they cover, also if the steps are longer |
| `Landing.RestsForever` | cmd/edge-agent/main.go:342-360 | a landed vehicle stays where it is |
| `Landing.ReturnsLand` | cmd/edge-agent/main.go:258-360 | every returning vehicle rests on its pad after the bound, and ever after, in steps of any lengths from one on that outdoes the rounding |
| `Landing.RecallsLand` | cmd/edge-agent/main.go:388-407 | a recall brings down any vehicle it is addressed to, whatever it was doing |
| `Approach.ApproachAltitude` | cmd/edge-agent/main.go:284-286 | one step of a returning vehicle: down by 6 dt to no less than 15 m within 200 m of the pad, level farther out |
| `Approach.NeverLowFarOut` | cmd/edge-agent/main.go:258-360 | a vehicle that turns home at 15 m or higher is never lower while more than 10 m away, over any run |
| `Approach.SinksInApproach` | cmd/edge-agent/main.go:284-286 | after a time t within 200 m its altitude is the larger of 15 m and what it was less 6 t |
| `Approach.KeepsAltitudeFarOut` | cmd/edge-agent/main.go:268-311 | as long as it is farther out it keeps its altitude |
| `Landing.FlightsLand` | cmd/edge-agent/main.go:89-435 | any flight that ends on the way home lands if left alone |
| `Patrol.OrbitPoint` | cmd/edge-agent/main.go:202-203 | a rounded orbit point lies on the circle up to 8 cm |
| `Patrol.EntryIsNear` | cmd/edge-agent/main.go:97-110 | the entry point is the nearest point of the circle, up to rounding, even from the centre |
| `Patrol.CircleNeedsNoTransit` | cmd/edge-agent/main.go:113 | a vehicle on its circle never starts a transit |
| `Patrol.PatrolStaysOnOrbit` | cmd/edge-agent/main.go:186-203 | a patrol step that is no transit ends on the circle, at the same altitude and speed |
| `Patrol.PatrolsForever` | cmd/edge-agent/main.go:97-237 | a vehicle on its circle stays on it for any number of steps of any lengths |
| `Patrol.LaunchedPatrolForever` | cmd/edge-agent/main.go:48-81 | so does every launched vehicle left alone, at its launch altitude and speed |
| `Patrol.ReportsAreTrue` | cmd/edge-agent/main.go:89-377 | every report has the vehicle's identity, next sequence number, battery and heading, a position within 10 m and an altitude within 5.05 m of the actual ones |
| `Rejoin.TransitCloses` | cmd/edge-agent/main.go:113-147 | a transit step ends on the circle or comes nearer to it by 98 percent of the step less one rounding |
| `Rejoin.AcceleratesTo` | cmd/edge-agent/main.go:129-136 | speed grows by 4 dt - 0.005 a step until it reaches any two-decimal speed up to cruise, and does not fall below that |
| `Rejoin.Rejoins` | cmd/edge-agent/main.go:97-237 | k accelerating and n closing steps of a length suffice for the speed and gap they cover, also if the steps are longer |
| `Rejoin.PatrolsRejoin` | cmd/edge-agent/main.go:97-237 | every patrolling vehicle is on its circle after the bound, and ever after, in steps of any lengths from one on that outdoes the rounding |
| `Rejoin.PatrolOrdersRejoin` | cmd/edge-agent/main.go:411-421 | so after a patrol order from any state |
| `Stall.AdvanceStaysExactly` | cmd/edge-agent/main.go:83-86 | an advance leaves a six-decimal coordinate as it is exactly if it is less than half the last decimal, or half of it towards zero |
| `Stall.HomewardStallsExactly` | cmd/edge-agent/main.go:268-281 | a transit step home goes nowhere exactly if it does not reach the pad and both its parts round away |
| `Stall.StalledForever` | cmd/edge-agent/main.go:258-311 | then all further steps of that length do, and the vehicle never lands |
| `Stall.LandsExactly` | cmd/edge-agent/main.go:258-340 | in steps of one length, outside a band of 0.056 to 0.08 m a step, a vehicle lands exactly if the length outdoes the rounding |
| `Stall.RebasedDescentHangs` | cmd/edge-agent/main.go:313-385 | a vehicle whose pad is moved in its final descent never moves again |
| `Stall.OutwardStallsExactly` | cmd/edge-agent/main.go:138-147 | a transit step to the circle goes nowhere exactly if it does not reach the entry point and both its parts round away |
| `Stall.RejoinsExactly` | cmd/edge-agent/main.go:97-237 | in steps of one length, outside such a band, a vehicle in transit reaches its circle exactly if its cruise speed outdoes the rounding |
| `Gateway.Gateway.HandleTelemetry` | cmd/c2-gateway/main.go:121-160 | fleet table, broadcast and mule after a delivery; a refused one reaches none of them |
| `Gateway.HeardExactly` | cmd/c2-gateway/main.go:121-135 | which deliveries are refused: under upstream/ or cloud/, malformed, or without telemetry |
| `Gateway.FleetIsLatestOfHistory` | cmd/c2-gateway/main.go:137-156 | every row holds the latest accepted telemetry and the last 50 accepted positions of its vehicle |
| `Gateway.ForwardedIsRefused` | cmd/c2-gateway/main.go:122-125 | what the mule forwards is refused |
| `Gateway.RefusedChangesNothing` | cmd/c2-gateway/main.go:121-135 | a refused delivery anywhere in a history leaves the fleet table as it was |
| `Gateway.EchoesChangeNothing` | cmd/c2-gateway/main.go:122-125 | an echo of the mule anywhere in a history leaves the fleet table as it was |
| `Dashboard.Dashboard.HandleIncomingTelemetry` | web/app.js:236-311 | the guard, the marker and the track after a packet |
| `Dashboard.ShownExactly` | web/app.js:244-270 | a packet changes nothing exactly if it is not newer than the one shown and at most 50 behind or within 10 s; otherwise its marker shows it, and no other changes |
| `Dashboard.StaleShowsExactly` | web/app.js:244-251 | the same over a history, told by the last accepted packet |
| `Dashboard.FleetIsLastAccepted` | web/app.js:236-311 | a marker shows the last accepted packet, and its track the last 30 points of the whole trail |
| `Dashboard.TrailFollows` | web/app.js:301-311 | neighbouring trail points are apart, and the trail ends at the vehicle up to 0.00005 degrees each way |
| `Dashboard.AlwaysHighestExactly` | web/app.js:244-251 | the highest sequence number received is shown at every moment exactly if nothing was taken for a restart |
| `Dashboard.ReplaysConverge` | web/app.js:244-270 | without restarts the same packets in any order and multiplicity leave the same telemetry |
| `Dashboard.SteadyHistoriesNeverRestart` | web/app.js:246-247 | no restart happens among packets none of which is more than 50 ahead and more than 10 s before another |
| `Dashboard.RestartTurnsBack` | web/app.js:247-250 | with a restart the order of arrival decides |

## Left out

- Floating point: coordinates and physics are real numbers, so IEEE rounding, infinities and NaN are not
  modelled. Float fields of MAVLink payloads are raw 32-bit patterns.
- Trigonometry, square root and the floating modulus are parameters. `Vehicle.Math.Sound`, `Vehicle.Math.Circular`
  and `Vehicle.Math.Wraps` list the laws the proofs use: the square root's, that sine and cosine of the
  two-argument arctangent are the unit vector, that they lie on the unit circle, the arctangent's range, and
  the modulus of numbers that are not negative. That rising angles run counter-clockwise is not among them.
- JSON and SHA-256: parsing, marshalling and digests are parameters. A digest is assumed to be lower-case
  hexadecimal, and injective only where exchanged payloads and unstamped commands are told apart. A mission payload is one string.
- Rejection reasons are a datatype; the source finds them by searching error texts. A digest in a header that
  itself contains one of the searched words could yield another reason there.
- 64-bit counters are natural numbers without wrap-around, and clocks are parameters.
- Mutexes: every method is one atomic step, except that `DataMule.BlackoutOff` and a later `Flush` are the two
  sections of a restore, with any calls in between.
- Object identity of map entries: the fleet tables of the gateway and the dashboard hold values, so sharing a
  row object between readers is not modelled.
- The message codecs are functions on byte sequences rather than writes into a buffer; `EncodeFrame`,
  `DecodeFrame` and the CRC do write in place.
- `EncodeCommandLong` has no decoder in the repository; `ReadSingleFrame` is a fresh decoder and one call.
- Bridge.ReadLoop: does not model the retry after a transient read error, because the buffered reader here
  never returns one; nor are reads that return nothing over and over modelled.
- DataMule.DataMule.SetSimulationMode: does not return the cloud target and the time of the last sync, which are
  not part of the state here.
- Dead letters are compared without their time stamp, number and error text in `Guard.CDSGuard.ProcessPacket`.
- Upper and lower case are those of ASCII; Unicode case folding is not modelled.
- `SetBase` does not occur among the acts of a flight; `Flight.RebaseKeepsAirworthyExactly` says what it does to
  the invariants, and the landing bound holds from wherever the base then is.
- For steps of 0.056 to 0.08 m, whether a vehicle arrives depends on its direction; only the single step is
  decided (`Stall.HomewardStallsExactly`, `Stall.OutwardStallsExactly`).
- Frame damage that contains a magic byte, or hits the length or message ID bytes, is outside
  `Stream.DrainReturnsIntactFrames`, since the decoder may then see another packet; so is a burst that straddles
  payload and checksum, which the extra byte in the checksum's computation stretches beyond 16 bits.
- Serial and UDP transport, HTTP, SSE and WebSocket handling, the hub, flags, logging, metrics pages and all drawing.
