# ns3-ai control logic in Dafny

This project models the sequential logic in ns3-ai, the bridge between the
ns-3 network simulator and Python decision code. It covers three parts.

- **The adaptive-bitrate (ABR) streaming client of the 5G ABR example.**
  `DashClientApp` counts received video bytes. Once per interval, its
  control tick does the following:
  - simulates the playback buffer;
  - opens and closes rebuffering episodes;
  - keeps the statistics of the run;
  - sends a four-byte rate command to the server's `DashServerController`
    whenever the selected bitrate tier changes.

  The controller applies every readable command to its traffic source.
- **The gym environment (`Ns3Env`).** It turns the simulator's space
  descriptions and data containers into native values (`_create_space`,
  `_create_data`) and packs actions back (`_pack_data`). It steers its
  handshake with the simulator by the `newStateRx`, `envDirty` and
  `gameOver` flags across `rx_env_state`, `send_actions`,
  `send_close_command`, `step` and `reset`.
- **The three NR examples (traces, Sionna, minimal).** These cover:
  - the CSV position readers;
  - the SINR cache;
  - the callbacks and timer that start an observation/action exchange;
  - the Python loops with their threshold and random power policies;
  - the single-slot exchange between the two sides, under every
    interleaving the blocking calls allow.

Modules, by file:

| file | module | contents |
|---|---|---|
| `common.dfy` | `Common` | `Option`, `Result`, fixed-width unsigned counters with explicit wrap-around |
| `rate_command.dfy` | `RateCommand` | the rate command codec and the controller's read loop |
| `dash_client.dfy` | `DashClient` | the client's state, start/stop, packet counting, the control tick, the statistics |
| `dash_client_runs.dfy` | `DashClientRuns` | whole runs of arrivals and ticks |
| `py_dict.dfy` | `PyDict` | Python dict semantics as an association list (insertion order, last assignment wins) |
| `gym_spaces.dfy` | `GymSpaces` | space descriptions, data containers, spaces, native values, and the three conversions |
| `gym_round_trip.dfy` | `GymRoundTrip` | the pack-then-create round trip and the top-level-space lookups |
| `gym_env.dfy` | `GymEnv` | the environment's flags and messages, `step`, `reset`, construction |
| `gym_sessions.dfy` | `GymSessions` | step/reset sequences and the singleton guard |
| `handoff.dfy` | `Handoff` | one exchange over the single-slot buffers, as an interleaving of the two sides |
| `position_csv.dfy` | `PositionCsv` | `std::getline` splitting and the position readers |
| `nr_examples.dfy` | `NrExamples` | the NR callbacks, timer, policies, configuration and timing |

The models make these representation choices:
- Time is an integer number of nanoseconds, as the simulator's `Time` is.
- The buffer level and throughputs are real numbers.
- The 8-, 32- and 64-bit counters are subset types, and every `+=` wraps
  explicitly.
- The rate command is the bitrate's four bytes in host order on both ends.
  The model fixes that shared convention as little-endian.
- A protobuf `Any` payload is a datatype variant. Its variant is its type
  tag, so a payload that does not match its tag cannot be written down.
- The message channel of the gym environment has two parts. One is the list
  of messages the simulation will still send. The other is the log of
  everything sent to the simulation. Reading when no message will come is
  the error `Blocked`.
- `std::stod` is a parameter of type `string -> Option<real>`. `None` stands
  for the exception it throws.

Behaviour of the code worth knowing before reading the contracts:
- **Tier indices.** No tier index is validated anywhere. The tick indexes
  the tier list unchecked, so it requires that the current tier exists
  (`DashClient.Valid`).
- **The decision branch.** It builds an observation but never changes the
  selected tier. So a client whose selected tier equals the applied one never
  switches (`DashClientRuns.NoDecisionNoSwitch`).
- **A non-positive interval.** It becomes one second
  (dash-client-app.cc:146-147), and nothing records that it happened.
- **Double creation.** The constructor's guard raises
  `'Error: Ns3Env is singleton'` (ns3_environment.py:328) on a second
  construction, but as written it never fires (see Findings).

## Model

| member | source | states |
|---|---|---|
| Common.Add32 | examples/5g-abr/dash-client-app.h:99-100 | `+=` on a 32-bit counter: the exact sum when it fits, otherwise the sum modulo 2^32 |
| Common.Add64 | examples/5g-abr/dash-client-app.h:88-89 | `+=` on a 64-bit counter: the exact sum when it fits, otherwise the sum modulo 2^64 |
| Common.Add64Assoc | examples/5g-abr/dash-client-app.cc:137-141 | adding two packet sizes one after the other to a wrapping 64-bit counter equals adding their sum once |
| RateCommand.Encode | examples/5g-abr/dash-client-app.cc:218-220 | a rate command is exactly four bytes |
| RateCommand.Decode | examples/5g-abr/dash-client-app.cc:54-56 | a datagram is read as a bitrate exactly when it has at least four bytes |
| RateCommand.DecodeEncode | examples/5g-abr/dash-client-app.cc:54-56 | decoding an encoded bitrate, whatever bytes follow it, gives the bitrate back |
| RateCommand.EncodeDecode | examples/5g-abr/dash-client-app.cc:54-56 | every readable datagram's first four bytes are the encoding of the bitrate it decodes to |
| RateCommand.HandleControlRead | examples/5g-abr/dash-client-app.cc:51-66 | with a source attached, the rate is that of the last readable datagram in the batch; without a source, or with no readable datagram, nothing changes; short datagrams are skipped |
| DashClient.Init | examples/5g-abr/dash-client-app.cc:80-89 | the constructed client has the single tier 1 Mb/s, selected and applied; an empty buffer and no rebuffering; zero bytes, chunks, bitrate sum, switches and rebuffering time; no interface attached and no control socket |
| DashClient.SendRateUpdate | examples/5g-abr/dash-client-app.cc:218-224 | with the control socket open, exactly one datagram is sent and it decodes to the bitrate; with it closed, nothing is sent |
| DashClient.Start | examples/5g-abr/dash-client-app.cc:104-127 | starting opens the control socket, starts the interval at `now` and sends one command carrying tier 0's bitrate |
| DashClient.Stop | examples/5g-abr/dash-client-app.cc:129-133 | after stopping the control socket is closed and nothing else has changed |
| DashClient.Setup | examples/5g-abr/dash-client-app.cc:92-97 | the interface is attached exactly as given and nothing else changes |
| DashClient.SetBitrates | examples/5g-abr/dash-client-app.cc:99-101 | the tier list is replaced and nothing else changes; the client stays able to tick exactly when its selected tier exists in the new list |
| DashClient.Receive | examples/5g-abr/dash-client-app.cc:138-140 | one packet adds its size to the run total and to the interval count (64-bit wrap) and changes nothing else |
| DashClient.HandleVideoRead | examples/5g-abr/dash-client-app.cc:135-142 | the run total and the interval count both grow by the sum of the packet sizes (64-bit wrap); nothing else changes |
| DashClient.ElapsedSeconds | examples/5g-abr/dash-client-app.cc:146-147 | the interval length is positive: the real elapsed time when `now` is after the interval start, one second otherwise |
| DashClient.Gain | examples/5g-abr/dash-client-app.cc:150-164 | the buffer gain computed through throughput times duration equals the media seconds of the interval's bytes at the current tier (nothing for a zero-rate tier) |
| DashClient.Playback | examples/5g-abr/dash-client-app.cc:160-179 | the buffer is gain minus drain, clamped at zero; the client rebuffers exactly when the unclamped level is negative; an episode starts at `now` only on a transition into rebuffering; closing one adds exactly `now - start` to the total |
| DashClient.Observe | examples/5g-abr/dash-client-app.cc:184-188 | the observation's chunk index is the chunk count before the tick, and its throughput times interval length is the bits received |
| DashClient.SwitchTier | examples/5g-abr/dash-client-app.cc:208-212 | a tier change counts one switch, sends one rate command with the new tier's bitrate and records the tier as applied; no change sends nothing and changes nothing |
| DashClient.Tick | examples/5g-abr/dash-client-app.cc:144-216 | one control tick: the interval restarts at `now`; the buffer and rebuffering behave as in `Playback`; the chunk count and bitrate sum grow by one chunk at the current tier; a switch sends exactly one command; the selected tier never changes; an observation is produced exactly when an interface is attached |
| DashClient.GetStats | examples/5g-abr/dash-client-app.cc:226-237 | the report copies the chunk and switch counts, includes an open rebuffering episode up to `now`, and gives average bitrate in Mb/s (0 with no chunks) |
| DashClientRuns.Run | examples/5g-abr/dash-client-app.cc:135-216 | any run of arrivals and ticks keeps the tier list and the selected tier |
| DashClientRuns.NoDecisionNoSwitch | examples/5g-abr/dash-client-app.cc:184-212 | a client whose selected tier is the applied one never switches and never sends a rate command, however long it runs |
| DashClientRuns.FirstTickSwitchesOnce | examples/5g-abr/dash-client-app.cc:84-85 | a client whose applied tier differs switches at its first tick and never again: one switch and one command with the selected bitrate |
| DashClientRuns.TickKeepsReportedRebuffering | examples/5g-abr/dash-client-app.cc:170-179 | the rebuffering time reported at a tick's instant is the same before and after the tick |
| DashClientRuns.ReportedRebufferingIsFlaggedTime | examples/5g-abr/dash-client-app.cc:226-233 | over any run, the reported rebuffering time is the initial report plus every stretch between ticks spent rebuffering, up to the query time |
| DashClientRuns.BalancedTickKeepsBuffer | examples/5g-abr/dash-client-app.cc:160-167 | when the bits received equal the tier's rate times the interval length, the buffer level does not change and no rebuffering starts |
| DashClientRuns.ClosedSocketSendsNothing | examples/5g-abr/dash-client-app.cc:218-224 | a client with its control socket closed keeps it closed and sends no rate command over any run |
| DashClientRuns.StopSilencesRun | examples/5g-abr/dash-client-app.cc:129-133 | after stopping, no run of arrivals and ticks sends a rate command, even with a tier switch pending |
| DashClientRuns.ReceiveTwice | examples/5g-abr/dash-client-app.cc:137-141 | two packets received in turn count as one packet of their combined size, in both counters |
| DashClientRuns.SetupDecidesObservation | examples/5g-abr/dash-client-app.cc:92-97 | a tick builds an observation exactly when the interface was attached by `Setup` |
| DashClientRuns.StartCommandsFirstTier | examples/5g-abr/dash-client-app.cc:99-127 | after replacing the tier list, starting sends one command carrying the new list's first bitrate |
| DashClientRuns.StarvedTick | examples/5g-abr/dash-client-app.cc:160-179 | a tick on an empty buffer with nothing received leaves the client rebuffering with an empty buffer; it opens an episode at `now` unless one is already open, and counts one more chunk |
| DashClientRuns.StarvedClientRebuffers | examples/5g-abr/5g-abr-sim.cc:155 | a started client with the simulation's tiers that receives nothing rebuffers from its first tick; at the fifth tick, 4 s of rebuffering are reported, and 5 s one second later |
| PyDict.InKeys | model/gym-interface/py/ns3ai_gym_env/envs/ns3_environment.py:109 | a key is in the dict exactly when some entry has it |
| PyDict.Get | model/gym-interface/py/ns3ai_gym_env/envs/ns3_environment.py:294 | a lookup succeeds exactly for keys in the dict |
| PyDict.Put | model/gym-interface/py/ns3ai_gym_env/envs/ns3_environment.py:109 | assignment adds the key, maps it to the new value, keeps keys unique and every other key's value, and appends a new key at the end |
| PyDict.FromPairs | model/gym-interface/py/ns3ai_gym_env/envs/ns3_environment.py:107-109 | building a dict by assignment gives unique keys, exactly the keys assigned |
| PyDict.FromPairsLastWins | model/gym-interface/py/ns3ai_gym_env/envs/ns3_environment.py:157-159 | a key is mapped to the value of its last assignment |
| PyDict.FromPairsUnique | model/gym-interface/py/ns3ai_gym_env/envs/ns3_environment.py:157-159 | assigning distinct keys in order gives back exactly those pairs in that order |
| GymSpaces.DtypeName | model/gym-interface/py/ns3ai_gym_env/envs/ns3_environment.py:79-86 | INT becomes an int-family name, UINT a uint-family one, and FLOAT and DOUBLE both a float-family one, each exactly |
| GymSpaces.CreateSpace | model/gym-interface/py/ns3ai_gym_env/envs/ns3_environment.py:64-113 | each description kind becomes the same kind of space; discrete size and box bounds and shape are copied, and a box's element type is the numpy name of its tag; a tuple's sub-spaces are its elements' spaces, in order; a dict has unique keys that are exactly the element names |
| GymSpaces.BoxField | model/gym-interface/py/ns3ai_gym_env/envs/ns3_environment.py:127-134 | a box container is read from the field its tag names |
| GymSpaces.CreateData | model/gym-interface/py/ns3ai_gym_env/envs/ns3_environment.py:115-162 | each container kind becomes the same kind of value; a discrete container gives its data; a box gives its tagged field unreshaped; a tuple's items are its elements' values, in order; a dict has unique keys that are exactly the element names |
| GymSpaces.PackTag | model/gym-interface/py/ns3ai_gym_env/envs/ns3_environment.py:253-271 | int-family names pack as INT, uint-family as UINT, float-family as FLOAT, `double` as DOUBLE, anything else as FLOAT |
| GymSpaces.PackBox | model/gym-interface/py/ns3ai_gym_env/envs/ns3_environment.py:247-273 | a packed box has shape `[len(actions)]` and holds the elements in the field of its tag, the other fields empty |
| GymSpaces.Collect | model/gym-interface/py/ns3ai_gym_env/envs/ns3_environment.py:281-283 | all sub-results succeed exactly when the collection does, and then their containers appear in order; otherwise the first failure is reported |
| GymSpaces.PackData | model/gym-interface/py/ns3ai_gym_env/envs/ns3_environment.py:236-302 | an integer action packs against a discrete space and an array against a box, and nothing else does; a tuple packs to as many elements as the action and the top-level space's sub-space list both have, element i being item i packed against the top-level sub-space i (or an unknown container when the top-level space is a dict), so extra items are dropped; a dict packs one element per entry, named by its key, element i being entry i packed as `PackEntry` packs it |
| GymSpaces.PackItems | model/gym-interface/py/ns3ai_gym_env/envs/ns3_environment.py:279-283 | tuple items are packed against the top-level action space's sub-spaces, in order |
| GymSpaces.PackEntries | model/gym-interface/py/ns3ai_gym_env/envs/ns3_environment.py:293-297 | dict entries are packed one by one, in order |
| GymSpaces.PackEntry | model/gym-interface/py/ns3ai_gym_env/envs/ns3_environment.py:294-296 | an entry is looked up by key in the top-level action space (failing when the key is missing); when the key is present it succeeds exactly when its value packs against that sub-space, giving that container named by the key, or failing with the same error |
| GymRoundTrip.BoxRoundTrip | model/gym-interface/py/ns3ai_gym_env/envs/ns3_environment.py:127-137 | a packed box action is read back element for element, whatever its element type |
| GymRoundTrip.PackCreateRoundTrip | model/gym-interface/py/ns3ai_gym_env/envs/ns3_environment.py:115-162 | every action fitting the action space packs without error, and `_create_data` rebuilds exactly that action: integers, arrays, tuples in order, dicts with their keys |
| GymRoundTrip.NestedTupleRejected | model/gym-interface/py/ns3ai_gym_env/envs/ns3_environment.py:279-282 | a tuple nested in a tuple space is zipped against the top-level sub-spaces again and is rejected |
| GymRoundTrip.TupleInDictLosesItems | model/gym-interface/py/ns3ai_gym_env/envs/ns3_environment.py:279-282 | a tuple inside a dict space is zipped against the dict's keys, so its items are sent as unfilled containers and the action is not read back |
| GymRoundTrip.MissingKeyRejected | model/gym-interface/py/ns3ai_gym_env/envs/ns3_environment.py:294 | a dict action with a key the action space lacks is not packed |
| GymRoundTrip.DescribedBoxTag | model/gym-interface/py/ns3ai_gym_env/envs/ns3_environment.py:83-86 | a box described as DOUBLE packs back as FLOAT; every other tag packs as itself |
| GymRoundTrip.CreateDataLastNameWins | model/gym-interface/py/ns3ai_gym_env/envs/ns3_environment.py:157-159 | when a dict container repeats a name, the last element of that name is the one kept |
| GymRoundTrip.CreateSpaceLastNameWins | model/gym-interface/py/ns3ai_gym_env/envs/ns3_environment.py:107-109 | when a dict description repeats a name, the last sub-space of that name is the one kept |
| GymEnv.Blank | model/gym-interface/py/ns3ai_gym_env/envs/ns3_environment.py:362-368 | a fresh environment has no pending state, no game over and no observation |
| GymEnv.InitializeEnv | model/gym-interface/py/ns3ai_gym_env/envs/ns3_environment.py:164-184 | an initial message is read and acknowledged and both spaces are created from it; a missing message blocks and any other kind fails |
| GymEnv.SendClose | model/gym-interface/py/ns3ai_gym_env/envs/ns3_environment.py:186-198 | a close request is sent and the pending state is cleared; nothing else changes |
| GymEnv.RxEnvState | model/gym-interface/py/ns3ai_gym_env/envs/ns3_environment.py:200-222 | with a state pending it does nothing; otherwise it reads exactly one state into observation, reward, game-over and reason, answers a game-over state with one close request, and marks a state pending |
| GymEnv.SendActions | model/gym-interface/py/ns3ai_gym_env/envs/ns3_environment.py:304-317 | the action packed against the action space is sent and the pending state is cleared; a packing failure sends nothing |
| GymEnv.Step | model/gym-interface/py/ns3ai_gym_env/envs/ns3_environment.py:346-350 | a step succeeds exactly when the action packs and a state arrives; it sends the action, then a close request when that state ends the game, and leaves the environment dirty with a state pending; the environment then holds that received state: the observation created from its container, its reward, game-over flag and reason, and `{}` exactly for an empty info string, else the string; the result reports these (game over as terminated, never truncated) |
| GymEnv.Reset | model/gym-interface/py/ns3ai_gym_env/envs/ns3_environment.py:352-377 | a never-stepped environment is returned unchanged with its observation; otherwise the new simulation's action and observation spaces and its first state's observation, reward and game-over flag are taken, and the environment is clean, after exactly one close request to the old simulation unless its game was over |
| GymEnv.StopRun | model/gym-interface/py/ns3ai_gym_env/envs/ns3_environment.py:358-360 | a finished game sends nothing; otherwise a pending state is closed with one request |
| GymEnv.Handshake | model/gym-interface/py/ns3ai_gym_env/envs/ns3_environment.py:340-344 | the handshake succeeds exactly on an initial message followed by a state, takes both spaces and the first observation from them, and sends the acknowledgement (and a close request when that state ends the game) |
| GymEnv.Construct | model/gym-interface/py/ns3ai_gym_env/envs/ns3_environment.py:326-329 | the intended guard: after one construction every further one is refused |
| GymEnv.ConstructAsWritten | model/gym-interface/py/ns3ai_gym_env/envs/ns3_environment.py:327-329 | as written: construction never changes the class-level flag |
| GymSessions.StepSendsAction | model/gym-interface/py/ns3ai_gym_env/envs/ns3_environment.py:346-350 | a step on a fitting action succeeds and sends a container that the simulation side reads back as exactly that action |
| GymSessions.StepThenResetClosesOnce | model/gym-interface/py/ns3ai_gym_env/envs/ns3_environment.py:352-361 | a step followed by a reset sends the old simulation exactly one close request, between the action and the new acknowledgement, whether or not the game ended |
| GymSessions.AsWrittenSecondConstructionSucceeds | model/gym-interface/py/ns3ai_gym_env/envs/ns3_environment.py:327-329 | as written, a second environment in the same process is constructed |
| GymSessions.SecondConstructionRejected | model/gym-interface/py/ns3ai_gym_env/envs/ns3_environment.py:327-328 | with the intended guard, a second construction fails whatever either simulation sends |
| Handoff.Start | examples/nr-ai-minimal/nr-ai-minimal.cc:42 | an exchange starts with both buffers free and both sides at their first step |
| Handoff.CppStep | examples/nr-sionna-ai/nr-sionna-ai.cc:33-42 | each C++ move advances only the C++ side |
| Handoff.PyStep | examples/nr-traces-ai/nr-traces-ai.py:15-28 | each Python move advances only the Python side and never applies a power |
| Handoff.ExecuteInv | examples/nr-traces-ai/nr-traces-ai.cc:45-55 | every interleaving of the two sides keeps the exchange invariant, which ties buffer states, slot contents and the applied powers to the two program counters |
| Handoff.AppliedIsPolicyOfSinr | examples/nr-traces-ai/nr-traces-ai.cc:45-55 | once both sides are done, whatever the interleaving, the power applied is the policy's decision on the SINR C++ wrote (nothing without a PHY), Python saw that observation, and both buffers are free |
| Handoff.NoDeadlock | examples/nr-ai-minimal/nr-ai-minimal.cc:42-56 | until both sides are done, one of them can move |
| Handoff.NaturalScheduleCompletes | examples/nr-ai-minimal/nr-ai-minimal.py:25-40 | the order the blocking calls force completes the exchange |
| Handoff.FinishedPythonSendsNothing | examples/nr-ai-minimal/nr-ai-minimal.py:25-28 | once the simulation has finished, Python leaves its loop without reading the observation or touching either buffer |
| Handoff.SessionAppliesDecisions | examples/nr-traces-ai/nr-traces-ai.py:13-28 | over a session of exchanges, the powers applied are the policy's decisions on the reported SINRs, in order, skipping exchanges without a PHY |
| PositionCsv.IndexOf | examples/nr-traces-ai/nr-traces-ai.cc:33 | the index found is within the string and, when below its length, holds the delimiter |
| PositionCsv.IndexOfFirst | examples/nr-traces-ai/nr-traces-ai.cc:33 | no delimiter comes before the index found, so it is the first one |
| PositionCsv.Split | examples/nr-traces-ai/nr-traces-ai.cc:33 | the empty string yields no field and every other string at least one |
| PositionCsv.SplitFieldsDelimiterFree | examples/nr-traces-ai/nr-traces-ai.cc:33 | no field contains the delimiter |
| PositionCsv.JoinSplit | examples/nr-traces-ai/nr-traces-ai.cc:29-33 | splitting loses nothing but a final delimiter |
| PositionCsv.SplitJoin | examples/nr-traces-ai/nr-traces-ai.cc:29-33 | delimiter-free fields whose last one is non-empty come back from splitting their join |
| PositionCsv.ConvertAll | examples/nr-traces-ai/nr-traces-ai.cc:33 | a successful conversion gives one number per field |
| PositionCsv.ConvertAllSpec | examples/nr-traces-ai/nr-traces-ai.cc:33 | converting a line succeeds exactly when every field converts, and then gives each field's number in order |
| PositionCsv.LinePoint | examples/nr-traces-ai/nr-traces-ai.cc:30-34 | a line fails exactly when one of its fields does not convert; otherwise it stands for a position exactly when it has at least three fields, and that position is its first three numbers |
| PositionCsv.ScanDone | examples/nr-traces-ai/nr-traces-ai.cc:29-35 | once every line converted, the carried positions are exactly those of the lines that carry one, in line order, each matched to its line |
| PositionCsv.ScanOutcomes | examples/nr-traces-ai/nr-traces-ai.cc:29-35 | the scan fails exactly when some line fails to convert; otherwise its positions are exactly those of the lines that carry one, in line order, each matched to its line |
| PositionCsv.ReadPositions | examples/nr-traces-ai/nr-traces-ai.cc:25-37 | an unreadable file gives no positions; a conversion failure on any line is reported; otherwise the positions are, in line order, one per line of at least three fields and none for the other lines, each made of its line's first three numbers |
| NrExamples.ThresholdPower | examples/nr-traces-ai/nr-traces-ai.py:22 | 23 dBm exactly below the threshold, 10 dBm exactly at or above it |
| NrExamples.ThresholdPowerNonIncreasing | examples/nr-sionna-ai/nr-sionna-ai.py:20 | a better SINR never gets more power |
| NrExamples.TracesPolicy | examples/nr-traces-ai/nr-traces-ai.py:22 | 23 dBm exactly when SINR is below 15, and always 10 or 23 |
| NrExamples.SionnaPolicy | examples/nr-sionna-ai/nr-sionna-ai.py:20 | 23 dBm exactly when SINR is below 12, and always 10 or 23 |
| NrExamples.RandomPower | examples/nr-ai-minimal/nr-ai-minimal.py:36 | the power is a whole number between 0 and 23 dBm |
| NrExamples.ConfigsAgree | examples/nr-ai-minimal/nr-ai-minimal.cc:65-67 | both sides use vector mode and finish handling, C++ does not create the memory, and the vectors hold one element |
| NrExamples.TracesLoop | examples/nr-traces-ai/nr-traces-ai.cc:41-55 | an exchange starts exactly when both the interface and the PHY exist, writing RNTI 1 and the cached SINR and applying the answer |
| NrExamples.SionnaReport | examples/nr-sionna-ai/nr-sionna-ai.cc:29-42 | an exchange starts exactly when the interface exists, writing the reported RNTI and SINR and applying the answer |
| NrExamples.MinimalReport | examples/nr-ai-minimal/nr-ai-minimal.cc:33-56 | an exchange starts exactly when the interface and both non-empty vectors exist, writing the reported RNTI and SINR, and applies the answer exactly when the PHY is set |
| NrExamples.ConfiguredVectorsPassGuard | examples/nr-ai-minimal/nr-ai-minimal.py:14-15 | with the configured vector size, every report passes the minimal example's guard |
| NrExamples.CacheAfter | examples/nr-traces-ai/nr-traces-ai.cc:18-23 | the cache is 0 before any report and the latest reported SINR after |
| NrExamples.TracesLoopAppliesPolicy | examples/nr-traces-ai/nr-traces-ai.cc:41-55 | a completed loop exchange applies the threshold policy's answer to the latest reported SINR |
| NrExamples.SionnaReportAppliesPolicy | examples/nr-sionna-ai/nr-sionna-ai.cc:29-42 | a completed exchange applies 23 dBm when the reported SINR is below 12 and 10 dBm otherwise |
| NrExamples.MinimalReportAppliesDraw | examples/nr-ai-minimal/nr-ai-minimal.cc:42-56 | a completed exchange applies the drawn power when the PHY is set and nothing otherwise |
| NrExamples.GnbPosition | examples/nr-sionna-ai/nr-sionna-ai.cc:61-62 | the gNB is placed exactly when some position was read, at the first one |
| NrExamples.Waypoints | examples/nr-sionna-ai/nr-sionna-ai.cc:65 | waypoint `i` is position `i` at `100 * i` ms, so the times start at 0 and strictly increase in 100 ms steps |
| NrExamples.LoopTimes | examples/nr-traces-ai/nr-traces-ai.cc:60 | a self-rescheduling event runs at its first time and then every period, at every such time before the stop and at none after |
| NrExamples.TracesLoopRunsSixTimes | examples/nr-traces-ai/nr-traces-ai.cc:132-135 | the traces loop runs six times, at 450, 550, ..., 950 ms |

## Left out

- The shared-memory message interface and its semaphores are not part of this
  model. The exchange is an abstract pair of single-slot buffers whose
  blocking is a scheduler's choice.
- A peer process lost while the other blocks, and any timeout, are not
  modelled. The handoff has no failure transitions.
- Sockets, `Simulator::Schedule`/`Cancel` and logging are left out. Times and
  packet sizes are inputs, and the control event's rescheduling is the caller
  issuing the next tick. The 0.1 s delay of the initial rate command is
  dropped.
- Addresses and ports given to `Setup` are not modelled. Only whether an
  interface is attached is kept.
- `DashClient.Tick`: the buffer level is a real, not a 32-bit float, so
  float rounding of the level, the throughput and the gain is not modelled.
- `DashClient.Tick`: the integer nanosecond time does not wrap at 64 bits.
- `DashClient.Tick`: the 8-bit tier indices never change, so their width
  never matters. The decision branch's reserved RTT and probe fields are not
  modelled.
- The `DashServerController` start and stop methods (socket creation) are
  left out. Only `HandleControlRead` is modelled.
- `GymSpaces.CreateSpace`: the gymnasium space classes are not modelled. That
  includes their argument checks (such as a positive discrete size) and
  `spaces.Dict` reordering its keys. A dict space keeps the order of its
  description.
- `GymSpaces.CreateSpace`: `np.int` and `np.float` are modelled as the
  64-bit types they aliased (`int64`, `float64`). NumPy 1.24 removed both
  aliases, so on current numpy the INT, FLOAT and DOUBLE branches raise.
  `np.uint` is still a numpy type and is modelled as `uint64`, its width
  on the usual 64-bit platforms.
- `GymRoundTrip.TupleInDictLosesItems`: how an unfilled container reads back
  is not pinned down. Its type field is protobuf's zero enumerator, which
  the message definitions (not part of this model) fix. The model reads it
  as matching no branch (`None`). If the zero enumerator is the discrete
  tag, the item reads back as `0` instead. The lemma promises only what
  holds either way: the item is sent unfilled and the action is not read
  back.
- `GymSpaces.PackData`: the model uses typed values instead of Python duck
  typing. An action of the wrong shape is the error `WrongActionShape`,
  where Python would raise or pack something arbitrary. A missing
  sub-space is `NoSubSpaces`/`MissingKey`, where Python raises.
- `GymSpaces.PackData`: protobuf's per-field numeric checks and float32
  storage are not modelled. Elements are reals kept exactly.
- `GymEnv.InitializeEnv`, `GymEnv.RxEnvState`, and through them
  `GymEnv.Step`, `GymEnv.Reset` and `GymEnv.Handshake`: a message of the wrong
  kind is the error `UnexpectedMessage`. Protobuf would parse it into a wrong or partly
  empty message instead.
- The `msg_buffer_size` assertions on serialized messages are left out, since
  serialization is not modelled.
- `GymEnv.Step`: the info `get_state` reports is returned as is, not wrapped in the
  `{"info": ...}` dict.
- `GymEnv.Reset`: the exact messages sent are stated only for the usual
  case, a state pending after a step. With no state pending, one more state
  is read before the close request. In both cases the contract states the
  new simulation's two spaces, its first observation, reward and game-over
  flag, and the clean and pending flags.
- `NrExamples.ThresholdPower`: the SINR and the power are exact reals. The
  source passes a C++ `double` through the binding's struct field (whose
  width is not part of this model) to a Python float. So double rounding, a
  narrowing that could move a value across the threshold, and a NaN SINR
  (which Python maps to 10 dBm, because `nan < 15.0` is false) are not
  modelled.
- `GymEnv.Construct` and `GymEnv.ConstructAsWritten`: the `Experiment`
  subprocess start and the `.so` binding discovery are left out. A restart
  is represented by the new simulation's message list. The restart in
  `reset` (ns3_environment.py:370) does not pass the `ns3Settings` that
  construction passes (:340), so the restarted simulation runs without the
  caller's settings. The model has no settings, so `GymEnv.Reset` does not
  show this.
- `Handoff.SessionAppliesDecisions`: the random policy is one function per
  session, not a fresh draw per iteration. `NrExamples.MinimalReportAppliesDraw`
  states it for one exchange and one draw.
- `PositionCsv.ReadPositions`: `std::stod` is a parameter. Its accepting a
  numeric prefix and ignoring the rest is whatever that parameter does. File
  access is the file's content or nothing.
- `NrExamples.LoopTimes`: every firing of the traces loop is taken to
  reschedule the next one. `RunAiLoop` returns before rescheduling when the
  interface or the PHY is missing (nr-traces-ai.cc:42), which would end the
  loop for good. This does not happen in the program, because `main` sets
  both before the simulation runs.
- The radio, channel and topology setup in the NR examples' `main`, the
  flow-monitor reporting of the ABR simulation, and the pybind binding files
  are left out. They are simulator configuration and glue.

## Findings

| source | as written | input that shows it | evidently intended | confidence | as-written member | corrected member |
|---|---|---|---|---|---|---|
| model/gym-interface/py/ns3ai_gym_env/envs/ns3_environment.py:327-329 | the guard reads the class attribute `_created`, but `self._created = True` creates an attribute on the new instance, so the class attribute stays `False` | constructing `Ns3Env` a second time in the same process | the second construction raises "Ns3Env is singleton" | not executed | GymSessions.AsWrittenSecondConstructionSucceeds | GymSessions.SecondConstructionRejected |
