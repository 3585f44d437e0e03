/** Properties of the streaming client over whole runs: interleavings of
    packet arrivals and control ticks. */
module DashClientRuns {
  import opened Common
  import RateCommand
  import opened DashClient

  datatype Event = Arrive(size: uint32) | Fire(now: int)

  /** The client after a run of events, with every datagram it sent. */
  function Run(c: Client, events: seq<Event>): (r: (Client, seq<RateCommand.Datagram>))
    requires Valid(c)
    ensures Valid(r.0) && r.0.bitrates == c.bitrates && r.0.currentIndex == c.currentIndex
    decreases |events|
  {
    if events == [] then (c, [])
    else match events[0]
      case Arrive(size) => Run(Receive(c, size), events[1..])
      case Fire(now) =>
        var t := Tick(c, now);
        var rest := Run(t.client, events[1..]);
        (rest.0, t.sent + rest.1)
  }

  /** Nothing in the client ever changes the selected tier, so a client whose
      selected tier is the applied one never switches and never sends a rate
      command, however long it runs. */
  lemma {:induction false} NoDecisionNoSwitch(c: Client, events: seq<Event>)
    requires Valid(c) && c.currentIndex == c.lastIndex
    ensures Run(c, events).1 == []
    ensures Run(c, events).0.qualitySwitches == c.qualitySwitches
    ensures Run(c, events).0.lastIndex == c.currentIndex
    decreases |events|
  {
    if events != [] {
      match events[0]
      case Arrive(size) => NoDecisionNoSwitch(Receive(c, size), events[1..]);
      case Fire(now) => NoDecisionNoSwitch(Tick(c, now).client, events[1..]);
    }
  }

  /** A client whose applied tier differs from the selected one switches at its
      first tick and never again: one switch in total, and (with the command
      socket open) exactly one command, carrying the selected tier's bitrate. */
  lemma {:induction false} FirstTickSwitchesOnce(c: Client, before: seq<Event>, now: int, after: seq<Event>)
    requires Valid(c) && c.currentIndex != c.lastIndex && c.controlSocketOpen
    requires forall k :: 0 <= k < |before| ==> before[k].Arrive?
    ensures var r := Run(c, before + [Fire(now)] + after);
            && r.0.qualitySwitches == Add32(c.qualitySwitches, 1)
            && |r.1| == 1
            && RateCommand.Decode(r.1[0]) == Some(c.bitrates[c.currentIndex])
    decreases |before|
  {
    var evs := before + [Fire(now)] + after;
    if before == [] {
      assert evs[0] == Fire(now) && evs[1..] == after;
      NoDecisionNoSwitch(Tick(c, now).client, after);
    } else {
      assert evs[0] == before[0] && evs[1..] == before[1..] + [Fire(now)] + after;
      FirstTickSwitchesOnce(Receive(c, before[0].size), before[1..], now, after);
    }
  }

  /** The time the client spends flagged as rebuffering, from `from` up to the
      query time `q`: each stretch between consecutive ticks counts when the
      flag was raised at its start. */
  function FlaggedNs(c: Client, events: seq<Event>, from: int, q: int): int
    requires Valid(c)
    decreases |events|
  {
    if events == [] then (if c.isRebuffering then q - from else 0)
    else match events[0]
      case Arrive(size) => FlaggedNs(Receive(c, size), events[1..], from, q)
      case Fire(now) =>
        (if c.isRebuffering then now - from else 0) + FlaggedNs(Tick(c, now).client, events[1..], now, q)
  }

  /** A tick never changes the rebuffering time reported at the instant it
      runs: closing an episode moves the open part into the total, and
      opening one starts it at zero length. */
  lemma TickKeepsReportedRebuffering(c: Client, now: int)
    requires Valid(c)
    ensures RebufferingNs(Tick(c, now).client, now) == RebufferingNs(c, now)
  {
  }

  /** The reported rebuffering time is exactly the time spent flagged: what
      was reported at the start of the run plus every stretch between ticks
      during which the client was rebuffering, the last one up to the query. */
  lemma {:induction false} ReportedRebufferingIsFlaggedTime(c: Client, events: seq<Event>, from: int, q: int)
    requires Valid(c)
    ensures RebufferingNs(Run(c, events).0, q) == RebufferingNs(c, from) + FlaggedNs(c, events, from, q)
    decreases |events|
  {
    if events != [] {
      match events[0]
      case Arrive(size) =>
        ReportedRebufferingIsFlaggedTime(Receive(c, size), events[1..], from, q);
      case Fire(now) =>
        TickKeepsReportedRebuffering(c, now);
        ReportedRebufferingIsFlaggedTime(Tick(c, now).client, events[1..], now, q);
    }
  }

  /** When the bits received in an interval are exactly what the current tier
      plays back in that interval, the buffer level does not move. */
  lemma BalancedTickKeepsBuffer(c: Client, now: int)
    requires Valid(c) && c.bitrates[c.currentIndex] > 0 && c.bufferLevel >= 0.0
    requires (c.bytesInterval * 8) as real
               == c.bitrates[c.currentIndex] as real * ElapsedSeconds(c.lastIntervalTime, now)
    ensures Tick(c, now).client.bufferLevel == c.bufferLevel
    ensures !Tick(c, now).client.isRebuffering
  {
    var rate := c.bitrates[c.currentIndex] as real;
    assert MediaSeconds(c.bytesInterval, c.bitrates[c.currentIndex]) == ElapsedSeconds(c.lastIntervalTime, now);
  }

  /** Five one-second ticks with nothing received, from a freshly started
      client with the simulation's tiers: rebuffering starts at the first
      tick, so at the fifth tick four seconds are reported, and five one
      second later. */
  lemma StarvedClientRebuffers()
    ensures var c := Start(SetBitrates(Init(), SimulationBitrates), 0).0;
            var s := NsPerSecond;
            var r := Run(c, [Fire(s), Fire(2 * s), Fire(3 * s), Fire(4 * s), Fire(5 * s)]).0;
            && r.isRebuffering && r.bufferLevel == 0.0
            && GetStats(r, 5 * s).totalRebufferingTimeSec == 4.0
            && GetStats(r, 6 * s).totalRebufferingTimeSec == 5.0
            && GetStats(r, 6 * s).totalChunks == 5
  {
    var c := Start(SetBitrates(Init(), SimulationBitrates), 0).0;
    var s := NsPerSecond;
    StarvedTick(c, s);
    var c1 := Tick(c, s).client;
    StarvedTick(c1, 2 * s);
    var c2 := Tick(c1, 2 * s).client;
    StarvedTick(c2, 3 * s);
    var c3 := Tick(c2, 3 * s).client;
    StarvedTick(c3, 4 * s);
    var c4 := Tick(c3, 4 * s).client;
    StarvedTick(c4, 5 * s);
    var c5 := Tick(c4, 5 * s).client;
    assert c5.lastRebufferingStart == s && c5.totalRebufferingTime == 0 && c5.totalChunks == 5;
    RunFire(c4, 5 * s, []);
    RunFire(c3, 4 * s, [Fire(5 * s)]);
    RunFire(c2, 3 * s, [Fire(4 * s), Fire(5 * s)]);
    RunFire(c1, 2 * s, [Fire(3 * s), Fire(4 * s), Fire(5 * s)]);
    RunFire(c, s, [Fire(2 * s), Fire(3 * s), Fire(4 * s), Fire(5 * s)]);
  }

  /** A tick on an empty buffer with nothing received leaves the client
      rebuffering, with an empty buffer and a fresh measurement window. */
  lemma StarvedTick(c: Client, now: int)
    requires Valid(c) && c.bufferLevel == 0.0 && c.bytesInterval == 0
    ensures var c' := Tick(c, now).client;
            && c'.isRebuffering && c'.bufferLevel == 0.0 && c'.bytesInterval == 0
            && c'.totalChunks == Add32(c.totalChunks, 1)
            && (c.isRebuffering ==> c'.lastRebufferingStart == c.lastRebufferingStart
                                    && c'.totalRebufferingTime == c.totalRebufferingTime)
            && (!c.isRebuffering ==> c'.lastRebufferingStart == now
                                     && c'.totalRebufferingTime == c.totalRebufferingTime)
  {
    assert MediaSeconds(c.bytesInterval, c.bitrates[c.currentIndex]) == 0.0;
  }

  /** A run starting with a tick is that tick, then the rest of the run. */
  lemma RunFire(c: Client, now: int, rest: seq<Event>)
    requires Valid(c)
    ensures Run(c, [Fire(now)] + rest).0 == Run(Tick(c, now).client, rest).0
  {
    assert ([Fire(now)] + rest)[1..] == rest;
  }

  /** A client whose control socket is closed stays closed and sends no rate
      command, whatever arrives and however many ticks fire. */
  lemma {:induction false} ClosedSocketSendsNothing(c: Client, events: seq<Event>)
    requires Valid(c) && !c.controlSocketOpen
    ensures Run(c, events).1 == [] && !Run(c, events).0.controlSocketOpen
    decreases |events|
  {
    if events != [] {
      match events[0]
      case Arrive(size) => ClosedSocketSendsNothing(Receive(c, size), events[1..]);
      case Fire(now) => ClosedSocketSendsNothing(Tick(c, now).client, events[1..]);
    }
  }

  /** After `StopApplication` no rate command leaves the client, even when a
      tier switch is still pending. */
  lemma StopSilencesRun(c: Client, events: seq<Event>)
    requires Valid(c)
    ensures Run(Stop(c), events).1 == []
  {
    ClosedSocketSendsNothing(Stop(c), events);
  }

  /** Two packets received one after the other count as one packet of their
      combined size, in the run total and in the interval. */
  lemma ReceiveTwice(c: Client, a: uint32, b: uint32)
    ensures Receive(Receive(c, a), b)
         == c.(bytesTotal := Add64(c.bytesTotal, a + b), bytesInterval := Add64(c.bytesInterval, a + b))
  {
    Add64Assoc(c.bytesTotal, a, b);
    Add64Assoc(c.bytesInterval, a, b);
  }

  /** A tick builds an observation exactly when `Setup` attached an interface. */
  lemma SetupDecidesObservation(c: Client, attached: bool, now: int)
    requires Valid(c)
    ensures Tick(Setup(c, attached), now).observation.Some? <==> attached
  {
  }

  /** After `SetBitrates`, starting the client commands the new list's first tier. */
  lemma StartCommandsFirstTier(c: Client, bitrates: seq<uint32>, now: int)
    requires |bitrates| > 0
    ensures var sent := Start(SetBitrates(c, bitrates), now).1;
            |sent| == 1 && RateCommand.Decode(sent[0]) == Some(bitrates[0])
  {
  }
}
