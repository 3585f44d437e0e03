/** The adaptive-bitrate streaming client (`DashClientApp`): a byte-counting
    video sink plus a once-per-interval control tick that simulates the
    playback buffer, tracks rebuffering episodes, keeps the statistics of the
    run, and tells the remote rate controller whenever the selected tier
    changes. Time is integer nanoseconds (the simulator's `Time`); the buffer
    level is a real number of media seconds. */
module DashClient {
  import opened Common
  import RateCommand

  const NsPerSecond: nat := 1_000_000_000

  /** The tier list a freshly constructed client holds: one 1 Mb/s tier. */
  const DefaultBitrates: seq<uint32> := [1_000_000]

  /** The tier list the simulation script installs: 20, 40 and 80 Mb/s. */
  const SimulationBitrates: seq<uint32> := [20_000_000, 40_000_000, 80_000_000]

  /** The fields of the observation record the tick fills in; the RTT and
      probe-loss fields are reserved and left unset by the tick. */
  datatype AbrObservation = AbrObservation(
    bufferLevelSec: real,
    lastChunkThroughput: real,
    chunkIndex: uint32)

  /** The action record: the index of the tier the decision side selects. */
  datatype AbrAction = AbrAction(bitrateIndex: uint8)

  datatype Client = Client(
    aiAttached: bool,           // a message interface was handed to Setup
    controlSocketOpen: bool,    // the command socket exists (between start and stop)
    bitrates: seq<uint32>,      // tier list, bits per second
    currentIndex: uint8,
    lastIndex: uint8,
    bytesTotal: uint64,
    bytesInterval: uint64,
    lastIntervalTime: int,
    bufferLevel: real,
    isRebuffering: bool,
    lastRebufferingStart: int,
    totalBitrateSum: uint64,
    totalChunks: uint32,
    qualitySwitches: uint32,
    totalRebufferingTime: int)

  /** The client can run a tick: its current tier exists. */
  predicate Valid(c: Client)
  {
    c.currentIndex < |c.bitrates|
  }

  /** The constructor's initial state. */
  function Init(): (c: Client)
    ensures Valid(c) && c.currentIndex == c.lastIndex == 0
    ensures c.bufferLevel == 0.0 && !c.isRebuffering && c.totalRebufferingTime == 0
    ensures c.totalChunks == 0 && c.qualitySwitches == 0 && c.bytesInterval == 0
    ensures c.bytesTotal == 0 && c.totalBitrateSum == 0
    ensures c.bitrates == [1_000_000]
    ensures !c.aiAttached && !c.controlSocketOpen
  {
    Client(false, false, DefaultBitrates, 0, 0, 0, 0, 0, 0.0, false, 0, 0, 0, 0, 0)
  }

  /** `Setup`: attach (or not) the message interface; addresses and ports are
      not modelled. */
  function Setup(c: Client, aiAttached: bool): (c': Client)
    ensures c'.aiAttached == aiAttached
    ensures c'.(aiAttached := c.aiAttached) == c
  {
    c.(aiAttached := aiAttached)
  }

  /** `SetBitrates`: replace the tier list. */
  function SetBitrates(c: Client, bitrates: seq<uint32>): (c': Client)
    ensures c'.bitrates == bitrates
    ensures Valid(c') <==> c.currentIndex < |bitrates|
    ensures c'.(bitrates := c.bitrates) == c
  {
    c.(bitrates := bitrates)
  }

  /** `SendRateUpdate`: the datagrams put on the control channel for one
      rate command. */
  function SendRateUpdate(c: Client, bitrate: uint32): (sent: seq<RateCommand.Datagram>)
    ensures c.controlSocketOpen ==> |sent| == 1 && RateCommand.Decode(sent[0]) == Some(bitrate)
    ensures !c.controlSocketOpen ==> sent == []
  {
    if c.controlSocketOpen then
      RateCommand.DecodeEncode(bitrate, []);
      assert RateCommand.Encode(bitrate) + [] == RateCommand.Encode(bitrate);
      [RateCommand.Encode(bitrate)]
    else []
  }

  /** `StartApplication`: open the command socket, start the first measurement
      interval at `now`, and emit the initial rate command for tier 0 (the
      source sends it 0.1 s later; the delay is not modelled). */
  function Start(c: Client, now: int): (r: (Client, seq<RateCommand.Datagram>))
    requires |c.bitrates| > 0
    ensures r.0.controlSocketOpen && r.0.lastIntervalTime == now
    ensures |r.1| == 1 && RateCommand.Decode(r.1[0]) == Some(c.bitrates[0])
    ensures r.0 == c.(controlSocketOpen := true, lastIntervalTime := now)
  {
    var c' := c.(controlSocketOpen := true, lastIntervalTime := now);
    (c', SendRateUpdate(c', c.bitrates[0]))
  }

  /** `StopApplication`: close the command socket; later rate commands are
      dropped. */
  function Stop(c: Client): (c': Client)
    ensures !c'.controlSocketOpen
    ensures c'.(controlSocketOpen := c.controlSocketOpen) == c
  {
    c.(controlSocketOpen := false)
  }

  /** One received video packet of `size` bytes. */
  function Receive(c: Client, size: uint32): (c': Client)
    ensures c'.bytesTotal == Add64(c.bytesTotal, size) && c'.bytesInterval == Add64(c.bytesInterval, size)
    ensures c'.(bytesTotal := c.bytesTotal, bytesInterval := c.bytesInterval) == c
  {
    c.(bytesTotal := Add64(c.bytesTotal, size), bytesInterval := Add64(c.bytesInterval, size))
  }

  function Sum(sizes: seq<uint32>): nat
  {
    if sizes == [] then 0 else Sum(sizes[..|sizes| - 1]) + sizes[|sizes| - 1]
  }

  /** `HandleVideoRead`: drain the socket; every packet's size is added to both
      the run total and the current interval's count (64-bit counters). */
  method HandleVideoRead(c: Client, sizes: seq<uint32>) returns (c': Client)
    ensures c'.bytesTotal == Add64(c.bytesTotal, Sum(sizes))
    ensures c'.bytesInterval == Add64(c.bytesInterval, Sum(sizes))
    ensures c' == c.(bytesTotal := c'.bytesTotal, bytesInterval := c'.bytesInterval)
  {
    c' := c;
    var k := 0;
    while k < |sizes|
      invariant 0 <= k <= |sizes|
      invariant c'.bytesTotal == Add64(c.bytesTotal, Sum(sizes[..k]))
      invariant c'.bytesInterval == Add64(c.bytesInterval, Sum(sizes[..k]))
      invariant c' == c.(bytesTotal := c'.bytesTotal, bytesInterval := c'.bytesInterval)
    {
      assert sizes[..k + 1][..k] == sizes[..k];
      Add64Assoc(c.bytesTotal, Sum(sizes[..k]), sizes[k]);
      Add64Assoc(c.bytesInterval, Sum(sizes[..k]), sizes[k]);
      c' := Receive(c', sizes[k]);
      k := k + 1;
    }
    assert sizes[..k] == sizes;
  }

  /** The measured interval length in seconds; a non-positive interval (clock
      anomaly) counts as one nominal second. */
  function ElapsedSeconds(last: int, now: int): (e: real)
    ensures e > 0.0
    ensures now > last ==> e * (NsPerSecond as real) == (now - last) as real
    ensures now <= last ==> e == 1.0
  {
    var d := (now - last) as real / NsPerSecond as real;
    if d <= 0.0 then 1.0 else d
  }

  /** Seconds of media that `bytes` bytes carry at `rate` bits per second; a
      zero-rate tier contributes nothing. */
  function MediaSeconds(bytes: nat, rate: nat): real
  {
    if rate == 0 then 0.0 else (bytes * 8) as real / rate as real
  }

  /** What a tick produces: the next state, the datagrams sent on the control
      channel, and the observation built when a message interface is
      attached. */
  datatype TickResult = TickResult(
    client: Client,
    sent: seq<RateCommand.Datagram>,
    observation: Option<AbrObservation>)

  /** The buffer level before clamping: gained media minus played-back time. */
  function Drained(c: Client, now: int): real
    requires Valid(c)
  {
    c.bufferLevel + MediaSeconds(c.bytesInterval, c.bitrates[c.currentIndex])
      - ElapsedSeconds(c.lastIntervalTime, now)
  }

  /** Throughput in Mb/s times interval length is the bits received. */
  lemma ThroughputCancels(bytes: real, e: real, rate: real)
    requires e > 0.0 && rate > 0.0
    ensures (bytes * 8.0 / e / 1_000_000.0) * 1_000_000.0 * e / rate == bytes * 8.0 / rate
  {
    var t := bytes * 8.0 / e / 1_000_000.0;
    assert t * 1_000_000.0 == bytes * 8.0 / e;
    assert t * 1_000_000.0 * e == bytes * 8.0;
  }

  /** Media seconds gained this tick, computed as the source does: through the
      measured throughput in Mb/s, scaled back by the interval length. */
  function Gain(c: Client, now: int): (g: real)
    requires Valid(c)
    ensures g == MediaSeconds(c.bytesInterval, c.bitrates[c.currentIndex])
  {
    var duration := ElapsedSeconds(c.lastIntervalTime, now);
    var throughputMbps := (c.bytesInterval as real * 8.0) / duration / 1_000_000.0;
    var currentRateBits := c.bitrates[c.currentIndex] as real;
    if currentRateBits > 0.0 then
      ThroughputCancels(c.bytesInterval as real, duration, currentRateBits);
      (throughputMbps * 1_000_000.0 * duration) / currentRateBits
    else 0.0
  }

  /** The playback half of a tick: add the gain, drain the elapsed time, clamp
      at zero, and open or close a rebuffering episode. */
  function Playback(c: Client, now: int): (c': Client)
    requires Valid(c)
    ensures c'.bufferLevel >= 0.0
    ensures Drained(c, now) >= 0.0 ==> c'.bufferLevel == Drained(c, now)
    ensures Drained(c, now) < 0.0 ==> c'.bufferLevel == 0.0
    ensures c'.isRebuffering <==> Drained(c, now) < 0.0
    ensures !c.isRebuffering && c'.isRebuffering ==>
              c'.lastRebufferingStart == now && c'.totalRebufferingTime == c.totalRebufferingTime
    ensures c.isRebuffering && c'.isRebuffering ==>
              c'.lastRebufferingStart == c.lastRebufferingStart
              && c'.totalRebufferingTime == c.totalRebufferingTime
    ensures c.isRebuffering && !c'.isRebuffering ==>
              c'.totalRebufferingTime == c.totalRebufferingTime + (now - c.lastRebufferingStart)
    ensures !c.isRebuffering && !c'.isRebuffering ==>
              c'.totalRebufferingTime == c.totalRebufferingTime
    ensures c' == c.(bufferLevel := c'.bufferLevel, isRebuffering := c'.isRebuffering,
                     lastRebufferingStart := c'.lastRebufferingStart,
                     totalRebufferingTime := c'.totalRebufferingTime)
  {
    var level := c.bufferLevel + Gain(c, now) - ElapsedSeconds(c.lastIntervalTime, now);
    if level < 0.0 then
      if !c.isRebuffering then c.(bufferLevel := 0.0, isRebuffering := true, lastRebufferingStart := now)
      else c.(bufferLevel := 0.0)
    else if c.isRebuffering then
      c.(bufferLevel := level, isRebuffering := false,
         totalRebufferingTime := c.totalRebufferingTime + (now - c.lastRebufferingStart))
    else c.(bufferLevel := level)
  }

  /** The observation the decision branch fills in. */
  function Observe(c: Client, now: int, level: real): (o: AbrObservation)
    ensures o.chunkIndex == c.totalChunks && o.bufferLevelSec == level
    ensures o.lastChunkThroughput * 1_000_000.0 * ElapsedSeconds(c.lastIntervalTime, now)
              == (c.bytesInterval * 8) as real
  {
    var duration := ElapsedSeconds(c.lastIntervalTime, now);
    var throughputMbps := (c.bytesInterval as real * 8.0) / duration / 1_000_000.0;
    AbrObservation(level, throughputMbps, c.totalChunks)
  }

  /** The switch half of a tick: when the selected tier differs from the last
      applied one, count a switch, send one rate command, and remember the tier. */
  function SwitchTier(c: Client): (r: (Client, seq<RateCommand.Datagram>))
    requires Valid(c)
    ensures r.0.lastIndex == c.currentIndex
    ensures c.currentIndex == c.lastIndex ==> r.1 == [] && r.0 == c
    ensures c.currentIndex != c.lastIndex ==>
              r.0 == c.(qualitySwitches := Add32(c.qualitySwitches, 1), lastIndex := c.currentIndex)
              && r.1 == SendRateUpdate(c, c.bitrates[c.currentIndex])
  {
    if c.currentIndex != c.lastIndex then
      (c.(qualitySwitches := Add32(c.qualitySwitches, 1), lastIndex := c.currentIndex),
       SendRateUpdate(c, c.bitrates[c.currentIndex]))
    else (c, [])
  }

  /** `ControlLoop`: one control tick at time `now`. The decision branch only
      builds an observation; it never changes the selected tier. */
  function Tick(c: Client, now: int): (r: TickResult)
    requires Valid(c)
    // measurement window restarts
    ensures r.client.bytesInterval == 0 && r.client.lastIntervalTime == now
    ensures r.client.bytesTotal == c.bytesTotal && r.client.bitrates == c.bitrates
    ensures r.client.currentIndex == c.currentIndex && Valid(r.client)
    ensures r.client.aiAttached == c.aiAttached && r.client.controlSocketOpen == c.controlSocketOpen
    // buffer: gain minus drain, clamped at zero
    ensures r.client.bufferLevel >= 0.0
    ensures Drained(c, now) >= 0.0 ==> r.client.bufferLevel == Drained(c, now)
    ensures Drained(c, now) < 0.0 ==> r.client.bufferLevel == 0.0
    // rebuffering episodes
    ensures r.client.isRebuffering <==> Drained(c, now) < 0.0
    ensures !c.isRebuffering && r.client.isRebuffering ==>
              r.client.lastRebufferingStart == now && r.client.totalRebufferingTime == c.totalRebufferingTime
    ensures c.isRebuffering && r.client.isRebuffering ==>
              r.client.lastRebufferingStart == c.lastRebufferingStart
              && r.client.totalRebufferingTime == c.totalRebufferingTime
    ensures c.isRebuffering && !r.client.isRebuffering ==>
              r.client.totalRebufferingTime == c.totalRebufferingTime + (now - c.lastRebufferingStart)
    ensures !c.isRebuffering && !r.client.isRebuffering ==>
              r.client.totalRebufferingTime == c.totalRebufferingTime
    // statistics
    ensures r.client.totalChunks == Add32(c.totalChunks, 1)
    ensures r.client.totalBitrateSum == Add64(c.totalBitrateSum, c.bitrates[c.currentIndex])
    // tier switches
    ensures c.currentIndex == c.lastIndex ==>
              r.sent == [] && r.client.qualitySwitches == c.qualitySwitches
    ensures c.currentIndex != c.lastIndex ==>
              r.client.qualitySwitches == Add32(c.qualitySwitches, 1)
    ensures c.currentIndex != c.lastIndex && c.controlSocketOpen ==>
              |r.sent| == 1 && RateCommand.Decode(r.sent[0]) == Some(c.bitrates[c.currentIndex])
    ensures !c.controlSocketOpen ==> r.sent == []
    ensures r.client.lastIndex == c.currentIndex
    // observation for the decision side
    ensures r.observation.Some? <==> c.aiAttached
    ensures r.observation.Some? ==>
              r.observation.value.chunkIndex == c.totalChunks
              && r.observation.value.bufferLevelSec == r.client.bufferLevel
              && r.observation.value.lastChunkThroughput * 1_000_000.0
                   * ElapsedSeconds(c.lastIntervalTime, now) == (c.bytesInterval * 8) as real
  {
    var c1 := Playback(c, now);
    var observation := if c.aiAttached then Some(Observe(c, now, c1.bufferLevel)) else None;
    var c2 := c1.(bytesInterval := 0, lastIntervalTime := now,
                  totalBitrateSum := Add64(c.totalBitrateSum, c.bitrates[c.currentIndex]),
                  totalChunks := Add32(c.totalChunks, 1));
    var (c3, sent) := SwitchTier(c2);
    TickResult(c3, sent, observation)
  }

  /** The end-of-run report. */
  datatype DashStats = DashStats(
    avgBitrateMbps: real,
    qualitySwitches: uint32,
    totalRebufferingTimeSec: real,
    totalChunks: uint32)

  /** Rebuffering time in nanoseconds as seen at `now`: closed episodes plus
      the open one's duration so far. */
  function RebufferingNs(c: Client, now: int): int
  {
    c.totalRebufferingTime + (if c.isRebuffering then now - c.lastRebufferingStart else 0)
  }

  /** `GetStats` at time `now`. It reads the state only, so asking twice with
      no tick in between gives the same report. */
  function GetStats(c: Client, now: int): (s: DashStats)
    ensures s.totalChunks == c.totalChunks && s.qualitySwitches == c.qualitySwitches
    ensures s.totalRebufferingTimeSec * (NsPerSecond as real) == RebufferingNs(c, now) as real
    ensures c.totalChunks == 0 ==> s.avgBitrateMbps == 0.0
    ensures c.totalChunks > 0 ==>
              s.avgBitrateMbps * (c.totalChunks as real) * 1_000_000.0 == c.totalBitrateSum as real
  {
    var rebuffering := c.totalRebufferingTime as real / NsPerSecond as real;
    var rebuffering' :=
      if c.isRebuffering then rebuffering + (now - c.lastRebufferingStart) as real / NsPerSecond as real
      else rebuffering;
    var avg :=
      if c.totalChunks > 0 then c.totalBitrateSum as real / c.totalChunks as real / 1_000_000.0 else 0.0;
    DashStats(avg, c.qualitySwitches, rebuffering', c.totalChunks)
  }
}
