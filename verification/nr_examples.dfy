/** The three NR examples' control logic: when a callback or timer starts an
    exchange and what it writes, the Python side's power policies, the
    message interface settings on both sides, the SINR cache, and the
    timing of waypoints and of the periodic loop. */
module NrExamples {
  import opened Common
  import opened Handoff
  import opened PositionCsv

  const NsPerMs: int := 1_000_000

  // ---------------------------------------------------------------------
  // Power policies (the Python loops)

  /** The SINR-threshold policy: full power (23 dBm) below the threshold,
      10 dBm otherwise. */
  function ThresholdPower(threshold: real, sinr: real): (p: real)
    ensures p == 23.0 <==> sinr < threshold
    ensures p == 10.0 <==> sinr >= threshold
  {
    if sinr < threshold then 23.0 else 10.0
  }

  /** A better channel never gets more power. */
  lemma ThresholdPowerNonIncreasing(threshold: real, s1: real, s2: real)
    requires s1 <= s2
    ensures ThresholdPower(threshold, s2) <= ThresholdPower(threshold, s1)
  {
  }

  const TracesThreshold: real := 15.0
  const SionnaThreshold: real := 12.0

  function TracesPolicy(sinr: real): (p: real)
    ensures p == 23.0 <==> sinr < 15.0
    ensures p in {10.0, 23.0}
  {
    ThresholdPower(TracesThreshold, sinr)
  }

  function SionnaPolicy(sinr: real): (p: real)
    ensures p == 23.0 <==> sinr < 12.0
    ensures p in {10.0, 23.0}
  {
    ThresholdPower(SionnaThreshold, sinr)
  }

  /** What `random.randint(0, 23)` can return. */
  type PowerDraw = x: int | 0 <= x <= 23

  /** The random policy: the draw, whatever the SINR. */
  function RandomPower(draw: PowerDraw, sinr: real): (p: real)
    ensures 0.0 <= p <= 23.0 && p.Floor as real == p
  {
    draw as real
  }

  // ---------------------------------------------------------------------
  // Message interface settings

  /** The C++ side's settings: whether it creates the shared memory, vector
      mode, and finish handling. */
  datatype CppInterfaceConfig = CppInterfaceConfig(isMemoryCreator: bool, useVector: bool, handleFinish: bool)

  /** The Python side's experiment settings. */
  datatype PyExperimentConfig = PyExperimentConfig(handleFinish: bool, useVector: bool, vectorSize: nat)

  /** All three examples configure both sides the same way. */
  const CppConfig := CppInterfaceConfig(false, true, true)
  const PyConfig := PyExperimentConfig(true, true, 1)

  /** The two sides agree on vector mode and finish handling, and the
      vectors hold one element, so slot 0 exists on both. */
  lemma ConfigsAgree()
    ensures CppConfig.useVector == PyConfig.useVector && CppConfig.handleFinish == PyConfig.handleFinish
    ensures !CppConfig.isMemoryCreator && PyConfig.vectorSize >= 1
  {
  }

  // ---------------------------------------------------------------------
  // When an exchange starts, and with what

  /** What a callback or timer hands to the exchange: the observation it
      writes and whether it applies the answer. */
  datatype Cycle = Cycle(o: Obs, apply: bool)

  /** nr-traces-ai `RunAiLoop`: nothing without the interface or the PHY
      (and then the loop is not rescheduled either); otherwise the cached
      SINR for RNTI 1, applied to the PHY. */
  function TracesLoop(interfacePresent: bool, phyPresent: bool, cachedSinr: real): (c: Option<Cycle>)
    ensures c.Some? <==> interfacePresent && phyPresent
    ensures c.Some? ==> c.value.o == Obs(1, cachedSinr) && c.value.apply
  {
    if !interfacePresent || !phyPresent then None
    else Some(Cycle(Obs(1, cachedSinr), true))
  }

  /** nr-sionna-ai `OnSinrReport`: nothing without the interface; otherwise
      the reported RNTI and SINR, applied to the PHY. */
  function SionnaReport(interfacePresent: bool, rnti: nat, sinr: real): (c: Option<Cycle>)
    ensures c.Some? <==> interfacePresent
    ensures c.Some? ==> c.value.o == Obs(rnti, sinr) && c.value.apply
  {
    if !interfacePresent then None
    else Some(Cycle(Obs(rnti, sinr), true))
  }

  /** The interface's two vectors: `None` for a null pointer, otherwise the
      number of elements. */
  datatype Vectors = Vectors(cpp2py: Option<nat>, py2cpp: Option<nat>)

  /** nr-ai-minimal `OnSinrReport`: nothing without the interface or with a
      null or empty vector; otherwise the reported RNTI and SINR, applied
      only when the target PHY is set. */
  function MinimalReport(interfacePresent: bool, v: Vectors, phyPresent: bool, rnti: nat, sinr: real): (c: Option<Cycle>)
    ensures c.Some? <==> interfacePresent && v.cpp2py.Some? && v.py2cpp.Some?
                         && v.cpp2py.value > 0 && v.py2cpp.value > 0
    ensures c.Some? ==> c.value.o == Obs(rnti, sinr) && c.value.apply == phyPresent
  {
    if !interfacePresent then None
    else if v.cpp2py.None? || v.py2cpp.None? || v.cpp2py.value == 0 || v.py2cpp.value == 0 then None
    else Some(Cycle(Obs(rnti, sinr), phyPresent))
  }

  /** With the configured vector size, the minimal example's guard lets
      every report through once the interface exists. */
  lemma ConfiguredVectorsPassGuard(phyPresent: bool, rnti: nat, sinr: real)
    ensures var n := PyConfig.vectorSize;
            MinimalReport(true, Vectors(Some(n), Some(n)), phyPresent, rnti, sinr).Some?
  {
  }

  // ---------------------------------------------------------------------
  // The SINR cache (nr-traces-ai)

  const InitialSinr: real := 0.0

  /** `UpdateSinrCache` over a run of SINR reports. */
  function CacheAfter(reports: seq<real>): (cache: real)
    ensures reports == [] ==> cache == InitialSinr
    ensures reports != [] ==> cache == reports[|reports| - 1]
  {
    if reports == [] then InitialSinr
    else UpdateSinrCache(CacheAfter(reports[..|reports| - 1]), reports[|reports| - 1])
  }

  /** The cache only remembers the latest report. */
  function UpdateSinrCache(cache: real, sinr: real): (cache': real)
    ensures cache' == sinr
  {
    sinr
  }

  // ---------------------------------------------------------------------
  // What each example's exchange achieves

  /** nr-traces-ai: once an exchange of the periodic loop completes, the
      power applied is the threshold policy's answer to the latest reported
      SINR (0 dBm SINR before any report). */
  lemma TracesLoopAppliesPolicy(reports: seq<real>, schedule: seq<bool>, slot0: Obs, act0: real, before: seq<real>)
    requires var c := TracesLoop(true, true, CacheAfter(reports)).value;
             var r := Execute(Start(slot0, act0, before), schedule, c.o, c.apply, true, TracesPolicy);
             r.Some? && r.value.cpc == CppDone && r.value.ppc == PyDone
    ensures var c := TracesLoop(true, true, CacheAfter(reports)).value;
            var r := Execute(Start(slot0, act0, before), schedule, c.o, c.apply, true, TracesPolicy).value;
            && r.applied == before + [TracesPolicy(if reports == [] then InitialSinr else reports[|reports| - 1])]
            && r.seen == Some(Obs(1, CacheAfter(reports)))
  {
    var c := TracesLoop(true, true, CacheAfter(reports)).value;
    AppliedIsPolicyOfSinr(schedule, slot0, act0, before, c.o, c.apply, true, TracesPolicy);
  }

  /** nr-sionna-ai: once the exchange a report starts completes, the power
      applied is the threshold policy's answer to that report's SINR. */
  lemma SionnaReportAppliesPolicy(rnti: nat, sinr: real, schedule: seq<bool>, slot0: Obs, act0: real, before: seq<real>)
    requires var c := SionnaReport(true, rnti, sinr).value;
             var r := Execute(Start(slot0, act0, before), schedule, c.o, c.apply, true, SionnaPolicy);
             r.Some? && r.value.cpc == CppDone && r.value.ppc == PyDone
    ensures var c := SionnaReport(true, rnti, sinr).value;
            var r := Execute(Start(slot0, act0, before), schedule, c.o, c.apply, true, SionnaPolicy).value;
            && r.applied == before + [if sinr < 12.0 then 23.0 else 10.0]
            && r.seen == Some(Obs(rnti, sinr))
  {
    var c := SionnaReport(true, rnti, sinr).value;
    AppliedIsPolicyOfSinr(schedule, slot0, act0, before, c.o, c.apply, true, SionnaPolicy);
  }

  /** nr-ai-minimal: once the exchange completes, the drawn power is applied
      when the target PHY is set and nothing is applied otherwise. */
  lemma MinimalReportAppliesDraw(v: Vectors, phyPresent: bool, rnti: nat, sinr: real, draw: PowerDraw,
                                 schedule: seq<bool>, slot0: Obs, act0: real, before: seq<real>)
    requires MinimalReport(true, v, phyPresent, rnti, sinr).Some?
    requires var c := MinimalReport(true, v, phyPresent, rnti, sinr).value;
             var r := Execute(Start(slot0, act0, before), schedule, c.o, c.apply, false, s => RandomPower(draw, s));
             r.Some? && r.value.cpc == CppDone && r.value.ppc == PyDone
    ensures var c := MinimalReport(true, v, phyPresent, rnti, sinr).value;
            var r := Execute(Start(slot0, act0, before), schedule, c.o, c.apply, false, s => RandomPower(draw, s)).value;
            && r.applied == before + (if phyPresent then [draw as real] else [])
            && r.seen == Some(Obs(rnti, sinr))
  {
    var c := MinimalReport(true, v, phyPresent, rnti, sinr).value;
    AppliedIsPolicyOfSinr(schedule, slot0, act0, before, c.o, c.apply, false, s => RandomPower(draw, s));
  }

  // ---------------------------------------------------------------------
  // Timing

  /** The gNB's position: the first parsed one, when there is any. */
  function GnbPosition(gPos: seq<Vec3>): (p: Option<Vec3>)
    ensures p.Some? <==> gPos != []
    ensures p.Some? ==> p.value == gPos[0]
  {
    if gPos == [] then None else Some(gPos[0])
  }

  /** The UE's waypoints: position `i` is reached at `100 * i` ms. */
  function Waypoints(uPos: seq<Vec3>): (w: seq<(int, Vec3)>)
    ensures |w| == |uPos|
    ensures forall i :: 0 <= i < |w| ==> w[i].1 == uPos[i]
    ensures w != [] ==> w[0].0 == 0
    ensures forall i, j :: 0 <= i < j < |w| ==> w[i].0 < w[j].0
    ensures forall i :: 0 < i < |w| ==> w[i].0 - w[i - 1].0 == 100 * NsPerMs
  {
    seq(|uPos|, i requires 0 <= i < |uPos| => (100 * i * NsPerMs, uPos[i]))
  }

  /** The times a self-rescheduling event runs: first at `first`, then
      every `period`, as long as the time is before the simulation stops
      (an event due exactly at the stop time does not run, because the stop
      event was scheduled before it). */
  function LoopTimes(first: int, period: int, stop: int): (ts: seq<int>)
    requires period > 0
    ensures first < stop <==> ts != []
    ensures ts != [] ==> ts[0] == first
    ensures forall i :: 0 <= i < |ts| ==> ts[i] < stop && ts[i] == first + i * period
    ensures ts != [] ==> stop <= ts[|ts| - 1] + period
    decreases stop - first
  {
    if first >= stop then []
    else
      var rest := LoopTimes(first + period, period, stop);
      assert forall i :: 1 <= i < |rest| + 1 ==> rest[i - 1] == first + i * period;
      [first] + rest
  }

  const TracesFirstLoop: int := 450 * NsPerMs
  const TracesLoopPeriod: int := 100 * NsPerMs
  const TracesStop: int := 1000 * NsPerMs

  /** nr-traces-ai's loop runs six times, at 450, 550, ..., 950 ms. */
  lemma TracesLoopRunsSixTimes()
    ensures LoopTimes(TracesFirstLoop, TracesLoopPeriod, TracesStop)
            == seq(6, i requires 0 <= i < 6 => (450 + 100 * i) * NsPerMs)
  {
    var ts := LoopTimes(TracesFirstLoop, TracesLoopPeriod, TracesStop);
    assert |ts| == 6;
  }
}
