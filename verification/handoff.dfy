/** One observation/action exchange between a simulation callback and the
    Python decision loop, over the message interface's single-slot buffers:
    `up` carries the observation from C++ to Python, `down` the action back.
    Each buffer is free, being written, full, or being read; a side that
    begins a write waits for a free buffer and a side that begins a read
    waits for a full one (or, for Python, for the finish signal). Which side
    moves next is a scheduler choice, so every interleaving is covered. */
module Handoff {
  import opened Common

  datatype Chan = Free | Writing | Full | Reading

  /** The observation record: the UE's RNTI and the reported SINR. */
  datatype Obs = Obs(rnti: nat, sinr: real)

  /** Both buffers and their slot contents, the finish flag, each side's
      program counter, what Python has read and decided, and every transmit
      power applied so far. */
  datatype Sys = Sys(
    up: Chan, down: Chan,
    obsSlot: Obs, actSlot: real,
    finished: bool,
    cpc: nat, ppc: nat,
    seen: Option<Obs>, decision: Option<real>,
    applied: seq<real>)

  /** The C++ side of one exchange, `apply` telling whether a PHY is there
      to apply the power to:
        0 send-begin, 1 write `o`, 2 send-end,
        3 receive-begin, 4 apply the action, 5 receive-end, 6 done. */
  const CppDone: nat := 6

  /** The Python side of one loop iteration:
        0 receive-begin, 1 leave when finished, 2 read the observation,
        3 and 4 decide and send-begin (in that order when `early`, the other
        way round otherwise), 5 write the action, 6 send-end,
        7 receive-end, 8 iteration done; 9 is "left the loop". */
  const PyDone: nat := 8
  const PyLeft: nat := 9

  /** Where Python decides: before send-begin when `early`, after it otherwise. */
  function DecideAt(early: bool): nat
  {
    if early then 3 else 4
  }

  function SendBeginAt(early: bool): nat
  {
    if early then 4 else 3
  }

  function CppStep(s: Sys, o: Obs, apply: bool): (r: Option<Sys>)
    ensures r.Some? ==> r.value.ppc == s.ppc && r.value.cpc == s.cpc + 1
  {
    match s.cpc
    case 0 => if s.up == Free then Some(s.(up := Writing, cpc := 1)) else None
    case 1 => Some(s.(obsSlot := o, cpc := 2))
    case 2 => Some(s.(up := Full, cpc := 3))
    case 3 => if s.down == Full then Some(s.(down := Reading, cpc := 4)) else None
    case 4 => Some(s.(applied := if apply then s.applied + [s.actSlot] else s.applied, cpc := 5))
    case 5 => Some(s.(down := Free, cpc := 6))
    case _ => None
  }

  function PyStep(s: Sys, early: bool, policy: real -> real): (r: Option<Sys>)
    ensures r.Some? ==> r.value.cpc == s.cpc && r.value.applied == s.applied && r.value.ppc > s.ppc
  {
    if s.ppc == 0 then
      if s.finished then Some(s.(ppc := 1))
      else if s.up == Full then Some(s.(up := Reading, ppc := 1))
      else None
    else if s.ppc == 1 then
      if s.finished then Some(s.(ppc := PyLeft)) else Some(s.(ppc := 2))
    else if s.ppc == 2 then
      Some(s.(seen := Some(s.obsSlot), ppc := 3))
    else if s.ppc == DecideAt(early) then
      if s.seen.Some? then Some(s.(decision := Some(policy(s.seen.value.sinr)), ppc := s.ppc + 1))
      else None
    else if s.ppc == SendBeginAt(early) then
      if s.down == Free then Some(s.(down := Writing, ppc := s.ppc + 1)) else None
    else if s.ppc == 5 then
      if s.decision.Some? then Some(s.(actSlot := s.decision.value, ppc := 6)) else None
    else if s.ppc == 6 then
      Some(s.(down := Full, ppc := 7))
    else if s.ppc == 7 then
      Some(s.(up := Free, ppc := PyDone))
    else None
  }

  /** Run the two sides by a schedule (`true`: C++ moves); `None` when the
      schedule picks a side that cannot move. */
  function Execute(s: Sys, schedule: seq<bool>, o: Obs, apply: bool, early: bool, policy: real -> real): Option<Sys>
    decreases |schedule|
  {
    if schedule == [] then Some(s)
    else
      var next := if schedule[0] then CppStep(s, o, apply) else PyStep(s, early, policy);
      match next
      case None => None
      case Some(s') => Execute(s', schedule[1..], o, apply, early, policy)
  }

  /** Both buffers free and both sides at the start of an exchange. */
  function Start(obsSlot: Obs, actSlot: real, applied: seq<real>): (s: Sys)
    ensures s.up == Free && s.down == Free && s.cpc == 0 && s.ppc == 0 && !s.finished
  {
    Sys(Free, Free, obsSlot, actSlot, false, 0, 0, None, None, applied)
  }

  /** What is true at every point of an exchange started by `Start` with
      prior history `before`, as a function of the two program counters. */
  ghost predicate Inv(s: Sys, o: Obs, apply: bool, early: bool, policy: real -> real, before: seq<real>)
  {
    var c := s.cpc;
    var p := s.ppc;
    var d := policy(o.sinr);
    && !s.finished && c <= CppDone && p <= PyDone
    // Python gets past receive-begin only once the observation is sent, and
    // C++ past its receive-begin only once the action is sent
    && (p >= 1 ==> c >= 3)
    && (c >= 4 ==> p >= 7)
    && s.up == (if c == 0 then Free else if c <= 2 then Writing
                else if p == 0 then Full else if p <= 7 then Reading else Free)
    && s.down == (if p <= SendBeginAt(early) then Free else if p <= 6 then Writing
                  else if c <= 3 then Full else if c <= 5 then Reading else Free)
    && (c >= 2 ==> s.obsSlot == o)
    && s.seen == (if p >= 3 then Some(o) else None)
    && s.decision == (if p > DecideAt(early) then Some(d) else None)
    && (p >= 6 ==> s.actSlot == d)
    && s.applied == (if c <= 4 then before else before + (if apply then [d] else []))
  }

  lemma StartInv(obsSlot: Obs, actSlot: real, before: seq<real>, o: Obs, apply: bool, early: bool, policy: real -> real)
    ensures Inv(Start(obsSlot, actSlot, before), o, apply, early, policy, before)
  {
  }

  lemma CppStepInv(s: Sys, o: Obs, apply: bool, early: bool, policy: real -> real, before: seq<real>)
    requires Inv(s, o, apply, early, policy, before) && CppStep(s, o, apply).Some?
    ensures Inv(CppStep(s, o, apply).value, o, apply, early, policy, before)
  {
  }

  lemma PyStepInv(s: Sys, o: Obs, apply: bool, early: bool, policy: real -> real, before: seq<real>)
    requires Inv(s, o, apply, early, policy, before) && PyStep(s, early, policy).Some?
    ensures Inv(PyStep(s, early, policy).value, o, apply, early, policy, before)
  {
  }

  lemma {:induction false} ExecuteInv(s: Sys, schedule: seq<bool>, o: Obs, apply: bool, early: bool,
                                      policy: real -> real, before: seq<real>)
    requires Inv(s, o, apply, early, policy, before)
    requires Execute(s, schedule, o, apply, early, policy).Some?
    ensures Inv(Execute(s, schedule, o, apply, early, policy).value, o, apply, early, policy, before)
    decreases |schedule|
  {
    if schedule != [] {
      if schedule[0] {
        CppStepInv(s, o, apply, early, policy, before);
        ExecuteInv(CppStep(s, o, apply).value, schedule[1..], o, apply, early, policy, before);
      } else {
        PyStepInv(s, o, apply, early, policy, before);
        ExecuteInv(PyStep(s, early, policy).value, schedule[1..], o, apply, early, policy, before);
      }
    }
  }

  /** The exchange's guarantee: however the two sides interleave, once both
      have finished, the power applied is the policy's decision on the SINR
      C++ wrote (nothing when there is no PHY to apply it to), and both
      buffers are free again for the next exchange. */
  lemma AppliedIsPolicyOfSinr(schedule: seq<bool>, slot0: Obs, act0: real, before: seq<real>,
                              o: Obs, apply: bool, early: bool, policy: real -> real)
    requires var r := Execute(Start(slot0, act0, before), schedule, o, apply, early, policy);
             r.Some? && r.value.cpc == CppDone && r.value.ppc == PyDone
    ensures var s := Execute(Start(slot0, act0, before), schedule, o, apply, early, policy).value;
            && s.applied == before + (if apply then [policy(o.sinr)] else [])
            && s.up == Free && s.down == Free
            && s.seen == Some(o)
  {
    StartInv(slot0, act0, before, o, apply, early, policy);
    ExecuteInv(Start(slot0, act0, before), schedule, o, apply, early, policy, before);
  }

  /** The exchange never deadlocks: until both sides are done, one of them
      can move. */
  lemma NoDeadlock(s: Sys, o: Obs, apply: bool, early: bool, policy: real -> real, before: seq<real>)
    requires Inv(s, o, apply, early, policy, before)
    requires s.cpc != CppDone || s.ppc != PyDone
    ensures CppStep(s, o, apply).Some? || PyStep(s, early, policy).Some?
  {
  }

  /** The schedule the blocking calls force in practice: C++ sends, Python
      reads, decides and answers, C++ applies, Python releases the
      observation buffer. */
  function NaturalSchedule(): seq<bool>
  {
    [true, true, true, false, false, false, false, false, false, false, true, true, true, false]
  }

  /** The program counters after the first `i` moves of the natural schedule. */
  function NaturalPcs(i: nat): (nat, nat)
  {
    if i <= 3 then (i, 0) else if i <= 10 then (3, i - 3) else if i <= 13 then (i - 7, 7) else (6, 8)
  }

  lemma NaturalStep(s: Sys, i: nat, o: Obs, apply: bool, early: bool, policy: real -> real, before: seq<real>)
    requires i < |NaturalSchedule()|
    requires Inv(s, o, apply, early, policy, before) && (s.cpc, s.ppc) == NaturalPcs(i)
    ensures var next := if NaturalSchedule()[i] then CppStep(s, o, apply) else PyStep(s, early, policy);
            && next.Some?
            && Inv(next.value, o, apply, early, policy, before)
            && (next.value.cpc, next.value.ppc) == NaturalPcs(i + 1)
  {
    if NaturalSchedule()[i] {
      CppStepInv(s, o, apply, early, policy, before);
    } else {
      PyStepInv(s, o, apply, early, policy, before);
    }
  }

  /** Running a schedule is taking its first move, then running the rest. */
  lemma ExecuteFirst(s: Sys, schedule: seq<bool>, o: Obs, apply: bool, early: bool, policy: real -> real)
    requires schedule != []
    requires (if schedule[0] then CppStep(s, o, apply) else PyStep(s, early, policy)).Some?
    ensures Execute(s, schedule, o, apply, early, policy)
         == Execute((if schedule[0] then CppStep(s, o, apply) else PyStep(s, early, policy)).value,
                    schedule[1..], o, apply, early, policy)
  {
  }

  /** From the state the natural schedule reaches after `i` moves, its
      remaining moves all succeed and end the exchange. */
  lemma {:induction false} NaturalFrom(s: Sys, i: nat, o: Obs, apply: bool, early: bool, policy: real -> real,
                                       before: seq<real>)
    requires i <= |NaturalSchedule()|
    requires Inv(s, o, apply, early, policy, before) && (s.cpc, s.ppc) == NaturalPcs(i)
    ensures var r := Execute(s, NaturalSchedule()[i..], o, apply, early, policy);
            r.Some? && r.value.cpc == CppDone && r.value.ppc == PyDone
    decreases |NaturalSchedule()| - i
  {
    var sch := NaturalSchedule();
    if i < |sch| {
      NaturalStep(s, i, o, apply, early, policy, before);
      var next := if sch[i] then CppStep(s, o, apply) else PyStep(s, early, policy);
      NaturalFrom(next.value, i + 1, o, apply, early, policy, before);
      ExecuteFirst(s, sch[i..], o, apply, early, policy);
      assert sch[i..][1..] == sch[i + 1..];
    } else {
      assert sch[i..] == [];
    }
  }

  lemma NaturalScheduleCompletes(slot0: Obs, act0: real, before: seq<real>,
                                 o: Obs, apply: bool, early: bool, policy: real -> real)
    ensures var r := Execute(Start(slot0, act0, before), NaturalSchedule(), o, apply, early, policy);
            r.Some? && r.value.cpc == CppDone && r.value.ppc == PyDone
  {
    StartInv(slot0, act0, before, o, apply, early, policy);
    NaturalFrom(Start(slot0, act0, before), 0, o, apply, early, policy, before);
    assert NaturalSchedule()[0..] == NaturalSchedule();
  }

  /** Once the simulation has finished, Python leaves its loop at the first
      receive: it never reads the observation and never touches the action
      buffer, whatever it is scheduled to do. */
  lemma {:induction false} FinishedPythonSendsNothing(s: Sys, schedule: seq<bool>, o: Obs, apply: bool,
                                                      early: bool, policy: real -> real)
    requires s.finished && (s.ppc == 0 || s.ppc == 1 || s.ppc == PyLeft) && s.seen.None? && s.cpc == CppDone
    requires Execute(s, schedule, o, apply, early, policy).Some?
    ensures var t := Execute(s, schedule, o, apply, early, policy).value;
            && t.seen.None? && t.down == s.down && t.actSlot == s.actSlot && t.up == s.up
            && t.applied == s.applied
            && (|schedule| >= 2 ==> t.ppc == PyLeft)
    decreases |schedule|
  {
    if schedule != [] {
      var next := PyStep(s, early, policy).value;
      FinishedPythonSendsNothing(next, schedule[1..], o, apply, early, policy);
    }
  }

  /** One exchange of a session: the observation C++ writes, whether it
      applies the answer, and how the two sides interleave. */
  datatype Exchange = Exchange(o: Obs, apply: bool, schedule: seq<bool>)

  /** A run of exchanges, each starting with both buffers free and keeping
      the slot contents and history the previous one left; `None` when an
      exchange does not complete. */
  function Session(s: Sys, xs: seq<Exchange>, early: bool, policy: real -> real): Option<Sys>
    decreases |xs|
  {
    if xs == [] then Some(s)
    else
      var x := xs[0];
      match Execute(Start(s.obsSlot, s.actSlot, s.applied), x.schedule, x.o, x.apply, early, policy)
      case None => None
      case Some(t) =>
        if t.cpc == CppDone && t.ppc == PyDone then Session(t, xs[1..], early, policy) else None
  }

  /** The powers a session applies: the policy's decision on each written
      SINR, in order, skipping exchanges without a PHY. */
  function Decisions(xs: seq<Exchange>, policy: real -> real): seq<real>
    decreases |xs|
  {
    if xs == [] then []
    else (if xs[0].apply then [policy(xs[0].o.sinr)] else []) + Decisions(xs[1..], policy)
  }

  /** A session that completes completes its first exchange and then the rest. */
  lemma SessionFirst(s: Sys, xs: seq<Exchange>, early: bool, policy: real -> real)
    requires xs != [] && Session(s, xs, early, policy).Some?
    ensures var r := Execute(Start(s.obsSlot, s.actSlot, s.applied), xs[0].schedule, xs[0].o, xs[0].apply, early, policy);
            && r.Some? && r.value.cpc == CppDone && r.value.ppc == PyDone
            && Session(s, xs, early, policy) == Session(r.value, xs[1..], early, policy)
  {
  }

  lemma DecisionsFirst(before: seq<real>, xs: seq<Exchange>, policy: real -> real)
    requires xs != []
    ensures before + Decisions(xs, policy)
         == (before + (if xs[0].apply then [policy(xs[0].o.sinr)] else [])) + Decisions(xs[1..], policy)
  {
  }

  /** Over a whole session, the transmit powers applied are exactly the
      policy's decisions on the SINRs C++ reported, one per exchange. */
  lemma {:induction false} SessionAppliesDecisions(s: Sys, xs: seq<Exchange>, early: bool, policy: real -> real)
    requires Session(s, xs, early, policy).Some?
    ensures Session(s, xs, early, policy).value.applied == s.applied + Decisions(xs, policy)
    decreases |xs|
  {
    if xs != [] {
      var x := xs[0];
      SessionFirst(s, xs, early, policy);
      var t := Execute(Start(s.obsSlot, s.actSlot, s.applied), x.schedule, x.o, x.apply, early, policy).value;
      AppliedIsPolicyOfSinr(x.schedule, s.obsSlot, s.actSlot, s.applied, x.o, x.apply, early, policy);
      SessionAppliesDecisions(t, xs[1..], early, policy);
      DecisionsFirst(s.applied, xs, policy);
    }
  }
}
