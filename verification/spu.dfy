/** Voices of the sound processor: the envelope, the pitch counter and the block decoder. */
module Spu {
  import opened Bits

  // ---------------------------------------------------------------- the envelope

  /** Phases: 0 attack, 1 decay, 2 sustain, 3 release, 4 off. */
  datatype Env = Env(vol: int, phase: nat, active: bool)

  /** The two ADSR registers of a voice. */
  datatype Adsr = Adsr(lo: Half, hi: Half) {
    function AttackShift(): nat { hi / 0x400 % 32 }
    function AttackStep(): nat { hi / 0x100 % 4 }
    function DecayShift(): nat { hi / 0x10 % 16 }
    function ReleaseShift(): nat { lo % 32 }

    function SustainLevel(): int {
      var level := (hi % 16 + 1) * 0x800;
      if level > 0x7FFF then 0x7FFF else level
    }
  }

  /** (7 - step) shifted up by 11 - shift, or down by shift - 11. */
  function EnvRate(step: nat, shift: nat): nat
    requires step < 4
  {
    if shift <= 11 then Shl(7 - step, 11 - shift)
    else if shift - 11 >= 30 then 1
    else Shr(7 - step, shift - 11)
  }

  function AtLeastOne(rate: int): (r: int)
    ensures r >= 1 && r >= rate
  {
    if rate < 1 then 1 else rate
  }

  /** A fraction of the volume, but at least one. */
  function Fraction(vol: nat, shift: nat): int {
    AtLeastOne(Shr(vol, if shift + 1 > 15 then 15 else shift + 1))
  }

  predicate EnvOk(e: Env) {
    0 <= e.vol <= 0x7FFF && e.phase <= 4 && (e.phase == 4 ==> !e.active)
  }

  function UpdateEnv(e: Env, a: Adsr): Env
    requires EnvOk(e)
  {
    match e.phase
    case 0 =>
      var vol := e.vol + AtLeastOne(EnvRate(a.AttackStep(), a.AttackShift()));
      if vol >= 0x7FFF then e.(vol := 0x7FFF, phase := 1) else e.(vol := vol)
    case 1 =>
      var vol := e.vol - Fraction(e.vol, a.DecayShift());
      if vol <= a.SustainLevel() then e.(vol := a.SustainLevel(), phase := 2) else e.(vol := vol)
    case 2 => e.(vol := a.SustainLevel())
    case 3 =>
      var vol := e.vol - Fraction(e.vol, a.ReleaseShift());
      if vol <= 0 then Env(0, 4, false) else e.(vol := vol)
    case _ => e
  }

  /** The volume stays in range and the phase does not go back. */
  lemma UpdateKeeps(e: Env, a: Adsr)
    requires EnvOk(e)
    ensures EnvOk(UpdateEnv(e, a)) && UpdateEnv(e, a).phase >= e.phase
    ensures UpdateEnv(e, a).active ==> e.active
  {
  }

  lemma AttackClimbs(e: Env, a: Adsr)
    requires EnvOk(e) && e.phase == 0
    ensures UpdateEnv(e, a).phase == 0 ==> UpdateEnv(e, a).vol > e.vol
    ensures UpdateEnv(e, a).phase <= 1
  {
  }

  lemma FallsOrMovesOn(e: Env, a: Adsr)
    requires EnvOk(e) && (e.phase == 1 || e.phase == 3)
    ensures UpdateEnv(e, a).phase == e.phase ==> 0 < UpdateEnv(e, a).vol < e.vol
    ensures UpdateEnv(e, a).phase == e.phase || UpdateEnv(e, a).phase == e.phase + 1
    ensures e.phase == 3 && UpdateEnv(e, a).phase == 4 ==> UpdateEnv(e, a) == Env(0, 4, false)
  {
  }

  // ---------------------------------------------------------------- what the registers ask for

  /** Fields of the two registers: mode, shift and step of the attack, shift of the decay, level
      of the sustain in the high one; shift of the release in the low one. */
  function Registers(mode: nat, attack: nat, step: nat, decay: nat, level: nat, other: nat, release: nat): Adsr
    requires mode < 2 && attack < 32 && step < 4 && decay < 16 && level < 16 && other < 0x800 && release < 32
  {
    Adsr(32 * other + release, 0x8000 * mode + 0x400 * attack + 0x100 * step + 0x10 * decay + level)
  }

  /** rate is (7 - step) times 2 to the power of 11 - shift, rounded down, but at least 1. */
  predicate IsAttackRate(rate: int, step: nat, shift: nat) {
    if shift <= 11 then rate == (7 - step) * Pow2(11 - shift)
    else if 7 - step < Pow2(shift - 11) then rate == 1
    else rate * Pow2(shift - 11) <= 7 - step < (rate + 1) * Pow2(shift - 11)
  }

  /** part is vol over 2 to the power of shift + 1, or of 15 at most, rounded down, but at least 1. */
  predicate IsFraction(part: int, vol: nat, shift: nat) {
    var k := if shift >= 14 then 15 else shift + 1;
    if vol < Pow2(k) then part == 1 else part * Pow2(k) <= vol < (part + 1) * Pow2(k)
  }

  /** One tick of an envelope in each phase. */
  ghost predicate Moves(e: Env, e': Env, attack: nat, step: nat, decay: nat, level: nat, release: nat)
    requires EnvOk(e)
  {
    var held := if level == 15 then 0x7FFF else 0x800 * (level + 1);
    match e.phase
    case 0 => exists rate :: IsAttackRate(rate, step, attack) && Rises(e, e', rate)
    case 1 => exists part :: IsFraction(part, e.vol, decay) && Falls(e, e', part, held)
    case 2 => e' == Env(held, 2, e.active)
    case 3 => exists part :: IsFraction(part, e.vol, release) && FallsToRest(e, e', part)
    case _ => e' == e
  }

  predicate Rises(e: Env, e': Env, rate: int) {
    if e.vol + rate >= 0x7FFF then e' == Env(0x7FFF, 1, e.active)
    else e'.vol == e.vol + rate && e'.phase == 0 && e'.active == e.active
  }

  predicate Falls(e: Env, e': Env, part: int, held: nat) {
    if e.vol - part <= held then e' == Env(held, 2, e.active)
    else e'.vol == e.vol - part && e'.phase == 1 && e'.active == e.active
  }

  predicate FallsToRest(e: Env, e': Env, part: int) {
    if e.vol - part <= 0 then e' == Env(0, 4, false)
    else e'.vol == e.vol - part && e'.phase == 3 && e'.active == e.active
  }

  lemma LowFields(other: nat, release: nat)
    requires other < 0x800 && release < 32
    ensures Adsr(32 * other + release, 0).ReleaseShift() == release
  {
  }

  lemma HighFields(a: Adsr, mode: nat, attack: nat, step: nat, decay: nat, level: nat)
    requires mode < 2 && attack < 32 && step < 4 && decay < 16 && level < 16
    requires a.hi == 0x8000 * mode + 0x400 * attack + 0x100 * step + 0x10 * decay + level
    ensures a.AttackShift() == attack && a.AttackStep() == step && a.DecayShift() == decay
    ensures a.SustainLevel() == if level == 15 then 0x7FFF else 0x800 * (level + 1)
  {
    assert a.hi / 0x400 == 32 * mode + attack;
    assert a.hi / 0x100 == 128 * mode + 4 * attack + step;
    assert a.hi / 0x10 == 0x800 * mode + 0x40 * attack + 0x10 * step + decay;
    assert a.hi % 16 == level;
  }

  lemma AttackRateIs(step: nat, shift: nat)
    requires step < 4 && shift < 32
    ensures IsAttackRate(AtLeastOne(EnvRate(step, shift)), step, shift)
  {
    if shift <= 11 {
      ShlIs(7 - step, 11 - shift);
      Positive(7 - step, Pow2(11 - shift));
    } else {
      ShrIs(7 - step, shift - 11);
      Quotient(Shr(7 - step, shift - 11), Pow2(shift - 11), 7 - step);
    }
  }

  lemma FractionIs(vol: nat, shift: nat)
    ensures IsFraction(Fraction(vol, shift), vol, shift)
  {
    var k := if shift >= 14 then 15 else shift + 1;
    ShrIs(vol, k);
    Quotient(Shr(vol, k), Pow2(k), vol);
  }

  lemma Positive(a: int, b: int)
    requires a > 0 && b > 0
    ensures a * b > 0
  {
  }

  lemma Quotient(q: nat, p: nat, v: nat)
    requires p > 0 && q * p <= v < (q + 1) * p
    ensures q == 0 <==> v < p
  {
    if q > 0 {
      assert q * p == p + (q - 1) * p;
    }
  }

  /** Every tick does what the fields of the registers ask for. */
  lemma UpdateMoves(e: Env, mode: nat, attack: nat, step: nat, decay: nat, level: nat, other: nat, release: nat)
    requires EnvOk(e)
    requires mode < 2 && attack < 32 && step < 4 && decay < 16 && level < 16 && other < 0x800 && release < 32
    ensures Moves(e, UpdateEnv(e, Registers(mode, attack, step, decay, level, other, release)),
                  attack, step, decay, level, release)
  {
    var a := Registers(mode, attack, step, decay, level, other, release);
    HighFields(a, mode, attack, step, decay, level);
    LowFields(other, release);
    AttackRateIs(step, attack);
    FractionIs(e.vol, decay);
    FractionIs(e.vol, release);
  }

  // ---------------------------------------------------------------- pitch

  /** What a voice's counter has been given, tick by tick. */
  function Sum(pitches: seq<Half>): nat {
    if pitches == [] then 0 else Sum(pitches[..|pitches| - 1]) + pitches[|pitches| - 1]
  }

  /** The counter and the samples advanced after some ticks. */
  datatype Pitch = Pitch(counter: nat, total: nat)

  function AdvanceAll(counter: nat, pitches: seq<Half>): Pitch {
    if pitches == [] then Pitch(counter, 0)
    else
      var p := AdvanceAll(counter, pitches[..|pitches| - 1]);
      var sum := p.counter + pitches[|pitches| - 1];
      Pitch(sum % 0x1000, p.total + sum / 0x1000)
  }

  /** No fraction is ever lost: the total advance is the sum of the pitches over 4096. */
  lemma {:induction false} AdvanceIsExact(counter: nat, pitches: seq<Half>)
    requires counter < 0x1000
    ensures var p := AdvanceAll(counter, pitches);
            p.total == (counter + Sum(pitches)) / 0x1000 && p.counter == (counter + Sum(pitches)) % 0x1000
  {
    if pitches != [] {
      AdvanceIsExact(counter, pitches[..|pitches| - 1]);
    }
  }

  /** Whole samples, and the fraction left in the counter. */
  function Whole(sum: nat): nat {
    sum / 0x1000
  }

  function Part(sum: nat): nat {
    sum % 0x1000
  }

  /** The position in the sound is block by block what the pitches add up to; the block before
      the first counts as passed. */
  predicate InStep(total: nat, counter: nat, idx: nat, taken: nat) {
    counter < 0x1000 && 0x1000 * (idx + 28 * taken - 28) + counter == total
  }

  lemma StartsInStep()
    ensures InStep(Sum([]), 0, 28, 0)
  {
  }

  lemma SumSnoc(ps: seq<Half>, p: Half)
    ensures Sum(ps + [p]) == Sum(ps) + p
  {
    assert (ps + [p])[..|ps|] == ps;
  }

  lemma StaysInStep(total: nat, counter: nat, idx: nat, taken: nat, pitch: nat)
    requires InStep(total, counter, idx, taken)
    ensures InStep(total + pitch, Part(counter + pitch), idx + Whole(counter + pitch), taken)
  {
  }

  lemma BlockInStep(total: nat, counter: nat, idx: nat, taken: nat)
    requires InStep(total, counter, idx, taken) && idx >= 28
    ensures InStep(total, counter, idx - 28, taken + 1)
  {
  }

  // ---------------------------------------------------------------- the life of an envelope

  datatype EnvEvent = Tick(regs: Adsr) | KeyOn | KeyOff | OneShotEnd | OutOfMemory

  /** What each event does to the envelope; a voice that is not active is not ticked. */
  function EnvStep(e: Env, event: EnvEvent): Env
    requires EnvOk(e)
  {
    match event
    case Tick(regs) => if e.active then UpdateEnv(e, regs) else e
    case KeyOn => Env(0, 0, true)
    case KeyOff => if e.phase < 3 then e.(phase := 3) else e
    case OneShotEnd => if e.active then e.(phase := 3) else e
    case OutOfMemory => e.(active := false)
  }

  lemma EnvStepOk(e: Env, event: EnvEvent)
    requires EnvOk(e)
    ensures EnvOk(EnvStep(e, event))
    ensures event != KeyOn ==> EnvStep(e, event).phase >= e.phase
  {
    if event.Tick? {
      UpdateKeeps(e, event.regs);
    }
  }

  function AfterEvents(e: Env, events: seq<EnvEvent>): (r: Env)
    requires EnvOk(e)
    ensures EnvOk(r)
  {
    if events == [] then e
    else
      var before := AfterEvents(e, events[..|events| - 1]);
      EnvStepOk(before, events[|events| - 1]);
      EnvStep(before, events[|events| - 1])
  }

  /** The envelope after any events since the start. */
  function Life(events: seq<EnvEvent>): (e: Env)
    ensures EnvOk(e)
  {
    AfterEvents(Env(0, 0, false), events)
  }

  /** Between key-ons the phase never goes back. */
  lemma {:induction false} PhaseClimbs(events: seq<EnvEvent>, i: nat, j: nat)
    requires i <= j <= |events| && forall k | i <= k < j :: events[k] != KeyOn
    ensures Life(events[..i]).phase <= Life(events[..j]).phase
    decreases j
  {
    if i < j {
      PhaseClimbs(events, i, j - 1);
      assert events[..j][..j - 1] == events[..j - 1];
      EnvStepOk(Life(events[..j - 1]), events[j - 1]);
    }
  }

  /** Events in two lots. */
  lemma {:induction false} AfterBoth(e: Env, x: seq<EnvEvent>, y: seq<EnvEvent>)
    requires EnvOk(e)
    ensures AfterEvents(e, x + y) == AfterEvents(AfterEvents(e, x), y)
    decreases |y|
  {
    if y == [] {
      assert x + y == x;
    } else {
      assert (x + y)[..|x + y| - 1] == x + y[..|y| - 1];
      AfterBoth(e, x, y[..|y| - 1]);
    }
  }

  /** The envelope e is what these events have made of a new voice. */
  ghost predicate Outcome(events: seq<EnvEvent>, e: Env) {
    forall x: seq<EnvEvent> {:trigger Life(x)} | x == events :: Life(x) == e
  }

  lemma OutcomeAfter(events: seq<EnvEvent>, e: Env, event: EnvEvent)
    requires EnvOk(e) && Outcome(events, e)
    ensures Outcome(events + [event], EnvStep(e, event)) && EnvOk(EnvStep(e, event))
  {
    assert Life(events) == e;
    EnvStepOk(e, event);
    AfterOne(Env(0, 0, false), events, event);
    assert Life(events + [event]) == EnvStep(e, event);
  }

  lemma KeyOnOutcome(events: seq<EnvEvent>, e: Env)
    requires EnvOk(e) && Outcome(events, e)
    ensures Outcome(events + [KeyOn], Env(0, 0, true))
  {
    OutcomeAfter(events, e, KeyOn);
  }

  lemma KeyOffOutcome(events: seq<EnvEvent>, e: Env)
    requires EnvOk(e) && Outcome(events, e)
    ensures Outcome(events + [KeyOff], if e.phase < 3 then e.(phase := 3) else e)
  {
    OutcomeAfter(events, e, KeyOff);
  }

  lemma BlockOutcomes(events: seq<EnvEvent>, e: Env)
    requires EnvOk(e) && Outcome(events, e) && e.active
    ensures Outcome(events + [OneShotEnd], e.(phase := 3)) && Outcome(events + [OutOfMemory], e.(active := false))
    ensures EnvOk(e.(phase := 3)) && EnvOk(e.(active := false))
  {
    OutcomeAfter(events, e, OneShotEnd);
    OutcomeAfter(events, e, OutOfMemory);
  }

  lemma AfterOne(e: Env, events: seq<EnvEvent>, event: EnvEvent)
    requires EnvOk(e)
    ensures AfterEvents(e, events + [event]) == EnvStep(AfterEvents(e, events), event)
  {
    assert (events + [event])[..|events|] == events;
  }

  // ---------------------------------------------------------------- how long the phases last

  function TickCount(events: seq<EnvEvent>): nat {
    if events == [] then 0
    else TickCount(events[..|events| - 1]) + if events[|events| - 1].Tick? then 1 else 0
  }

  lemma TicksAdd(events: seq<EnvEvent>, more: seq<EnvEvent>)
    requires |more| <= 1
    ensures TickCount(events + more) == TickCount(events) + if more != [] && more[0].Tick? then 1 else 0
  {
    if more == [] {
      assert events + more == events;
    } else {
      assert (events + more)[..|events|] == events;
    }
  }

  /** Since the earlier history there has been no key-on, and this many ticks. */
  ghost predicate Ticked(before: seq<EnvEvent>, after: seq<EnvEvent>, ticks: nat) {
    exists more :: after == before + more && KeyOn !in more && TickCount(more) == ticks
  }

  lemma TickedNot(events: seq<EnvEvent>)
    ensures Ticked(events, events, 0)
  {
    assert events == events + [];
  }

  lemma TickedOn(a: seq<EnvEvent>, b: seq<EnvEvent>, m: nat, event: EnvEvent)
    requires Ticked(a, b, m) && event != KeyOn
    ensures Ticked(a, b + [event], m + if event.Tick? then 1 else 0)
  {
    var more :| b == a + more && KeyOn !in more && TickCount(more) == m;
    TicksAdd(more, [event]);
    assert b + [event] == a + (more + [event]);
  }

  function Most(a: int, b: int): int {
    if a > b then a else b
  }

  /** While the attack lasts, every tick has raised the volume. */
  lemma {:induction false} AttackSoFar(e: Env, events: seq<EnvEvent>)
    requires EnvOk(e) && e.phase == 0 && KeyOn !in events
    ensures var r := AfterEvents(e, events);
            r.phase == 0 && r.active ==>
              r.vol >= e.vol + TickCount(events) && (TickCount(events) > 0 ==> r.vol < 0x7FFF)
    decreases |events|
  {
    if events != [] {
      var before := AfterEvents(e, events[..|events| - 1]);
      var last := events[|events| - 1];
      AttackSoFar(e, events[..|events| - 1]);
      EnvStepOk(before, last);
      if last.Tick? && before.phase == 0 {
        AttackClimbs(before, last.regs);
      }
    }
  }

  /** While a decay or a release lasts, every tick has lowered the volume. */
  lemma {:induction false} FallSoFar(e: Env, events: seq<EnvEvent>)
    requires EnvOk(e) && (e.phase == 1 || e.phase == 3) && KeyOn !in events
    ensures var r := AfterEvents(e, events);
            && r.phase >= e.phase
            && (r.phase == e.phase && r.active ==>
                 r.vol <= e.vol - TickCount(events) && (TickCount(events) > 0 ==> r.vol > 0))
    decreases |events|
  {
    if events != [] {
      var before := AfterEvents(e, events[..|events| - 1]);
      var last := events[|events| - 1];
      FallSoFar(e, events[..|events| - 1]);
      EnvStepOk(before, last);
      if last.Tick? && before.phase == e.phase {
        FallsOrMovesOn(before, last.regs);
      }
    }
  }

  /** An attack is over within 0x7FFF - vol ticks, whatever is written to the registers and
      whatever key-offs and block ends fall between the ticks. */
  lemma AttackEnds(e: Env, events: seq<EnvEvent>)
    requires EnvOk(e) && e.phase == 0 && KeyOn !in events
    requires TickCount(events) >= Most(1, 0x7FFF - e.vol)
    ensures AfterEvents(e, events).active ==> AfterEvents(e, events).phase >= 1
  {
    AttackSoFar(e, events);
  }

  /** A decay is over within max(1, vol) ticks. */
  lemma DecayEnds(e: Env, events: seq<EnvEvent>)
    requires EnvOk(e) && e.phase == 1 && KeyOn !in events && TickCount(events) >= Most(1, e.vol)
    ensures AfterEvents(e, events).active ==> AfterEvents(e, events).phase >= 2
  {
    FallSoFar(e, events);
  }

  /** A released voice stops within max(1, vol) ticks; unless it ran out of memory it stops at
      volume 0. */
  lemma ReleaseEnds(e: Env, events: seq<EnvEvent>)
    requires EnvOk(e) && e.phase == 3 && KeyOn !in events && TickCount(events) >= Most(1, e.vol)
    ensures !AfterEvents(e, events).active
    ensures e.active && OutOfMemory !in events ==> AfterEvents(e, events) == Env(0, 4, false)
  {
    FallSoFar(e, events);
    if e.active && OutOfMemory !in events {
      StopsSilent(e, events);
    }
  }

  lemma {:induction false} StopsSilent(e: Env, events: seq<EnvEvent>)
    requires EnvOk(e) && e.phase == 3 && e.active && KeyOn !in events && OutOfMemory !in events
    ensures var r := AfterEvents(e, events); r == Env(0, 4, false) || (r.phase == 3 && r.active)
    decreases |events|
  {
    if events != [] {
      var before := AfterEvents(e, events[..|events| - 1]);
      StopsSilent(e, events[..|events| - 1]);
      if events[|events| - 1].Tick? && before.phase == 3 {
        FallsOrMovesOn(before, events[|events| - 1].regs);
        UpdateKeeps(before, events[|events| - 1].regs);
      }
    }
  }

  /** Every voice that is keyed off stops, from any point of its life: at most max(1, vol) ticks
      follow. */
  lemma KeyedOffStops(before: seq<EnvEvent>, events: seq<EnvEvent>)
    requires KeyOn !in events && TickCount(events) >= Most(1, Life(before).vol)
    ensures !Life(before + [KeyOff] + events).active
  {
    var e := Life(before);
    var off := EnvStep(e, KeyOff);
    EnvStepOk(e, KeyOff);
    AfterOne(Env(0, 0, false), before, KeyOff);
    AfterBoth(Env(0, 0, false), before + [KeyOff], events);
    if off.phase == 3 {
      ReleaseEnds(off, events);
    } else {
      StaysOff(off, events);
    }
  }

  lemma {:induction false} StaysOff(e: Env, events: seq<EnvEvent>)
    requires EnvOk(e) && !e.active && KeyOn !in events
    ensures !AfterEvents(e, events).active
    decreases |events|
  {
    if events != [] {
      StaysOff(e, events[..|events| - 1]);
    }
  }

  // ---------------------------------------------------------------- blocks

  function K0Times(filter: nat, p: int): int {
    match filter case 0 => 0 case 1 => 60 * p case 2 => 115 * p case 3 => 98 * p case _ => 122 * p
  }

  function K1Times(filter: nat, p: int): int {
    match filter case 0 => 0 case 1 => 0 case 2 => -52 * p case 3 => -55 * p case _ => -60 * p
  }

  function Clamped(v: int): (r: int)
    ensures -32768 <= r <= 32767
    ensures -32768 <= v <= 32767 ==> r == v
  {
    if v > 32767 then 32767 else if v < -32768 then -32768 else v
  }

  function Nibble(b: Byte, j: nat): int {
    var n: int := if j == 0 then b % 16 else b / 16;
    if n >= 8 then n - 16 else n
  }

  /** The decoder's history: the samples so far and the last two. */
  datatype History = History(out: seq<int>, p1: int, p2: int)

  function NextSample(h: History, n: int, shift: nat, filter: nat): History {
    var t := Clamped(ShlInt(n, shift) + (K0Times(filter, h.p1) + K1Times(filter, h.p2) + 32) / 64);
    History(h.out + [t], t, h.p1)
  }

  function Filter(header: Byte): nat {
    var f: int := header / 16 % 8;
    if f > 4 then 4 else f
  }

  function UpShift(header: Byte): nat {
    var raw: int := header % 16;
    if 12 - raw < 0 then 0 else 12 - raw
  }

  /** The first n samples of the block at an address, two to a byte. */
  function Samples(ram: seq<Byte>, at: nat, n: nat, p1: int, p2: int): (h: History)
    requires at + 16 <= |ram| && n <= 28
    ensures |h.out| == n && forall k | 0 <= k < n :: -32768 <= h.out[k] <= 32767
  {
    if n == 0 then History([], p1, p2)
    else
      var before := Samples(ram, at, n - 1, p1, p2);
      NextSample(before, Nibble(ram[at + 2 + (n - 1) / 2], (n - 1) % 2), UpShift(ram[at]), Filter(ram[at]))
  }

  method DecodeBlock(ram: seq<Byte>, at: nat, p1: int, p2: int) returns (h: History)
    requires at + 16 <= |ram|
    ensures h == Samples(ram, at, 28, p1, p2)
  {
    h := History([], p1, p2);
    var shift, filter := UpShift(ram[at]), Filter(ram[at]);
    for i := 0 to 14
      invariant h == Samples(ram, at, 2 * i, p1, p2)
    {
      var b := ram[at + 2 + i];
      h := NextSample(h, Nibble(b, 0), shift, filter);
      h := NextSample(h, Nibble(b, 1), shift, filter);
      TwoMore(ram, at, i, p1, p2);
    }
  }

  lemma OneMore(ram: seq<Byte>, at: nat, n: nat, b: Byte, j: nat, p1: int, p2: int)
    requires at + 16 <= |ram| && n < 28 && b == ram[at + 2 + n / 2] && j == n % 2
    ensures Samples(ram, at, n + 1, p1, p2) ==
            NextSample(Samples(ram, at, n, p1, p2), Nibble(b, j), UpShift(ram[at]), Filter(ram[at]))
  {
  }

  lemma Halves(i: nat)
    ensures 2 * i / 2 == i && 2 * i % 2 == 0 && (2 * i + 1) / 2 == i && (2 * i + 1) % 2 == 1
  {
  }

  lemma TwoMore(ram: seq<Byte>, at: nat, i: nat, p1: int, p2: int)
    requires at + 16 <= |ram| && i < 14
    ensures var b := ram[at + 2 + i];
            var one := NextSample(Samples(ram, at, 2 * i, p1, p2), Nibble(b, 0), UpShift(ram[at]), Filter(ram[at]));
            Samples(ram, at, 2 * i + 2, p1, p2) == NextSample(one, Nibble(b, 1), UpShift(ram[at]), Filter(ram[at]))
  {
    Halves(i);
    var n := 2 * i;
    OneMore(ram, at, n, ram[at + 2 + i], 0, p1, p2);
    OneMore(ram, at, n + 1, ram[at + 2 + i], 1, p1, p2);
  }

  // ---------------------------------------------------------------- what a sample is

  /** The weighted sum of the last two samples, for filters 0 to 4 in 64ths. */
  predicate Weighted(sum: int, filter: nat, x1: int, x2: int) {
    match filter
    case 0 => sum == 0
    case 1 => sum == 60 * x1
    case 2 => sum == 115 * x1 - 52 * x2
    case 3 => sum == 98 * x1 - 55 * x2
    case 4 => sum == 122 * x1 - 60 * x2
    case _ => false
  }

  /** v is the nearest number of 16 bits to step plus the sum in 64ths, rounded. */
  ghost predicate Rounded(v: int, step: int, sum: int) {
    exists t: int {:trigger AsSample(t)} ::
      && AsSample(t)
      && 64 * (t - step) <= sum + 32 < 64 * (t - step) + 64
      && v == if t > 32767 then 32767 else if t < -32768 then -32768 else t
  }

  predicate AsSample(t: int) {
    true
  }

  /** The k-th sample of the block at an address: the k-th half byte of its data, low half first,
      as a signed number, times a power of two given by the low half of the header; and what the
      filter in the header makes of the two samples before. */
  ghost predicate IsSample(ram: seq<Byte>, at: nat, k: nat, v: int, x1: int, x2: int)
    requires at + 16 <= |ram| && k < 28
  {
    var data: int, header: int := ram[at + 2 + k / 2], ram[at];
    var half := if k % 2 == 0 then data % 16 else data / 16;
    var n := if half < 8 then half else half - 16;
    var shift := if header % 16 <= 12 then 12 - header % 16 else 0;
    var filter := if header / 16 % 8 < 4 then header / 16 % 8 else 4;
    exists sum :: Weighted(sum, filter, x1, x2) && Rounded(v, n * Pow2(shift), sum)
  }

  /** All samples of a block, each after the two before it, and the last two left for the next. */
  ghost predicate IsDecoded(ram: seq<Byte>, at: nat, h: History, p1: int, p2: int)
    requires at + 16 <= |ram|
  {
    && |h.out| == 28 && h.p1 == h.out[27] && h.p2 == h.out[26]
    && (forall k: nat {:trigger Earlier(h.out, p1, p2, k)} |
          k < 28 :: IsSample(ram, at, k, h.out[k], Earlier(h.out, p1, p2, k), BeforeThat(h.out, p1, p2, k)))
  }

  function Earlier(out: seq<int>, p1: int, p2: int, k: nat): int
    requires k <= |out|
  {
    if k == 0 then p1 else out[k - 1]
  }

  function BeforeThat(out: seq<int>, p1: int, p2: int, k: nat): int
    requires k <= |out|
  {
    if k == 0 then p2 else if k == 1 then p1 else out[k - 2]
  }

  lemma SumWeighted(filter: nat, x1: int, x2: int)
    requires filter <= 4
    ensures Weighted(K0Times(filter, x1) + K1Times(filter, x2), filter, x1, x2)
  {
  }

  lemma NextRounded(step: int, sum: int)
    ensures Rounded(Clamped(step + (sum + 32) / 64), step, sum)
  {
    var t := step + (sum + 32) / 64;
    assert AsSample(t);
  }

  lemma NextFits(ram: seq<Byte>, at: nat, k: nat, h: History)
    requires at + 16 <= |ram| && k < 28
    ensures var n := NextSample(h, Nibble(ram[at + 2 + k / 2], k % 2), UpShift(ram[at]), Filter(ram[at]));
            && n.out == h.out + [n.p1] && n.p2 == h.p1
            && IsSample(ram, at, k, n.p1, h.p1, h.p2)
  {
    var n, shift, filter := Nibble(ram[at + 2 + k / 2], k % 2), UpShift(ram[at]), Filter(ram[at]);
    ShlIntIs(n, shift);
    SumWeighted(filter, h.p1, h.p2);
    NextRounded(n * Pow2(shift), K0Times(filter, h.p1) + K1Times(filter, h.p2));
  }

  /** The first n samples fit. */
  lemma {:induction false} SamplesFit(ram: seq<Byte>, at: nat, n: nat, p1: int, p2: int)
    requires at + 16 <= |ram| && n <= 28
    ensures var h := Samples(ram, at, n, p1, p2);
            && h.p1 == Earlier(h.out, p1, p2, n) && h.p2 == BeforeThat(h.out, p1, p2, n)
            && forall k: nat {:trigger Earlier(h.out, p1, p2, k)} |
                 k < n :: IsSample(ram, at, k, h.out[k], Earlier(h.out, p1, p2, k), BeforeThat(h.out, p1, p2, k))
  {
    if n > 0 {
      SamplesFit(ram, at, n - 1, p1, p2);
      var before := Samples(ram, at, n - 1, p1, p2);
      NextFits(ram, at, n - 1, before);
      var h := Samples(ram, at, n, p1, p2);
      forall k: nat {:trigger Earlier(h.out, p1, p2, k)} | k < n
        ensures IsSample(ram, at, k, h.out[k], Earlier(h.out, p1, p2, k), BeforeThat(h.out, p1, p2, k))
      {
        assert Earlier(h.out, p1, p2, k) == Earlier(before.out, p1, p2, k);
      }
    }
  }

  /** What a voice takes up from the memory: the block there, decoded, and where the next one is. */
  lemma LoadedIs(ram: Memory, s: Sound, at: nat)
    requires InMemory(at)
    ensures var t := Loaded(ram, s, at);
            && IsDecoded(ram, at, History(t.block, t.p1, t.p2), s.p1, s.p2)
            && t.at == at + 16 && t.loop == if ram[at + 1] / 4 % 2 == 1 then at else s.loop
  {
    BlockDecoded(ram, at, s.p1, s.p2);
  }

  /** Every sample of a decoded block is what the format says. */
  lemma BlockDecoded(ram: seq<Byte>, at: nat, p1: int, p2: int)
    requires at + 16 <= |ram|
    ensures IsDecoded(ram, at, Samples(ram, at, 28, p1, p2), p1, p2)
  {
    SamplesFit(ram, at, 28, p1, p2);
  }

  // ---------------------------------------------------------------- the way through the memory

  function RamSize(): nat {
    0x8_0000
  }

  type Memory = m: seq<Byte> | |m| == RamSize() witness seq(RamSize(), _ => 0)

  /** What a voice reads and remembers of the sound memory: where the next block is, where the
      loop starts (negative: not seen yet), the decoder's history and the block last decoded. */
  datatype Sound = Sound(at: nat, loop: int, p1: int, p2: int, block: seq<int>)

  predicate InMemory(at: nat) {
    at + 16 <= RamSize()
  }

  predicate StartsLoop(ram: Memory, at: nat)
    requires InMemory(at)
  {
    ram[at + 1] / 4 % 2 == 1
  }

  /** The last block of a loop, after which the voice goes back. */
  predicate EndsLoop(ram: Memory, at: nat)
    requires InMemory(at)
  {
    ram[at + 1] % 4 == 3
  }

  lemma FlagBits(flags: Byte)
    ensures flags % 4 == 3 <==> flags % 2 == 1 && flags / 2 % 2 == 1
    ensures flags % 4 == 1 <==> flags % 2 == 1 && flags / 2 % 2 == 0
  {
  }

  function Loaded(ram: Memory, s: Sound, at: nat): Sound
    requires InMemory(at)
  {
    var h := Samples(ram, at, 28, s.p1, s.p2);
    Sound(at + 16, if StartsLoop(ram, at) then at else s.loop, h.p1, h.p2, h.out)
  }

  function LoopTarget(s: Sound, repeatReg: Half): nat {
    if s.loop >= 0 then s.loop else 8 * repeatReg
  }

  /** Back to the start of the loop, whose first block is decoded at once. */
  function Looped(ram: Memory, s: Sound, repeatReg: Half): Sound {
    var at := LoopTarget(s, repeatReg);
    var back := Sound(at, s.loop, 0, 0, s.block);
    if InMemory(at) then Loaded(ram, back, at) else back
  }

  function NextBlock(ram: Memory, s: Sound, repeatReg: Half): Sound {
    if !InMemory(s.at) then s
    else if EndsLoop(ram, s.at) then Looped(ram, Loaded(ram, s, s.at), repeatReg)
    else Loaded(ram, s, s.at)
  }

  function Blocks(ram: Memory, s: Sound, repeatReg: Half, n: nat): Sound {
    if n == 0 then s else NextBlock(ram, Blocks(ram, s, repeatReg, n - 1), repeatReg)
  }

  lemma {:induction false} BlocksAfter(ram: Memory, s: Sound, repeatReg: Half, m: nat, n: nat)
    ensures Blocks(ram, Blocks(ram, s, repeatReg, m), repeatReg, n) == Blocks(ram, s, repeatReg, m + n)
  {
    if n > 0 {
      BlocksAfter(ram, s, repeatReg, m, n - 1);
    }
  }

  /** n blocks take the voice from s to t. */
  ghost predicate Leads(ram: Memory, s: Sound, repeatReg: Half, n: nat, t: Sound) {
    forall k: nat {:trigger Blocks(ram, s, repeatReg, k)} | k == n :: Blocks(ram, s, repeatReg, k) == t
  }

  lemma LeadsNowhere(ram: Memory, s: Sound, repeatReg: Half)
    ensures Leads(ram, s, repeatReg, 0, s)
  {
  }

  lemma LeadsOne(ram: Memory, s: Sound, repeatReg: Half, t: Sound)
    requires t == NextBlock(ram, s, repeatReg)
    ensures Leads(ram, s, repeatReg, 1, t)
  {
    assert Blocks(ram, s, repeatReg, 0) == s;
  }

  lemma LeadsOn(ram: Memory, s: Sound, repeatReg: Half, m: nat, t: Sound, n: nat, v: Sound)
    requires Leads(ram, s, repeatReg, m, t) && Leads(ram, t, repeatReg, n, v)
    ensures Leads(ram, s, repeatReg, m + n, v)
  {
    assert Blocks(ram, s, repeatReg, m) == t && Blocks(ram, t, repeatReg, n) == v;
    BlocksAfter(ram, s, repeatReg, m, n);
  }

  /** The samples of n blocks in a row, decoded in one go. */
  function Stretch(ram: Memory, at: nat, n: nat, p1: int, p2: int): History
    requires at + 16 * n <= RamSize()
  {
    if n == 0 then History([], p1, p2)
    else
      var before := Stretch(ram, at, n - 1, p1, p2);
      var h := Samples(ram, at + 16 * (n - 1), 28, before.p1, before.p2);
      History(before.out + h.out, h.p1, h.p2)
  }

  /** As long as no block ends a loop, a voice plays the memory block after block: the block it
      holds is the last one of the whole stretch. */
  lemma PlaysStraight(ram: Memory, s: Sound, repeatReg: Half, n: nat)
    requires s.at + 16 * n <= RamSize()
    requires forall k: nat | k < n :: !EndsLoop(ram, s.at + 16 * k)
    ensures var now, all := Blocks(ram, s, repeatReg, n), Stretch(ram, s.at, n, s.p1, s.p2);
            && now.at == s.at + 16 * n && now.p1 == all.p1 && now.p2 == all.p2
            && |all.out| == 28 * n
            && (n > 0 ==> now.block == all.out[28 * (n - 1)..])
  {
    var now, all := PlaysTo(ram, s, repeatReg, n);
    assert Blocks(ram, s, repeatReg, n) == now;
  }

  lemma {:induction false} PlaysTo(ram: Memory, s: Sound, repeatReg: Half, n: nat) returns (now: Sound, all: History)
    requires s.at + 16 * n <= RamSize()
    requires forall k: nat | k < n :: !EndsLoop(ram, s.at + 16 * k)
    ensures Leads(ram, s, repeatReg, n, now) && all == Stretch(ram, s.at, n, s.p1, s.p2)
    ensures now.at == s.at + 16 * n && now.p1 == all.p1 && now.p2 == all.p2
    ensures |all.out| == 28 * n && (n > 0 ==> now.block == all.out[28 * (n - 1)..])
  {
    if n == 0 {
      now, all := s, History([], s.p1, s.p2);
      LeadsNowhere(ram, s, repeatReg);
    } else {
      var last, before := PlaysTo(ram, s, repeatReg, n - 1);
      assert !EndsLoop(ram, s.at + 16 * (n - 1));
      var h;
      now, h := PlaysOne(ram, last, repeatReg, before);
      LeadsOn(ram, s, repeatReg, n - 1, last, 1, now);
      all := History(before.out + h.out, h.p1, h.p2);
      StretchOne(ram, s.at, n, s.p1, s.p2, before, h);
    }
  }

  lemma StretchOne(ram: Memory, at: nat, n: nat, p1: int, p2: int, before: History, h: History)
    requires n > 0 && at + 16 * n <= RamSize() && before == Stretch(ram, at, n - 1, p1, p2)
    requires h == Samples(ram, at + 16 * (n - 1), 28, before.p1, before.p2)
    ensures Stretch(ram, at, n, p1, p2) == History(before.out + h.out, h.p1, h.p2)
  {
  }

  lemma PlaysOne(ram: Memory, last: Sound, repeatReg: Half, before: History) returns (now: Sound, h: History)
    requires last.at + 16 <= RamSize() && !EndsLoop(ram, last.at)
    ensures h == Samples(ram, last.at, 28, last.p1, last.p2) && |h.out| == 28
    ensures Leads(ram, last, repeatReg, 1, now) && now.at == last.at + 16 && now.p1 == h.p1 && now.p2 == h.p2
    ensures now.block == (before.out + h.out)[|before.out|..]
  {
    h := Samples(ram, last.at, 28, last.p1, last.p2);
    now := NextBlock(ram, last, repeatReg);
    LeadsOne(ram, last, repeatReg, now);
    assert (before.out + h.out)[|before.out|..] == h.out;
  }

  /** Going back forgets all but the start of the loop. */
  lemma LoopForgets(ram: Memory, s: Sound, t: Sound, repeatReg: Half)
    requires s.loop == t.loop && InMemory(LoopTarget(s, repeatReg))
    ensures Looped(ram, s, repeatReg) == Looped(ram, t, repeatReg)
  {
  }

  lemma {:induction false} RoundAndRound(ram: Memory, start: Sound, repeatReg: Half, period: nat, k: nat, n: nat)
    requires Blocks(ram, start, repeatReg, period) == start
    ensures Blocks(ram, start, repeatReg, Times(k, period) + n) == Blocks(ram, start, repeatReg, n)
    decreases k
  {
    if k > 0 {
      RoundAndRound(ram, start, repeatReg, period, k - 1, n);
      BlocksAfter(ram, start, repeatReg, period, Times(k - 1, period) + n);
    }
  }

  function Times(k: nat, n: nat): nat {
    if k == 0 then 0 else n + Times(k - 1, n)
  }

  /** A loop that comes back with the same start repeats exactly, for ever: each time round the
      voice holds the same blocks in the same order. */
  lemma LoopRepeats(ram: Memory, first: Sound, repeatReg: Half, last: Sound, period: nat, k: nat, n: nat)
    requires period > 0 && InMemory(LoopTarget(first, repeatReg))
    requires last == Blocks(ram, Looped(ram, first, repeatReg), repeatReg, period - 1)
    requires InMemory(last.at) && EndsLoop(ram, last.at) && Loaded(ram, last, last.at).loop == first.loop
    ensures var start := Looped(ram, first, repeatReg);
            Blocks(ram, start, repeatReg, Times(k, period) + n) == Blocks(ram, start, repeatReg, n)
  {
    var start := Looped(ram, first, repeatReg);
    Comes(ram, first, repeatReg, start, last);
    assert Blocks(ram, start, repeatReg, period) ==
           NextBlock(ram, Blocks(ram, start, repeatReg, period - 1), repeatReg);
    RoundAndRound(ram, start, repeatReg, period, k, n);
  }

  lemma Comes(ram: Memory, first: Sound, repeatReg: Half, start: Sound, last: Sound)
    requires InMemory(LoopTarget(first, repeatReg)) && start == Looped(ram, first, repeatReg)
    requires InMemory(last.at) && EndsLoop(ram, last.at) && Loaded(ram, last, last.at).loop == first.loop
    ensures NextBlock(ram, last, repeatReg) == start
  {
    LoopForgets(ram, first, Loaded(ram, last, last.at), repeatReg);
  }

  // ---------------------------------------------------------------- a voice

  class Voice {
    var active: bool
    var curAddr: nat
    var counter: nat
    var prev1: int
    var prev2: int
    var envVol: int
    var envPhase: nat
    var blk: seq<int>
    var blkIdx: nat
    var loopStart: int

    /** The pitches since the last key-on, the blocks taken since then, and all that has happened
        to the envelope. */
    ghost var pitches: seq<Half>
    ghost var taken: nat
    ghost var history: seq<EnvEvent>

    ghost function Envelope(): Env
      reads this
    {
      Env(envVol, envPhase, active)
    }

    ghost function Playing(): Sound
      reads this
    {
      Sound(curAddr, loopStart, prev1, prev2, blk)
    }

    /** The envelope is what its history makes of it, and the position in the sound is what the
        pitches add up to. */
    ghost predicate Valid()
      reads this
    {
      && EnvOk(Envelope()) && Outcome(history, Envelope())
      && |blk| == 28 && (forall k | 0 <= k < 28 :: -32768 <= blk[k] <= 32767)
      && loopStart < RamSize()
      && InStep(Sum(pitches), counter, blkIdx, taken)
    }

    constructor ()
      ensures Valid() && history == [] && pitches == []
    {
      StartsInStep();
      active, curAddr, counter, prev1, prev2 := false, 0, 0, 0, 0;
      envVol, envPhase, blk, blkIdx, loopStart := 0, 0, seq(28, _ => 0), 28, -1;
      pitches, taken, history := [], 0, [];
    }

    method KeyOn(startReg: Half)
      requires Valid()
      modifies this
      ensures Valid() && history == old(history) + [EnvEvent.KeyOn] && pitches == [] && taken == 0
      ensures curAddr == 8 * startReg && prev1 == prev2 == 0 && blk == old(blk) && loopStart == -1
    {
      KeyOnOutcome(history, Envelope());
      Rewind(startReg);
      envVol, envPhase, active := 0, 0, true;
      history := history + [EnvEvent.KeyOn];
    }

    /** Back to the start of the sound. */
    method Rewind(startReg: Half)
      modifies this`curAddr, this`counter, this`prev1, this`prev2, this`blkIdx, this`loopStart, this`pitches, this`taken
      ensures pitches == [] && taken == 0 && InStep(Sum(pitches), counter, blkIdx, taken)
      ensures curAddr == 8 * startReg && prev1 == prev2 == 0 && loopStart == -1
    {
      StartsInStep();
      curAddr, counter, prev1, prev2 := startReg * 8, 0, 0, 0;
      blkIdx, loopStart := 28, -1;
      pitches, taken := [], 0;
    }

    method KeyOff()
      requires Valid()
      modifies this`envPhase, this`history
      ensures Valid() && history == old(history) + [EnvEvent.KeyOff]
    {
      KeyOffOutcome(history, Envelope());
      history := history + [EnvEvent.KeyOff];
      if envPhase < 3 {
        envPhase := 3;
      }
    }

    method UpdateAdsr(regs: Adsr)
      requires Valid() && active
      modifies this`envVol, this`envPhase, this`active, this`history
      ensures Valid() && Envelope() == UpdateEnv(old(Envelope()), regs) && history == old(history) + [Tick(regs)]
    {
      UpdateKeeps(Envelope(), regs);
      OutcomeAfter(history, Envelope(), Tick(regs));
      history := history + [Tick(regs)];
      if envPhase >= 4 {
        return;
      }
      if envPhase == 0 {
        envVol := envVol + AtLeastOne(EnvRate(regs.AttackStep(), regs.AttackShift()));
        if envVol >= 0x7FFF {
          envVol, envPhase := 0x7FFF, 1;
        }
      } else if envPhase == 1 {
        envVol := envVol - Fraction(envVol, regs.DecayShift());
        if envVol <= regs.SustainLevel() {
          envVol, envPhase := regs.SustainLevel(), 2;
        }
      } else if envPhase == 2 {
        envVol := regs.SustainLevel();
      } else {
        envVol := envVol - Fraction(envVol, regs.ReleaseShift());
        if envVol <= 0 {
          envVol, envPhase, active := 0, 4, false;
        }
      }
    }

    /** Adds the pitch to the counter; whole samples move the position in the block. */
    method AdvancePitch(pitch: Half)
      requires Valid()
      modifies this`counter, this`blkIdx, this`pitches
      ensures Valid() && pitches == old(pitches) + [pitch]
    {
      SumSnoc(pitches, pitch);
      StaysInStep(Sum(pitches), counter, blkIdx, taken, pitch);
      var whole := Whole(counter + pitch);
      counter := Part(counter + pitch);
      blkIdx := blkIdx + whole;
      pitches := pitches + [pitch];
    }

    method Load(ram: Memory, at: nat)
      requires Valid() && InMemory(at)
      modifies this`blk, this`prev1, this`prev2, this`curAddr, this`loopStart
      ensures Valid() && Playing() == Loaded(ram, old(Playing()), at)
    {
      if ram[at + 1] / 4 % 2 == 1 {
        loopStart := at;
      }
      var h := DecodeBlock(ram, at, prev1, prev2);
      blk, prev1, prev2 := h.out, h.p1, h.p2;
      curAddr := at + 16;
    }

    /** The next block, with its loop flags. */
    method TakeBlock(ram: Memory, repeatReg: Half)
      requires Valid() && active && blkIdx >= 28
      modifies this
      ensures Valid() && pitches == old(pitches) && blkIdx == old(blkIdx) - 28 && taken == old(taken) + 1
      ensures Leads(ram, old(Playing()), repeatReg, 1, Playing())
      ensures history == old(history) + (if old(curAddr) + 16 > 0x8_0000 then [OutOfMemory]
                                         else if ram[old(curAddr) + 1] % 4 == 1 then [OneShotEnd] else [])
    {
      BlockOutcomes(history, Envelope());
      BlockInStep(Sum(pitches), counter, blkIdx, taken);
      blkIdx := blkIdx - 28;
      taken := taken + 1;
      if curAddr + 16 > RamSize() {
        active := false;
        history := history + [OutOfMemory];
        LeadsOne(ram, old(Playing()), repeatReg, Playing());
        return;
      }
      var flags := ram[curAddr + 1];
      FlagBits(flags);
      Load(ram, curAddr);
      if flags % 2 == 1 {
        if flags / 2 % 2 == 1 {
          Repeat(ram, repeatReg);
        } else {
          envPhase := 3;
          history := history + [OneShotEnd];
        }
      }
      LeadsOne(ram, old(Playing()), repeatReg, Playing());
    }

    /** Back to the start of the loop, whose first block is decoded at once. */
    method Repeat(ram: Memory, repeatReg: Half)
      requires Valid()
      modifies this`blk, this`prev1, this`prev2, this`curAddr, this`loopStart
      ensures Valid() && Playing() == Looped(ram, old(Playing()), repeatReg)
    {
      var rep := if loopStart >= 0 then loopStart else repeatReg * 8;
      curAddr, prev1, prev2 := rep, 0, 0;
      if rep + 16 <= RamSize() {
        Load(ram, rep);
      }
    }

    /** Takes blocks until the position lies inside one, or the memory ends. */
    method TakeBlocks(ram: Memory, repeatReg: Half)
      requires Valid() && active
      modifies this
      ensures Valid() && pitches == old(pitches) && taken >= old(taken) && (active ==> blkIdx < 28)
      ensures Leads(ram, old(Playing()), repeatReg, taken - old(taken), Playing())
      ensures Ticked(old(history), history, 0)
    {
      LeadsNowhere(ram, Playing(), repeatReg);
      TickedNot(history);
      while blkIdx >= 28 && active
        invariant Valid() && pitches == old(pitches) && taken >= old(taken)
        invariant Leads(ram, old(Playing()), repeatReg, taken - old(taken), Playing())
        invariant Ticked(old(history), history, 0)
        decreases blkIdx
      {
        ghost var t, n := Playing(), taken - old(taken);
        TickedOn(old(history), history, 0, OutOfMemory);
        TickedOn(old(history), history, 0, OneShotEnd);
        assert history + [] == history;
        TakeBlock(ram, repeatReg);
        LeadsOn(ram, old(Playing()), repeatReg, n, t, 1, Playing());
      }
    }

    lemma NonNegative(a: int, b: int)
      requires a >= 0 && b >= 0
      ensures a * b >= 0
    {
    }

    lemma SampleFits(x: int, vol: int)
      requires -32768 <= x <= 32767 && 0 <= vol <= 0x7FFF
      ensures -32768 <= x * vol / 0x8000 <= 32767
    {
      NonNegative(x + 32768, vol);
      NonNegative(32767 - x, vol);
      var p := x * vol;
      assert (x + 32768) * vol == p + 32768 * vol && (32767 - x) * vol == 32767 * vol - p;
    }

    /** The sample at a position in the block, scaled down by the envelope. */
    ghost function Shaped(playing: Sound, idx: nat, vol: nat): int
      requires idx < |playing.block|
    {
      playing.block[idx] * vol / 0x8000
    }

    /** The envelope moves on, and shapes the sample at the position in the block. */
    method Shape(regs: Adsr) returns (s: int)
      requires Valid() && active && blkIdx < 28
      modifies this`envVol, this`envPhase, this`active, this`history
      ensures Valid() && history == old(history) + [Tick(regs)] && -32768 <= s <= 32767
      ensures s == if active then Shaped(Playing(), blkIdx, envVol) else 0
    {
      s := 0;
      UpdateAdsr(regs);
      if !active {
        return;
      }
      var idx := if blkIdx < 28 then blkIdx else 27;
      SampleFits(blk[idx], envVol);
      s := blk[idx] * envVol / 0x8000;
    }

    /** One output tick of the voice: pitch, blocks, envelope, sample. The sample is one of the
        block that the pitches since the key-on lead to (Valid), taken from the memory as it is. */
    method Mix(pitch: Half, regs: Adsr, repeatReg: Half, ram: Memory) returns (s: int)
      requires Valid()
      modifies this
      ensures Valid() && -32768 <= s <= 32767
      ensures pitches == if old(active) then old(pitches) + [pitch] else old(pitches)
      ensures taken >= old(taken) && Leads(ram, old(Playing()), repeatReg, taken - old(taken), Playing())
      ensures active ==> blkIdx < 28 && s == Shaped(Playing(), blkIdx, envVol)
      ensures !active ==> s == 0
      ensures exists ticks | 0 <= ticks <= 1 :: Ticked(old(history), history, ticks)
      ensures active ==> Ticked(old(history), history, 1) && history[|history| - 1] == Tick(regs)
    {
      s := 0;
      LeadsNowhere(ram, Playing(), repeatReg);
      TickedNot(history);
      if !active {
        return;
      }
      AdvancePitch(pitch);
      TakeBlocks(ram, repeatReg);
      if !active {
        return;
      }
      TickedOn(old(history), history, 0, Tick(regs));
      s := Shape(regs);
    }
  }
}
