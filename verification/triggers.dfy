/** Triggers of the input script: hidden countdowns that amount to a property of the history of
    a condition. */
module Triggers {
  import opened Bits

  datatype Kind = Mem8 | Mem16

  datatype Act = Press(button: bv16) | Log(text: string) | Screenshot(path: string) | TurboOn | TurboOff

  /** What was configured, and the running state. */
  datatype Trigger = Trigger(cond: Kind, offset: nat, value: int, delay: int, once: bool, act: Act,
                             wasTrue: bool, countdown: int, pressFrames: int, spent: bool)

  predicate Fresh(t: Trigger) {
    !t.wasTrue && t.countdown == -1 && t.pressFrames == 0 && !t.spent
  }

  // ---------------------------------------------------------------- one frame

  /** Every byte that the condition reads lies in memory. */
  predicate InRange(t: Trigger, ram: seq<Byte>) {
    t.offset < |ram| && (t.cond.Mem16? ==> t.offset + 1 < |ram|)
  }

  /** The condition on memory: the low bits of the value are compared. */
  predicate Holds(t: Trigger, ram: seq<Byte>)
    requires InRange(t, ram)
  {
    match t.cond
    case Mem16 =>
      var low: int, high: int := ram[t.offset], ram[t.offset + 1];
      low + 256 * high == t.value % 0x1_0000
    case Mem8 => ram[t.offset] == t.value % 0x100
  }

  /** A condition on a halfword holds if and only if the number v that lies in memory, low byte
      first, is the value cut to 16 bits; one on a byte, if the byte is the value cut to 8. */
  lemma HoldsExactly(t: Trigger, ram: seq<Byte>, v: nat)
    requires InRange(t, ram) && v < 0x1_0000
    requires ram[t.offset] == v % 0x100 && (t.cond.Mem16? ==> ram[t.offset + 1] == v / 0x100)
    ensures t.cond.Mem16? ==> (Holds(t, ram) <==> (v - t.value) % 0x1_0000 == 0)
    ensures t.cond.Mem8? ==> (Holds(t, ram) <==> (v - t.value) % 0x100 == 0)
  {
    if t.cond.Mem16? {
      SameCut(v, v, t.value, 0x1_0000);
    } else {
      SameCut(v % 0x100, v, t.value, 0x100);
    }
  }

  lemma SameCut(low: nat, v: nat, value: int, unit: nat)
    requires (unit == 0x100 || unit == 0x1_0000) && low == v % unit
    ensures low == value % unit <==> (v - value) % unit == 0
  {
  }

  /** The countdown once the edges of this frame have been taken into account. */
  function Armed(t: Trigger, now: bool): int {
    var armed := if now && !t.wasTrue then t.delay else t.countdown;
    if !now && armed >= 0 then -1 else armed
  }

  /** Whether a trigger fires in a frame in which its condition is as given. */
  predicate Fires(t: Trigger, now: bool) {
    !t.spent && Armed(t, now) == 0
  }

  function Advance(t: Trigger, now: bool): Trigger {
    if t.spent then t
    else
      var armed := Armed(t, now);
      var seen := t.(wasTrue := now);
      if armed > 0 then seen.(countdown := armed - 1)
      else if armed != 0 then seen.(countdown := armed)
      else
        seen.(countdown := -1, spent := t.once, pressFrames := if t.act.Press? then 2 else t.pressFrames)
  }

  /** The end of a frame: a press lasts until its count runs out. */
  function Release(t: Trigger): Trigger {
    if t.pressFrames > 0 then t.(pressFrames := t.pressFrames - 1) else t
  }

  // ---------------------------------------------------------------- the history of one trigger

  /** The trigger after the frames of a history. */
  function After(t: Trigger, history: seq<bool>): Trigger {
    if history == [] then t
    else Release(Advance(After(t, history[..|history| - 1]), history[|history| - 1]))
  }

  predicate FiresAt(t: Trigger, history: seq<bool>, f: nat)
    requires f < |history|
  {
    Fires(After(t, history[..f]), history[f])
  }

  /** How many frames up to the last the condition has held without a break. */
  function Streak(history: seq<bool>): (n: nat)
    ensures n <= |history|
  {
    if history == [] || !history[|history| - 1] then 0 else Streak(history[..|history| - 1]) + 1
  }

  /** The streak of the first f + 1 frames is d + 1: the condition held from frame f - d to
      frame f, and not in the frame before, if there was one. */
  predicate HeldFor(history: seq<bool>, f: nat, d: int)
    requires f < |history|
  {
    && 0 <= d <= f
    && (forall k | f - d <= k <= f :: history[k])
    && (f > d ==> !history[f - d - 1])
  }

  lemma {:induction false} StreakIs(history: seq<bool>, n: nat)
    requires n <= |history|
    ensures Streak(history) == n <==>
              && (forall k | |history| - n <= k < |history| :: history[k])
              && (n < |history| ==> !history[|history| - n - 1])
  {
    if history != [] {
      var front := history[..|history| - 1];
      if n > 0 {
        StreakIs(front, n - 1);
        if history[|history| - 1] {
          assert forall k | |front| - (n - 1) <= k < |front| :: front[k] == history[k];
        }
      }
    }
  }

  lemma HeldForIs(history: seq<bool>, f: nat, d: int)
    requires f < |history| && d >= 0
    ensures HeldFor(history, f, d) <==> Streak(history[..f + 1]) == d + 1
  {
    var h := history[..f + 1];
    if d <= f {
      StreakIs(h, d + 1);
      forall k | 0 <= k <= f ensures h[k] == history[k] {
      }
      if HeldFor(history, f, d) {
        assert forall k | |h| - (d + 1) <= k < |h| :: h[k];
      }
      if Streak(h) == d + 1 {
        assert forall k | f - d <= k <= f :: history[k] == h[k];
      }
    }
  }

  /** What the hidden state is, in terms of the history: while not spent, the countdown is the
      part of the delay that the streak has not yet used up. */
  lemma {:induction false} StateIs(t: Trigger, history: seq<bool>)
    requires Fresh(t) && t.delay >= 0
    ensures var s := After(t, history);
            && s.delay == t.delay && s.once == t.once && s.act == t.act
            && (!s.spent ==>
                 && s.wasTrue == (Streak(history) > 0)
                 && s.countdown == if 1 <= Streak(history) <= t.delay then t.delay - Streak(history) else -1)
    decreases |history|
  {
    if history != [] {
      StateIs(t, history[..|history| - 1]);
    }
  }

  lemma {:induction false} SpentOnly(t: Trigger, history: seq<bool>)
    requires Fresh(t)
    ensures After(t, history).once == t.once && After(t, history).delay == t.delay
    ensures After(t, history).spent <==> t.once && exists g: nat :: g < |history| && FiresAt(t, history, g)
    decreases |history|
  {
    if history != [] {
      var n := |history| - 1;
      var front := history[..n];
      SpentOnly(t, front);
      forall g: nat | g < n ensures FiresAt(t, history, g) == FiresAt(t, front, g) {
        assert history[..g] == front[..g];
      }
      if t.once && After(t, front).spent {
        var g: nat :| g < n && FiresAt(t, front, g);
        assert FiresAt(t, history, g);
      }
      if Fires(After(t, front), history[n]) {
        assert FiresAt(t, history, n);
      }
    }
  }

  /** A trigger that may fire again does so exactly when its condition has held for the delay. */
  lemma FiresWhenHeld(t: Trigger, history: seq<bool>, f: nat)
    requires Fresh(t) && t.delay >= 0 && !t.once && f < |history|
    ensures FiresAt(t, history, f) <==> HeldFor(history, f, t.delay)
  {
    var h := history[..f];
    StateIs(t, h);
    SpentOnly(t, h);
    HeldForIs(history, f, t.delay);
    assert history[..f + 1][..f] == h;
  }

  /** A trigger that fires once does so at the first such frame, and never again. */
  lemma {:induction false} FiresOnce(t: Trigger, history: seq<bool>, f: nat)
    requires Fresh(t) && t.delay >= 0 && t.once && f < |history|
    ensures FiresAt(t, history, f) <==>
              HeldFor(history, f, t.delay) && forall g: nat | g < f :: !HeldFor(history, g, t.delay)
    decreases f
  {
    var h := history[..f];
    StateIs(t, h);
    SpentOnly(t, h);
    HeldForIs(history, f, t.delay);
    assert history[..f + 1][..f] == h;
    forall g: nat | g < f ensures FiresAt(t, h, g) == FiresAt(t, history, g) {
      assert h[..g] == history[..g];
    }
    forall g: nat | g < f
      ensures FiresAt(t, history, g) <==>
              HeldFor(history, g, t.delay) && forall k: nat | k < g :: !HeldFor(history, k, t.delay)
    {
      FiresOnce(t, history, g);
    }
    if exists g: nat :: g < f && HeldFor(history, g, t.delay) {
      var g: nat :| g < f && HeldFor(history, g, t.delay);
      FirstHeld(t, history, g);
    }
  }

  /** There is a first frame at which the condition has held for the delay. */
  lemma {:induction false} FirstHeld(t: Trigger, history: seq<bool>, g: nat)
    requires g < |history| && HeldFor(history, g, t.delay)
    ensures exists k: nat ::
              k <= g && HeldFor(history, k, t.delay) && forall j: nat | j < k :: !HeldFor(history, j, t.delay)
    decreases g
  {
    if exists j: nat :: j < g && HeldFor(history, j, t.delay) {
      var j: nat :| j < g && HeldFor(history, j, t.delay);
      FirstHeld(t, history, j);
    }
  }

  /** With a negative delay a trigger never fires. */
  lemma {:induction false} NegativeNeverFires(t: Trigger, history: seq<bool>, f: nat)
    requires Fresh(t) && t.delay < 0 && f < |history|
    ensures !FiresAt(t, history, f)
  {
    NegativeState(t, history[..f]);
  }

  lemma {:induction false} NegativeState(t: Trigger, history: seq<bool>)
    requires Fresh(t) && t.delay < 0
    ensures var s := After(t, history); s.countdown < 0 && s.delay == t.delay
    decreases |history|
  {
    if history != [] {
      NegativeState(t, history[..|history| - 1]);
    }
  }

  // ---------------------------------------------------------------- all triggers

  /** An action taken, by the index of its trigger. */
  datatype Fired = Fired(index: nat, act: Act)

  function AfterFrame(triggers: seq<Trigger>, now: seq<bool>): seq<Trigger>
    requires |triggers| == |now|
  {
    seq(|triggers|, i requires 0 <= i < |triggers| => Release(Advance(triggers[i], now[i])))
  }

  /** The actions of a frame, in the order of the triggers. */
  function FiredBy(triggers: seq<Trigger>, now: seq<bool>, n: nat): seq<Fired>
    requires n <= |triggers| == |now|
  {
    if n == 0 then []
    else
      FiredBy(triggers, now, n - 1) +
      if Fires(triggers[n - 1], now[n - 1]) then [Fired(n - 1, triggers[n - 1].act)] else []
  }

  /** The pad mask after the presses of a frame, */
  function Pressed(triggers: seq<Trigger>, now: seq<bool>, mask: bv16, n: nat): bv16
    requires n <= |triggers| == |now|
  {
    if n == 0 then mask
    else
      var t := triggers[n - 1];
      var m := Pressed(triggers, now, mask, n - 1);
      if Fires(t, now[n - 1]) && t.act.Press? then m | t.act.button else m
  }

  /** and after those presses have been let go whose time is up. */
  function LetGo(triggers: seq<Trigger>, mask: bv16, n: nat): bv16
    requires n <= |triggers|
  {
    if n == 0 then mask
    else
      var t := triggers[n - 1];
      var m := LetGo(triggers, mask, n - 1);
      if t.pressFrames == 1 && t.act.Press? then m & !t.act.button else m
  }

  function Advanced(triggers: seq<Trigger>, now: seq<bool>): seq<Trigger>
    requires |triggers| == |now|
  {
    seq(|triggers|, i requires 0 <= i < |triggers| => Advance(triggers[i], now[i]))
  }

  /** The triggers when the first n have been evaluated. */
  function AdvancedTo(triggers: seq<Trigger>, now: seq<bool>, n: nat): seq<Trigger>
    requires n <= |triggers| == |now|
  {
    seq(|triggers|, i requires 0 <= i < |triggers| => if i < n then Advance(triggers[i], now[i]) else triggers[i])
  }

  lemma OneAdvanced(triggers: seq<Trigger>, now: seq<bool>, n: nat)
    requires n < |triggers| == |now|
    ensures AdvancedTo(triggers, now, n)[n := Advance(triggers[n], now[n])] == AdvancedTo(triggers, now, n + 1)
  {
  }

  function Conditions(triggers: seq<Trigger>, ram: seq<Byte>): seq<bool>
    requires forall i | 0 <= i < |triggers| :: InRange(triggers[i], ram)
  {
    seq(|triggers|, i requires 0 <= i < |triggers| => Holds(triggers[i], ram))
  }

  class InputScript {
    var triggers: seq<Trigger>
    var padMask: bv16
    var log: seq<Fired>

    constructor (triggers: seq<Trigger>)
      ensures this.triggers == triggers && log == [] && padMask == 0
    {
      this.triggers := triggers;
      padMask, log := 0, [];
    }

    /** One trigger in one frame. */
    method EvalOne(i: nat, now: bool)
      requires i < |triggers|
      modifies this
      ensures triggers == old(triggers)[i := Advance(old(triggers)[i], now)]
      ensures log == old(log) + if Fires(old(triggers)[i], now) then [Fired(i, old(triggers)[i].act)] else []
      ensures var t := old(triggers)[i];
              padMask == if Fires(t, now) && t.act.Press? then old(padMask) | t.act.button else old(padMask)
    {
      var t := triggers[i];
      ghost var after, fires := Advance(t, now), Fires(t, now);
      if t.spent {
        assert triggers == triggers[i := after];
        return;
      }
      if now && !t.wasTrue {
        t := t.(countdown := t.delay);
      }
      if !now && t.countdown >= 0 {
        t := t.(countdown := -1);
      }
      t := t.(wasTrue := now);
      assert fires == (t.countdown == 0);
      if t.countdown > 0 {
        t := t.(countdown := t.countdown - 1);
      } else if t.countdown == 0 {
        t := t.(countdown := -1);
        log := log + [Fired(i, t.act)];
        if t.act.Press? {
          padMask := padMask | t.act.button;
          t := t.(pressFrames := 2);
        }
        if t.once {
          t := t.(spent := true);
        }
      }
      assert t == after;
      triggers := triggers[i := t];
    }

    method ReleaseOne(i: nat)
      requires i < |triggers|
      modifies this`triggers, this`padMask
      ensures triggers == old(triggers)[i := Release(old(triggers)[i])]
      ensures var t := old(triggers)[i];
              padMask == if t.pressFrames == 1 && t.act.Press? then old(padMask) & !t.act.button else old(padMask)
    {
      var t := triggers[i];
      if t.pressFrames > 0 {
        t := t.(pressFrames := t.pressFrames - 1);
        if t.pressFrames == 0 && t.act.Press? {
          padMask := padMask & !t.act.button;
        }
        triggers := triggers[i := t];
      }
    }

    method EvalAll(ghost now: seq<bool>, ram: seq<Byte>)
      requires forall i | 0 <= i < |triggers| :: InRange(triggers[i], ram)
      requires now == Conditions(triggers, ram)
      modifies this
      ensures triggers == Advanced(old(triggers), now)
      ensures log == old(log) + FiredBy(old(triggers), now, |old(triggers)|)
      ensures padMask == Pressed(old(triggers), now, old(padMask), |old(triggers)|)
    {
      ghost var before := triggers;
      assert triggers == AdvancedTo(before, now, 0);
      for i := 0 to |triggers|
        invariant |triggers| == |before| && triggers == AdvancedTo(before, now, i)
        invariant log == old(log) + FiredBy(before, now, i)
        invariant padMask == Pressed(before, now, old(padMask), i)
      {
        EvalOne(i, Holds(triggers[i], ram));
        OneAdvanced(before, now, i);
      }
    }

    method ReleaseAll()
      modifies this`triggers, this`padMask
      ensures |triggers| == |old(triggers)|
      ensures forall i | 0 <= i < |triggers| :: triggers[i] == Release(old(triggers)[i])
      ensures padMask == LetGo(old(triggers), old(padMask), |old(triggers)|)
    {
      ghost var before := triggers;
      for i := 0 to |triggers|
        invariant |triggers| == |before|
        invariant forall k | 0 <= k < |before| :: triggers[k] == if k < i then Release(before[k]) else before[k]
        invariant padMask == LetGo(before, old(padMask), i)
      {
        ReleaseOne(i);
      }
    }

    /** A frame: every trigger is evaluated, then the presses are counted down. */
    method Evaluate(ram: seq<Byte>)
      requires forall i | 0 <= i < |triggers| :: InRange(triggers[i], ram)
      modifies this
      ensures var now := Conditions(old(triggers), ram);
              var n := |old(triggers)|;
              && triggers == AfterFrame(old(triggers), now)
              && log == old(log) + FiredBy(old(triggers), now, n)
              && padMask == LetGo(Advanced(old(triggers), now), Pressed(old(triggers), now, old(padMask), n), n)
    {
      EvalAll(Conditions(triggers, ram), ram);
      ReleaseAll();
    }
  }
}
