/** The emitted program does what the delay-slot machine does. */
module Translation {
  import opened Options
  import opened Mips
  import opened ControlFlow
  import opened CodeGenerator
  import opened Layout
  import opened Text
  import opened Machines
  import opened R3000
  import opened Instructions

  // ---------------------------------------------------------------- what a caller must check

  /** The C statement for word w has the effect the R3000A gives w, and keeps $zero zero. */
  ghost predicate Agrees<M(!new)>(h: Host<M>, w: Word) {
    forall cpu: Cpu<M> | cpu.gpr[0] == 0 :: h.c(w, cpu) == h.mips(w, cpu) && h.mips(w, cpu).gpr[0] == 0
  }

  /** w leaves register r alone. */
  ghost predicate Keeps<M(!new)>(h: Host<M>, w: Word, r: Reg) {
    forall cpu: Cpu<M> | cpu.gpr[0] == 0 :: h.mips(w, cpu).gpr[r] == cpu.gpr[r]
  }

  /** w neither reads nor writes register r. */
  ghost predicate Ignores<M(!new)>(h: Host<M>, w: Word, r: Reg) {
    forall cpu: Cpu<M>, v | cpu.gpr[0] == 0 :: h.mips(w, Set(cpu, r, v)) == Set(h.mips(w, cpu), r, v)
  }

  /** The slot of control-flow word w is translated rightly and does not disturb the transfer. */
  ghost predicate SlotSafe<M(!new)>(h: Host<M>, w: Word, slot: Word) {
    Agrees(h, slot) &&
    match Analyze(0, w).kind
    case JumpRegister => Keeps(h, slot, Rs(w))
    case JumpLink => Ignores(h, slot, RA)
    case JumpLinkReg => Rd(w) != 0 && Rd(w) != Rs(w) && Ignores(h, slot, Rd(w)) && Keeps(h, slot, Rs(w))
    case _ => true
  }

  /** The demands on one word of the function. */
  ghost predicate SafeAt<M(!new)>(u: Unit, h: Host<M>, a: Word)
    requires Placed(u.exe, u.f) && Within(u.f, a)
  {
    var w := WordOf(u, a);
    if !IsControlFlow(w) then Agrees(h, w)
    else a + 4 < 0x1_0000_0000 && u.exe.Readable(a + 4) && SlotSafe(h, w, u.exe.WordAt(a + 4))
  }

  /** Callees return with $zero zero. */
  ghost predicate ZeroKept<M(!new)>(h: Host<M>) {
    forall trace :: h.reply(trace).gpr[0] == 0
  }

  ghost predicate Supported<M(!new)>(u: Unit, h: Host<M>) {
    && Regular(u)
    && (forall a: Word {:trigger SafeAt(u, h, a)} | Within(u.f, a) :: SafeAt(u, h, a))
    && ZeroKept(h)
  }

  /** The end of the emitted text: nothing, or a call of the function that begins there. */
  predicate TailFits(u: Unit, tail: seq<Stmt>) {
    tail == [] || tail == [CallFn(u.f.end)]
  }

  // ---------------------------------------------------------------- labels

  predicate Labelled(u: Unit, l: Word) {
    Within(u.f, l) && HasLabel(u, l)
  }

  lemma OwnTextHasNoLabel(u: Unit, a: Word, l: Word)
    requires Placed(u.exe, u.f) && Within(u.f, a)
    ensures forall i | 0 <= i < |OwnText(u, a)| :: OwnText(u, a)[i] != Label(l)
  {
  }

  lemma TextFollows(u: Unit, a: Word, l: Word)
    requires Placed(u.exe, u.f) && LabelOk(u, l) && Within(u.f, a) && Labelled(u, l) && a < l
    ensures NextText(u, a) <= l
  {
  }

  /** A goto finds the text of the address its label names. */
  lemma {:induction false} SeekText(u: Unit, tail: seq<Stmt>, a: Word, l: Word)
    requires Regular(u) && Within(u.f, a) && Labelled(u, l) && a <= l
    ensures Seek(TextAt(u, tail, a), l) == Some(TextAt(u, tail, l))
    decreases l - a
  {
    if a < l {
      assert l in u.extra ==> LabelOk(u, l);
      TextFollows(u, a, l);
      OwnTextHasNoLabel(u, a, l);
      SeekSkips(OwnText(u, a), TextAt(u, tail, NextText(u, a)), l);
      SeekSkips(LabelAt(u, a), InstrText(u, tail, a), l);
      SeekText(u, tail, NextText(u, a), l);
    } else {
      assert TextAt(u, tail, a)[0] == Label(l);
    }
  }

  // ---------------------------------------------------------------- the matching relation

  /** Between two instructions of the R3000A and two statements of the program. */
  ghost predicate Match<M>(u: Unit, h: Host<M>, tail: seq<Stmt>, s: Machine<M>, t: Program<M>)
    requires Placed(u.exe, u.f)
  {
    match s
    case Done(trace, exit) => t == Finished(Seen(u, h, tail != [], trace, exit))
    case Stuck(_) => false
    case Running(pc, pending, cpu, trace) =>
      && pending == NoJump && Within(u.f, pc) && !SkipsSlot(u, pc - 4)
      && cpu.gpr[0] == 0
      && t.At? && t.code == TextAt(u, tail, pc) && t.cpu == cpu && t.trace == trace
  }

  // ---------------------------------------------------------------- arriving

  /** A goto, or a call followed by return, goes where the transfer of the R3000A goes. */
  lemma TakeNear<M>(u: Unit, h: Host<M>, tail: seq<Stmt>, t: Word, saved: map<Word, bool>, cpu: Cpu<M>,
                    trace: seq<Event<M>>)
    requires Regular(u) && t % 4 == 0 && cpu.gpr[0] == 0
    requires Within(u.f, t) ==> t in u.g.blocks
    ensures Match(u, h, tail, Arrive(u, t, cpu, trace),
                  Take(TextAt(u, tail, u.f.start), h, Near(u, t), saved, cpu, trace))
  {
    if t in u.g.blocks {
      assert Within(u.f, t);
      SeekText(u, tail, u.f.start, t);
    }
  }

  /** The same for a labelled target of a jump table. */
  lemma TakeLabel<M>(u: Unit, h: Host<M>, tail: seq<Stmt>, t: Word, saved: map<Word, bool>, cpu: Cpu<M>,
                     trace: seq<Event<M>>)
    requires Regular(u) && Labelled(u, t) && cpu.gpr[0] == 0
    ensures Match(u, h, tail, Arrive(u, t, cpu, trace),
                  Take(TextAt(u, tail, u.f.start), h, ToBlock(t), saved, cpu, trace))
  {
    SeekText(u, tail, u.f.start, t);
    assert t in u.extra ==> LabelOk(u, t);
  }

  // ---------------------------------------------------------------- running the emitted text

  lemma One<M>(body: seq<Stmt>, h: Host<M>, s: Stmt, rest: seq<Stmt>, saved: map<Word, bool>, cpu: Cpu<M>,
               trace: seq<Event<M>>)
    ensures CRun(body, h, At([s] + rest, saved, cpu, trace), 1) == Do(body, h, s, rest, saved, cpu, trace)
  {
    CStepHead(body, h, s, rest, saved, cpu, trace);
    assert CRun(body, h, At([s] + rest, saved, cpu, trace), 0) == At([s] + rest, saved, cpu, trace);
  }

  /** Two statements of which the first does not jump. */
  lemma Two<M>(body: seq<Stmt>, h: Host<M>, s: Stmt, s': Stmt, rest: seq<Stmt>, saved: map<Word, bool>,
               cpu: Cpu<M>, trace: seq<Event<M>>, mid: Program<M>)
    requires mid == Do(body, h, s, [s'] + rest, saved, cpu, trace) && mid.At? && mid.code == [s'] + rest
    ensures CRun(body, h, At([s, s'] + rest, saved, cpu, trace), 2) ==
            Do(body, h, s', rest, mid.saved, mid.cpu, mid.trace)
  {
    assert [s, s'] + rest == [s] + ([s'] + rest);
    One(body, h, s, [s'] + rest, saved, cpu, trace);
    One(body, h, s', rest, mid.saved, mid.cpu, mid.trace);
    CRunSplit(body, h, At([s, s'] + rest, saved, cpu, trace), 1, 1);
  }

  /** The label of an address is a step of its own, or no step. */
  lemma PastLabel<M>(u: Unit, h: Host<M>, body: seq<Stmt>, a: Word, text: seq<Stmt>, saved: map<Word, bool>,
                     cpu: Cpu<M>, trace: seq<Event<M>>) returns (k: nat)
    ensures CRun(body, h, At(LabelAt(u, a) + text, saved, cpu, trace), k) == At(text, saved, cpu, trace)
  {
    if HasLabel(u, a) {
      k := 1;
      One(body, h, Label(a), text, saved, cpu, trace);
    } else {
      k := 0;
      assert [] + text == text;
    }
  }

  // ---------------------------------------------------------------- one ordinary instruction

  lemma OrdinaryInstr(u: Unit, tail: seq<Stmt>, a: Word)
    requires Placed(u.exe, u.f) && Within(u.f, a) && !FlowAt(u.exe, a)
    ensures Within(u.f, a + 4) || a + 4 == u.f.end
    ensures TextAt(u, tail, a) == LabelAt(u, a) + ([Exec(a, WordOf(u, a))] + TextAt(u, tail, a + 4))
  {
    assert NextText(u, a) == a + 4;
  }

  /** Two runs, one after the other. */
  lemma Then<M>(body: seq<Stmt>, h: Host<M>, t: Program<M>, m: nat, mid: Program<M>, k: nat)
    requires CRun(body, h, t, m) == mid
    ensures CRun(body, h, t, m + k) == CRun(body, h, mid, k)
  {
    CRunSplit(body, h, t, m, k);
  }

  lemma AgreesAt<M(!new)>(h: Host<M>, w: Word, cpu: Cpu<M>)
    requires Agrees(h, w) && cpu.gpr[0] == 0
    ensures h.c(w, cpu) == h.mips(w, cpu) && h.mips(w, cpu).gpr[0] == 0
  {
  }

  lemma ThenExec<M>(body: seq<Stmt>, h: Host<M>, code: seq<Stmt>, j: nat, a: Word, w: Word, rest: seq<Stmt>,
                    saved: map<Word, bool>, cpu: Cpu<M>, trace: seq<Event<M>>)
    requires CRun(body, h, At(code, saved, cpu, trace), j) == At([Exec(a, w)] + rest, saved, cpu, trace)
    ensures CRun(body, h, At(code, saved, cpu, trace), j + 1) == At(rest, saved, h.c(w, cpu), trace)
  {
    One(body, h, Exec(a, w), rest, saved, cpu, trace);
    Then(body, h, At(code, saved, cpu, trace), j, At([Exec(a, w)] + rest, saved, cpu, trace), 1);
  }

  lemma OrdinaryText<M>(u: Unit, h: Host<M>, body: seq<Stmt>, a: Word, w: Word, rest: seq<Stmt>,
                        saved: map<Word, bool>, cpu: Cpu<M>, trace: seq<Event<M>>) returns (k: nat)
    ensures k >= 1
    ensures CRun(body, h, At(LabelAt(u, a) + ([Exec(a, w)] + rest), saved, cpu, trace), k) ==
            At(rest, saved, h.c(w, cpu), trace)
  {
    var j := PastLabel(u, h, body, a, [Exec(a, w)] + rest, saved, cpu, trace);
    ThenExec(body, h, LabelAt(u, a) + ([Exec(a, w)] + rest), j, a, w, rest, saved, cpu, trace);
    k := j + 1;
  }

  /** Running off the end of the text is a return, or a tail call of what follows. */
  lemma OffTheEnd<M>(u: Unit, h: Host<M>, body: seq<Stmt>, tail: seq<Stmt>, saved: map<Word, bool>, cpu: Cpu<M>,
                     trace: seq<Event<M>>)
    requires TailFits(u, tail)
    ensures CRun(body, h, At(tail, saved, cpu, trace), if tail == [] then 1 else 2) ==
            Finished(Seen(u, h, tail != [], trace, RanOff(u.f.end, cpu)))
  {
    if tail == [] {
      assert CRun(body, h, At([], saved, cpu, trace), 0) == At([], saved, cpu, trace);
    } else {
      assert [CallFn(u.f.end)] == [CallFn(u.f.end)] + [];
      One(body, h, CallFn(u.f.end), [], saved, cpu, trace);
      CRunSplit(body, h, At([CallFn(u.f.end)], saved, cpu, trace), 1, 1);
    }
  }

  lemma StepOrdinary<M>(u: Unit, h: Host<M>, a: Word, cpu: Cpu<M>, trace: seq<Event<M>>)
    requires u.exe.Readable(a) && !FlowAt(u.exe, a) && a + 4 < 0x1_0000_0000
    ensures Step(u, h, Running(a, NoJump, cpu, trace)) == Fall(u, a + 4, h.mips(u.exe.WordAt(a), cpu), trace)
  {
    ReadAlike(a, u.exe.WordAt(a));
  }

  lemma OrdinaryArrive<M>(u: Unit, h: Host<M>, tail: seq<Stmt>, body: seq<Stmt>, a: Word, saved: map<Word, bool>,
                          cpu: Cpu<M>, trace: seq<Event<M>>) returns (k: nat)
    requires Placed(u.exe, u.f) && TailFits(u, tail) && cpu.gpr[0] == 0
    requires Within(u.f, a) && !FlowAt(u.exe, a)
    ensures Within(u.f, a + 4) || a + 4 == u.f.end
    ensures Match(u, h, tail, Fall(u, a + 4, cpu, trace),
                  CRun(body, h, At(TextAt(u, tail, a + 4), saved, cpu, trace), k))
  {
    WordsReadable(u.exe, u.f, a);
    if a + 4 < u.f.end {
      k := 0;
    } else {
      k := if tail == [] then 1 else 2;
      OffTheEnd(u, h, body, tail, saved, cpu, trace);
    }
  }

  lemma OrdinaryMoves<M>(u: Unit, h: Host<M>, tail: seq<Stmt>, body: seq<Stmt>, a: Word, w: Word,
                         saved: map<Word, bool>, cpu: Cpu<M>, after: Cpu<M>, trace: seq<Event<M>>) returns (k: nat)
    requires Placed(u.exe, u.f) && Within(u.f, a) && !FlowAt(u.exe, a) && w == WordOf(u, a)
    requires h.c(w, cpu) == after && h.mips(w, cpu) == after
    ensures k >= 1 && (Within(u.f, a + 4) || a + 4 == u.f.end)
    ensures CRun(body, h, At(TextAt(u, tail, a), saved, cpu, trace), k) ==
            At(TextAt(u, tail, a + 4), saved, after, trace)
  {
    WordsReadable(u.exe, u.f, a);
    OrdinaryInstr(u, tail, a);
    k := OrdinaryText(u, h, body, a, w, TextAt(u, tail, a + 4), saved, cpu, trace);
  }

  lemma OrdinaryStep<M>(u: Unit, h: Host<M>, tail: seq<Stmt>, body: seq<Stmt>, a: Word, w: Word,
                        saved: map<Word, bool>, cpu: Cpu<M>, after: Cpu<M>, trace: seq<Event<M>>) returns (k: nat)
    requires Placed(u.exe, u.f) && TailFits(u, tail) && after.gpr[0] == 0
    requires Within(u.f, a) && !FlowAt(u.exe, a) && w == WordOf(u, a)
    requires h.c(w, cpu) == after && h.mips(w, cpu) == after
    ensures k >= 1
    ensures Match(u, h, tail, Fall(u, a + 4, after, trace),
                  CRun(body, h, At(TextAt(u, tail, a), saved, cpu, trace), k))
  {
    var i := OrdinaryMoves(u, h, tail, body, a, w, saved, cpu, after, trace);
    var j := OrdinaryArrive(u, h, tail, body, a, saved, after, trace);
    k := i + j;
    Joined(u, h, tail, body, At(TextAt(u, tail, a), saved, cpu, trace), i,
           At(TextAt(u, tail, a + 4), saved, after, trace), j, Fall(u, a + 4, after, trace));
  }

  lemma Joined<M>(u: Unit, h: Host<M>, tail: seq<Stmt>, body: seq<Stmt>, t: Program<M>, i: nat, mid: Program<M>, j: nat,
                  s: Machine<M>)
    requires Placed(u.exe, u.f) && CRun(body, h, t, i) == mid && Match(u, h, tail, s, CRun(body, h, mid, j))
    ensures Match(u, h, tail, s, CRun(body, h, t, i + j))
  {
    Then(body, h, t, i, mid, j);
  }

  // ---------------------------------------------------------------- what the recompiler intends

  /** The branch tests as the recompiler tells them apart; bit 16 chooses between the two of
      opcode 1. */
  predicate Taken<M>(w: Word, cpu: Cpu<M>) {
    var s, t := cpu.gpr[Rs(w)], cpu.gpr[Rt(w)];
    match Opcode(w)
    case 4 => s == t
    case 5 => s != t
    case 6 => Signed(s) <= 0
    case 7 => Signed(s) > 0
    case _ => if Rt(w) % 2 == 0 then Signed(s) < 0 else Signed(s) >= 0
  }

  /** The pending transfer and the link register, by what the recompiler takes a word for. */
  function Intended<M>(u: Unit, a: Word, w: Word, cpu: Cpu<M>): (Pending, Cpu<M>) {
    IntendedAs(u, Analyze(a, w), a, w, cpu)
  }

  function IntendedAs<M>(u: Unit, cf: FlowInstr, a: Word, w: Word, cpu: Cpu<M>): (Pending, Cpu<M>) {
    match cf.kind
    case Branch => (JumpTo(if Taken(w, cpu) then cf.target else Wrap(a + 8)), cpu)
    case Jump => (JumpTo(cf.target), cpu)
    case Return => (ReturnNow, cpu)
    case JumpRegister =>
      var v := cpu.gpr[Rs(w)];
      (if v in Table(u, a, w) then JumpTo(v) else if u.f.start <= v < u.f.end then StrayTo(v) else TailTo(v), cpu)
    case JumpLink => (Pending.CallTo(cf.target, Wrap(a + 8)), Set(cpu, RA, Wrap(a + 8)))
    case JumpLinkReg =>
      (Pending.CallTo(cpu.gpr[Rs(w)], Wrap(a + 8)), if Rd(w) == 0 then cpu else Set(cpu, Rd(w), Wrap(a + 8)))
    case Sequential => (NoJump, cpu)
  }

  /** And that is what the R3000A does with it. */
  lemma IntendedIs<M>(u: Unit, a: Word, w: Word, cpu: Cpu<M>)
    requires IsControlFlow(w) && PlainFlow(w)
    ensures Decode(w).Flow? && Issue(u, a, Decode(w).control, cpu) == Intended(u, a, w, cpu)
  {
    ReadAlike(a, w);
    FieldsAgree(w);
    IssuesAlike(u, Analyze(a, w), a, w, Decode(w).control, cpu);
  }

  lemma IssuesAlike<M>(u: Unit, cf: FlowInstr, a: Word, w: Word, c: Control, cpu: Cpu<M>)
    requires Read(a, c, cf) && Decode(w) == Flow(c) && PlainFlow(w)
    requires Opcode(w) == w / 0x400_0000 && Rs(w) == First(w) && Rt(w) == Second(w) && Rd(w) == Third(w)
    requires Funct(w) == w % 64
    ensures Issue(u, a, c, cpu) == IntendedAs(u, cf, a, w, cpu)
  {
  }

  // ---------------------------------------------------------------- one transfer of control

  lemma StepFlow<M>(u: Unit, h: Host<M>, a: Word, cpu: Cpu<M>, trace: seq<Event<M>>)
    requires FlowAt(u.exe, a) && PlainFlow(u.exe.WordAt(a)) && a + 4 < 0x1_0000_0000
    ensures var (p, linked) := Intended(u, a, u.exe.WordAt(a), cpu);
            p != NoJump && Step(u, h, Running(a, NoJump, cpu, trace)) == Running(a + 4, p, linked, trace)
  {
    var w := u.exe.WordAt(a);
    IntendedIs(u, a, w, cpu);
    StepIssues(u, h, a, Decode(w).control, cpu, trace, Intended(u, a, w, cpu));
    IntendsJump(u, Analyze(a, w), a, w, cpu);
  }

  lemma StepIssues<M>(u: Unit, h: Host<M>, a: Word, c: Control, cpu: Cpu<M>, trace: seq<Event<M>>,
                      issued: (Pending, Cpu<M>))
    requires u.exe.Readable(a) && Decode(u.exe.WordAt(a)) == Flow(c) && a + 4 < 0x1_0000_0000
    requires issued == Issue(u, a, c, cpu)
    ensures Step(u, h, Running(a, NoJump, cpu, trace)) == Running(a + 4, issued.0, issued.1, trace)
  {
  }

  lemma IntendsJump<M>(u: Unit, cf: FlowInstr, a: Word, w: Word, cpu: Cpu<M>)
    requires cf.kind != Sequential
    ensures IntendedAs(u, cf, a, w, cpu).0 != NoJump
  {
  }

  lemma StepSlot<M>(u: Unit, h: Host<M>, a: Word, p: Pending, cpu: Cpu<M>, trace: seq<Event<M>>)
    requires u.exe.Readable(a) && !FlowAt(u.exe, a) && p != NoJump
    ensures Step(u, h, Running(a, p, cpu, trace)) == Transfer(u, h, p, h.mips(u.exe.WordAt(a), cpu), trace)
  {
    ReadAlike(a, u.exe.WordAt(a));
  }

  lemma RunTwo<M>(u: Unit, h: Host<M>, s: Machine<M>, s1: Machine<M>)
    requires s1 == Step(u, h, s)
    ensures Run(u, h, s, 1) == s1 && Run(u, h, s, 2) == Step(u, h, s1)
  {
    assert Run(u, h, s, 0) == s;
    assert Run(u, h, s, 1) == Step(u, h, Run(u, h, s, 0));
    assert Run(u, h, s, 2) == Step(u, h, Run(u, h, s, 1));
  }

  /** A control-flow word and its slot, on the R3000A. */
  lemma TwoSteps<M>(u: Unit, h: Host<M>, a: Word, cpu: Cpu<M>, trace: seq<Event<M>>)
    requires FlowAt(u.exe, a) && PlainAt(u.exe, a) && PlainSlot(u.exe, a)
    ensures var s := Running(a, NoJump, cpu, trace);
            var (p, linked) := Intended(u, a, u.exe.WordAt(a), cpu);
            && p != NoJump && a + 4 < 0x1_0000_0000 && u.exe.Readable(a + 4)
            && Run(u, h, s, 1) == Running(a + 4, p, linked, trace)
            && Run(u, h, s, 2) == Transfer(u, h, p, h.mips(u.exe.WordAt(a + 4), linked), trace)
  {
    var s := Running(a, NoJump, cpu, trace);
    StepFlow(u, h, a, cpu, trace);
    var (p, linked) := Intended(u, a, u.exe.WordAt(a), cpu);
    StepSlot(u, h, a + 4, p, linked, trace);
    RunTwo(u, h, s, Running(a + 4, p, linked, trace));
  }

  lemma TestIsTaken<M>(w: Word, cpu: Cpu<M>)
    requires PlainFlow(w) && Analyze(0, w).kind == Branch
    ensures Test(w, cpu) == Taken(w, cpu)
  {
  }

  lemma Three<M>(body: seq<Stmt>, h: Host<M>, s: Stmt, s': Stmt, s'': Stmt, rest: seq<Stmt>, saved: map<Word, bool>,
                 cpu: Cpu<M>, trace: seq<Event<M>>, mid: Program<M>, mid': Program<M>)
    requires mid == Do(body, h, s, [s'] + ([s''] + rest), saved, cpu, trace)
    requires mid.At? && mid.code == [s'] + ([s''] + rest)
    requires mid' == Do(body, h, s', [s''] + rest, mid.saved, mid.cpu, mid.trace)
    requires mid'.At? && mid'.code == [s''] + rest
    ensures CRun(body, h, At([s, s', s''] + rest, saved, cpu, trace), 3) ==
            Do(body, h, s'', rest, mid'.saved, mid'.cpu, mid'.trace)
  {
    var t := At([s, s', s''] + rest, saved, cpu, trace);
    assert [s, s', s''] + rest == [s, s'] + ([s''] + rest);
    Two(body, h, s, s', [s''] + rest, saved, cpu, trace, mid);
    One(body, h, s'', rest, mid'.saved, mid'.cpu, mid'.trace);
    Then(body, h, t, 2, mid', 1);
  }

  /** The statements of a branch: the condition is read before the slot runs. */
  lemma RunBranch<M>(body: seq<Stmt>, h: Host<M>, a: Word, w: Word, slot: Word, yes: Dest, no: Dest, rest: seq<Stmt>,
                     saved: map<Word, bool>, cpu: Cpu<M>, trace: seq<Event<M>>)
    ensures CRun(body, h, At([SaveCond(a, w), Exec(a + 4, slot), IfElse(Saved(a), yes, no)] + rest,
                             saved, cpu, trace), 3) ==
            Take(body, h, if Test(w, cpu) then yes else no, saved[a := Test(w, cpu)], h.c(slot, cpu), trace)
    requires a + 4 < 0x1_0000_0000
  {
    var s := Exec(a + 4, slot);
    var s' := IfElse(Saved(a), yes, no);
    Three(body, h, SaveCond(a, w), s, s', rest, saved, cpu, trace,
          At([s] + ([s'] + rest), saved[a := Test(w, cpu)], cpu, trace),
          At([s'] + rest, saved[a := Test(w, cpu)], h.c(slot, cpu), trace));
  }

  /** The slot, then one more statement. */
  lemma RunSlot<M>(body: seq<Stmt>, h: Host<M>, a: Word, slot: Word, s: Stmt, rest: seq<Stmt>,
                   saved: map<Word, bool>, cpu: Cpu<M>, trace: seq<Event<M>>)
    ensures CRun(body, h, At([Exec(a, slot), s] + rest, saved, cpu, trace), 2) ==
            Do(body, h, s, rest, saved, h.c(slot, cpu), trace)
  {
    Two(body, h, Exec(a, slot), s, rest, saved, cpu, trace, At([s] + rest, saved, h.c(slot, cpu), trace));
  }

  /** The statements of a call: the link register is written after the slot, then the call is
      made, then the program goes on. */
  lemma RunCall<M>(body: seq<Stmt>, h: Host<M>, a: Word, slot: Word, r: Reg, link: Word, call: Stmt, t: Word, d: Dest,
                   rest: seq<Stmt>, saved: map<Word, bool>, cpu: Cpu<M>, trace: seq<Event<M>>)
    requires call == CallFn(t) || call == CallAddr(t) ||
             (call.CallReg? && Set(h.c(slot, cpu), r, link).gpr[call.reg] == t)
    ensures var after := trace + [Call(t, Set(h.c(slot, cpu), r, link))];
            CRun(body, h, At([Exec(a, slot), SetReg(r, link), call, Go(d)] + rest, saved, cpu, trace), 4) ==
            Take(body, h, d, saved, h.reply(after), after)
  {
    var linked := Set(h.c(slot, cpu), r, link);
    var after := trace + [Call(t, linked)];
    var first := At([Exec(a, slot), SetReg(r, link), call, Go(d)] + rest, saved, cpu, trace);
    assert first.code == [Exec(a, slot), SetReg(r, link)] + ([call, Go(d)] + rest);
    RunSlot(body, h, a, slot, SetReg(r, link), [call, Go(d)] + rest, saved, cpu, trace);
    Two(body, h, call, Go(d), rest, saved, linked, trace, At([Go(d)] + rest, saved, h.reply(after), after));
    Then(body, h, first, 2, At([call, Go(d)] + rest, saved, linked, trace), 2);
  }

  /** The default path of an indirect jump. */
  function DefaultText(u: Unit, r: Reg): seq<Stmt> {
    [CallReg(r)] + (if u.f.hasPrologue && u.f.frame > 0 then [AddSp(u.f.frame)] else []) + [ReturnStmt]
  }

  /** A call, then the frame off the stack, then return. */
  lemma RunDefault<M>(u: Unit, body: seq<Stmt>, h: Host<M>, r: Reg, rest: seq<Stmt>, saved: map<Word, bool>,
                      cpu: Cpu<M>, trace: seq<Event<M>>) returns (k: nat)
    ensures k >= 2
    ensures CRun(body, h, At(DefaultText(u, r) + rest, saved, cpu, trace), k) ==
            Finished(Dispatched(u, h, trace, cpu.gpr[r], cpu))
  {
    var after := trace + [Call(cpu.gpr[r], cpu)];
    if u.f.hasPrologue && u.f.frame > 0 {
      var n := u.f.frame;
      k := 3;
      assert DefaultText(u, r) == [CallReg(r), AddSp(n), ReturnStmt];
      Three(body, h, CallReg(r), AddSp(n), ReturnStmt, rest, saved, cpu, trace,
            At([AddSp(n)] + ([ReturnStmt] + rest), saved, h.reply(after), after),
            At([ReturnStmt] + rest, saved, Unwound(u, h.reply(after)), after));
    } else {
      k := 2;
      assert DefaultText(u, r) == [CallReg(r), ReturnStmt];
      Two(body, h, CallReg(r), ReturnStmt, rest, saved, cpu, trace,
          At([ReturnStmt] + rest, saved, h.reply(after), after));
    }
  }

  function JumpText(u: Unit, r: Reg, cases: seq<Word>): seq<Stmt> {
    if cases != [] then [Switch(r, cases, DefaultText(u, r))] else DefaultText(u, r)
  }

  /** The statements of an indirect jump. */
  lemma RunIndirect<M>(u: Unit, body: seq<Stmt>, h: Host<M>, a: Word, slot: Word, r: Reg, cases: seq<Word>,
                       rest: seq<Stmt>, saved: map<Word, bool>, cpu: Cpu<M>, after: Cpu<M>, trace: seq<Event<M>>)
    returns (k: nat)
    requires after == h.c(slot, cpu)
    ensures k >= 2
    ensures CRun(body, h, At([Exec(a, slot)] + JumpText(u, r, cases) + rest, saved, cpu, trace), k) ==
            if after.gpr[r] in cases then Take(body, h, ToBlock(after.gpr[r]), saved, after, trace)
            else Finished(Dispatched(u, h, trace, after.gpr[r], after))
  {
    var default := DefaultText(u, r);
    if cases == [] {
      var t := At([Exec(a, slot)] + default + rest, saved, cpu, trace);
      assert t.code == [Exec(a, slot)] + (default + rest);
      One(body, h, Exec(a, slot), default + rest, saved, cpu, trace);
      var j := RunDefault(u, body, h, r, rest, saved, after, trace);
      Then(body, h, t, 1, At(default + rest, saved, after, trace), j);
      k := 1 + j;
    } else {
      var s := Switch(r, cases, default);
      var t := At([Exec(a, slot)] + [s] + rest, saved, cpu, trace);
      assert t.code == [Exec(a, slot), s] + rest;
      RunSlot(body, h, a, slot, s, rest, saved, cpu, trace);
      if after.gpr[r] in cases {
        k := 2;
      } else {
        var j := RunDefault(u, body, h, r, rest, saved, after, trace);
        Then(body, h, t, 2, At(default + rest, saved, after, trace), j);
        k := 2 + j;
      }
    }
  }

  /** A place that control may go to: if it is in the function, a block starts there. */
  ghost predicate Open(u: Unit, t: Word) {
    && t % 4 == 0
    && (Within(u.f, t) ==> t in u.g.blocks)
  }

  lemma FlowOpens(u: Unit, a: Word)
    requires Regular(u) && Within(u.f, a) && FlowAt(u.exe, a)
    ensures a + 8 < 0x1_0000_0000
    ensures var cf := Analyze(a, WordOf(u, a));
            && (cf.kind == Branch || cf.kind == Jump ==> Open(u, cf.target))
            && (cf.kind == Branch || cf.kind == JumpLink || cf.kind == JumpLinkReg ==> Open(u, a + 8))
  {
    WordsReadable(u.exe, u.f, a);
    TargetAligned(a, WordOf(u, a));
    TargetWithin(u, a);
  }

  lemma TargetWithin(u: Unit, a: Word)
    requires Laid(u.exe, u.f, u.g) && Within(u.f, a) && FlowAt(u.exe, a)
    requires a + 8 < 0x1_0000_0000
    ensures var cf := Analyze(a, WordOf(u, a));
            && (cf.kind == Branch || cf.kind == Jump ==> Within(u.f, cf.target) ==> cf.target in u.g.blocks)
            && (Within(u.f, a + 8) ==> a + 8 in u.g.blocks)
  {
    assert FlowMarked(u.exe, u.f, u.g, a);
    var cf := Analyze(a, WordOf(u, a));
    if cf.kind == Branch || cf.kind == Jump {
      TargetNotZero(u.exe, u.f, a, WordOf(u, a));
    }
  }

  /** A transfer to t lands the two machines in matching states. */
  ghost predicate Lands<M>(u: Unit, h: Host<M>, body: seq<Stmt>, tail: seq<Stmt>, d: Dest, t: Word,
                           saved: map<Word, bool>, cpu: Cpu<M>, trace: seq<Event<M>>)
    requires Placed(u.exe, u.f)
  {
    Match(u, h, tail, Arrive(u, t, cpu, trace), Take(body, h, d, saved, cpu, trace))
  }

  /** Every transfer to an open place or to a label lands. */
  ghost predicate AllLand<M(!new)>(u: Unit, h: Host<M>, body: seq<Stmt>, tail: seq<Stmt>)
    requires Placed(u.exe, u.f)
  {
    && (forall t: Word, saved, cpu: Cpu<M>, trace: seq<Event<M>>
          {:trigger Lands(u, h, body, tail, Near(u, t), t, saved, cpu, trace)} |
          Open(u, t) && cpu.gpr[0] == 0 :: Lands(u, h, body, tail, Near(u, t), t, saved, cpu, trace))
    && (forall t: Word, saved, cpu: Cpu<M>, trace: seq<Event<M>>
          {:trigger Lands(u, h, body, tail, ToBlock(t), t, saved, cpu, trace)} |
          Labelled(u, t) && cpu.gpr[0] == 0 :: Lands(u, h, body, tail, ToBlock(t), t, saved, cpu, trace))
  }

  lemma TextLands<M(!new)>(u: Unit, h: Host<M>, tail: seq<Stmt>)
    requires Regular(u)
    ensures AllLand(u, h, TextAt(u, tail, u.f.start), tail)
  {
    var body := TextAt(u, tail, u.f.start);
    forall t: Word, saved, cpu: Cpu<M>, trace: seq<Event<M>> | Open(u, t) && cpu.gpr[0] == 0
      ensures Lands(u, h, body, tail, Near(u, t), t, saved, cpu, trace)
    {
      TakeNear(u, h, tail, t, saved, cpu, trace);
    }
    forall t: Word, saved, cpu: Cpu<M>, trace: seq<Event<M>> | Labelled(u, t) && cpu.gpr[0] == 0
      ensures Lands(u, h, body, tail, ToBlock(t), t, saved, cpu, trace)
    {
      TakeLabel(u, h, tail, t, saved, cpu, trace);
    }
  }

  /** What the text of a control-flow word must do in k steps. */
  ghost predicate Moves<M>(u: Unit, h: Host<M>, body: seq<Stmt>, tail: seq<Stmt>, a: Word, w: Word, slot: Word,
                           text: seq<Stmt>, saved: map<Word, bool>, cpu: Cpu<M>, trace: seq<Event<M>>, k: nat)
    requires Placed(u.exe, u.f)
  {
    var (p, linked) := Intended(u, a, w, cpu);
    && p != NoJump
    && Match(u, h, tail, Transfer(u, h, p, h.mips(slot, linked), trace),
             CRun(body, h, At(text, saved, cpu, trace), k))
  }

  lemma FlowInstrText(u: Unit, tail: seq<Stmt>, a: Word)
    requires Placed(u.exe, u.f) && Within(u.f, a) && FlowAt(u.exe, a) && u.exe.Readable(a + 4)
    ensures TextAt(u, tail, a) ==
            LabelAt(u, a) + (FlowText(u, a, WordOf(u, a), u.exe.WordAt(a + 4)) + TextAt(u, tail, NextText(u, a)))
  {
    WordsReadable(u.exe, u.f, a);
    var own := OwnText(u, a);
    assert own == FlowText(u, a, WordOf(u, a), u.exe.WordAt(a + 4));
  }

  lemma KindAnywhere(a: Word, w: Word)
    ensures Analyze(a, w).kind == Analyze(0, w).kind
  {
  }

  lemma BranchIssue<M>(u: Unit, cf: FlowInstr, a: Word, w: Word, cpu: Cpu<M>, test: bool)
    requires cf.kind == Branch && a + 8 < 0x1_0000_0000 && test == Taken(w, cpu)
    ensures IntendedAs(u, cf, a, w, cpu) == (JumpTo(if test then cf.target else a + 8), cpu)
  {
  }

  lemma BranchText(u: Unit, cf: FlowInstr, a: Word, w: Word, slot: Word)
    requires cf.kind == Branch && a + 8 < 0x1_0000_0000
    ensures TransferText(u, cf, a, w, slot) ==
            [SaveCond(a, w), Exec(a + 4, slot), IfElse(Saved(a), Near(u, cf.target), Near(u, a + 8))]
  {
  }

  lemma BranchLands<M(!new)>(u: Unit, h: Host<M>, body: seq<Stmt>, tail: seq<Stmt>, a: Word, w: Word, slot: Word,
                             rest: seq<Stmt>, saved: map<Word, bool>, cpu: Cpu<M>, after: Cpu<M>,
                             trace: seq<Event<M>>, test: bool, target: Word, to: Word)
    requires Placed(u.exe, u.f) && AllLand(u, h, body, tail) && a + 8 < 0x1_0000_0000
    requires Open(u, to) && to == (if test then target else a + 8) && test == Test(w, cpu)
    requires h.c(slot, cpu) == after && after.gpr[0] == 0
    ensures Match(u, h, tail, Arrive(u, to, after, trace),
                  CRun(body, h, At([SaveCond(a, w), Exec(a + 4, slot),
                                    IfElse(Saved(a), Near(u, target), Near(u, a + 8))] + rest, saved, cpu, trace), 3))
  {
    RunBranch(body, h, a, w, slot, Near(u, target), Near(u, a + 8), rest, saved, cpu, trace);
    assert Lands(u, h, body, tail, Near(u, to), to, saved[a := test], after, trace);
  }

  lemma BranchStep<M(!new)>(u: Unit, h: Host<M>, body: seq<Stmt>, tail: seq<Stmt>, a: Word, w: Word, slot: Word,
                      rest: seq<Stmt>, saved: map<Word, bool>, cpu: Cpu<M>, after: Cpu<M>, trace: seq<Event<M>>)
    requires Placed(u.exe, u.f) && AllLand(u, h, body, tail) && a + 8 < 0x1_0000_0000
    requires Analyze(a, w).kind == Branch && PlainFlow(w) && Open(u, Analyze(a, w).target) && Open(u, a + 8)
    requires h.c(slot, cpu) == after && h.mips(slot, cpu) == after && after.gpr[0] == 0
    ensures Moves(u, h, body, tail, a, w, slot, FlowText(u, a, w, slot) + rest, saved, cpu, trace, 3)
  {
    var test, target := Test(w, cpu), Analyze(a, w).target;
    var to := if test then target else a + 8;
    KindAnywhere(a, w);
    TestIsTaken(w, cpu);
    BranchIssue(u, Analyze(a, w), a, w, cpu, test);
    BranchText(u, Analyze(a, w), a, w, slot);
    BranchLands(u, h, body, tail, a, w, slot, rest, saved, cpu, after, trace, test, target, to);
  }

  lemma JumpStep<M(!new)>(u: Unit, h: Host<M>, body: seq<Stmt>, tail: seq<Stmt>, a: Word, w: Word, slot: Word,
                    rest: seq<Stmt>, saved: map<Word, bool>, cpu: Cpu<M>, trace: seq<Event<M>>)
    requires Placed(u.exe, u.f) && AllLand(u, h, body, tail) && a + 8 < 0x1_0000_0000
    requires Analyze(a, w).kind == Jump && Open(u, Analyze(a, w).target)
    requires h.c(slot, cpu) == h.mips(slot, cpu) && h.mips(slot, cpu).gpr[0] == 0
    ensures Moves(u, h, body, tail, a, w, slot, FlowText(u, a, w, slot) + rest, saved, cpu, trace, 2)
  {
    var to := Analyze(a, w).target;
    RunSlot(body, h, a + 4, slot, Go(Near(u, to)), rest, saved, cpu, trace);
    assert Lands(u, h, body, tail, Near(u, to), to, saved, h.mips(slot, cpu), trace);
  }

  lemma ReturnStep<M>(u: Unit, h: Host<M>, body: seq<Stmt>, tail: seq<Stmt>, a: Word, w: Word, slot: Word,
                      rest: seq<Stmt>, saved: map<Word, bool>, cpu: Cpu<M>, trace: seq<Event<M>>)
    requires Placed(u.exe, u.f) && a + 8 < 0x1_0000_0000 && Analyze(a, w).kind == Return
    requires h.c(slot, cpu) == h.mips(slot, cpu)
    ensures Moves(u, h, body, tail, a, w, slot, FlowText(u, a, w, slot) + rest, saved, cpu, trace, 2)
  {
    RunSlot(body, h, a + 4, slot, ReturnStmt, rest, saved, cpu, trace);
  }

  /** Calls: r is the link register, t the callee on the R3000A. */
  lemma CallStep<M(!new)>(u: Unit, h: Host<M>, body: seq<Stmt>, tail: seq<Stmt>, a: Word, slot: Word, r: Reg,
                          call: Stmt, t: Word, rest: seq<Stmt>, saved: map<Word, bool>, cpu: Cpu<M>,
                          trace: seq<Event<M>>)
    requires Placed(u.exe, u.f) && AllLand(u, h, body, tail) && a + 8 < 0x1_0000_0000 && Open(u, a + 8)
    requires h.c(slot, cpu) == h.mips(slot, cpu)
    requires h.mips(slot, Set(cpu, r, a + 8)) == Set(h.mips(slot, cpu), r, a + 8)
    requires call == CallFn(t) || call == CallAddr(t) ||
             (call.CallReg? && call.reg != r && h.mips(slot, cpu).gpr[call.reg] == t)
    requires ZeroKept(h)
    ensures Match(u, h, tail, Transfer(u, h, Pending.CallTo(t, a + 8), h.mips(slot, Set(cpu, r, a + 8)), trace),
                  CRun(body, h, At([Exec(a + 4, slot), SetReg(r, a + 8), call, Go(Near(u, a + 8))] + rest,
                                   saved, cpu, trace), 4))
  {
    var linked := Set(h.mips(slot, cpu), r, a + 8);
    var after := trace + [Call(t, linked)];
    ZeroKeptAt(h, after);
    RunCall(body, h, a + 4, slot, r, a + 8, call, t, Near(u, a + 8), rest, saved, cpu, trace);
    assert Lands(u, h, body, tail, Near(u, a + 8), a + 8, saved, h.reply(after), after);
  }

  lemma CaseLabelled(u: Unit, a: Word, w: Word, v: Word)
    requires Regular(u) && v in Table(u, a, w)
    ensures Labelled(u, v)
  {
    CasesAre(u, u.tables(a, Rs(w)), v);
    assert v in u.extra ==> LabelOk(u, v);
  }

  lemma IndirectStep<M(!new)>(u: Unit, h: Host<M>, body: seq<Stmt>, tail: seq<Stmt>, a: Word, w: Word, slot: Word,
                        rest: seq<Stmt>, saved: map<Word, bool>, cpu: Cpu<M>, after: Cpu<M>, trace: seq<Event<M>>)
    returns (k: nat)
    requires Regular(u) && AllLand(u, h, body, tail) && a + 8 < 0x1_0000_0000
    requires Analyze(a, w).kind == JumpRegister
    requires h.c(slot, cpu) == after && h.mips(slot, cpu) == after && after.gpr[0] == 0
    requires after.gpr[Rs(w)] == cpu.gpr[Rs(w)]
    ensures k >= 2
    ensures Moves(u, h, body, tail, a, w, slot, FlowText(u, a, w, slot) + rest, saved, cpu, trace, k)
  {
    var cases := Table(u, a, w);
    var v := cpu.gpr[Rs(w)];
    k := RunIndirect(u, body, h, a + 4, slot, Rs(w), cases, rest, saved, cpu, after, trace);
    IndirectText(u, a, w, slot);
    if v in cases {
      CaseLabelled(u, a, w, v);
      assert Lands(u, h, body, tail, ToBlock(v), v, saved, after, trace);
    }
  }

  lemma IndirectText(u: Unit, a: Word, w: Word, slot: Word)
    requires Analyze(a, w).kind == JumpRegister && a + 8 < 0x1_0000_0000
    ensures FlowText(u, a, w, slot) == [Exec(a + 4, slot)] + JumpText(u, Rs(w), Table(u, a, w))
  {
    IndirectTextAs(u, Analyze(a, w), a, w, slot);
  }

  lemma IndirectTextAs(u: Unit, cf: FlowInstr, a: Word, w: Word, slot: Word)
    requires cf.kind == JumpRegister && cf.address == a && cf.instr == w && a + 8 < 0x1_0000_0000
    ensures TransferText(u, cf, a, w, slot) == [Exec(a + 4, slot)] + JumpText(u, Rs(w), Table(u, a, w))
  {
    assert IndirectCode(u, cf) == JumpText(u, Rs(w), Table(u, a, w));
  }

  lemma IgnoresAt<M(!new)>(h: Host<M>, w: Word, r: Reg, cpu: Cpu<M>, v: Word)
    requires Ignores(h, w, r) && cpu.gpr[0] == 0
    ensures h.mips(w, Set(cpu, r, v)) == Set(h.mips(w, cpu), r, v)
  {
  }

  lemma KeepsAt<M(!new)>(h: Host<M>, w: Word, r: Reg, cpu: Cpu<M>)
    requires Keeps(h, w, r) && cpu.gpr[0] == 0
    ensures h.mips(w, cpu).gpr[r] == cpu.gpr[r]
  {
  }

  lemma LinkText<M>(u: Unit, a: Word, w: Word, slot: Word, cpu: Cpu<M>)
    requires Analyze(a, w).kind == JumpLink && a + 8 < 0x1_0000_0000
    ensures var t := Analyze(a, w).target;
            && FlowText(u, a, w, slot) == [Exec(a + 4, slot), SetReg(RA, a + 8), Text.CallTo(u, t), Go(Near(u, a + 8))]
            && Intended(u, a, w, cpu) == (Pending.CallTo(t, a + 8), Set(cpu, RA, a + 8))
  {
  }

  lemma LinkStep<M(!new)>(u: Unit, h: Host<M>, body: seq<Stmt>, tail: seq<Stmt>, a: Word, w: Word, slot: Word,
                          rest: seq<Stmt>, saved: map<Word, bool>, cpu: Cpu<M>, trace: seq<Event<M>>)
    requires Placed(u.exe, u.f) && AllLand(u, h, body, tail) && a + 8 < 0x1_0000_0000 && Open(u, a + 8)
    requires h.c(slot, cpu) == h.mips(slot, cpu) && cpu.gpr[0] == 0
    requires Analyze(a, w).kind == JumpLink
    requires h.mips(slot, Set(cpu, RA, a + 8)) == Set(h.mips(slot, cpu), RA, a + 8)
    requires ZeroKept(h)
    ensures Moves(u, h, body, tail, a, w, slot, FlowText(u, a, w, slot) + rest, saved, cpu, trace, 4)
  {
    LinkText(u, a, w, slot, cpu);
    var t := Analyze(a, w).target;
    CallStep(u, h, body, tail, a, slot, RA, Text.CallTo(u, t), t, rest, saved, cpu, trace);
  }

  lemma LinkRegStep<M(!new)>(u: Unit, h: Host<M>, body: seq<Stmt>, tail: seq<Stmt>, a: Word, w: Word, slot: Word,
                             rest: seq<Stmt>, saved: map<Word, bool>, cpu: Cpu<M>, trace: seq<Event<M>>)
    requires Placed(u.exe, u.f) && AllLand(u, h, body, tail) && a + 8 < 0x1_0000_0000 && Open(u, a + 8)
    requires h.c(slot, cpu) == h.mips(slot, cpu) && cpu.gpr[0] == 0
    requires Analyze(a, w).kind == JumpLinkReg && Rd(w) != 0 && Rd(w) != Rs(w)
    requires h.mips(slot, Set(cpu, Rd(w), a + 8)) == Set(h.mips(slot, cpu), Rd(w), a + 8)
    requires h.mips(slot, cpu).gpr[Rs(w)] == cpu.gpr[Rs(w)]
    requires ZeroKept(h)
    ensures Moves(u, h, body, tail, a, w, slot, FlowText(u, a, w, slot) + rest, saved, cpu, trace, 4)
  {
    CallStep(u, h, body, tail, a, slot, Rd(w), CallReg(Rs(w)), cpu.gpr[Rs(w)], rest, saved, cpu, trace);
  }

  lemma ZeroKeptAt<M(!new)>(h: Host<M>, trace: seq<Event<M>>)
    requires ZeroKept(h)
    ensures h.reply(trace).gpr[0] == 0
  {
  }

  /** The text of a control-flow word and its slot does what the word and the slot do. */
  lemma FlowCore<M(!new)>(u: Unit, h: Host<M>, tail: seq<Stmt>, a: Word, w: Word, slot: Word,
                          rest: seq<Stmt>, saved: map<Word, bool>, cpu: Cpu<M>, trace: seq<Event<M>>) returns (k: nat)
    requires Regular(u) && cpu.gpr[0] == 0
    requires Within(u.f, a) && FlowAt(u.exe, a) && w == WordOf(u, a) && SlotSafe(h, w, slot)
    requires PlainFlow(w) && ZeroKept(h)
    ensures k >= 2 && Moves(u, h, TextAt(u, tail, u.f.start), tail, a, w, slot, FlowText(u, a, w, slot) + rest,
                             saved, cpu, trace, k)
  {
    var body := TextAt(u, tail, u.f.start);
    FlowOpens(u, a);
    TextLands(u, h, tail);
    AgreesAt(h, slot, cpu);
    match Analyze(a, w).kind
    case Branch =>
      k := 3;
      BranchStep(u, h, body, tail, a, w, slot, rest, saved, cpu, h.mips(slot, cpu), trace);
    case Jump =>
      k := 2;
      JumpStep(u, h, body, tail, a, w, slot, rest, saved, cpu, trace);
    case Return =>
      k := 2;
      ReturnStep(u, h, body, tail, a, w, slot, rest, saved, cpu, trace);
    case JumpRegister =>
      KeepsAt(h, slot, Rs(w), cpu);
      k := IndirectStep(u, h, body, tail, a, w, slot, rest, saved, cpu, h.mips(slot, cpu), trace);
    case JumpLink | JumpLinkReg =>
      k := 4;
      LinkCore(u, h, body, tail, a, w, slot, rest, saved, cpu, trace);
  }

  lemma LinkCore<M(!new)>(u: Unit, h: Host<M>, body: seq<Stmt>, tail: seq<Stmt>, a: Word, w: Word, slot: Word,
                          rest: seq<Stmt>, saved: map<Word, bool>, cpu: Cpu<M>, trace: seq<Event<M>>)
    requires Placed(u.exe, u.f) && AllLand(u, h, body, tail) && a + 8 < 0x1_0000_0000 && Open(u, a + 8)
    requires h.c(slot, cpu) == h.mips(slot, cpu) && cpu.gpr[0] == 0
    requires Analyze(a, w).kind == JumpLink || Analyze(a, w).kind == JumpLinkReg
    requires SlotSafe(h, w, slot) && ZeroKept(h)
    ensures Moves(u, h, body, tail, a, w, slot, FlowText(u, a, w, slot) + rest, saved, cpu, trace, 4)
  {
    KindAnywhere(a, w);
    if Analyze(a, w).kind == JumpLink {
      IgnoresAt(h, slot, RA, cpu, a + 8);
      LinkStep(u, h, body, tail, a, w, slot, rest, saved, cpu, trace);
    } else {
      IgnoresAt(h, slot, Rd(w), cpu, a + 8);
      KeepsAt(h, slot, Rs(w), cpu);
      LinkRegStep(u, h, body, tail, a, w, slot, rest, saved, cpu, trace);
    }
  }

  lemma AfterLabel<M>(u: Unit, h: Host<M>, body: seq<Stmt>, a: Word, text: seq<Stmt>, saved: map<Word, bool>,
                      cpu: Cpu<M>, trace: seq<Event<M>>, k: nat) returns (m: nat)
    ensures m >= k
    ensures CRun(body, h, At(LabelAt(u, a) + text, saved, cpu, trace), m) ==
            CRun(body, h, At(text, saved, cpu, trace), k)
  {
    var j := PastLabel(u, h, body, a, text, saved, cpu, trace);
    m := j + k;
    Then(body, h, At(LabelAt(u, a) + text, saved, cpu, trace), j, At(text, saved, cpu, trace), k);
  }

  lemma SupportedAt<M(!new)>(u: Unit, h: Host<M>, a: Word)
    requires Supported(u, h) && Within(u.f, a)
    ensures PlainAt(u.exe, a) && PlainSlot(u.exe, a) && SafeAt(u, h, a)
  {
  }

  lemma SafeSlot<M(!new)>(u: Unit, h: Host<M>, a: Word)
    requires Placed(u.exe, u.f) && Within(u.f, a) && SafeAt(u, h, a)
    ensures !FlowAt(u.exe, a) ==> Agrees(h, WordOf(u, a))
    ensures FlowAt(u.exe, a) ==>
              a + 4 < 0x1_0000_0000 && u.exe.Readable(a + 4) && SlotSafe(h, WordOf(u, a), u.exe.WordAt(a + 4))
  {
  }

  lemma FlowMoves<M(!new)>(u: Unit, h: Host<M>, tail: seq<Stmt>, a: Word, slot: Word, saved: map<Word, bool>,
                             cpu: Cpu<M>, trace: seq<Event<M>>) returns (k: nat)
    requires Regular(u) && ZeroKept(h) && cpu.gpr[0] == 0 && Within(u.f, a) && FlowAt(u.exe, a)
    requires PlainAt(u.exe, a) && SlotSafe(h, WordOf(u, a), slot)
    requires a + 4 < 0x1_0000_0000 && u.exe.Readable(a + 4) && slot == u.exe.WordAt(a + 4)
    ensures k >= 2 && Moves(u, h, TextAt(u, tail, u.f.start), tail, a, WordOf(u, a), slot, TextAt(u, tail, a),
                             saved, cpu, trace, k)
  {
    var w := WordOf(u, a);
    var rest := TextAt(u, tail, NextText(u, a));
    var j := FlowCore(u, h, tail, a, w, slot, rest, saved, cpu, trace);
    FlowInstrText(u, tail, a);
    k := AfterLabel(u, h, TextAt(u, tail, u.f.start), a, FlowText(u, a, w, slot) + rest, saved, cpu, trace, j);
  }

  /** A control-flow word with its slot: two instructions of the R3000A, and the statements
      emitted for them. */
  lemma FlowStep<M(!new)>(u: Unit, h: Host<M>, tail: seq<Stmt>, a: Word, saved: map<Word, bool>,
                          cpu: Cpu<M>, trace: seq<Event<M>>) returns (k: nat)
    requires Regular(u) && ZeroKept(h) && cpu.gpr[0] == 0 && Within(u.f, a) && FlowAt(u.exe, a)
    requires PlainAt(u.exe, a) && PlainSlot(u.exe, a)
    requires a + 4 < 0x1_0000_0000 && u.exe.Readable(a + 4) && SlotSafe(h, WordOf(u, a), u.exe.WordAt(a + 4))
    ensures k >= 2
    ensures var s := Running(a, NoJump, cpu, trace);
            && Run(u, h, s, 1).Running? && Run(u, h, s, 1).pending != NoJump && Run(u, h, s, 1).trace == trace
            && Match(u, h, tail, Run(u, h, s, 2),
                     CRun(TextAt(u, tail, u.f.start), h, At(TextAt(u, tail, a), saved, cpu, trace), k))
  {
    TwoSteps(u, h, a, cpu, trace);
    k := FlowMoves(u, h, tail, a, u.exe.WordAt(a + 4), saved, cpu, trace);
  }

  // ---------------------------------------------------------------- whole runs

  lemma OneFurther<M>(u: Unit, h: Host<M>, s: Machine<M>, m: nat, s': Machine<M>, k: nat)
    requires Run(u, h, s, m) == Run(u, h, s', k)
    ensures Run(u, h, s, m + 1) == Run(u, h, s', k + 1)
  {
  }

  lemma {:induction false} RunSplit<M>(u: Unit, h: Host<M>, s: Machine<M>, m: nat, k: nat)
    ensures Run(u, h, Run(u, h, s, m), k) == Run(u, h, s, m + k)
  {
    if k > 0 {
      RunSplit(u, h, s, m, k - 1);
      OneFurther(u, h, Run(u, h, s, m), k - 1, s, m + k - 1);
    }
  }

  lemma {:induction false} DoneStays<M>(u: Unit, h: Host<M>, s: Machine<M>, k: nat)
    requires s.Done?
    ensures Run(u, h, s, k) == s
  {
    if k > 0 {
      DoneStays(u, h, s, k - 1);
    }
  }

  /** How the two machines stand to each other at any time. At an instruction boundary they
      hold equal registers and memory; before a delay slot the events so far are equal; when
      one has left the function the other has, after the same events. */
  ghost predicate Tracks<M>(u: Unit, h: Host<M>, tail: seq<Stmt>, s: Machine<M>, t: Program<M>)
    requires Placed(u.exe, u.f)
  {
    match s
    case Done(trace, exit) => t == Finished(Seen(u, h, tail != [], trace, exit))
    case Stuck(_) => false
    case Running(_, pending, _, trace) =>
      && t.At? && t.trace == trace
      && (pending == NoJump ==> Match(u, h, tail, s, t))
  }

  lemma AdvanceFlow<M(!new)>(u: Unit, h: Host<M>, tail: seq<Stmt>, a: Word, saved: map<Word, bool>,
                             cpu: Cpu<M>, trace: seq<Event<M>>) returns (k: nat)
    requires Supported(u, h) && cpu.gpr[0] == 0 && Within(u.f, a) && FlowAt(u.exe, a)
    ensures k >= 2
    ensures var s := Running(a, NoJump, cpu, trace);
            && Run(u, h, s, 1).Running? && Run(u, h, s, 1).pending != NoJump && Run(u, h, s, 1).trace == trace
            && Match(u, h, tail, Run(u, h, s, 2),
                     CRun(TextAt(u, tail, u.f.start), h, At(TextAt(u, tail, a), saved, cpu, trace), k))
  {
    SupportedAt(u, h, a);
    SafeSlot(u, h, a);
    k := FlowStep(u, h, tail, a, saved, cpu, trace);
  }

  lemma AdvanceOrdinary<M(!new)>(u: Unit, h: Host<M>, tail: seq<Stmt>, a: Word, saved: map<Word, bool>,
                                 cpu: Cpu<M>, trace: seq<Event<M>>) returns (k: nat)
    requires Supported(u, h) && TailFits(u, tail) && cpu.gpr[0] == 0
    requires Within(u.f, a) && !FlowAt(u.exe, a)
    ensures k >= 1
    ensures Match(u, h, tail, Run(u, h, Running(a, NoJump, cpu, trace), 1),
                  CRun(TextAt(u, tail, u.f.start), h, At(TextAt(u, tail, a), saved, cpu, trace), k))
  {
    SupportedAt(u, h, a);
    SafeSlot(u, h, a);
    var w := WordOf(u, a);
    AgreesAt(h, w, cpu);
    k := OrdinaryStep(u, h, tail, TextAt(u, tail, u.f.start), a, w, saved, cpu, h.mips(w, cpu), trace);
    StepOrdinary(u, h, a, cpu, trace);
    var s := Running(a, NoJump, cpu, trace);
    RunTwo(u, h, s, Step(u, h, s));
  }

  /** n instructions take s to s'. */
  ghost predicate Steps<M>(u: Unit, h: Host<M>, s: Machine<M>, n: nat, s': Machine<M>) {
    forall k: nat {:trigger Run(u, h, s, k)} | k == n :: Run(u, h, s, k) == s'
  }

  /** m statements take t to t'. */
  ghost predicate CSteps<M>(body: seq<Stmt>, h: Host<M>, t: Program<M>, m: nat, t': Program<M>) {
    forall k: nat {:trigger CRun(body, h, t, k)} | k == m :: CRun(body, h, t, k) == t'
  }

  lemma StepsThen<M>(u: Unit, h: Host<M>, s: Machine<M>, m: nat, s': Machine<M>, n: nat, s'': Machine<M>)
    requires Steps(u, h, s, m, s') && Steps(u, h, s', n, s'')
    ensures Steps(u, h, s, m + n, s'')
  {
    var all := Run(u, h, s, m + n);
    assert all == s'' by {
      assert Run(u, h, s, m) == s';
      assert Run(u, h, s', n) == s'';
      RunSplit(u, h, s, m, n);
    }
  }

  lemma CStepsThen<M>(body: seq<Stmt>, h: Host<M>, t: Program<M>, m: nat, t': Program<M>, n: nat, t'': Program<M>)
    requires CSteps(body, h, t, m, t') && CSteps(body, h, t', n, t'')
    ensures CSteps(body, h, t, m + n, t'')
  {
    assert CRun(body, h, t, m) == t';
    assert CRun(body, h, t', n) == t'';
    CRunSplit(body, h, t, m, n);
  }

  lemma NoSteps<M>(u: Unit, h: Host<M>, s: Machine<M>, body: seq<Stmt>, t: Program<M>)
    ensures Steps(u, h, s, 0, s) && CSteps(body, h, t, 0, t)
  {
  }

  /** From matching states, one or two instructions reach matching states again; before a slot
      the machine has made no event yet. */
  lemma Advance<M(!new)>(u: Unit, h: Host<M>, tail: seq<Stmt>, body: seq<Stmt>, s: Machine<M>, t: Program<M>)
    returns (n: nat, k: nat, s': Machine<M>, t': Program<M>, slot: Machine<M>)
    requires Supported(u, h) && TailFits(u, tail) && Match(u, h, tail, s, t) && s.Running?
    requires body == TextAt(u, tail, u.f.start)
    ensures 1 <= n <= 2 && k >= n && Steps(u, h, s, n, s') && CSteps(body, h, t, k, t') && Match(u, h, tail, s', t')
    ensures n == 2 ==> Steps(u, h, s, 1, slot) && slot.Running? && slot.pending != NoJump && slot.trace == s.trace
  {
    if FlowAt(u.exe, s.pc) {
      n := 2;
      k := AdvanceFlow(u, h, tail, s.pc, t.saved, s.cpu, s.trace);
    } else {
      n := 1;
      k := AdvanceOrdinary(u, h, tail, s.pc, t.saved, s.cpu, s.trace);
    }
    slot := Run(u, h, s, 1);
    s', t' := Run(u, h, s, n), CRun(body, h, t, k);
  }

  lemma {:induction false} SimulatesTo<M(!new)>(u: Unit, h: Host<M>, tail: seq<Stmt>, body: seq<Stmt>, s: Machine<M>,
                                                t: Program<M>, n: nat)
    returns (m: nat, s': Machine<M>, t': Program<M>)
    requires Supported(u, h) && TailFits(u, tail) && Match(u, h, tail, s, t) && body == TextAt(u, tail, u.f.start)
    ensures Steps(u, h, s, n, s') && CSteps(body, h, t, m, t') && Tracks(u, h, tail, s', t')
    ensures s'.Running? ==> m + 1 >= n
    decreases n
  {
    m, s', t' := 0, s, t;
    NoSteps(u, h, s, body, t);
    if n > 0 && s.Done? {
      DoneStays(u, h, s, n);
    } else if n > 0 {
      var d, k, s1, t1, slot := Advance(u, h, tail, body, s, t);
      if n < d {
        s' := slot;
      } else {
        var j, s2, t2 := SimulatesTo(u, h, tail, body, s1, t1, n - d);
        StepsThen(u, h, s, d, s1, n - d, s2);
        CStepsThen(body, h, t, k, t1, j, t2);
        m, s', t' := k + j, s2, t2;
      }
    }
  }

  lemma Simulates<M(!new)>(u: Unit, h: Host<M>, tail: seq<Stmt>, s: Machine<M>, t: Program<M>, n: nat)
    returns (m: nat)
    requires Supported(u, h) && TailFits(u, tail) && Match(u, h, tail, s, t)
    ensures Tracks(u, h, tail, Run(u, h, s, n), CRun(TextAt(u, tail, u.f.start), h, t, m))
    ensures Run(u, h, s, n).Running? ==> m + 1 >= n
  {
    var s', t';
    m, s', t' := SimulatesTo(u, h, tail, TextAt(u, tail, u.f.start), s, t, n);
  }
}
