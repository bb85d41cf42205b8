/** The two machines that the translation theorem compares: the R3000A with its delay slots,
    and the C program the recompiler emits. Both run one function; calls, tail calls and the
    return are events, and whatever a call does to the processor is a reply that may depend on
    the whole history of events. */
module Machines {
  import opened Options
  import opened Mips
  import opened CodeGenerator
  import opened R3000

  type Regs = s: seq<Word> | |s| == 32 witness seq(32, _ => 0)

  /** The general registers, and everything else (memory, HI and LO, coprocessors, devices). */
  datatype Cpu<M> = Cpu(gpr: Regs, rest: M)

  function Set<M>(cpu: Cpu<M>, r: Reg, v: Word): Cpu<M> {
    Cpu(cpu.gpr[r := v], cpu.rest)
  }

  datatype Event<M> = Call(target: Word, cpu: Cpu<M>) | Ret(cpu: Cpu<M>)

  /** What the theorem is about all choices of: the effect of an ordinary instruction on the
      R3000A, the effect of the C statement emitted for it, the replies of callees, and what the
      override table makes of a call of a function, if it intercepts it. */
  datatype Host<!M> = Host(mips: (Word, Cpu<M>) -> Cpu<M>,
                           c: (Word, Cpu<M>) -> Cpu<M>,
                           reply: seq<Event<M>> -> Cpu<M>,
                           intercept: (Word, Cpu<M>) -> Option<Cpu<M>>)

  /** The events of a call from which the function never resumes: its return is the caller's. */
  function TailCall<M>(h: Host<M>, t: Word, cpu: Cpu<M>, trace: seq<Event<M>>): seq<Event<M>> {
    trace + [Call(t, cpu)] + [Ret(h.reply(trace + [Call(t, cpu)]))]
  }

  /** How a run leaves the function: by jr $ra, by a branch or jump to an address outside, by an
      indirect jump to one, or off its last word. A run that strays does not leave: an indirect
      jump takes it to an address of the function that is no case of the emitted switch. Runs are
      followed up to there, since the emitted function takes such a jump for one to the outside. */
  datatype Exit<M> = Returned(cpu: Cpu<M>) | Jumped(to: Word, cpu: Cpu<M>) | Missed(to: Word, cpu: Cpu<M>)
                   | RanOff(to: Word, cpu: Cpu<M>) | Strayed(to: Word, cpu: Cpu<M>)

  /** The events of an R3000A run that leaves in this way after the given events: the return, or a
      tail call. One that strays goes on inside, and nothing has happened yet. */
  function Events<M>(h: Host<M>, trace: seq<Event<M>>, exit: Exit<M>): seq<Event<M>> {
    match exit
    case Returned(cpu) => trace + [Ret(cpu)]
    case Jumped(to, cpu) => TailCall(h, to, cpu, trace)
    case Missed(to, cpu) => TailCall(h, to, cpu, trace)
    case RanOff(to, cpu) => TailCall(h, to, cpu, trace)
    case Strayed(_, _) => trace
  }

  /** The frame of a function taken off the stack, as the emitted code does it. */
  function Unwound<M>(u: Unit, cpu: Cpu<M>): Cpu<M> {
    if u.f.hasPrologue && u.f.frame > 0 then Set(cpu, SP, Wrap(cpu.gpr[SP] + u.f.frame)) else cpu
  }

  /** The emitted code for an indirect jump to an address that is no case: a call of it, the frame
      off the stack, and the return. */
  function Dispatched<M>(u: Unit, h: Host<M>, trace: seq<Event<M>>, to: Word, cpu: Cpu<M>): seq<Event<M>> {
    var after := trace + [Call(to, cpu)];
    after + [Ret(Unwound(u, h.reply(after)))]
  }

  /** The events of the emitted program for the same run. It calls the target of an indirect jump
      that is no case, be it outside the function or inside; and off its end it returns, unless
      it ends in a call of what follows. */
  function Seen<M>(u: Unit, h: Host<M>, falls: bool, trace: seq<Event<M>>, exit: Exit<M>): seq<Event<M>> {
    match exit
    case Missed(to, cpu) => Dispatched(u, h, trace, to, cpu)
    case Strayed(to, cpu) => Dispatched(u, h, trace, to, cpu)
    case RanOff(to, cpu) => if falls then TailCall(h, to, cpu, trace) else trace + [Ret(cpu)]
    case _ => Events(h, trace, exit)
  }

  // ---------------------------------------------------------------- the R3000A

  /** What is to happen after the delay slot. */
  datatype Pending = NoJump | JumpTo(to: Word) | CallTo(to: Word, back: Word) | TailTo(to: Word) | StrayTo(to: Word)
                   | ReturnNow

  datatype Machine<M> =
    | Running(pc: Word, pending: Pending, cpu: Cpu<M>, trace: seq<Event<M>>)
    | Done(trace: seq<Event<M>>, exit: Exit<M>)
    | Stuck(trace: seq<Event<M>>)

  /** A branch: to its target if it is taken, past its slot if not. */
  function Branching<M>(a: Word, k: int, taken: bool, cpu: Cpu<M>): (Pending, Cpu<M>) {
    (Pending.JumpTo(if taken then BranchTo(a, k) else Past(a)), cpu)
  }

  /** A branch that leaves the way back in $ra, taken or not: out of the function it is a call. */
  function Linking<M>(u: Unit, a: Word, k: int, taken: bool, cpu: Cpu<M>): (Pending, Cpu<M>) {
    var t, back := BranchTo(a, k), Past(a);
    (if !taken then Pending.JumpTo(back)
     else if u.f.start <= t < u.f.end then Pending.JumpTo(t)
     else CallTo(t, back),
     Set(cpu, RA, back))
  }

  /** Executing a control-flow instruction: the link register and the pending transfer. Whether an
      indirect jump leaves the function depends on the function's extent alone. */
  function Issue<M>(u: Unit, a: Word, c: Control, cpu: Cpu<M>): (Pending, Cpu<M>) {
    var r := cpu.gpr;
    match c
    case Beq(rs, rt, k) => Branching(a, k, r[rs] == r[rt], cpu)
    case Bne(rs, rt, k) => Branching(a, k, r[rs] != r[rt], cpu)
    case Blez(rs, k) => Branching(a, k, r[rs] == 0 || r[rs] >= 0x8000_0000, cpu)
    case Bgtz(rs, k) => Branching(a, k, 0 < r[rs] < 0x8000_0000, cpu)
    case Bltz(rs, k) => Branching(a, k, r[rs] >= 0x8000_0000, cpu)
    case Bgez(rs, k) => Branching(a, k, r[rs] < 0x8000_0000, cpu)
    case Bltzal(rs, k) => Linking(u, a, k, r[rs] >= 0x8000_0000, cpu)
    case Bgezal(rs, k) => Linking(u, a, k, r[rs] < 0x8000_0000, cpu)
    case J(index) => (Pending.JumpTo(JumpIn(a, index)), cpu)
    case Jal(index) => (CallTo(JumpIn(a, index), Past(a)), Set(cpu, RA, Past(a)))
    case Jr(rs) => (if rs == 31 then ReturnNow else Through(u, a, rs, r[rs]), cpu)
    case Jalr(rd, rs) => (CallTo(r[rs], Past(a)), if rd == 0 then cpu else Set(cpu, rd, Past(a)))
  }

  /** An indirect jump through a register that holds v: inside the function it arrives if v is a
      case of the emitted switch, and strays if not. */
  function Through(u: Unit, a: Word, r: Reg, v: Word): Pending {
    if v in Cases(u, u.tables(a, r)) then Pending.JumpTo(v)
    else if u.f.start <= v < u.f.end then StrayTo(v)
    else TailTo(v)
  }

  /** Control reaches t: inside the function it goes on there, outside it has left. */
  function Arrive<M>(u: Unit, t: Word, cpu: Cpu<M>, trace: seq<Event<M>>): Machine<M> {
    if u.f.start <= t < u.f.end then Running(t, NoJump, cpu, trace) else Done(trace, Jumped(t, cpu))
  }

  /** The same for the word after an ordinary one. */
  function Fall<M>(u: Unit, t: Word, cpu: Cpu<M>, trace: seq<Event<M>>): Machine<M> {
    if t == u.f.end then Done(trace, RanOff(t, cpu)) else Arrive(u, t, cpu, trace)
  }

  function Transfer<M>(u: Unit, h: Host<M>, p: Pending, cpu: Cpu<M>, trace: seq<Event<M>>): Machine<M>
    requires p != NoJump
  {
    match p
    case JumpTo(t) => Arrive(u, t, cpu, trace)
    case CallTo(t, back) =>
      var after := trace + [Call(t, cpu)];
      Arrive(u, back, h.reply(after), after)
    case TailTo(t) => Done(trace, Missed(t, cpu))
    case StrayTo(t) => Done(trace, Strayed(t, cpu))
    case ReturnNow => Done(trace, Returned(cpu))
  }

  /** One instruction. Control flow in a delay slot, branches of later models and words outside the
      executable leave the machine stuck. */
  function Step<M>(u: Unit, h: Host<M>, s: Machine<M>): Machine<M> {
    match s
    case Done(_, _) => s
    case Stuck(_) => s
    case Running(pc, pending, cpu, trace) =>
      if !u.exe.Readable(pc) then Stuck(trace)
      else
        var w := u.exe.WordAt(pc);
        match Decode(w)
        case Later => Stuck(trace)
        case Ordinary =>
          if pending == NoJump then Fall(u, Wrap(pc + 4), h.mips(w, cpu), trace)
          else Transfer(u, h, pending, h.mips(w, cpu), trace)
        case Flow(c) =>
          if pending != NoJump then Stuck(trace)
          else
            var (p, linked) := Issue(u, pc, c, cpu);
            Running(Wrap(pc + 4), p, linked, trace)
  }

  function Run<M>(u: Unit, h: Host<M>, s: Machine<M>, n: nat): Machine<M> {
    if n == 0 then s else Step(u, h, Run(u, h, s, n - 1))
  }

  // ---------------------------------------------------------------- the emitted program

  datatype Program<M> =
    | At(code: seq<Stmt>, saved: map<Word, bool>, cpu: Cpu<M>, trace: seq<Event<M>>)
    | Finished(trace: seq<Event<M>>)
    | Broken

  /** The text from label l on, if the body has that label. */
  function Seek(code: seq<Stmt>, l: Word): Option<seq<Stmt>> {
    if code == [] then None
    else if code[0] == Label(l) then Some(code)
    else Seek(code[1..], l)
  }

  /** The C condition emitted for a branch word. */
  predicate Test<M>(w: Word, cpu: Cpu<M>) {
    var s, t := cpu.gpr[Rs(w)], cpu.gpr[Rt(w)];
    var op := Opcode(w);
    if op == 1 && (Rt(w) == 0 || Rt(w) == 0x10) then Signed(s) < 0
    else if op == 1 && (Rt(w) == 1 || Rt(w) == 0x11) then Signed(s) >= 0
    else if op == 4 || op == 0x14 then s == t
    else if op == 5 || op == 0x15 then s != t
    else if op == 6 || op == 0x16 then Signed(s) <= 0
    else if op == 7 || op == 0x17 then Signed(s) > 0
    else false
  }

  predicate Holds<M>(c: Cond, saved: map<Word, bool>, cpu: Cpu<M>) {
    match c
    case Saved(tag) => tag in saved && saved[tag]
    case Now(w) => Test(w, cpu)
  }

  function Take<M>(body: seq<Stmt>, h: Host<M>, d: Dest, saved: map<Word, bool>, cpu: Cpu<M>,
                   trace: seq<Event<M>>): Program<M>
  {
    match d
    case ToBlock(l) =>
      (match Seek(body, l)
       case None => Broken
       case Some(code) => At(code, saved, cpu, trace))
    case ToFunc(t) => Finished(TailCall(h, t, cpu, trace))
    case ToAddr(t) => Finished(TailCall(h, t, cpu, trace))
  }

  function CallOut<M>(h: Host<M>, rest: seq<Stmt>, t: Word, saved: map<Word, bool>, cpu: Cpu<M>,
                      trace: seq<Event<M>>): Program<M>
  {
    var after := trace + [Call(t, cpu)];
    At(rest, saved, h.reply(after), after)
  }

  /** Executing the statement s with the given text after it. */
  function Do<M>(body: seq<Stmt>, h: Host<M>, s: Stmt, rest: seq<Stmt>, saved: map<Word, bool>, cpu: Cpu<M>,
                 trace: seq<Event<M>>): Program<M>
  {
    match s
    case Label(_) => At(rest, saved, cpu, trace)
    case Exec(_, w) => At(rest, saved, h.c(w, cpu), trace)
    case IfExec(test, _, w) => At(rest, saved, if Test(test, cpu) then h.c(w, cpu) else cpu, trace)
    case SaveCond(tag, w) => At(rest, saved[tag := Test(w, cpu)], cpu, trace)
    case SetReg(r, v) => At(rest, saved, Set(cpu, r, v), trace)
    case AddSp(n) => At(rest, saved, Set(cpu, SP, Wrap(cpu.gpr[SP] + n)), trace)
    case CallFn(t) => CallOut(h, rest, t, saved, cpu, trace)
    case CallAddr(t) => CallOut(h, rest, t, saved, cpu, trace)
    case CallReg(r) => CallOut(h, rest, cpu.gpr[r], saved, cpu, trace)
    case IfElse(c, yes, no) => Take(body, h, if Holds(c, saved, cpu) then yes else no, saved, cpu, trace)
    case Go(d) => Take(body, h, d, saved, cpu, trace)
    case Switch(r, cases, default) =>
      if cpu.gpr[r] in cases then Take(body, h, ToBlock(cpu.gpr[r]), saved, cpu, trace)
      else At(default + rest, saved, cpu, trace)
    case ReturnStmt => Finished(trace + [Ret(cpu)])
    case Intercept(f) =>
      (match h.intercept(f, cpu)
       case None => At(rest, saved, cpu, trace)
       case Some(after) => Finished(trace + [Ret(after)]))
  }

  /** One statement; running off the end of the body returns. */
  function CStep<M>(body: seq<Stmt>, h: Host<M>, t: Program<M>): Program<M> {
    match t
    case Finished(_) => t
    case Broken => t
    case At(code, saved, cpu, trace) =>
      if code == [] then Finished(trace + [Ret(cpu)])
      else Do(body, h, code[0], code[1..], saved, cpu, trace)
  }

  function CRun<M>(body: seq<Stmt>, h: Host<M>, t: Program<M>, n: nat): Program<M> {
    if n == 0 then t else CStep(body, h, CRun(body, h, t, n - 1))
  }

  // ---------------------------------------------------------------- small facts about runs

  lemma CStepHead<M>(body: seq<Stmt>, h: Host<M>, s: Stmt, rest: seq<Stmt>, saved: map<Word, bool>,
                     cpu: Cpu<M>, trace: seq<Event<M>>)
    ensures CStep(body, h, At([s] + rest, saved, cpu, trace)) == Do(body, h, s, rest, saved, cpu, trace)
  {
    assert ([s] + rest)[1..] == rest;
  }

  /** Two runs that have come to the same point are together one statement later. */
  lemma Further<M>(body: seq<Stmt>, h: Host<M>, t: Program<M>, m: nat, t': Program<M>, k: nat)
    requires CRun(body, h, t, m) == CRun(body, h, t', k)
    ensures CRun(body, h, t, m + 1) == CRun(body, h, t', k + 1)
  {
  }

  lemma {:induction false} CRunSplit<M>(body: seq<Stmt>, h: Host<M>, t: Program<M>, m: nat, k: nat)
    ensures CRun(body, h, CRun(body, h, t, m), k) == CRun(body, h, t, m + k)
  {
    if k > 0 {
      CRunSplit(body, h, t, m, k - 1);
      Further(body, h, CRun(body, h, t, m), k - 1, t, m + k - 1);
    }
  }

  /** A finished run stays as it is. */
  lemma {:induction false} CRunStays<M>(body: seq<Stmt>, h: Host<M>, t: Program<M>, m: nat, k: nat)
    requires m <= k && CRun(body, h, t, m).Finished?
    ensures CRun(body, h, t, k) == CRun(body, h, t, m)
    decreases k
  {
    if m < k {
      CRunStays(body, h, t, m, k - 1);
    }
  }

  lemma {:induction false} SeekSkips(x: seq<Stmt>, rest: seq<Stmt>, l: Word)
    requires forall i | 0 <= i < |x| :: x[i] != Label(l)
    ensures Seek(x + rest, l) == Seek(rest, l)
    decreases |x|
  {
    if x == [] {
      assert x + rest == rest;
    } else {
      assert (x + rest)[1..] == x[1..] + rest;
      SeekSkips(x[1..], rest, l);
    }
  }
}
