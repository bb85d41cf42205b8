/** The recompiler end to end: from the executable to a running C function. */
module Recompiler {
  import opened Options
  import opened Mips
  import opened Executable
  import opened ControlFlow
  import opened CodeGenerator
  import opened Layout
  import opened Text
  import opened Machines
  import opened Translation
  import opened Reach
  import opened Instructions
  import JumpTables

  /** All that the emission of f depends on, as the recompiler computes it. */
  function UnitOf(exe: Exe, f: Func, known: set<Word>): Unit
    requires Placed(exe, f)
  {
    GraphKeys(exe, f);
    OrderFacts(exe, f);
    UnitFor(exe, known, f, GraphOf(exe, f))
  }

  lemma UnitTables(exe: Exe, f: Func, known: set<Word>, a: Word, r: Reg)
    requires Placed(exe, f)
    ensures UnitOf(exe, f, known).tables(a, r) == JumpTables.TableEntries(exe, f.start, a, r, true)
  {
  }

  /** A function of the R3000A proper: whole words, no control flow in a delay slot, no likely
      and no and-link branches, every slot readable. */
  ghost predicate PlainFunction(exe: Exe, f: Func) {
    && Placed(exe, f)
    && NoFlowInSlots(exe, f)
    && (forall a: Word {:trigger PlainAt(exe, a)} | Within(f, a) :: PlainAt(exe, a))
  }

  /** What the pre-scan reads from a jump table must not label a word the emitter skips. */
  predicate EntryOk(u: Unit, t: Word) {
    u.f.start <= t < u.f.end && t !in u.g.blocks ==> t % 4 == 0 && !SkipsSlot(u, t - 4)
  }

  /** The pre-scan reads t from the table of the block at b. */
  predicate Prescanned(exe: Exe, g: Graph, b: Word, t: Word) {
    b in g.blocks && g.blocks[b].exit.kind == JumpRegister &&
    t in JumpTables.TablesOf(exe, g.start, false)(g.blocks[b].exit.address, Rs(g.blocks[b].exit.instr))
  }

  ghost predicate EntriesOk(u: Unit) {
    forall b, t {:trigger Prescanned(u.exe, u.g, b, t)} | Prescanned(u.exe, u.g, b, t) :: EntryOk(u, t)
  }

  lemma {:induction false} ExtraLabelNamed(exe: Exe, g: Graph, n: nat, t: Word)
    requires Ordered(g) && n <= |g.order|
    requires t in ExtraLabels(g, JumpTables.TablesOf(exe, g.start, false), g.order, n)
    ensures g.start <= t < g.end && t !in g.blocks && exists b :: Prescanned(exe, g, b, t)
  {
    if t in ExtraLabels(g, JumpTables.TablesOf(exe, g.start, false), g.order, n - 1) {
      ExtraLabelNamed(exe, g, n - 1, t);
    } else {
      assert Prescanned(exe, g, g.order[n - 1], t);
    }
  }

  /** The checks of PlainFunction and EntriesOk make the emitted function regular. */
  lemma UnitIsRegular(exe: Exe, f: Func, known: set<Word>)
    requires PlainFunction(exe, f) && EntriesOk(UnitOf(exe, f, known))
    ensures Regular(UnitOf(exe, f, known))
  {
    var u := UnitOf(exe, f, known);
    GraphIsLaid(exe, f);
    forall t | t in u.extra ensures LabelOk(u, t) {
      ExtraLabelNamed(exe, u.g, |u.g.order|, t);
      var b :| Prescanned(exe, u.g, b, t);
      assert EntryOk(u, t);
    }
  }

  // ---------------------------------------------------------------- recognised tables

  lemma {:induction false} ExtraLabelsHave(g: Graph, prescan: JumpTables.Tables, n: nat, k: nat, t: Word)
    requires Ordered(g) && k < n <= |g.order| && g.blocks[g.order[k]].exit.kind == JumpRegister
    requires var exit := g.blocks[g.order[k]].exit; t in TableLabels(g, prescan(exit.address, Rs(exit.instr)))
    ensures t in ExtraLabels(g, prescan, g.order, n)
  {
    if k < n - 1 {
      ExtraLabelsHave(g, prescan, n - 1, k, t);
    }
  }

  lemma ExitInFunction(exe: Exe, f: Func, g: Graph, k: nat)
    requires Laid(exe, f, g) && k < |g.order| && g.blocks[g.order[k]].exit.kind != Sequential
    ensures g.blocks[g.order[k]].exit.address < 0x8020_0000
  {
    assert BlockShape(exe, f, g, k);
    ExtentOf(exe, f, g, k);
    WordsReadable(exe, f, g.blocks[g.order[k]].end);
  }

  /** An address is a label of the emitted function if and only if it starts a block, or the
      pre-scan reads it from the table of some indirect jump and it lies in the function. */
  lemma LabelWhen(exe: Exe, f: Func, known: set<Word>, t: Word)
    requires Placed(exe, f) && f.start <= t < f.end
    ensures var g := GraphOf(exe, f);
            HasLabel(UnitOf(exe, f, known), t) <==> t in g.blocks || exists c :: Prescanned(exe, g, c, t)
  {
    var g := GraphOf(exe, f);
    GraphIsLaid(exe, f);
    if t in UnitOf(exe, f, known).extra {
      ExtraLabelNamed(exe, g, |g.order|, t);
    }
    if c :| Prescanned(exe, g, c, t) && t !in g.blocks {
      assert Listed(g.order, c);
      var k: nat :| k < |g.order| && g.order[k] == c;
      ExtraLabelsHave(g, JumpTables.TablesOf(exe, f.start, false), |g.order|, k, t);
    }
  }

  /** Exactly which entries of the translator's table for an indirect jump are cases of its switch,
      of those that lie in the function: the ones that start a block and the ones that the pre-scan
      reads, from this or another table of the function. */
  lemma TableCases(exe: Exe, f: Func, known: set<Word>, b: Word, t: Word)
    requires Placed(exe, f) && b in GraphOf(exe, f).blocks && f.start <= t < f.end
    requires var exit := GraphOf(exe, f).blocks[b].exit;
             && exit.kind == JumpRegister
             && t in JumpTables.TableEntries(exe, f.start, exit.address, Rs(exit.instr), true)
    ensures var g := GraphOf(exe, f);
            t in Table(UnitOf(exe, f, known), g.blocks[b].exit.address, g.blocks[b].exit.instr) <==>
            t in g.blocks || exists c :: Prescanned(exe, g, c, t)
  {
    var u := UnitOf(exe, f, known);
    var exit := u.g.blocks[b].exit;
    LabelWhen(exe, f, known, t);
    CasesAre(u, u.tables(exit.address, Rs(exit.instr)), t);
  }

  /** So every such entry is a case, and a jump to it never strays, where the pre-scan sees what
      the translator sees: no comparison of registers in reach of the scan has a bound to be traced
      to, and the table has fewer than 512 entries. */
  lemma TableNeverMisses(exe: Exe, f: Func, known: set<Word>, b: Word, t: Word)
    requires Placed(exe, f) && b in GraphOf(exe, f).blocks && f.start <= t < f.end
    requires GraphOf(exe, f).blocks[b].exit.kind == JumpRegister
    requires var exit := GraphOf(exe, f).blocks[b].exit;
             var table := JumpTables.FindTable(exe, f.start, exit.address, Rs(exit.instr), true);
             && JumpTables.NothingTraced(exe, f.start, exit.address)
             && (table.Some? ==> table.value.count < 512)
             && t in JumpTables.TableEntries(exe, f.start, exit.address, Rs(exit.instr), true)
    ensures var exit := GraphOf(exe, f).blocks[b].exit;
            t in Table(UnitOf(exe, f, known), exit.address, exit.instr)
  {
    GraphIsLaid(exe, f);
    ReadByPrescan(exe, f, GraphOf(exe, f), b, t);
    TableCases(exe, f, known, b, t);
  }

  lemma ReadByPrescan(exe: Exe, f: Func, g: Graph, b: Word, t: Word)
    requires Laid(exe, f, g) && b in g.blocks && g.blocks[b].exit.kind == JumpRegister
    requires var exit := g.blocks[b].exit;
             var table := JumpTables.FindTable(exe, f.start, exit.address, Rs(exit.instr), true);
             && JumpTables.NothingTraced(exe, f.start, exit.address)
             && (table.Some? ==> table.value.count < 512)
             && t in JumpTables.TableEntries(exe, f.start, exit.address, Rs(exit.instr), true)
    ensures Prescanned(exe, g, b, t)
  {
    var exit := g.blocks[b].exit;
    assert Listed(g.order, b);
    var k: nat :| k < |g.order| && g.order[k] == b;
    ExitInFunction(exe, f, g, k);
    JumpTables.TablesAgree(exe, f.start, exit.address, Rs(exit.instr));
  }

  // ---------------------------------------------------------------- past the override table

  lemma InterceptOnce<M>(body: seq<Stmt>, h: Host<M>, f: Word, t: Program<M>)
    ensures CStep([Intercept(f)] + body, h, t) == CStep(body, h, t)
  {
    forall l: Word ensures Seek([Intercept(f)] + body, l) == Seek(body, l) {
      assert ([Intercept(f)] + body)[1..] == body;
    }
  }

  /** Gotos never lead back to the call of the override table. */
  lemma {:induction false} InterceptAside<M>(body: seq<Stmt>, h: Host<M>, f: Word, t: Program<M>, m: nat)
    ensures CRun([Intercept(f)] + body, h, t, m) == CRun(body, h, t, m)
  {
    if m > 0 {
      InterceptAside(body, h, f, t, m - 1);
      InterceptOnce(body, h, f, CRun(body, h, t, m - 1));
    }
  }

  // ---------------------------------------------------------------- running an emitted function

  function Start<M>(u: Unit, cpu: Cpu<M>): Machine<M> {
    Running(u.f.start, NoJump, cpu, [])
  }

  function Entry<M>(code: seq<Stmt>, cpu: Cpu<M>): Program<M> {
    At(code, map[], cpu, [])
  }

  /** The emitted function after m statements. */
  function Emission<M>(u: Unit, h: Host<M>, next: Option<Word>, cpu: Cpu<M>, m: nat): Program<M>
    requires u.exe.Valid() && Ordered(u.g)
  {
    CRun(Emitted(u, next), h, Entry(Emitted(u, next), cpu), m)
  }

  /** Whether the emitted text ends in a call of the next function. */
  predicate Falls(u: Unit, next: Option<Word>)
    requires Ordered(u.g)
  {
    TailCode(u.g, u.g.order, next) != []
  }

  /** A supported function that nothing intercepts; the function emitted after it, if there is
      one, is the one that begins where it ends. */
  ghost predicate Ready<M(!new)>(u: Unit, h: Host<M>, next: Option<Word>, cpu: Cpu<M>) {
    && Supported(u, h) && cpu.gpr[0] == 0
    && (next.Some? ==> next.value == u.f.end)
    && h.intercept(u.f.start, cpu).None?
  }

  lemma StartsMatched<M(!new)>(u: Unit, h: Host<M>, next: Option<Word>, cpu: Cpu<M>)
    requires Ready(u, h, next, cpu)
    ensures var tail := TailCode(u.g, u.g.order, next);
            && Match(u, h, tail, Start(u, cpu), Entry(Body(u, next), cpu))
            && TailFits(u, tail) && Body(u, next) == TextAt(u, tail, u.f.start)
  {
    BodyIsText(u, next);
    StartNotSkipped(u);
  }

  lemma StartNotSkipped(u: Unit)
    requires Laid(u.exe, u.f, u.g)
    ensures Within(u.f, u.f.start) && !SkipsSlot(u, u.f.start - 4)
  {
    assert u.g.order[0] in u.g.blocks;
  }

  lemma PastFirst<M>(all: seq<Stmt>, body: seq<Stmt>, h: Host<M>, f: Word, cpu: Cpu<M>, m: nat)
    requires all == [Intercept(f)] + body && h.intercept(f, cpu).None?
    ensures CRun(all, h, Entry(all, cpu), m + 1) == CRun(body, h, Entry(body, cpu), m)
  {
    One(all, h, Intercept(f), body, map[], cpu, []);
    Then(all, h, Entry(all, cpu), 1, Entry(body, cpu), m);
    InterceptAside(body, h, f, Entry(body, cpu), m);
  }

  lemma PastIntercept<M>(u: Unit, h: Host<M>, next: Option<Word>, cpu: Cpu<M>, body: seq<Stmt>, m: nat)
    requires u.exe.Valid() && Ordered(u.g) && h.intercept(u.f.start, cpu).None? && body == Body(u, next)
    ensures Emission(u, h, next, cpu, m + 1) == CRun(body, h, Entry(body, cpu), m)
  {
    PastFirst(Emitted(u, next), body, h, u.f.start, cpu, m);
  }

  /** The translation preserves meaning: after any number n of R3000A instructions there is a
      number m of C statements that has brought the emitted function to the same point. */
  lemma PreservesMeaning<M(!new)>(u: Unit, h: Host<M>, next: Option<Word>, cpu: Cpu<M>, n: nat) returns (m: nat)
    requires Ready(u, h, next, cpu)
    ensures Tracks(u, h, TailCode(u.g, u.g.order, next), Run(u, h, Start(u, cpu), n), Emission(u, h, next, cpu, m))
    ensures Run(u, h, Start(u, cpu), n).Running? ==> m >= n
  {
    StartsMatched(u, h, next, cpu);
    var j := Simulates(u, h, TailCode(u.g, u.g.order, next), Start(u, cpu), Entry(Body(u, next), cpu), n);
    PastIntercept(u, h, next, cpu, Body(u, next), j);
    m := j + 1;
  }

  /** A call that the override table takes does nothing else. */
  lemma Intercepted<M>(u: Unit, h: Host<M>, next: Option<Word>, cpu: Cpu<M>, m: nat)
    requires u.exe.Valid() && Ordered(u.g) && h.intercept(u.f.start, cpu).Some? && m >= 1
    ensures Emission(u, h, next, cpu, m) == Finished([Ret(h.intercept(u.f.start, cpu).value)])
  {
    var all := Emitted(u, next);
    One(all, h, Intercept(u.f.start), Body(u, next), map[], cpu, []);
    CRunStays(all, h, Entry(all, cpu), 1, m);
  }

  /** Broken programs stay broken. */
  lemma {:induction false} BrokenStays<M>(body: seq<Stmt>, h: Host<M>, t: Program<M>, m: nat, k: nat)
    requires m <= k && CRun(body, h, t, m).Broken?
    ensures CRun(body, h, t, k).Broken?
    decreases k
  {
    if m < k {
      BrokenStays(body, h, t, m, k - 1);
    }
  }

  /** No goto of the emitted function ever misses its label. */
  lemma NeverBroken<M(!new)>(u: Unit, h: Host<M>, next: Option<Word>, cpu: Cpu<M>, m: nat)
    requires Ready(u, h, next, cpu)
    ensures !Emission(u, h, next, cpu, m).Broken?
  {
    var all := Emitted(u, next);
    if Emission(u, h, next, cpu, m).Broken? {
      var k := PreservesMeaning(u, h, next, cpu, m + 1);
      if k >= m {
        BrokenStays(all, h, Entry(all, cpu), m, k);
      } else {
        CRunStays(all, h, Entry(all, cpu), k, m);
      }
    }
  }

  // ---------------------------------------------------------------- leaving the function

  /** Some run of the R3000A leaves the function after these events, in this way. */
  ghost predicate Leaves<M(!new)>(u: Unit, h: Host<M>, cpu: Cpu<M>, trace: seq<Event<M>>, exit: Exit<M>) {
    exists n: nat :: Run(u, h, Start(u, cpu), n) == Done(trace, exit)
  }

  /** The emitted function ends with these events. */
  ghost predicate Ends<M(!new)>(u: Unit, h: Host<M>, next: Option<Word>, cpu: Cpu<M>, events: seq<Event<M>>)
    requires u.exe.Valid() && Ordered(u.g)
  {
    exists m: nat :: Emission(u, h, next, cpu, m) == Finished(events)
  }

  lemma EndsForward<M(!new)>(u: Unit, h: Host<M>, next: Option<Word>, cpu: Cpu<M>, trace: seq<Event<M>>, exit: Exit<M>)
    requires Ready(u, h, next, cpu) && Leaves(u, h, cpu, trace, exit)
    ensures Ends(u, h, next, cpu, Seen(u, h, Falls(u, next), trace, exit))
  {
    var n: nat :| Run(u, h, Start(u, cpu), n) == Done(trace, exit);
    var m := PreservesMeaning(u, h, next, cpu, n);
    assert Emission(u, h, next, cpu, m) == Finished(Seen(u, h, Falls(u, next), trace, exit));
  }

  lemma FinishedOnce<M>(u: Unit, h: Host<M>, next: Option<Word>, cpu: Cpu<M>, m: nat, k: nat)
    requires u.exe.Valid() && Ordered(u.g) && Emission(u, h, next, cpu, m).Finished?
    ensures k >= m ==> Emission(u, h, next, cpu, k) == Emission(u, h, next, cpu, m)
    ensures Emission(u, h, next, cpu, k).Finished? ==> Emission(u, h, next, cpu, k) == Emission(u, h, next, cpu, m)
  {
    var all := Emitted(u, next);
    if k >= m {
      CRunStays(all, h, Entry(all, cpu), m, k);
    } else if CRun(all, h, Entry(all, cpu), k).Finished? {
      CRunStays(all, h, Entry(all, cpu), k, m);
    }
  }

  lemma EndsOnce<M(!new)>(u: Unit, h: Host<M>, next: Option<Word>, cpu: Cpu<M>, x: seq<Event<M>>, y: seq<Event<M>>)
    requires u.exe.Valid() && Ordered(u.g) && Ends(u, h, next, cpu, x) && Ends(u, h, next, cpu, y)
    ensures x == y
  {
    var m: nat :| Emission(u, h, next, cpu, m) == Finished(x);
    var k: nat :| Emission(u, h, next, cpu, k) == Finished(y);
    FinishedOnce(u, h, next, cpu, m, k);
  }

  lemma EndsBackward<M(!new)>(u: Unit, h: Host<M>, next: Option<Word>, cpu: Cpu<M>, events: seq<Event<M>>)
    returns (trace: seq<Event<M>>, exit: Exit<M>)
    requires Ready(u, h, next, cpu) && Ends(u, h, next, cpu, events)
    ensures Leaves(u, h, cpu, trace, exit) && events == Seen(u, h, Falls(u, next), trace, exit)
  {
    var m: nat :| Emission(u, h, next, cpu, m) == Finished(events);
    var s := Run(u, h, Start(u, cpu), m + 1);
    var k := PreservesMeaning(u, h, next, cpu, m + 1);
    FinishedOnce(u, h, next, cpu, m, k);
    assert s.Done?;
    trace, exit := s.trace, s.exit;
  }

  /** The two machines leave the function together: the emitted function ends if and only if the
      R3000A leaves the function, with the same calls, tail calls and return, each with the same
      registers and memory, up to the differences that Seen makes. */
  lemma SameEnd<M(!new)>(u: Unit, h: Host<M>, next: Option<Word>, cpu: Cpu<M>, events: seq<Event<M>>)
    requires Ready(u, h, next, cpu)
    ensures Ends(u, h, next, cpu, events) <==>
            exists trace, exit :: Leaves(u, h, cpu, trace, exit) && events == Seen(u, h, Falls(u, next), trace, exit)
  {
    if Ends(u, h, next, cpu, events) {
      var trace, exit := EndsBackward(u, h, next, cpu, events);
    }
    if trace, exit :| Leaves(u, h, cpu, trace, exit) && events == Seen(u, h, Falls(u, next), trace, exit) {
      EndsForward(u, h, next, cpu, trace, exit);
    }
  }

  // ---------------------------------------------------------------- exactly when the events are equal

  /** The emitted function takes a frame off the stack that the R3000A leaves there. */
  predicate Framed(u: Unit) {
    u.f.hasPrologue && u.f.frame > 0
  }

  /** Where the two differ: at an indirect jump of a function with a frame to an address outside;
      at control off the end without a call of what follows; and at an indirect jump to an address
      inside that is no case of the switch. */
  predicate Differs<M>(u: Unit, next: Option<Word>, exit: Exit<M>)
    requires Ordered(u.g) && u.g.order != []
  {
    (exit.Missed? && Framed(u)) || (exit.RanOff? && !(next.Some? && LastLive(u))) || exit.Strayed?
  }

  lemma WrapMoves(sp: Word, n: int)
    requires 0 < n < 0x1_0000_0000
    ensures Wrap(sp + n) != sp
  {
  }

  lemma SeenMissed<M>(u: Unit, h: Host<M>, falls: bool, trace: seq<Event<M>>, exit: Exit<M>)
    requires exit.Missed? && u.f.frame < 0x8000_0000
    ensures Seen(u, h, falls, trace, exit) == Events(h, trace, exit) <==> !Framed(u)
  {
    var after := trace + [Call(exit.to, exit.cpu)];
    var back := h.reply(after);
    var seen, events := Seen(u, h, falls, trace, exit), Events(h, trace, exit);
    assert events == after + [Ret(back)] && seen == after + [Ret(Unwound(u, back))];
    assert events[|after|] == Ret(back) && seen[|after|] == Ret(Unwound(u, back));
    if Framed(u) {
      WrapMoves(back.gpr[SP], u.f.frame);
      assert Unwound(u, back).gpr[SP] != back.gpr[SP];
    }
  }

  lemma SeenStrayed<M>(u: Unit, h: Host<M>, falls: bool, trace: seq<Event<M>>, exit: Exit<M>)
    requires exit.Strayed?
    ensures Seen(u, h, falls, trace, exit) != Events(h, trace, exit)
  {
    assert |Seen(u, h, falls, trace, exit)| == |trace| + 2;
  }

  lemma SeenRanOff<M>(u: Unit, h: Host<M>, falls: bool, trace: seq<Event<M>>, exit: Exit<M>)
    requires exit.RanOff?
    ensures Seen(u, h, falls, trace, exit) == Events(h, trace, exit) <==> falls
  {
    assert |TailCall(h, exit.to, exit.cpu, trace)| == |trace| + 2 && |trace + [Ret(exit.cpu)]| == |trace| + 1;
  }

  lemma LeftLawfully<M(!new)>(u: Unit, h: Host<M>, cpu: Cpu<M>, trace: seq<Event<M>>, exit: Exit<M>)
    requires Regular(u) && Leaves(u, h, cpu, trace, exit)
    ensures exit.Missed? || exit.Strayed? ==> HasIndirect(u)
    ensures exit.RanOff? ==> !EndsInFlow(u) && Reached(u, u.f.end - 4)
  {
    var n: nat :| Run(u, h, Start(u, cpu), n) == Done(trace, exit);
    EntryCovered(u);
    StartNotSkipped(u);
    RunLawful(u, h, Start(u, cpu), n);
  }

  lemma SeenExactly<M(!new)>(u: Unit, h: Host<M>, next: Option<Word>, cpu: Cpu<M>, trace: seq<Event<M>>,
                             exit: Exit<M>)
    requires Ready(u, h, next, cpu) && u.f.frame < 0x8000_0000 && Leaves(u, h, cpu, trace, exit)
    ensures Seen(u, h, Falls(u, next), trace, exit) == Events(h, trace, exit) <==> !Differs(u, next, exit)
  {
    LeftLawfully(u, h, cpu, trace, exit);
    if exit.Missed? {
      SeenMissed(u, h, Falls(u, next), trace, exit);
    } else if exit.Strayed? {
      SeenStrayed(u, h, Falls(u, next), trace, exit);
    } else if exit.RanOff? {
      SeenRanOff(u, h, Falls(u, next), trace, exit);
      TailAtEnd(u, next);
    }
  }

  /** For each run that leaves or strays: the emitted function has the events of the R3000A if and
      only if the run does not end in one of the three ways. */
  lemma AgreesExactly<M(!new)>(u: Unit, h: Host<M>, next: Option<Word>, cpu: Cpu<M>, trace: seq<Event<M>>,
                               exit: Exit<M>)
    requires Ready(u, h, next, cpu) && u.f.frame < 0x8000_0000 && Leaves(u, h, cpu, trace, exit)
    ensures Ends(u, h, next, cpu, Events(h, trace, exit)) <==> !Differs(u, next, exit)
  {
    var seen := Seen(u, h, Falls(u, next), trace, exit);
    EndsForward(u, h, next, cpu, trace, exit);
    SeenExactly(u, h, next, cpu, trace, exit);
    if Ends(u, h, next, cpu, Events(h, trace, exit)) {
      EndsOnce(u, h, next, cpu, seen, Events(h, trace, exit));
    }
  }

  /** No run that leaves can differ, as can be read off the function: it has no frame or no
      indirect jump; and it ends in a jump, or what follows is known and the last block is live, or
      the last block is dead and no jump table leads into dead blocks. */
  ghost predicate NeverDiffers(u: Unit, next: Option<Word>)
    requires Placed(u.exe, u.f) && Ordered(u.g) && u.g.order != []
  {
    && (Framed(u) ==> !HasIndirect(u))
    && (EndsInFlow(u) || (next.Some? && LastLive(u)) || (TablesCovered(u) && !LastLive(u)))
  }

  /** Every entry inside the function of a table of the translator is a label (TableCases says
      which ones are). */
  predicate EntryListed(u: Unit, a: Word, t: Word)
    requires u.exe.Readable(a)
  {
    t in u.tables(a, Rs(u.exe.WordAt(a))) && u.f.start <= t < u.f.end ==> HasLabel(u, t)
  }

  ghost predicate EntriesListed(u: Unit) {
    forall a: Word, t: Word {:trigger EntryListed(u, a, t)} |
      Within(u.f, a) && IndirectAt(u, a) :: EntryListed(u, a, t)
  }

  /** An indirect jump about to be executed goes where its table says, or outside. */
  predicate GoesByTable<M>(u: Unit, s: Machine<M>) {
    s.Running? && s.pending == NoJump && IndirectAt(u, s.pc) ==>
      var v := s.cpu.gpr[Rs(u.exe.WordAt(s.pc))];
      v in u.tables(s.pc, Rs(u.exe.WordAt(s.pc))) || !(u.f.start <= v < u.f.end)
  }

  /** All indirect jumps that are executed do. */
  ghost predicate JumpsByTable<M(!new)>(u: Unit, h: Host<M>, cpu: Cpu<M>) {
    forall n: nat :: GoesByTable(u, Run(u, h, Start(u, cpu), n))
  }

  predicate Strays<M>(s: Machine<M>) {
    (s.Running? && s.pending.StrayTo?) || (s.Done? && s.exit.Strayed?)
  }

  lemma IssueStays<M>(u: Unit, a: Word, cpu: Cpu<M>, trace: seq<Event<M>>)
    requires EntriesListed(u) && Within(u.f, a) && FlowAt(u.exe, a)
    requires GoesByTable(u, Running(a, NoJump, cpu, trace))
    ensures !Intended(u, a, u.exe.WordAt(a), cpu).0.StrayTo?
  {
    var w := u.exe.WordAt(a);
    if Analyze(a, w).kind == JumpRegister {
      var v := cpu.gpr[Rs(w)];
      assert IndirectAt(u, a);
      CasesAre(u, u.tables(a, Rs(w)), v);
      if v in u.tables(a, Rs(w)) && u.f.start <= v < u.f.end {
        assert EntryListed(u, a, v);
      }
    }
  }

  lemma StepStays<M>(u: Unit, h: Host<M>, s: Machine<M>)
    requires EntriesListed(u) && Regular(u) && Lawfully(u, s) && GoesByTable(u, s) && !Strays(s)
    ensures !Strays(Step(u, h, s))
  {
    if s.Running? && u.exe.Readable(s.pc) {
      ReadAlike(s.pc, u.exe.WordAt(s.pc));
      if s.pending == NoJump && IsControlFlow(u.exe.WordAt(s.pc)) {
        IssueStays(u, s.pc, s.cpu, s.trace);
        assert PlainAt(u.exe, s.pc);
        IntendedIs(u, s.pc, u.exe.WordAt(s.pc), s.cpu);
      }
    }
  }

  lemma {:induction false} NeverStrays<M(!new)>(u: Unit, h: Host<M>, cpu: Cpu<M>, n: nat)
    requires Regular(u) && EntriesListed(u) && JumpsByTable(u, h, cpu)
    ensures !Strays(Run(u, h, Start(u, cpu), n))
  {
    if n > 0 {
      NeverStrays(u, h, cpu, n - 1);
      EntryCovered(u);
      StartNotSkipped(u);
      RunLawful(u, h, Start(u, cpu), n - 1);
      StepStays(u, h, Run(u, h, Start(u, cpu), n - 1));
    }
  }

  lemma NoneDiffers<M(!new)>(u: Unit, h: Host<M>, next: Option<Word>, cpu: Cpu<M>, trace: seq<Event<M>>, exit: Exit<M>)
    requires Ready(u, h, next, cpu) && NeverDiffers(u, next) && Leaves(u, h, cpu, trace, exit) && !exit.Strayed?
    ensures Seen(u, h, Falls(u, next), trace, exit) == Events(h, trace, exit)
  {
    LeftLawfully(u, h, cpu, trace, exit);
    if exit.RanOff? {
      LastIsCovered(u);
      TailAtEnd(u, next);
    }
  }

  lemma LeavesOrStays<M(!new)>(u: Unit, h: Host<M>, cpu: Cpu<M>, trace: seq<Event<M>>, exit: Exit<M>)
    requires Regular(u) && EntriesListed(u) && JumpsByTable(u, h, cpu) && Leaves(u, h, cpu, trace, exit)
    ensures !exit.Strayed?
  {
    var n: nat :| Run(u, h, Start(u, cpu), n) == Done(trace, exit);
    NeverStrays(u, h, cpu, n);
  }

  /** Such a function has exactly the events of the R3000A, in every run whose indirect jumps, if
      any, go by tables all of whose entries are labels. */
  lemma SameEvents<M(!new)>(u: Unit, h: Host<M>, next: Option<Word>, cpu: Cpu<M>, events: seq<Event<M>>)
    requires Ready(u, h, next, cpu) && NeverDiffers(u, next) && EntriesListed(u) && JumpsByTable(u, h, cpu)
    ensures Ends(u, h, next, cpu, events) <==>
            exists trace, exit :: Leaves(u, h, cpu, trace, exit) && events == Events(h, trace, exit)
  {
    if Ends(u, h, next, cpu, events) {
      var trace, exit := EndsBackward(u, h, next, cpu, events);
      LeavesOrStays(u, h, cpu, trace, exit);
      NoneDiffers(u, h, next, cpu, trace, exit);
    }
    if trace, exit :| Leaves(u, h, cpu, trace, exit) && events == Events(h, trace, exit) {
      EndsForward(u, h, next, cpu, trace, exit);
      LeavesOrStays(u, h, cpu, trace, exit);
      NoneDiffers(u, h, next, cpu, trace, exit);
    }
  }

  /** Why the end must be known: with no function known to follow, a run that steps off the last
      word goes on at the end on the R3000A and returns to its caller in the emitted function;
      any other run agrees, but for those that leave by an indirect jump with a frame or stray.
      Only the last function of an executable can be such a one (Pipeline.EndsAreKnown). */
  lemma EndMatters<M(!new)>(u: Unit, h: Host<M>, cpu: Cpu<M>, trace: seq<Event<M>>, exit: Exit<M>)
    requires Ready(u, h, None, cpu) && u.f.frame < 0x8000_0000 && Leaves(u, h, cpu, trace, exit)
    ensures exit.RanOff? ==>
              && Events(h, trace, exit) == TailCall(h, exit.to, exit.cpu, trace)
              && Ends(u, h, None, cpu, trace + [Ret(exit.cpu)])
              && !Ends(u, h, None, cpu, Events(h, trace, exit))
    ensures !exit.RanOff? && !(exit.Missed? && Framed(u)) && !exit.Strayed? ==>
              Ends(u, h, None, cpu, Events(h, trace, exit))
  {
    AgreesExactly(u, h, None, cpu, trace, exit);
    EndsForward(u, h, None, cpu, trace, exit);
  }

  // ---------------------------------------------------------------- events of runs that never end

  function Heard<M>(t: Program<M>): Option<seq<Event<M>>> {
    match t
    case At(_, _, _, trace) => Some(trace)
    case Finished(trace) => Some(trace)
    case Broken => None
  }

  /** What the emitted function should have made heard when the R3000A is at s. */
  function Told<M>(u: Unit, h: Host<M>, falls: bool, s: Machine<M>): seq<Event<M>> {
    match s
    case Running(_, _, _, trace) => trace
    case Done(trace, exit) => Seen(u, h, falls, trace, exit)
    case Stuck(trace) => trace
  }

  /** t' has made every call that t has made. */
  predicate Extends<M(==)>(t': Program<M>, t: Program<M>) {
    Heard(t).Some? && Heard(t').Some? ==> Heard(t).value <= Heard(t').value
  }

  lemma CStepExtends<M>(body: seq<Stmt>, h: Host<M>, t: Program<M>)
    ensures Extends(CStep(body, h, t), t)
  {
  }

  lemma {:induction false} CRunExtends<M>(body: seq<Stmt>, h: Host<M>, t: Program<M>, m: nat, k: nat)
    requires m <= k
    ensures Extends(CRun(body, h, t, k), CRun(body, h, t, m))
    decreases k
  {
    if m < k {
      CRunExtends(body, h, t, m, k - 1);
      CStepExtends(body, h, CRun(body, h, t, k - 1));
      if CRun(body, h, t, k - 1).Broken? {
        BrokenStays(body, h, t, k - 1, k);
      }
    }
  }

  /** The emitted function makes no call that the R3000A does not make, until they differ: whatever
      it has done after m statements, some run of the R3000A has done. */
  lemma NoExtraEvents<M(!new)>(u: Unit, h: Host<M>, next: Option<Word>, cpu: Cpu<M>, m: nat) returns (n: nat)
    requires Ready(u, h, next, cpu)
    ensures var t := Emission(u, h, next, cpu, m);
            && Heard(t).Some?
            && !Run(u, h, Start(u, cpu), n).Stuck?
            && Heard(t).value <= Told(u, h, Falls(u, next), Run(u, h, Start(u, cpu), n))
    ensures u.f.frame < 0x8000_0000 ==>
              var s := Run(u, h, Start(u, cpu), n);
              s.Done? && !Differs(u, next, s.exit) ==>
                Told(u, h, Falls(u, next), s) == Events(h, s.trace, s.exit)
  {
    n := m + 1;
    var all := Emitted(u, next);
    var k := PreservesMeaning(u, h, next, cpu, n);
    NeverBroken(u, h, next, cpu, m);
    if k >= m {
      CRunExtends(all, h, Entry(all, cpu), m, k);
    } else {
      CRunStays(all, h, Entry(all, cpu), k, m);
    }
    var s := Run(u, h, Start(u, cpu), n);
    if u.f.frame < 0x8000_0000 && s.Done? {
      SeenExactly(u, h, next, cpu, s.trace, s.exit);
    }
  }
}
