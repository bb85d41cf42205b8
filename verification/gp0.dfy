/** GP0 commands as a stream of words: how many words each takes, and a one-pass parser. */
module Gp0 {
  import opened Mips
  import opened Bits
  import opened Seqs

  function Type(cmd: Word): nat {
    cmd / 0x2000_0000
  }

  function Operation(cmd: Word): nat {
    cmd / 0x100_0000
  }

  predicate Gouraud(cmd: Word) {
    cmd / 0x1000_0000 % 2 == 1
  }

  /** Four vertices, a line of many points, or a fixed size, depending on the type. */
  predicate Bit27(cmd: Word) {
    cmd / 0x800_0000 % 2 == 1
  }

  predicate Textured(cmd: Word) {
    cmd / 0x400_0000 % 2 == 1
  }

  /** The words a command takes, header included; -1 for polylines. */
  function ParameterCount(cmd: Word): int {
    match Type(cmd)
    case 0 => if Operation(cmd) == 2 then 3 else 1
    case 1 =>
      var verts := if Bit27(cmd) then 4 else 3;
      var tex := if Textured(cmd) then 1 else 0;
      if Gouraud(cmd) then verts * (2 + tex) else 1 + verts * (1 + tex)
    case 2 => if Bit27(cmd) then -1 else if Gouraud(cmd) then 4 else 3
    case 3 => 2 + (if Textured(cmd) then 1 else 0) + (if Bit27(cmd) then 0 else 1)
    case 4 => 4
    case 5 => 3
    case 6 => 3
    case _ => 1
  }

  // ---------------------------------------------------------------- what the handlers read

  /** The words read for the vertices from i on, given those read before. */
  function VertexWords(cmd: Word, i: nat, count: nat, before: nat): nat
    requires i <= count
    decreases count - i, before
  {
    if i == count then before
    else
      var colour := if i == 0 || Gouraud(cmd) then 1 else 0;
      var texture := if Type(cmd) == 1 && Textured(cmd) then 1 else 0;
      VertexWords(cmd, i + 1, count, before + colour + 1 + texture)
  }

  /** How many parameter words the handler of a command uses. A polyline header is read as one
      vertex, which draws nothing. */
  function HandlerWords(cmd: Word): nat {
    match Type(cmd)
    case 0 => if Operation(cmd) == 2 then 3 else 1
    case 1 => VertexWords(cmd, 0, if Bit27(cmd) then 4 else 3, 0)
    case 2 => if Bit27(cmd) then 1 else VertexWords(cmd, 0, 2, 0)
    case 3 => 2 + (if Textured(cmd) then 1 else 0) + (if Bit27(cmd) then 0 else 1)
    case 4 => 4
    case 5 => 3
    case 6 => 3
    case _ => 1
  }

  lemma {:induction false} VertexWordsAre(cmd: Word, i: nat, count: nat, before: nat)
    requires i <= count
    ensures var texture := if Type(cmd) == 1 && Textured(cmd) then 1 else 0;
            VertexWords(cmd, i, count, before) ==
            before + (if Gouraud(cmd) then (count - i) * (2 + texture)
                      else (count - i) * (1 + texture) + if i == 0 && count > 0 then 1 else 0)
    decreases count - i
  {
    if i < count {
      var colour := if i == 0 || Gouraud(cmd) then 1 else 0;
      var texture := if Type(cmd) == 1 && Textured(cmd) then 1 else 0;
      VertexWordsAre(cmd, i + 1, count, before + colour + 1 + texture);
    }
  }

  /** Every handler uses exactly the words that were collected for it, except that a polyline
      is executed with its header alone. */
  lemma HandlersReadAll(cmd: Word)
    ensures HandlerWords(cmd) == if ParameterCount(cmd) == -1 then 1 else ParameterCount(cmd)
    ensures ParameterCount(cmd) == -1 || 1 <= ParameterCount(cmd) <= 12
    ensures ParameterCount(cmd) == -1 <==> Type(cmd) == 2 && Bit27(cmd)
  {
    VertexWordsAre(cmd, 0, 2, 0);
    VertexWordsAre(cmd, 0, 3, 0);
    VertexWordsAre(cmd, 0, 4, 0);
  }

  // ---------------------------------------------------------------- the parser, word by word

  /** What the interpreter passes on: commands with their words, and uploads to VRAM. */
  datatype Event =
    | Execute(words: seq<Word>)
    | Upload(x: nat, y: nat, width: nat, height: nat, pixels: seq<Half>)

  datatype Phase =
    | Idle
    | Collect(words: seq<Word>, need: int)
    | Stream(x: nat, y: nat, width: nat, height: nat, pixels: seq<Half>)

  datatype Parser = Parser(phase: Phase, log: seq<Event>)

  function Low(w: Word): Half {
    w % 0x1_0000
  }

  function High(w: Word): Half {
    w / 0x1_0000
  }

  function AtMost(v: nat, limit: nat): nat {
    if v > limit then limit else v
  }

  /** The header of a transfer from the CPU is complete. With a zero dimension it is executed
      as it is, and does nothing. */
  function BeginTransfer(words: seq<Word>, log: seq<Event>): Parser
    requires |words| == 3
  {
    var w, h := Low(words[2]), High(words[2]);
    if w == 0 || h == 0 then Parser(Idle, log + [Execute(words)])
    else Parser(Stream(words[1] % 1024, words[1] / 0x1_0000 % 512, AtMost(w, 1024), AtMost(h, 512), []), log)
  }

  /** The words of a command so far, after the last one came in. */
  function Settle(words: seq<Word>, need: int, log: seq<Event>): Parser
    requires words != [] && (Type(words[0]) == 5 ==> need == 3 && |words| <= 3)
  {
    if |words| < need then Parser(Collect(words, need), log)
    else if Type(words[0]) == 5 then BeginTransfer(words, log)
    else Parser(Idle, log + [Execute(words)])
  }

  /** One data word: its low half is a pixel, its high half the next if there is room. */
  function TakePixels(s: Phase, w: Word, log: seq<Event>): Parser
    requires s.Stream?
  {
    var one := s.pixels + [Low(w)];
    var both := if |one| < s.width * s.height then one + [High(w)] else one;
    if |both| >= s.width * s.height then Parser(Idle, log + [Upload(s.x, s.y, s.width, s.height, both)])
    else Parser(s.(pixels := both), log)
  }

  predicate PhaseOk(s: Phase) {
    match s
    case Idle => true
    case Collect(words, need) => 1 <= |words| < need <= 12 && need == ParameterCount(words[0])
    case Stream(x, y, w, h, pixels) =>
      x < 1024 && y < 512 && 1 <= w <= 1024 && 1 <= h <= 512 && |pixels| < w * h
  }

  function Feed(p: Parser, w: Word): (r: Parser)
    requires PhaseOk(p.phase)
    ensures PhaseOk(r.phase)
  {
    HandlersReadAll(w);
    match p.phase
    case Idle => FeedFirst(w, p.log)
    case Collect(words, need) =>
      HandlersReadAll(words[0]);
      SettleOk(words + [w], need, p.log);
      Settle(words + [w], need, p.log)
    case Stream(_, _, _, _, _) => TakePixels(p.phase, w, p.log)
  }

  function FeedFirst(w: Word, log: seq<Event>): (r: Parser)
    ensures PhaseOk(r.phase)
  {
    HandlersReadAll(w);
    SettleOk([w], ParameterCount(w), log);
    Settle([w], ParameterCount(w), log)
  }

  lemma SettleOk(words: seq<Word>, need: int, log: seq<Event>)
    requires words != [] && need == ParameterCount(words[0]) && (|words| <= need || |words| == 1)
    ensures Type(words[0]) == 5 ==> need == 3 && |words| <= 3
    ensures PhaseOk(Settle(words, need, log).phase)
  {
    HandlersReadAll(words[0]);
    if Type(words[0]) == 5 && |words| == 3 {
      AreaPositive(AtMost(Low(words[2]), 1024), AtMost(High(words[2]), 512));
    }
  }

  lemma AreaPositive(w: nat, h: nat)
    ensures w > 0 && h > 0 ==> w * h > 0
  {
  }

  function FeedAll(p: Parser, ws: seq<Word>): (r: Parser)
    requires PhaseOk(p.phase)
    ensures PhaseOk(r.phase)
    decreases |ws|
  {
    if ws == [] then p else FeedAll(Feed(p, ws[0]), ws[1..])
  }

  lemma {:induction false} FeedAllConcat(p: Parser, x: seq<Word>, y: seq<Word>)
    requires PhaseOk(p.phase)
    ensures FeedAll(p, x + y) == FeedAll(FeedAll(p, x), y)
    decreases |x|
  {
    if x == [] {
      assert x + y == y;
    } else {
      assert (x + y)[1..] == x[1..] + y;
      FeedAllConcat(Feed(p, x[0]), x[1..], y);
    }
  }

  // ---------------------------------------------------------------- the same, command by command

  function DataWords(pixels: nat): nat {
    (pixels + 1) / 2
  }

  /** The i-th halfword of a stream, low half of each word first. */
  function HalfAt(ws: seq<Word>, i: nat): Half
    requires i < 2 * |ws|
  {
    if i % 2 == 0 then Low(ws[i / 2]) else High(ws[i / 2])
  }

  function Halves(ws: seq<Word>, n: nat): seq<Half>
    requires n <= 2 * |ws|
  {
    seq(n, i requires 0 <= i < n => HalfAt(ws, i))
  }

  predicate StartsTransfer(q: seq<Word>) {
    |q| >= 3 && Type(q[0]) == 5 && Low(q[2]) != 0 && High(q[2]) != 0
  }

  function Width(q: seq<Word>): nat
    requires |q| >= 3
  {
    AtMost(Low(q[2]), 1024)
  }

  function Height(q: seq<Word>): nat
    requires |q| >= 3
  {
    AtMost(High(q[2]), 512)
  }

  /** The words of the first command, as far as q tells: those of its header, and for a transfer
      from the CPU the data that its dimensions call for. */
  function FrameWords(q: seq<Word>): (n: nat)
    requires q != []
    ensures n >= 1
  {
    HandlersReadAll(q[0]);
    if StartsTransfer(q) then 3 + DataWords(Width(q) * Height(q)) else HandlerWords(q[0])
  }

  /** What the first command amounts to when all its words are there. */
  function FrameEvent(q: seq<Word>): Event
    requires q != [] && FrameWords(q) <= |q|
  {
    if StartsTransfer(q) then
      Upload(q[1] % 1024, q[1] / 0x1_0000 % 512, Width(q), Height(q), Halves(q[3..], Width(q) * Height(q)))
    else Execute(q[..FrameWords(q)])
  }

  /** The events of the whole commands at the front, and the words that are left over. */
  datatype Parsed = Parsed(events: seq<Event>, rest: seq<Word>)

  /** Whole commands are taken off the front, one after the other. */
  function Parse(q: seq<Word>): Parsed
    decreases |q|
  {
    if q == [] || |q| < FrameWords(q) then Parsed([], q)
    else
      var later := Parse(q[FrameWords(q)..]);
      Parsed([FrameEvent(q)] + later.events, later.rest)
  }

  /** Words short of filling a transfer are all kept. */
  lemma {:induction false} StreamKeeps(s: Phase, ws: seq<Word>, log: seq<Event>)
    requires s.Stream? && PhaseOk(s) && |s.pixels| + 2 * |ws| < s.width * s.height
    ensures FeedAll(Parser(s, log), ws) == Parser(s.(pixels := s.pixels + Halves(ws, 2 * |ws|)), log)
    decreases |ws|
  {
    if ws == [] {
      assert s.pixels + [] == s.pixels;
    } else {
      var next := s.(pixels := s.pixels + [Low(ws[0])] + [High(ws[0])]);
      StreamKeeps(next, ws[1..], log);
      HalvesTail(ws, s.pixels);
    }
  }

  lemma HalvesTail(ws: seq<Word>, before: seq<Half>)
    requires ws != []
    ensures before + [Low(ws[0])] + [High(ws[0])] + Halves(ws[1..], 2 * |ws| - 2) == before + Halves(ws, 2 * |ws|)
  {
    var rest := ws[1..];
    forall i | 0 <= i < 2 * |ws| - 2 ensures HalfAt(rest, i) == HalfAt(ws, i + 2) {
      assert rest[i / 2] == ws[(i + 2) / 2];
    }
  }

  lemma LastTaken(s: Phase, n: nat, w: Word, log: seq<Event>, all: seq<Half>)
    requires s.Stream? && n == s.width * s.height
    requires n == |s.pixels| + 1 || n == |s.pixels| + 2
    requires all == if n == |s.pixels| + 1 then s.pixels + [Low(w)] else s.pixels + [Low(w)] + [High(w)]
    ensures TakePixels(s, w, log) == Parser(Idle, log + [Upload(s.x, s.y, s.width, s.height, all)])
  {
  }

  lemma FeedOne(p: Parser, ws: seq<Word>, w: Word)
    requires PhaseOk(p.phase)
    ensures FeedAll(p, ws + [w]) == Feed(FeedAll(p, ws), w)
  {
    FeedAllConcat(p, ws, [w]);
    var q := FeedAll(p, ws);
    assert FeedAll(q, [w]) == FeedAll(Feed(q, w), [w][1..]);
  }

  /** The words that fill a transfer make one upload: pixel i is halfword i of the stream. */
  lemma StreamFills(s: Phase, n: nat, ws: seq<Word>, log: seq<Event>)
    requires s.Stream? && PhaseOk(s) && s.pixels == [] && n == s.width * s.height && |ws| == DataWords(n)
    ensures FeedAll(Parser(s, log), ws) == Parser(Idle, log + [Upload(s.x, s.y, s.width, s.height, Halves(ws, n))])
  {
    var front, last := ws[..|ws| - 1], ws[|ws| - 1];
    assert ws == front + [last];
    StreamKeeps(s, front, log);
    FeedOne(Parser(s, log), front, last);
    LastWord(ws, n);
    assert [] + Halves(front, 2 * |front|) == Halves(front, 2 * |front|);
    LastTaken(s.(pixels := Halves(front, 2 * |front|)), n, last, log, Halves(ws, n));
  }

  lemma LastWord(ws: seq<Word>, n: nat)
    requires n > 0 && |ws| == DataWords(n)
    ensures var front := Halves(ws[..|ws| - 1], 2 * |ws| - 2);
            var last := ws[|ws| - 1];
            && |front| == 2 * |ws| - 2 && (n == |front| + 1 || n == |front| + 2)
            && Halves(ws, n) == if n == |front| + 1 then front + [Low(last)] else front + [Low(last)] + [High(last)]
  {
    var short := ws[..|ws| - 1];
    forall i | 0 <= i < 2 * |short| ensures HalfAt(short, i) == HalfAt(ws, i) {
    }
  }

  lemma {:induction false} CollectTakes(words: seq<Word>, need: nat, ws: seq<Word>, log: seq<Event>)
    requires words != [] && PhaseOk(Collect(words, need)) && |words| + |ws| < need
    ensures FeedAll(Parser(Collect(words, need), log), ws) == Parser(Collect(words + ws, need), log)
    decreases |ws|
  {
    if ws == [] {
      assert words + [] == words;
    } else {
      CollectTakes(words + [ws[0]], need, ws[1..], log);
      assert words + [ws[0]] + ws[1..] == words + ws;
    }
  }

  /** The words of a header, short of the last, are collected. */
  lemma HeaderCollects(q: seq<Word>, n: nat, log: seq<Event>)
    requires 0 < n <= |q| && n < HandlerWords(q[0])
    ensures n < ParameterCount(q[0])
    ensures PhaseOk(Collect(q[..n], ParameterCount(q[0])))
    ensures FeedAll(Parser(Idle, log), q[..n]) == Parser(Collect(q[..n], ParameterCount(q[0])), log)
  {
    HandlersReadAll(q[0]);
    var ws := q[..n];
    CollectTakes([ws[0]], ParameterCount(q[0]), ws[1..], log);
    assert [ws[0]] + ws[1..] == ws;
  }

  lemma HeaderSettles(q: seq<Word>, log: seq<Event>)
    requires q != [] && HandlerWords(q[0]) <= |q|
    ensures Type(q[0]) == 5 ==> HandlerWords(q[0]) == ParameterCount(q[0]) == 3
    ensures HandlerWords(q[0]) >= 1
    ensures FeedAll(Parser(Idle, log), q[..HandlerWords(q[0])]) ==
            Settle(q[..HandlerWords(q[0])], ParameterCount(q[0]), log)
  {
    HandlersReadAll(q[0]);
    var n := HandlerWords(q[0]);
    var ws := q[..n];
    if n == 1 {
      assert ws == [q[0]] && ws[1..] == [];
    } else {
      HeaderCollects(q, n - 1, log);
      assert ws == q[..n - 1] + [q[n - 1]];
      FeedOne(Parser(Idle, log), q[..n - 1], q[n - 1]);
    }
  }

  /** A whole command is passed on as one event. */
  lemma FrameFeeds(q: seq<Word>, log: seq<Event>)
    requires q != [] && FrameWords(q) <= |q|
    ensures FeedAll(Parser(Idle, log), q[..FrameWords(q)]) == Parser(Idle, log + [FrameEvent(q)])
  {
    HandlersReadAll(q[0]);
    HeaderSettles(q, log);
    if StartsTransfer(q) {
      var data := q[3..FrameWords(q)];
      assert q[..FrameWords(q)] == q[..3] + data;
      FeedAllConcat(Parser(Idle, log), q[..3], data);
      AreaPositive(Width(q), Height(q));
      var s := Stream(q[1] % 1024, q[1] / 0x1_0000 % 512, Width(q), Height(q), []);
      StreamFills(s, Width(q) * Height(q), data, log);
      SameHalves(q, data);
    }
  }

  lemma SameHalves(q: seq<Word>, data: seq<Word>)
    requires StartsTransfer(q) && FrameWords(q) <= |q| && data == q[3..FrameWords(q)]
    ensures Halves(data, Width(q) * Height(q)) == Halves(q[3..], Width(q) * Height(q))
  {
  }

  /** Words short of a whole command are kept, and nothing is passed on. */
  lemma PartWaits(q: seq<Word>, log: seq<Event>)
    requires q != [] && |q| < FrameWords(q)
    ensures FeedAll(Parser(Idle, log), q).log == log && !FeedAll(Parser(Idle, log), q).phase.Idle?
  {
    HandlersReadAll(q[0]);
    if StartsTransfer(q) {
      HeaderSettles(q, log);
      assert q == q[..3] + q[3..];
      FeedAllConcat(Parser(Idle, log), q[..3], q[3..]);
      AreaPositive(Width(q), Height(q));
      var s := Stream(q[1] % 1024, q[1] / 0x1_0000 % 512, Width(q), Height(q), []);
      StreamKeeps(s, q[3..], log);
    } else {
      HeaderCollects(q, |q|, log);
      assert q[..|q|] == q;
    }
  }

  lemma FrameThenRest(q: seq<Word>, log: seq<Event>)
    requires q != [] && FrameWords(q) <= |q|
    ensures FeedAll(Parser(Idle, log), q) == FeedAll(Parser(Idle, log + [FrameEvent(q)]), q[FrameWords(q)..])
  {
    FrameFeeds(q, log);
    FeedSplit(Parser(Idle, log), q, FrameWords(q));
  }

  lemma FeedSplit(p: Parser, q: seq<Word>, n: nat)
    requires PhaseOk(p.phase) && n <= |q|
    ensures FeedAll(p, q) == FeedAll(FeedAll(p, q[..n]), q[n..])
  {
    assert q == q[..n] + q[n..];
    FeedAllConcat(p, q[..n], q[n..]);
  }

  /** r is what feeding the words of q to an idle parser comes to. */
  predicate Amounts(r: Parser, parsed: Parsed, log: seq<Event>) {
    && r.log == log + parsed.events
    && r == FeedAll(Parser(Idle, log + parsed.events), parsed.rest)
    && (parsed.rest == [] <==> r.phase.Idle?)
  }

  lemma NothingYet(q: seq<Word>, log: seq<Event>)
    requires q == [] || |q| < FrameWords(q)
    ensures Amounts(FeedAll(Parser(Idle, log), q), Parsed([], q), log)
  {
    assert log + [] == log;
    if q != [] {
      PartWaits(q, log);
    }
  }

  /** Feeding words one at a time passes on the events of the one-pass parser, and what is left
      over is the start of one command. */
  lemma {:induction false} FeedIsParse(q: seq<Word>, log: seq<Event>)
    ensures Amounts(FeedAll(Parser(Idle, log), q), Parse(q), log)
    decreases |q|
  {
    if q == [] || |q| < FrameWords(q) {
      NothingYet(q, log);
    } else {
      var later := Parse(q[FrameWords(q)..]);
      FrameThenRest(q, log);
      FeedIsParse(q[FrameWords(q)..], log + [FrameEvent(q)]);
      Regroup(log, [FrameEvent(q)], later.events);
    }
  }

  // ---------------------------------------------------------------- all runs

  /** What may happen to the interpreter from outside. */
  datatype Action = Send(w: Word) | ResetGpu | ResetCommandBuffer | AbortStreaming

  function Act(p: Parser, a: Action): (r: Parser)
    requires PhaseOk(p.phase)
    ensures PhaseOk(r.phase)
  {
    match a
    case Send(w) => Feed(p, w)
    case ResetGpu => Parser(Idle, p.log)
    case ResetCommandBuffer => if p.phase.Stream? then p else Parser(Idle, p.log)
    case AbortStreaming => if p.phase.Stream? then Parser(Idle, p.log) else p
  }

  function Acts(actions: seq<Action>): (r: Parser)
    ensures PhaseOk(r.phase)
  {
    if actions == [] then Parser(Idle, []) else Act(Acts(actions[..|actions| - 1]), actions[|actions| - 1])
  }

  /** A command has the words its handler uses; a transfer from the CPU comes to be executed as
      a command only with a zero dimension, so that its handler never copies; an upload has a
      pixel for each place in its rectangle. */
  predicate Sound(e: Event) {
    match e
    case Execute(words) =>
      && words != [] && |words| == HandlerWords(words[0])
      && (Type(words[0]) == 5 ==> |words| == 3 && (Low(words[2]) == 0 || High(words[2]) == 0))
    case Upload(x, y, w, h, pixels) =>
      x < 1024 && y < 512 && 1 <= w <= 1024 && 1 <= h <= 512 && |pixels| == w * h
  }

  ghost predicate AllSound(log: seq<Event>) {
    forall e | e in log :: Sound(e)
  }

  lemma TakePixelsSound(s: Phase, w: Word, log: seq<Event>)
    requires s.Stream? && PhaseOk(s) && AllSound(log)
    ensures AllSound(TakePixels(s, w, log).log)
  {
    PixelsFit(s, w, s.width * s.height);
  }

  lemma PixelsFit(s: Phase, w: Word, n: nat)
    requires s.Stream? && |s.pixels| < n
    ensures var one := s.pixels + [Low(w)];
            |if |one| < n then one + [High(w)] else one| <= n
  {
  }

  lemma SettleSound(words: seq<Word>, need: int, log: seq<Event>)
    requires words != [] && need == ParameterCount(words[0]) && (|words| <= need || |words| == 1) && AllSound(log)
    ensures Type(words[0]) == 5 ==> need == 3 && |words| <= 3
    ensures AllSound(Settle(words, need, log).log)
  {
    SettleOk(words, need, log);
    HandlersReadAll(words[0]);
  }

  /** Whatever is sent and whenever the interpreter is reset, every event it passes on is sound. */
  lemma {:induction false} RunsAreSound(actions: seq<Action>)
    ensures AllSound(Acts(actions).log)
  {
    if actions != [] {
      var front, a := actions[..|actions| - 1], actions[|actions| - 1];
      RunsAreSound(front);
      var p := Acts(front);
      if a.Send? {
        match p.phase
        case Idle => SettleSound([a.w], ParameterCount(a.w), p.log);
        case Collect(words, need) => SettleSound(words + [a.w], need, p.log);
        case Stream(_, _, _, _, _) => TakePixelsSound(p.phase, a.w, p.log);
      }
    }
  }
}
