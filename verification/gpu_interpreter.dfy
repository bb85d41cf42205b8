/** The GP0 side of the GPU interpreter: a ring FIFO, a command buffer, and a streaming mode. */
module GpuInterpreter {
  import opened Mips
  import opened Bits
  import opened Gp0
  import opened Ring

  lemma Wrapped(i: nat, n: nat)
    requires i < 64 && n < 64
    ensures (i + n) % 64 == Ahead(i, n, 64) && (i + 1) % 64 == Next(i, 64)
  {
  }

  class Gpu {
    const fifo: array<Word>
    var writePos: nat
    var readPos: nat
    var count: nat

    var current: Word
    const params: array<Word>
    var received: int
    var needed: int

    var active: bool
    var isCpu: bool
    var x: nat
    var y: nat
    var width: nat
    var height: nat
    var remaining: nat
    var staging: seq<Half>

    /** What the renderer has been told. */
    var log: seq<Event>

    ghost predicate QueueOk()
      reads this
    {
      && fifo.Length == 64 && params.Length == 16 && fifo != params
      && writePos < 64 && readPos < 64 && count <= 64
      && writePos == Ahead(readPos, count, 64)
    }

    /** The words in the FIFO, oldest first. */
    ghost function Queue(): seq<Word>
      requires QueueOk()
      reads this, fifo
    {
      Items(fifo[..], readPos, count)
    }

    ghost predicate Streaming()
      reads this
    {
      && active && isCpu && remaining >= 1 && |staging| + remaining == width * height
      && x < 1024 && y < 512 && 1 <= width <= 1024 && 1 <= height <= 512
    }

    ghost predicate Waiting()
      requires params.Length == 16
      reads this, params
    {
      && !active
      && if current == 0 then received == 0
         else 1 <= received < needed <= 12 && current == params[0] && needed == ParameterCount(current)
    }

    /** What holds between any two calls, but for the FIFO being empty. */
    ghost predicate Valid()
      reads this, fifo, params
    {
      QueueOk() && (Streaming() || Waiting())
    }

    ghost function State(): (p: Parser)
      requires Valid()
      reads this, fifo, params
      ensures PhaseOk(p.phase)
    {
      Parser(if active then Stream(x, y, width, height, staging)
             else if current == 0 then Idle
             else Collect(params[..received], needed),
             log)
    }

    constructor ()
      ensures Valid() && State() == Parser(Idle, []) && Queue() == []
      ensures fresh(fifo) && fresh(params)
    {
      fifo := new Word[64](_ => 0);
      params := new Word[16](_ => 0);
      writePos, readPos, count := 0, 0, 0;
      current, received, needed := 0, 0, 0;
      active, isCpu := false, false;
      x, y, width, height, remaining := 0, 0, 0, 0, 0;
      staging, log := [], [];
    }

    // -------------------------------------------------------------- the ring

    /** A word for a full FIFO is dropped. */
    method Push(value: Word)
      requires QueueOk()
      modifies this`writePos, this`count, fifo
      ensures QueueOk()
      ensures old(count) < 64 ==> count == old(count) + 1 && Queue() == old(Queue()) + [value]
      ensures old(count) == 64 ==> count == 64 && Queue() == old(Queue())
    {
      if count >= 64 {
        return;
      }
      StoreAppends(fifo[..], readPos, count, value);
      Wrapped(writePos, 1);
      ghost var before := fifo[..];
      fifo[writePos] := value;
      assert fifo[..] == before[writePos := value];
      writePos := (writePos + 1) % 64;
      count := count + 1;
    }

    method Pop() returns (value: Word)
      requires QueueOk() && count > 0
      modifies this`readPos, this`count
      ensures QueueOk() && count == old(count) - 1
      ensures [value] + Queue() == old(Queue())
    {
      Wrapped(readPos, 1);
      value := fifo[readPos];
      readPos := (readPos + 1) % 64;
      count := count - 1;
    }

    // -------------------------------------------------------------- streaming

    /** The state while a transfer is drained: it may have just been completed. */
    ghost predicate Draining()
      reads this
    {
      QueueOk() && active && isCpu && (Streaming() || (remaining == 0 && staging == []))
    }

    ghost function Drained(): (p: Parser)
      requires Draining()
      reads this
      ensures PhaseOk(p.phase)
    {
      Parser(if remaining > 0 then Stream(x, y, width, height, staging) else Idle, log)
    }

    method StreamWord(pixel0: Half, pixel1: Half, secondValid: bool)
      requires QueueOk() && Streaming()
      requires secondValid == (remaining >= 2)
      modifies this`staging, this`remaining, this`log
      ensures Draining()
      ensures forall w: Word | Low(w) == pixel0 && High(w) == pixel1 ::
                Drained() == TakePixels(old(Drained().phase), w, old(log))
    {
      if !active || !isCpu {
        return;
      }
      staging := staging + [pixel0];
      remaining := remaining - 1;
      if secondValid && remaining > 0 {
        staging := staging + [pixel1];
        remaining := remaining - 1;
      }
      if remaining == 0 {
        if staging != [] {
          log := log + [Upload(x, y, width, height, staging)];
        }
        staging := [];
      }
    }

    method DrainWord(ghost target: Parser)
      requires Draining() && remaining > 0 && count > 0
      requires FeedAll(Drained(), Queue()) == target
      modifies this`staging, this`remaining, this`log, this`readPos, this`count
      ensures Draining() && count == old(count) - 1
      ensures FeedAll(Drained(), Queue()) == target
    {
      ghost var before := Drained();
      ghost var queue := Queue();
      var word := Pop();
      assert queue[0] == word && queue[1..] == Queue();
      StreamWord(word % 0x1_0000, word / 0x1_0000 % 0x1_0000, remaining >= 2);
      HalvesOf(word);
      assert Drained() == Feed(before, word);
    }

    lemma HalvesOf(word: Word)
      ensures word % 0x1_0000 == Low(word) && word / 0x1_0000 % 0x1_0000 == High(word)
    {
    }

    /** Streaming mode: data words go to the transfer until it or the FIFO is finished. */
    method Drain(ghost target: Parser)
      requires Valid() && active && count > 0
      requires FeedAll(State(), Queue()) == target
      modifies this
      ensures Valid() && count < old(count)
      ensures FeedAll(State(), Queue()) == target && (active ==> count == 0)
    {
      while count != 0 && remaining > 0
        invariant Draining() && (remaining == 0 ==> count < old(count)) && count <= old(count)
        invariant FeedAll(Drained(), Queue()) == target
        decreases count
      {
        DrainWord(target);
      }
      if remaining == 0 {
        active := false;
        current := 0;
        received := 0;
        needed := 0;
      }
    }

    // -------------------------------------------------------------- commands

    /** A command whose words have all come in, or the header of a transfer with a zero
        dimension: what will be executed next. */
    ghost predicate Complete()
      reads this, fifo, params
    {
      && QueueOk() && !active && received >= needed
      && 1 <= HandlerWords(params[0]) <= 16
    }

    /** The parser once it has been executed. */
    ghost function Executed(): Parser
      requires params.Length == 16 && HandlerWords(params[0]) <= 16
      reads this, params
    {
      Parser(Idle, log + [Execute(params[..HandlerWords(params[0])])])
    }

    /** Calls the handler, which uses as many words as its command has. */
    method ExecuteCommand()
      requires QueueOk() && HandlerWords(params[0]) <= 16
      modifies this`log
      ensures log == old(log) + [Execute(params[..HandlerWords(params[0])])]
    {
      log := log + [Execute(params[..HandlerWords(params[0])])];
    }

    /** The first word of a command. */
    method TakeHeader(ghost target: Parser)
      requires Valid() && !active && count > 0
      requires FeedAll(State(), Queue()) == target
      modifies this`current, this`received, this`needed, this`readPos, this`count, params
      ensures QueueOk() && !active && Gathering() && count <= old(count) && (received >= needed ==> count < old(count))
      ensures received >= needed ==> Type(params[0]) != 5
      ensures FeedAll(Gathered(), Queue()) == target
    {
      if current == 0 {
        ghost var queue := Queue();
        current := Pop();
        assert queue[0] == current && queue[1..] == Queue();
        params[0] := current;
        received := 1;
        needed := ParameterCount(current);
        if current / 0x2000_0000 == 5 {
          needed := 3;
        }
        HandlersReadAll(current);
        assert params[..1] == [current];
      }
    }

    /** Some words of the current command are there; perhaps all. */
    ghost predicate Gathering()
      requires params.Length == 16
      reads this, params
    {
      && 1 <= received && (received <= needed || received == 1) && needed <= 12
      && current == params[0] && needed == ParameterCount(current)
    }

    lemma GatheredSettles()
      requires params.Length == 16 && Gathering()
      ensures Type(params[0]) == 5 ==> needed == 3 && received <= 3
      ensures PhaseOk(Settle(params[..received], needed, log).phase)
    {
      SettleOk(params[..received], needed, log);
    }

    /** The parser once it has settled the words received. */
    ghost function Gathered(): (p: Parser)
      requires params.Length == 16 && Gathering()
      reads this, params
      ensures PhaseOk(p.phase)
    {
      GatheredSettles();
      Settle(params[..received], needed, log)
    }

    /** The next word of the current command. */
    method TakeWord(ghost target: Parser)
      requires QueueOk() && !active && Gathering() && received < needed && count > 0
      requires FeedAll(Gathered(), Queue()) == target
      modifies this`received, this`readPos, this`count, params
      ensures QueueOk() && Gathering() && count < old(count)
      ensures received == old(received) + 1
      ensures FeedAll(Gathered(), Queue()) == target
    {
      ghost var words := params[..received];
      ghost var queue := Queue();
      GatheredSettles();
      var word := Pop();
      assert queue[0] == word && queue[1..] == Queue();
      if received < 16 {
        params[received] := word;
      }
      received := received + 1;
      assert params[..received] == words + [word];
      GatheredSettles();
    }

    lemma SmallArea(w: nat, h: nat)
      requires 1 <= w <= 1024 && 1 <= h <= 512
      ensures 1 <= w * h
    {
      AreaPositive(w, h);
    }

    method Clamp(wh: Word) returns (w: nat, h: nat)
      ensures w == AtMost(Low(wh), 1024) && h == AtMost(High(wh), 512)
    {
      w, h := wh % 0x1_0000, wh / 0x1_0000 % 0x1_0000;
      if w > 1024 {
        w := 1024;
      }
      if h > 512 {
        h := 512;
      }
    }

    method SetTransfer(xy: Word, w: nat, h: nat)
      requires QueueOk() && 1 <= w <= 1024 && 1 <= h <= 512
      modifies this`needed, this`active, this`isCpu, this`x, this`y, this`width, this`height, this`remaining,
               this`staging
      ensures Valid() && active
      ensures State() == Parser(Stream(xy % 1024, xy / 0x1_0000 % 512, w, h, []), log)
    {
      SmallArea(w, h);
      active, isCpu := true, true;
      x, y := xy % 1024, xy / 0x1_0000 % 512;
      width, height := w, h;
      remaining := w * h;
      staging := [];
      needed := 3;
    }

    /** A complete transfer header starts streaming, unless a dimension is zero. */
    method BeginStreaming(ghost target: Parser)
      requires QueueOk() && !active && Gathering() && Type(params[0]) == 5 && received == 3
      requires FeedAll(Gathered(), Queue()) == target
      modifies this`current, this`received, this`needed, this`active, this`isCpu, this`x, this`y, this`width,
               this`height, this`remaining, this`staging
      ensures QueueOk()
      ensures active ==> Valid() && FeedAll(State(), Queue()) == target
      ensures !active ==> Complete() && FeedAll(Executed(), Queue()) == target
    {
      GatheredSettles();
      HandlersReadAll(params[0]);
      var xy, wh := params[1], params[2];
      ghost var settled := Gathered();
      assert settled == BeginTransfer(params[..3], log);
      var w, h := Clamp(wh);
      if w == 0 || h == 0 {
        current, received, needed := 0, 0, 0;
        return;
      }
      SetTransfer(xy, w, h);
      assert State() == settled;
    }

    /** Reads words of the current command until it is complete, a transfer begins, or the FIFO
        is empty. */
    method Accumulate(ghost target: Parser)
      requires QueueOk() && !active && Gathering()
      requires FeedAll(Gathered(), Queue()) == target
      requires received >= needed ==> Type(params[0]) != 5
      modifies this`current, this`received, this`needed, this`active, this`isCpu, this`x, this`y, this`width,
               this`height, this`remaining, this`staging, this`readPos, this`count, params
      ensures QueueOk() && count <= old(count)
      ensures old(received < needed && count > 0) || active ==> count < old(count)
      ensures active ==> Valid() && FeedAll(State(), Queue()) == target
      ensures !active && received >= needed ==> Complete() && FeedAll(Executed(), Queue()) == target
      ensures !active && received < needed ==> Valid() && count == 0 && State() == target
    {
      while received < needed && count != 0
        invariant QueueOk() && !active && Gathering() && count <= old(count)
        invariant count == old(count) ==> received == old(received) && needed == old(needed)
        invariant received >= needed ==> Type(params[0]) != 5
        invariant FeedAll(Gathered(), Queue()) == target
        decreases count
      {
        var streaming := TakeNext(target);
        if streaming {
          return;
        }
      }
      HandlersReadAll(params[0]);
    }

    /** One word of the command, and the transfer that its third word may begin. */
    method TakeNext(ghost target: Parser) returns (streaming: bool)
      requires QueueOk() && !active && Gathering() && received < needed && count > 0
      requires FeedAll(Gathered(), Queue()) == target
      modifies this`current, this`received, this`needed, this`active, this`isCpu, this`x, this`y, this`width,
               this`height, this`remaining, this`staging, this`readPos, this`count, params
      ensures QueueOk() && count < old(count)
      ensures streaming && active ==> Valid() && FeedAll(State(), Queue()) == target
      ensures streaming && !active ==> Complete() && FeedAll(Executed(), Queue()) == target
      ensures !streaming ==> !active && Gathering() && FeedAll(Gathered(), Queue()) == target
      ensures !streaming && received >= needed ==> Type(params[0]) != 5
    {
      TakeWord(target);
      streaming := current / 0x2000_0000 == 5 && received == 3;
      if streaming {
        BeginStreaming(target);
      } else {
        GatheredSettles();
      }
    }

    /** Executes a complete command and makes ready for the next. */
    method Finish(ghost target: Parser)
      requires Complete() && FeedAll(Executed(), Queue()) == target
      modifies this`log, this`current, this`received, this`needed
      ensures Valid() && FeedAll(State(), Queue()) == target && !active
    {
      ExecuteCommand();
      current, received, needed := 0, 0, 0;
    }

    /** One round of normal mode; more says whether to go on. */
    method Gather(ghost target: Parser) returns (more: bool)
      requires Valid() && !active && count > 0
      requires FeedAll(State(), Queue()) == target
      modifies this, params
      ensures Valid() && FeedAll(State(), Queue()) == target
      ensures if more then count < old(count) else count == 0
    {
      TakeHeader(target);
      Accumulate(target);
      if active && isCpu {
        return true;
      }
      more := received >= needed;
      if more {
        Finish(target);
      }
    }

    /** Empties the FIFO into the parser. */
    method ProcessFIFO()
      requires Valid()
      modifies this, params
      ensures Valid() && Queue() == []
      ensures State() == FeedAll(old(State()), old(Queue()))
    {
      ghost var target := FeedAll(State(), Queue());
      while count != 0
        invariant Valid() && FeedAll(State(), Queue()) == target
        decreases count
      {
        if active && isCpu {
          Drain(target);
          if active {
            break;
          }
        } else {
          var more := Gather(target);
          if !more {
            break;
          }
        }
      }
    }

    // -------------------------------------------------------------- calls from outside

    /** GP0: one word. Between calls the FIFO is empty, so nothing is ever dropped. */
    method WriteGP0(value: Word)
      requires Valid() && Queue() == []
      modifies this, fifo, params
      ensures Valid() && Queue() == []
      ensures State() == Feed(old(State()), value)
    {
      ItemsLength(fifo[..], readPos, count);
      ghost var before := State();
      Push(value);
      ProcessFIFO();
      assert State() == FeedAll(before, [value]);
    }

    /** Up to 64 words pushed at once, then processed. */
    method WriteBatch(values: seq<Word>)
      requires Valid() && Queue() == [] && |values| <= 64
      modifies this, fifo, params
      ensures Valid() && Queue() == []
      ensures State() == FeedAll(old(State()), values)
    {
      ItemsLength(fifo[..], readPos, count);
      ghost var before := State();
      for i := 0 to |values|
        invariant Valid() && State() == before && count == i && Queue() == values[..i]
      {
        Push(values[i]);
        assert values[..i + 1] == values[..i] + [values[i]];
      }
      assert values[..|values|] == values;
      ProcessFIFO();
    }

    /** The same words one call at a time. */
    method WriteEach(values: seq<Word>)
      requires Valid() && Queue() == []
      modifies this, fifo, params
      ensures Valid() && Queue() == []
      ensures State() == FeedAll(old(State()), values)
    {
      ghost var before := State();
      for i := 0 to |values|
        invariant Valid() && Queue() == [] && State() == FeedAll(before, values[..i])
      {
        FeedOne(before, values[..i], values[i]);
        assert values[..i + 1] == values[..i] + [values[i]];
        WriteGP0(values[i]);
      }
      assert values[..|values|] == values;
    }

    /** GP1(00h): everything back to the start, except that the staging buffer and the count of
        remaining pixels keep their values, which nothing reads before the next transfer. */
    method ResetGpu()
      requires Valid()
      modifies this, fifo, params
      ensures Valid() && Queue() == [] && State() == Parser(Idle, old(log))
    {
      Clear(fifo);
      Clear(params);
      Forget();
    }

    method Forget()
      requires fifo.Length == 64 && params.Length == 16 && fifo != params
      modifies this
      ensures Valid() && Queue() == [] && State() == Parser(Idle, old(log))
    {
      writePos, readPos, count := 0, 0, 0;
      current, received, needed := 0, 0, 0;
      ForgetTransfer();
    }

    method ForgetTransfer()
      modifies this`active, this`isCpu, this`x, this`y, this`width, this`height
      ensures !active
    {
      active, isCpu := false, false;
      x, y, width, height := 0, 0, 0, 0;
    }

    method Clear(words: array<Word>)
      modifies words
      ensures forall i | 0 <= i < words.Length :: words[i] == 0
    {
      for i := 0 to words.Length
        invariant forall k | 0 <= k < i :: words[k] == 0
      {
        words[i] := 0;
      }
    }

    /** GP1(01h): the FIFO and the command are dropped, but a transfer under way goes on. */
    method ResetCommandBuffer()
      requires Valid()
      modifies this
      ensures Valid() && Queue() == []
      ensures State() == if old(active) then old(State()) else Parser(Idle, old(log))
    {
      writePos, readPos, count := 0, 0, 0;
      current, received, needed := 0, 0, 0;
    }

    /** A transfer from the CPU is given up; a command being collected is not. */
    method AbortStreaming()
      requires Valid()
      modifies this
      ensures Valid() && Queue() == old(Queue())
      ensures State() == if old(active) then Parser(Idle, old(log)) else old(State())
    {
      if active && isCpu {
        active := false;
        remaining := 0;
        staging := [];
        current, received, needed := 0, 0, 0;
      }
    }
  }
}
