/** The ring buffer between the thread that decodes audio and the one that plays it: one
    producer, one consumer, no locks. Between two seeks, each thread goes through its steps
    while the other goes through its own, in any order. */
module AudioRing {
  import opened Ring
  import opened Seqs

  /** What the producer is about: it may have asked for the free space, and it copies sample by
      sample before it publishes. */
  datatype Producer =
    | Resting
    | Asked(free: nat)
    | Copying(data: seq<int>, pairs: nat, done: nat, pos: nat)

  datatype Consumer =
    | Waiting
    | Taking(pairs: nat, out: seq<int>, at: nat)

  /** The samples of n stereo pairs, left and right in turn; the published indices; what each
      thread is doing; and, for the record, every sample published and every sample returned. */
  datatype State = State(slots: seq<int>, n: nat, w: nat, r: nat, producer: Producer, consumer: Consumer,
                         written: seq<int>, read: seq<int>)

  /** The pairs between the two indices. */
  function Held(w: nat, r: nat, n: nat): int {
    if w >= r then w - r else n - (r - w)
  }

  function Avail(s: State): int {
    Held(s.w, s.r, s.n)
  }

  function Free(s: State): int {
    if s.w >= s.r then s.n - 1 - (s.w - s.r) else s.r - s.w - 1
  }

  function Min(a: int, b: int): int {
    if a < b then a else b
  }

  // ---------------------------------------------------------------- steps

  datatype Action =
    | AskFree                        // get_free
    | BeginWrite(data: seq<int>)     // ring_write loads both indices
    | CopyIn                         // stores one sample
    | PublishWrite
    | BeginRead(pairs: nat)          // read_pcm loads both indices
    | CopyOut                        // loads one sample
    | PublishRead

  predicate Enabled(s: State, a: Action) {
    match a
    case AskFree => s.producer.Resting?
    case BeginWrite(data) => !s.producer.Copying? && |data| % 2 == 0
    case CopyIn => s.producer.Copying? && s.producer.done < 2 * s.producer.pairs
    case PublishWrite => s.producer.Copying? && s.producer.done == 2 * s.producer.pairs
    case BeginRead(_) => s.consumer.Waiting?
    case CopyOut => s.consumer.Taking? && |s.consumer.out| < 2 * s.consumer.pairs
    case PublishRead => s.consumer.Taking? && |s.consumer.out| == 2 * s.consumer.pairs
  }

  function Step(s: State, a: Action): State
    requires Inv(s) && Enabled(s, a)
  {
    match a
    case AskFree => s.(producer := Asked(Free(s)))
    case BeginWrite(data) =>
      s.(producer := Copying(data, Min(|data| / 2, Free(s)), 0, 2 * s.w))
    case CopyIn =>
      var p := s.producer;
      s.(slots := s.slots[p.pos := p.data[p.done]],
         producer := p.(done := p.done + 1, pos := Next(p.pos, 2 * s.n)))
    case PublishWrite =>
      s.(w := s.producer.pos / 2, producer := Resting, written := s.written + s.producer.data[..s.producer.done])
    case BeginRead(pairs) => s.(consumer := Taking(Min(pairs, Avail(s)), [], 2 * s.r))
    case CopyOut =>
      var c := s.consumer;
      s.(consumer := c.(out := c.out + [s.slots[c.at]], at := Next(c.at, 2 * s.n)))
    case PublishRead =>
      s.(r := s.consumer.at / 2, consumer := Waiting, read := s.read + s.consumer.out)
  }

  // ---------------------------------------------------------------- the invariant

  predicate Shape(s: State) {
    s.n > 0 && |s.slots| == 2 * s.n && s.w < s.n && s.r < s.n
  }

  /** The samples published and not yet given back. */
  function Stored(s: State): seq<int>
    requires Shape(s)
  {
    Items(s.slots, 2 * s.r, 2 * Avail(s))
  }

  predicate ProducerOk(s: State)
    requires Shape(s)
  {
    match s.producer
    case Resting => true
    case Asked(free) => free <= Free(s)
    case Copying(data, pairs, done, pos) =>
      && |data| % 2 == 0 && 2 * pairs <= |data| && pairs <= Free(s) && done <= 2 * pairs
      && pos == Ahead(2 * s.w, done, 2 * s.n)
      && Items(s.slots, 2 * s.w, done) == data[..done]
  }

  predicate ConsumerOk(s: State)
    requires Shape(s)
  {
    match s.consumer
    case Waiting => true
    case Taking(pairs, out, at) =>
      && pairs <= Avail(s) && |out| <= 2 * pairs
      && at == Ahead(2 * s.r, |out|, 2 * s.n)
      && Items(s.slots, 2 * s.r, |out|) == out
  }

  predicate Inv(s: State) {
    && Shape(s) && ProducerOk(s) && ConsumerOk(s)
    && s.written == s.read + Stored(s)
  }

  lemma Counts(s: State)
    requires Shape(s)
    ensures 0 <= Avail(s) < s.n && Free(s) == s.n - 1 - Avail(s)
    ensures 2 * s.w == Ahead(2 * s.r, 2 * Avail(s), 2 * s.n)
  {
  }

  lemma AskKeeps(s: State)
    requires Inv(s) && Enabled(s, AskFree)
    ensures Inv(Step(s, AskFree))
  {
    Counts(s);
  }

  lemma BeginWriteKeeps(s: State, data: seq<int>)
    requires Inv(s) && Enabled(s, BeginWrite(data))
    ensures Inv(Step(s, BeginWrite(data)))
  {
    Counts(s);
    assert data[..0] == [];
  }

  /** Where the producer stores its next sample, seen from the consumer. */
  lemma StoreIndex(w: nat, r: nat, n: nat, done: nat, pos: nat)
    requires w < n && r < n && done < 2 * (n - 1 - Held(w, r, n)) && pos == Ahead(2 * w, done, 2 * n)
    ensures 2 * Held(w, r, n) + done < 2 * n && pos == Ahead(2 * r, 2 * Held(w, r, n) + done, 2 * n) < 2 * n
    ensures Next(pos, 2 * n) == Ahead(2 * w, done + 1, 2 * n)
  {
  }

  /** A sample stored behind what is stored disturbs nothing that the consumer may read. */
  lemma CopyInKeeps(s: State)
    requires Inv(s) && Enabled(s, CopyIn)
    ensures Inv(Step(s, CopyIn))
  {
    Counts(s);
    var p := s.producer;
    var v := p.data[p.done];
    StoreIndex(s.w, s.r, s.n, p.done, p.pos);
    KeptForConsumer(s, Avail(s), p.done, p.pos, v);
    StoreAppends(s.slots, 2 * s.w, p.done, v);
    assert p.data[..p.done + 1] == p.data[..p.done] + [v];
  }

  lemma KeptForConsumer(s: State, avail: nat, done: nat, pos: nat, v: int)
    requires Shape(s) && 2 * avail + done < 2 * s.n && pos == Ahead(2 * s.r, 2 * avail + done, 2 * s.n)
    ensures pos < |s.slots| && Items(s.slots[pos := v], 2 * s.r, 2 * avail) == Items(s.slots, 2 * s.r, 2 * avail)
    ensures s.consumer.Taking? && |s.consumer.out| <= 2 * avail ==>
              Items(s.slots[pos := v], 2 * s.r, |s.consumer.out|) == Items(s.slots, 2 * s.r, |s.consumer.out|)
  {
    StoreOutside(s.slots, 2 * s.r, 2 * avail, 2 * avail + done, v);
    if s.consumer.Taking? && |s.consumer.out| <= 2 * avail {
      StoreOutside(s.slots, 2 * s.r, |s.consumer.out|, 2 * avail + done, v);
    }
  }

  lemma PublishWriteKeeps(s: State)
    requires Inv(s) && Enabled(s, PublishWrite)
    ensures Inv(Step(s, PublishWrite))
  {
    Counts(s);
    var p := s.producer;
    var t := Step(s, PublishWrite);
    Counts(t);
    ItemsConcat(s.slots, 2 * s.r, 2 * Avail(s), p.done);
    assert s.written + p.data[..p.done] == s.read + (Stored(s) + p.data[..p.done]);
  }

  lemma BeginReadKeeps(s: State, pairs: nat)
    requires Inv(s) && Enabled(s, BeginRead(pairs))
    ensures Inv(Step(s, BeginRead(pairs)))
  {
    Counts(s);
  }

  lemma CopyOutKeeps(s: State)
    requires Inv(s) && Enabled(s, CopyOut)
    ensures Inv(Step(s, CopyOut))
  {
    Counts(s);
    var c := s.consumer;
    ItemsConcat(s.slots, 2 * s.r, |c.out|, 1);
    assert Items(s.slots, c.at, 1) == [s.slots[c.at]];
  }

  /** The read index after some pairs have been given back. */
  lemma ReadIndex(w: nat, r: nat, n: nat, pairs: nat, at: nat)
    requires w < n && r < n && pairs <= Held(w, r, n) && at == Ahead(2 * r, 2 * pairs, 2 * n)
    ensures at / 2 < n && 2 * (at / 2) == at && Held(w, at / 2, n) == Held(w, r, n) - pairs
  {
  }

  lemma PublishReadKeeps(s: State)
    requires Inv(s) && Enabled(s, PublishRead)
    ensures Inv(Step(s, PublishRead))
  {
    Counts(s);
    var c := s.consumer;
    var t := Step(s, PublishRead);
    ReadIndex(s.w, s.r, s.n, c.pairs, c.at);
    Counts(t);
    ItemsConcat(s.slots, 2 * s.r, |c.out|, 2 * Avail(s) - |c.out|);
    assert s.read + (c.out + Stored(t)) == s.read + c.out + Stored(t);
  }

  /** Every step of either thread keeps the invariant, whatever the other is doing. */
  lemma StepKeeps(s: State, a: Action)
    requires Inv(s) && Enabled(s, a)
    ensures Inv(Step(s, a))
  {
    match a
    case AskFree => AskKeeps(s);
    case BeginWrite(data) => BeginWriteKeeps(s, data);
    case CopyIn => CopyInKeeps(s);
    case PublishWrite => PublishWriteKeeps(s);
    case BeginRead(pairs) => BeginReadKeeps(s, pairs);
    case CopyOut => CopyOutKeeps(s);
    case PublishRead => PublishReadKeeps(s);
  }

  // ---------------------------------------------------------------- whole runs

  /** Both indices zero, as after opening or a seek. */
  function Start(n: nat): State
    requires n > 0
  {
    State(seq(2 * n, _ => 0), n, 0, 0, Resting, Waiting, [], [])
  }

  /** A run; an action that is not enabled does nothing. */
  function Run(n: nat, actions: seq<Action>): (s: State)
    requires n > 0
    ensures Inv(s) && s.n == n
    decreases |actions|
  {
    if actions == [] then Start(n)
    else
      var s := Run(n, actions[..|actions| - 1]);
      var a := actions[|actions| - 1];
      if Enabled(s, a) then
        StepKeeps(s, a);
        Step(s, a)
      else s
  }

  predicate Even(s: State) {
    |s.written| % 2 == 0 && |s.read| % 2 == 0
  }

  lemma StepKeepsEven(s: State, a: Action)
    requires Inv(s) && Enabled(s, a) && Even(s)
    ensures Even(Step(s, a))
  {
    if a.PublishWrite? {
      assert |s.producer.data[..s.producer.done]| == 2 * s.producer.pairs;
    } else if a.PublishRead? {
      assert |s.consumer.out| == 2 * s.consumer.pairs;
    }
  }

  lemma {:induction false} PairsOnly(n: nat, actions: seq<Action>)
    requires n > 0
    ensures Even(Run(n, actions))
    decreases |actions|
  {
    if actions != [] {
      var s := Run(n, actions[..|actions| - 1]);
      var a := actions[|actions| - 1];
      PairsOnly(n, actions[..|actions| - 1]);
      if Enabled(s, a) {
        StepKeepsEven(s, a);
      }
    }
  }

  /** In every run the pairs read are a prefix of the pairs written: in order, none lost, none
      twice, none torn, and never more than n - 1 pairs in between. */
  lemma Linearizable(n: nat, actions: seq<Action>)
    requires n > 0
    ensures var s := Run(n, actions);
            && s.read <= s.written
            && |s.read| % 2 == 0 && |s.written| % 2 == 0
            && |s.written| - |s.read| == 2 * Avail(s) <= 2 * (n - 1)
  {
    var s := Run(n, actions);
    PairsOnly(n, actions);
    Counts(s);
    ItemsLength(s.slots, 2 * s.r, 2 * Avail(s));
    assert s.written[..|s.read|] == s.read;
  }

  /** A producer that has asked for the free space and writes no more than the answer drops
      nothing, however much the consumer has read since: ring_write's result may be ignored. */
  lemma NothingDropped(s: State, data: seq<int>)
    requires Inv(s) && s.producer.Asked? && Enabled(s, BeginWrite(data)) && |data| / 2 <= s.producer.free
    ensures Step(s, BeginWrite(data)).producer == Copying(data, |data| / 2, 0, 2 * s.w)
  {
  }

  /** The second ring writes 1024 pairs only after an answer of at least 1024. */
  lemma NothingDroppedFixed(s: State, data: seq<int>)
    requires Inv(s) && s.producer.Asked? && s.producer.free >= 1024 && |data| == 2 * 1024
    ensures Step(s, BeginWrite(data)).producer == Copying(data, 1024, 0, 2 * s.w)
  {
    NothingDropped(s, data);
  }

  predicate MindsAnswer(s: State, a: Action) {
    a.BeginWrite? && Enabled(s, a) ==> s.producer.Asked? && |a.data| / 2 <= s.producer.free
  }

  /** The producer asks before every write, as both audio threads do. */
  predicate Mindful(n: nat, actions: seq<Action>)
    requires n > 0
    decreases |actions|
  {
    actions != [] ==>
      Mindful(n, actions[..|actions| - 1]) && MindsAnswer(Run(n, actions[..|actions| - 1]), actions[|actions| - 1])
  }

  /** The calls of a run that have been published, end to end. */
  function Calls(n: nat, actions: seq<Action>): seq<int>
    requires n > 0
    decreases |actions|
  {
    if actions == [] then []
    else
      var front := actions[..|actions| - 1];
      var s := Run(n, front);
      if actions[|actions| - 1].PublishWrite? && Enabled(s, PublishWrite) then Calls(n, front) + s.producer.data
      else Calls(n, front)
  }

  predicate WholeCall(s: State) {
    s.producer.Copying? ==> 2 * s.producer.pairs == |s.producer.data|
  }

  lemma StepKeepsWhole(s: State, a: Action)
    requires Inv(s) && Enabled(s, a) && WholeCall(s) && MindsAnswer(s, a)
    ensures WholeCall(Step(s, a))
    ensures Step(s, a).written == if a.PublishWrite? then s.written + s.producer.data else s.written
  {
    if a.PublishWrite? {
      assert s.producer.data[..s.producer.done] == s.producer.data;
    }
  }

  /** With a producer that asks, what is written is what was given, call by call. */
  lemma {:induction false} NothingLost(n: nat, actions: seq<Action>)
    requires n > 0 && Mindful(n, actions)
    ensures WholeCall(Run(n, actions)) && Run(n, actions).written == Calls(n, actions)
    decreases |actions|
  {
    if actions != [] {
      var s := Run(n, actions[..|actions| - 1]);
      var a := actions[|actions| - 1];
      NothingLost(n, actions[..|actions| - 1]);
      if Enabled(s, a) {
        StepKeepsWhole(s, a);
      }
    }
  }

  // ---------------------------------------------------------------- how much a call takes

  /** The samples in the ring, from the record alone. */
  function InRing(s: State): int {
    |s.written| - |s.read|
  }

  lemma InRingIs(s: State)
    requires Inv(s)
    ensures InRing(s) == 2 * Avail(s) && 0 <= 2 * Free(s) == 2 * (s.n - 1) - InRing(s)
  {
    Counts(s);
    ItemsLength(s.slots, 2 * s.r, 2 * Avail(s));
  }

  /** An answer to the producer is the space there is: one place always stays empty. */
  lemma AnswerIs(s: State)
    requires Inv(s) && Enabled(s, AskFree)
    ensures 2 * Step(s, AskFree).producer.free == 2 * (s.n - 1) - InRing(s)
  {
    InRingIs(s);
  }

  function Then(s: State, a: Action): (t: State)
    requires Inv(s)
    ensures Inv(t)
  {
    if Enabled(s, a) then
      StepKeeps(s, a);
      Step(s, a)
    else s
  }

  /** The state after further actions. */
  function From(s: State, actions: seq<Action>): (t: State)
    requires Inv(s)
    ensures Inv(t)
    decreases |actions|
  {
    if actions == [] then s else From(Then(s, actions[0]), actions[1..])
  }

  predicate Reads(a: Action) {
    a.BeginRead? || a.PublishRead?
  }

  predicate Writes(a: Action) {
    a.AskFree? || a.BeginWrite? || a.PublishWrite?
  }

  lemma {:induction false} ReadGoesOn(s: State, during: seq<Action>)
    requires Inv(s) && s.consumer.Taking? && forall a | a in during :: !Reads(a)
    ensures var t := From(s, during);
            && t.consumer.Taking? && t.consumer.pairs == s.consumer.pairs
            && t.read == s.read && s.written <= t.written
    decreases |during|
  {
    if during != [] {
      assert !Reads(during[0]);
      ReadGoesOn(Then(s, during[0]), during[1..]);
    }
  }

  lemma {:induction false} WriteGoesOn(s: State, during: seq<Action>)
    requires Inv(s) && s.producer.Copying? && forall a | a in during :: !Writes(a)
    ensures var t := From(s, during);
            && t.producer.Copying? && t.producer.data == s.producer.data && t.producer.pairs == s.producer.pairs
            && t.written == s.written
    decreases |during|
  {
    if during != [] {
      assert !Writes(during[0]);
      WriteGoesOn(Then(s, during[0]), during[1..]);
    }
  }

  /** A read that ends has returned the pairs asked for, or, if there were fewer when it began, as
      many as there were, oldest first; whatever the producer has done since. */
  lemma ReadTakes(s: State, pairs: nat, during: seq<Action>, m: State)
    requires Inv(s) && Enabled(s, BeginRead(pairs)) && forall a | a in during :: !Reads(a)
    requires m == From(Then(s, BeginRead(pairs)), during) && Enabled(m, PublishRead)
    ensures var t := Step(m, PublishRead);
            && |t.read| == |s.read| + (if 2 * pairs < InRing(s) then 2 * pairs else InRing(s))
            && |t.read| <= |s.written| && t.read == s.written[..|t.read|]
  {
    InRingIs(s);
    ReadGoesOn(Then(s, BeginRead(pairs)), during);
    var t := Step(m, PublishRead);
    StepKeeps(m, PublishRead);
    assert t.read <= t.written;
  }

  /** A write that ends has stored all pairs given, or, if less was free when it began, as many as
      there was room for. */
  lemma WriteTakes(s: State, data: seq<int>, during: seq<Action>, m: State)
    requires Inv(s) && Enabled(s, BeginWrite(data)) && forall a | a in during :: !Writes(a)
    requires m == From(Then(s, BeginWrite(data)), during) && Enabled(m, PublishWrite)
    ensures var room := 2 * (s.n - 1) - InRing(s);
            room >= 0 && Step(m, PublishWrite).written == s.written + data[..if |data| < room then |data| else room]
  {
    InRingIs(s);
    WriteGoesOn(Then(s, BeginWrite(data)), during);
  }

  // ---------------------------------------------------------------- one call at a time

  /** The ring itself, for a call that the other thread does not interrupt. */
  class PcmRing {
    const n: nat
    const buf: array<int>
    var w: nat
    var r: nat

    ghost predicate Valid()
      reads this
    {
      n > 0 && buf.Length == 2 * n && w < n && r < n
    }

    ghost function Contents(): seq<int>
      requires Valid()
      reads this, buf
    {
      Items(buf[..], 2 * r, 2 * Held(w, r, n))
    }

    constructor (n: nat)
      requires n > 0
      ensures Valid() && this.n == n && Contents() == [] && fresh(buf)
    {
      this.n := n;
      buf := new int[2 * n](_ => 0);
      w, r := 0, 0;
    }

    method GetFree() returns (free: nat)
      requires Valid()
      ensures free == n - 1 - Held(w, r, n)
    {
      free := if w >= r then n - 1 - (w - r) else r - w - 1;
    }

    /** Stores one pair behind what is stored. */
    method StorePair(left: int, right: int)
      requires Valid() && Held(w, r, n) < n - 1
      modifies this`w, buf
      ensures Valid() && Contents() == old(Contents()) + [left, right]
      ensures Held(w, r, n) == old(Held(w, r, n)) + 1
    {
      ghost var slots, held := buf[..], 2 * Held(w, r, n);
      StoreAppends(slots, 2 * r, held, left);
      StoreAppends(slots[2 * w := left], 2 * r, held + 1, right);
      buf[w * 2] := left;
      buf[w * 2 + 1] := right;
      assert buf[..] == slots[2 * w := left][2 * w + 1 := right];
      w := if w + 1 == n then 0 else w + 1;
      assert old(Contents()) + [left] + [right] == old(Contents()) + [left, right];
    }

    /** Writes as many pairs as fit. */
    method RingWrite(data: seq<int>) returns (toWrite: nat)
      requires Valid() && |data| % 2 == 0
      modifies this`w, buf
      ensures Valid() && toWrite == Min(|data| / 2, n - 1 - old(Held(w, r, n)))
      ensures Contents() == old(Contents()) + data[..2 * toWrite]
    {
      var free := GetFree();
      toWrite := if |data| / 2 < free then |data| / 2 else free;
      assert Contents() + data[..0] == Contents();
      for i := 0 to toWrite
        invariant Valid() && Held(w, r, n) == old(Held(w, r, n)) + i
        invariant Contents() == old(Contents()) + data[..2 * i]
      {
        assert data[..2 * i] + [data[2 * i], data[2 * i + 1]] == data[..2 * i + 2];
        StorePair(data[i * 2], data[i * 2 + 1]);
      }
    }

    /** Reads as many pairs as there are, oldest first. */
    method ReadPcm(pairs: nat) returns (out: seq<int>)
      requires Valid()
      modifies this`r
      ensures Valid() && |out| == 2 * Min(pairs, old(Held(w, r, n)))
      ensures old(Contents()) == out + Contents()
    {
      var avail := if w >= r then w - r else n - (r - w);
      var toRead := if pairs < avail then pairs else avail;
      out := [];
      for i := 0 to toRead
        invariant Valid() && Held(w, r, n) == old(Held(w, r, n)) - i
        invariant |out| == 2 * i && old(Contents()) == out + Contents()
      {
        var pair := TakePair();
        Regroup(out, pair, Contents());
        out := out + pair;
      }
    }

    /** Takes the oldest pair. */
    method TakePair() returns (pair: seq<int>)
      requires Valid() && Held(w, r, n) > 0
      modifies this`r
      ensures Valid() && Held(w, r, n) == old(Held(w, r, n)) - 1
      ensures |pair| == 2 && old(Contents()) == pair + Contents()
    {
      ItemsConcat(buf[..], 2 * r, 2, 2 * Held(w, r, n) - 2);
      TwoItems(buf[..], 2 * r);
      pair := [buf[r * 2], buf[r * 2 + 1]];
      r := if r + 1 == n then 0 else r + 1;
    }

    lemma TwoItems(slots: seq<int>, at: nat)
      requires at + 1 < |slots|
      ensures Items(slots, at, 2) == [slots[at], slots[at + 1]]
    {
      assert Items(slots, at, 2) == [slots[at]] + Items(slots, at + 1, 1);
      assert Items(slots, at + 1, 1) == [slots[at + 1]] + Items(slots, Next(at + 1, |slots|), 0);
    }
  }
}
