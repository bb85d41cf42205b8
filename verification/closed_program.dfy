/** The emitted file as a whole: nothing in it refers to a function or a label that is not there. */
module ClosedProgram {
  import opened Mips
  import opened Executable
  import opened ControlFlow
  import opened CodeGenerator
  import opened Names
  import opened Layout
  import Labels

  // ---------------------------------------------------------------- deduplication

  lemma {:induction false} KeptFrom(functions: seq<Func>, n: nat, f: Func)
    requires n <= |functions| && f in Kept(functions, n)
    ensures f in functions[..n]
  {
    if n > 0 && f in Kept(functions, n - 1) {
      KeptFrom(functions, n - 1, f);
    }
  }

  /** No start address is lost, */
  lemma {:induction false} KeptHas(functions: seq<Func>, n: nat, i: nat)
    requires i < n <= |functions|
    ensures exists k :: 0 <= k < |Kept(functions, n)| && Kept(functions, n)[k].start == functions[i].start
  {
    var kept := Kept(functions, n - 1);
    if i < n - 1 {
      KeptHas(functions, n - 1, i);
      var k :| 0 <= k < |kept| && kept[k].start == functions[i].start;
      assert Kept(functions, n)[k] == kept[k];
    } else if functions[i].start in Starts(functions, n - 1) {
      var j :| 0 <= j < n - 1 && functions[j].start == functions[i].start;
      KeptHas(functions, n - 1, j);
      var k :| 0 <= k < |kept| && kept[k].start == functions[j].start;
      assert Kept(functions, n)[k] == kept[k];
    } else {
      assert Kept(functions, n)[|kept|] == functions[i];
    }
  }

  /** and none is kept twice. */
  lemma {:induction false} KeptOnce(functions: seq<Func>, n: nat, j: nat, k: nat)
    requires n <= |functions| && j < k < |Kept(functions, n)|
    ensures Kept(functions, n)[j].start != Kept(functions, n)[k].start
  {
    var before := Kept(functions, n - 1);
    if k < |before| {
      KeptOnce(functions, n - 1, j, k);
    } else {
      KeptFrom(functions, n - 1, before[j]);
      var i :| 0 <= i < n - 1 && functions[i] == before[j];
      assert functions[i].start in Starts(functions, n - 1);
    }
  }

  /** What is kept for an address is the first function given for it. */
  lemma {:induction false} KeptFirst(functions: seq<Func>, n: nat, i: nat)
    requires i < n <= |functions| && functions[i].start !in Starts(functions, i)
    ensures functions[i] in Kept(functions, n)
  {
    if i < n - 1 {
      KeptFirst(functions, n - 1, i);
    }
  }

  // ---------------------------------------------------------------- definitions by name

  function Occurrences(definitions: seq<Definition>, name: string): nat {
    if definitions == [] then 0
    else (if definitions[0].name == name then 1 else 0) + Occurrences(definitions[1..], name)
  }

  lemma {:induction false} NotThere(definitions: seq<Definition>, name: string)
    requires forall i | 0 <= i < |definitions| :: definitions[i].name != name
    ensures Occurrences(definitions, name) == 0
  {
    if definitions != [] {
      NotThere(definitions[1..], name);
    }
  }

  lemma {:induction false} ThereOnce(definitions: seq<Definition>, name: string, k: nat)
    requires k < |definitions| && definitions[k].name == name
    requires forall i | 0 <= i < |definitions| && i != k :: definitions[i].name != name
    ensures Occurrences(definitions, name) == 1
  {
    if k == 0 {
      NotThere(definitions[1..], name);
    } else {
      ThereOnce(definitions[1..], name, k - 1);
    }
  }

  /** The functions found by the analysis and their graphs. */
  ghost predicate Analysed(exe: Exe, functions: seq<Func>, cfgs: map<Word, Graph>) {
    && exe.Valid() && AllOrdered(cfgs)
    && (forall f | f in functions :: f.name == NameOf(f.start))
    && (forall f | f in functions && f.start in cfgs :: Placed(exe, f) && cfgs[f.start] == GraphOf(exe, f))
  }

  lemma KeptNamed(functions: seq<Func>, i: nat)
    requires forall f | f in functions :: f.name == NameOf(f.start)
    requires i < |Kept(functions, |functions|)|
    ensures var f := Kept(functions, |functions|)[i]; f in functions && f.name == NameOf(f.start)
  {
    KeptFrom(functions, |functions|, Kept(functions, |functions|)[i]);
  }

  /** Each function that the program knows has exactly one definition. */
  lemma DefinedOnce(exe: Exe, functions: seq<Func>, cfgs: map<Word, Graph>, t: Word)
    requires Analysed(exe, functions, cfgs) && t in Starts(functions, |functions|)
    ensures Occurrences(FileOf(exe, functions, cfgs), NameOf(t)) == 1
  {
    var n := |functions|;
    var kept := Kept(functions, n);
    var file := FileOf(exe, functions, cfgs);
    var i :| 0 <= i < n && functions[i].start == t;
    KeptHas(functions, n, i);
    var k :| 0 <= k < |kept| && kept[k].start == t;
    KeptNamed(functions, k);
    forall j | 0 <= j < |file| && j != k ensures file[j].name != NameOf(t) {
      KeptNamed(functions, j);
      if j < k { KeptOnce(functions, n, j, k); } else { KeptOnce(functions, n, k, j); }
      NamesDiffer(kept[j].start, t);
    }
    ThereOnce(file, NameOf(t), k);
  }

  /** Definitions in the file have different names. */
  lemma NamesDistinct(exe: Exe, functions: seq<Func>, cfgs: map<Word, Graph>, i: nat, j: nat)
    requires Analysed(exe, functions, cfgs)
    requires i < j < |FileOf(exe, functions, cfgs)|
    ensures var file := FileOf(exe, functions, cfgs); file[i].name != file[j].name
  {
    var kept := Kept(functions, |functions|);
    KeptNamed(functions, i);
    KeptNamed(functions, j);
    KeptOnce(functions, |functions|, i, j);
    NamesDiffer(kept[i].start, kept[j].start);
  }

  /** The exported list has one entry per definition, with the address the name was made of. */
  lemma ExportsMatch(exe: Exe, functions: seq<Func>, cfgs: map<Word, Graph>, i: nat)
    requires Analysed(exe, functions, cfgs) && i < |Kept(functions, |functions|)|
    ensures var file := FileOf(exe, functions, cfgs);
            && |Exported(file)| == |file| == |Kept(functions, |functions|)|
            && Exported(file)[i] == Export(Kept(functions, |functions|)[i].start, file[i].name)
  {
    KeptNamed(functions, i);
    NameRoundTrip(Kept(functions, |functions|)[i].start);
  }

  // ---------------------------------------------------------------- the file is closed

  lemma {:induction false} TableKeys(functions: seq<Func>, n: nat, a: Word)
    requires n <= |functions| && a in NameTable(functions, n)
    ensures a in Starts(functions, n)
  {
    if a != functions[n - 1].start {
      TableKeys(functions, n - 1, a);
    } else {
      assert functions[n - 1].start == a;
    }
  }

  lemma KeptStarts(functions: seq<Func>, t: Word)
    requires var kept := Kept(functions, |functions|); t in Starts(kept, |kept|)
    ensures t in Starts(functions, |functions|)
  {
    var kept := Kept(functions, |functions|);
    var k :| 0 <= k < |kept| && kept[k].start == t;
    KeptFrom(functions, |functions|, kept[k]);
    var i :| 0 <= i < |functions| && functions[i] == kept[k];
    assert functions[i].start == t;
  }

  /** Every call by name in a definition, the fall-through call included, names exactly one
      definition of the file. */
  lemma CallsClosed(exe: Exe, functions: seq<Func>, cfgs: map<Word, Graph>, i: nat, s: Stmt, t: Word)
    requires Analysed(exe, functions, cfgs) && i < |FileOf(exe, functions, cfgs)|
    requires var d := FileOf(exe, functions, cfgs)[i];
             d.code.Translated? && s in d.code.body && Labels.Names(s, t)
    ensures Occurrences(FileOf(exe, functions, cfgs), NameOf(t)) == 1
  {
    var kept := Kept(functions, |functions|);
    var known := Starts(functions, |functions|);
    var f := kept[i];
    KeptNamed(functions, i);
    GraphIsLaid(exe, f);
    var names := NameTable(kept, |kept|);
    var u := UnitFor(exe, known, f, cfgs[f.start]);
    Labels.CallsRefer(u, Following(names, f), s, t);
    if t !in known {
      TableKeys(kept, |kept|, f.end);
      KeptStarts(functions, t);
    }
    DefinedOnce(exe, functions, cfgs, t);
  }

  /** Every goto in a definition names exactly one label of that definition, given that no jump
      table names an unaligned address or an in-block delay slot of its function. */
  lemma GotosClosed(exe: Exe, functions: seq<Func>, cfgs: map<Word, Graph>, i: nat, s: Stmt, l: Word)
    requires Analysed(exe, functions, cfgs) && i < |FileOf(exe, functions, cfgs)|
    requires var f := Kept(functions, |functions|)[i];
             f.start in cfgs ==>
               Labels.ExtraOk(UnitFor(exe, Starts(functions, |functions|), f, cfgs[f.start]))
    requires var d := FileOf(exe, functions, cfgs)[i];
             d.code.Translated? && s in d.code.body && Labels.Targets(s, l)
    ensures var d := FileOf(exe, functions, cfgs)[i];
            Labels.LabelCount(d.code.body, l) == 1
  {
    var kept := Kept(functions, |functions|);
    var f := kept[i];
    KeptNamed(functions, i);
    GraphIsLaid(exe, f);
    var u := UnitFor(exe, Starts(functions, |functions|), f, cfgs[f.start]);
    Labels.GotosClosed(u, Following(NameTable(kept, |kept|), f), s, l);
  }
}
