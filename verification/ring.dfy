/** Ring buffers: the items stored from a read position on. */
module Ring {
  import opened Seqs

  /** The slot after slot i of a ring of n slots. */
  function Next(i: nat, n: nat): nat {
    if i + 1 == n then 0 else i + 1
  }

  /** The slot k places after slot i, for k at most n. */
  function Ahead(i: nat, k: nat, n: nat): nat
    requires k <= n
  {
    if i + k < n then i + k else i + k - n
  }

  function Items<T>(slots: seq<T>, at: nat, count: nat): seq<T>
    requires at < |slots|
    decreases count, at
  {
    if count == 0 then [] else [slots[at]] + Items(slots, Next(at, |slots|), count - 1)
  }

  /** Storing behind the last item adds it at the end. */
  lemma {:induction false} StoreAppends<T>(slots: seq<T>, at: nat, count: nat, v: T)
    requires at < |slots| && count < |slots|
    ensures var w := Ahead(at, count, |slots|);
            w < |slots| && Items(slots[w := v], at, count + 1) == Items(slots, at, count) + [v]
    decreases count
  {
    var n := |slots|;
    var w := Ahead(at, count, n);
    if count == 0 {
      assert Items(slots[w := v], Next(at, n), 0) == [];
    } else {
      StoreAppends(slots, Next(at, n), count - 1, v);
      assert Ahead(Next(at, n), count - 1, n) == w != at;
    }
  }

  lemma {:induction false} ItemsLength<T>(slots: seq<T>, at: nat, count: nat)
    requires at < |slots|
    ensures |Items(slots, at, count)| == count
    decreases count
  {
    if count > 0 {
      ItemsLength(slots, Next(at, |slots|), count - 1);
    }
  }

  /** A slot that holds no item may change. */
  lemma {:induction false} StoreOutside<T>(slots: seq<T>, at: nat, count: nat, k: nat, v: T)
    requires at < |slots| && count <= k < |slots|
    ensures var w := Ahead(at, k, |slots|);
            w < |slots| && Items(slots[w := v], at, count) == Items(slots, at, count)
    decreases count
  {
    var n := |slots|;
    if count > 0 {
      StoreOutside(slots, Next(at, n), count - 1, k - 1, v);
      assert Ahead(Next(at, n), k - 1, n) == Ahead(at, k, n) != at;
    }
  }

  lemma {:induction false} ItemsConcat<T>(slots: seq<T>, at: nat, m: nat, k: nat)
    requires at < |slots| && m + k <= |slots|
    ensures Ahead(at, m, |slots|) < |slots|
    ensures Items(slots, at, m + k) == Items(slots, at, m) + Items(slots, Ahead(at, m, |slots|), k)
    decreases m
  {
    var n := |slots|;
    if m == 0 {
      assert [] + Items(slots, at, k) == Items(slots, at, k);
    } else {
      var next := Next(at, n);
      ItemsConcat(slots, next, m - 1, k);
      assert Ahead(next, m - 1, n) == Ahead(at, m, n);
      Regroup([slots[at]], Items(slots, next, m - 1), Items(slots, Ahead(at, m, n), k));
    }
  }
}
