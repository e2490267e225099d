/**
 * First-occurrence deduplication into an insertion-ordered dict, the pattern
 * both extractors of `server.py` follow: an item is skipped unless it passes
 * its test, then skipped if its key is already present, else stored under its
 * key.  The dict is a sequence of (key, value) entries; `list(d.values())` is
 * `Values`.
 */
module Dedup {

  predicate HasKey<K(==), V>(d: seq<(K, V)>, k: K) {
    exists i :: 0 <= i < |d| && d[i].0 == k
  }

  /** No key occurs twice. */
  predicate UniqueKeys<K(==), V>(d: seq<(K, V)>) {
    forall i, j :: 0 <= i < j < |d| ==> d[i].0 != d[j].0
  }

  function Values<K, V>(d: seq<(K, V)>): (r: seq<V>)
    ensures |r| == |d|
  {
    seq(|d|, i requires 0 <= i < |d| => d[i].1)
  }

  /** `if k in d: continue` ... `d[k] = v`: the first value stored under a key stays. */
  function Put<K(==), V>(d: seq<(K, V)>, k: K, v: V): seq<(K, V)> {
    if HasKey(d, k) then d else d + [(k, v)]
  }

  /** The dict after the loop has visited `xs`, starting from `d`. */
  function Fold<T, K(==), V>(d: seq<(K, V)>, xs: seq<T>, keep: T -> bool, key: T -> K, make: T -> V): seq<(K, V)>
    decreases |xs|
  {
    if xs == [] then d
    else
      var n := |xs| - 1;
      var before := Fold(d, xs[..n], keep, key, make);
      if keep(xs[n]) then Put(before, key(xs[n]), make(xs[n])) else before
  }

  /** One more item visited. */
  lemma FoldSnoc<T, K, V>(d: seq<(K, V)>, xs: seq<T>, x: T, keep: T -> bool, key: T -> K, make: T -> V)
    ensures Fold(d, xs + [x], keep, key, make) ==
            if keep(x) then Put(Fold(d, xs, keep, key, make), key(x), make(x)) else Fold(d, xs, keep, key, make)
  {
    assert (xs + [x])[..|xs|] == xs;
  }

  /** Visiting `a` then `b` is visiting `a + b`. */
  lemma {:induction false} FoldAppend<T, K, V>(d: seq<(K, V)>, a: seq<T>, b: seq<T>, keep: T -> bool, key: T -> K, make: T -> V)
    ensures Fold(d, a + b, keep, key, make) == Fold(Fold(d, a, keep, key, make), b, keep, key, make)
    decreases |b|
  {
    if b == [] {
      assert a + b == a;
    } else {
      var n := |b| - 1;
      FoldAppend(d, a, b[..n], keep, key, make);
      assert a + b == (a + b[..n]) + [b[n]];
      FoldSnoc(d, a + b[..n], b[n], keep, key, make);
      assert b == b[..n] + [b[n]];
      FoldSnoc(Fold(d, a, keep, key, make), b[..n], b[n], keep, key, make);
    }
  }

  // ---------------------------------------------------------------------------
  // An independent description of the result: the items that pass the test and
  // whose key no earlier passing item has, in input order.

  predicate IsFirst<T, K(==)>(xs: seq<T>, i: nat, keep: T -> bool, key: T -> K)
    requires i < |xs|
  {
    keep(xs[i]) && forall j :: 0 <= j < i && keep(xs[j]) ==> key(xs[j]) != key(xs[i])
  }

  function FirstOf<T, K(==)>(xs: seq<T>, keep: T -> bool, key: T -> K): seq<T>
    decreases |xs|
  {
    if xs == [] then []
    else
      var n := |xs| - 1;
      FirstOf(xs[..n], keep, key) + (if IsFirst(xs, n, keep, key) then [xs[n]] else [])
  }

  function Entries<T, K, V>(ys: seq<T>, key: T -> K, make: T -> V): (r: seq<(K, V)>)
    ensures |r| == |ys|
  {
    seq(|ys|, i requires 0 <= i < |ys| => (key(ys[i]), make(ys[i])))
  }

  /** A key is in the dict exactly when some passing item has it. */
  lemma {:induction false} FoldKeys<T, K, V>(xs: seq<T>, keep: T -> bool, key: T -> K, make: T -> V, k: K)
    ensures HasKey(Fold([], xs, keep, key, make), k) <==> exists i :: 0 <= i < |xs| && keep(xs[i]) && key(xs[i]) == k
    decreases |xs|
  {
    if xs != [] {
      var n := |xs| - 1;
      var p := xs[..n];
      FoldKeys(p, keep, key, make, k);
      var before := Fold([], p, keep, key, make);
      if keep(xs[n]) && !HasKey(before, key(xs[n])) {
        var after := before + [(key(xs[n]), make(xs[n]))];
        assert after[|before|].0 == key(xs[n]);
        if HasKey(after, k) {
          var i :| 0 <= i < |after| && after[i].0 == k;
          if i < |before| { assert before[i].0 == k; }
        }
        if HasKey(before, k) {
          var i :| 0 <= i < |before| && before[i].0 == k;
          assert after[i].0 == k;
        }
      }
      if exists i :: 0 <= i < |xs| && keep(xs[i]) && key(xs[i]) == k {
        var i :| 0 <= i < |xs| && keep(xs[i]) && key(xs[i]) == k;
        if i < n { assert p[i] == xs[i]; }
      }
      if exists i :: 0 <= i < |p| && keep(p[i]) && key(p[i]) == k {
        var i :| 0 <= i < |p| && keep(p[i]) && key(p[i]) == k;
        assert xs[i] == p[i];
      }
    }
  }

  /** The dict is exactly the entries of the first passing item of each key, in input order. */
  lemma {:induction false} FoldIsFirstOf<T, K, V>(xs: seq<T>, keep: T -> bool, key: T -> K, make: T -> V)
    ensures Fold([], xs, keep, key, make) == Entries(FirstOf(xs, keep, key), key, make)
    decreases |xs|
  {
    if xs != [] {
      var n := |xs| - 1;
      var p := xs[..n];
      FoldIsFirstOf(p, keep, key, make);
      FoldKeys(p, keep, key, make, key(xs[n]));
      forall j | 0 <= j < n ensures p[j] == xs[j] { }
      var before := FirstOf(p, keep, key);
      if IsFirst(xs, n, keep, key) {
        assert Entries(before + [xs[n]], key, make) == Entries(before, key, make) + [(key(xs[n]), make(xs[n]))];
      } else if keep(xs[n]) {
        var j :| 0 <= j < n && keep(xs[j]) && key(xs[j]) == key(xs[n]);
        assert keep(p[j]) && key(p[j]) == key(xs[n]);
      }
    }
  }

  /** Every kept item is an input item that passes the test and is the first with its key. */
  lemma {:induction false} FirstOfSound<T, K>(xs: seq<T>, keep: T -> bool, key: T -> K)
    ensures |FirstOf(xs, keep, key)| <= |xs|
    ensures forall y :: y in FirstOf(xs, keep, key) ==>
              exists i :: 0 <= i < |xs| && xs[i] == y && IsFirst(xs, i, keep, key)
    decreases |xs|
  {
    if xs != [] {
      var n := |xs| - 1;
      var p := xs[..n];
      FirstOfSound(p, keep, key);
      forall y | y in FirstOf(p, keep, key)
        ensures exists i :: 0 <= i < |xs| && xs[i] == y && IsFirst(xs, i, keep, key)
      {
        var i :| 0 <= i < |p| && p[i] == y && IsFirst(p, i, keep, key);
        assert forall j :: 0 <= j <= i ==> xs[j] == p[j];
        assert IsFirst(xs, i, keep, key);
      }
    }
  }

  /** The first passing item of each key is kept. */
  lemma {:induction false} FirstOfComplete<T, K>(xs: seq<T>, keep: T -> bool, key: T -> K, i: nat)
    requires i < |xs| && IsFirst(xs, i, keep, key)
    ensures xs[i] in FirstOf(xs, keep, key)
    decreases |xs|
  {
    var n := |xs| - 1;
    if i < n {
      var p := xs[..n];
      assert forall j :: 0 <= j <= i ==> xs[j] == p[j];
      assert IsFirst(p, i, keep, key);
      FirstOfComplete(p, keep, key, i);
    }
  }

  /** No two kept items share a key. */
  lemma {:induction false} FirstOfUniqueKeys<T, K>(xs: seq<T>, keep: T -> bool, key: T -> K)
    ensures var ys := FirstOf(xs, keep, key);
            forall a, b :: 0 <= a < b < |ys| ==> key(ys[a]) != key(ys[b])
    decreases |xs|
  {
    if xs != [] {
      var n := |xs| - 1;
      var p := xs[..n];
      FirstOfUniqueKeys(p, keep, key);
      FirstOfSound(p, keep, key);
      var before := FirstOf(p, keep, key);
      if IsFirst(xs, n, keep, key) {
        var ys := before + [xs[n]];
        forall a | 0 <= a < |before| ensures key(ys[a]) != key(xs[n]) {
          assert before[a] in before;
          var i :| 0 <= i < |p| && p[i] == before[a] && IsFirst(p, i, keep, key);
          assert xs[i] == p[i];
        }
      }
    }
  }

  /** The keys of the entries are those of the kept items, so they are unique too. */
  lemma EntriesUnique<T, K, V>(xs: seq<T>, keep: T -> bool, key: T -> K, make: T -> V)
    ensures UniqueKeys(Entries(FirstOf(xs, keep, key), key, make))
  {
    FirstOfUniqueKeys(xs, keep, key);
  }

  /** `[make(y) for y in ys]`. */
  function Mapped<T, V>(ys: seq<T>, make: T -> V): seq<V> {
    seq(|ys|, i requires 0 <= i < |ys| => make(ys[i]))
  }

  /** Some value carries the key `k`. */
  ghost predicate Tagged<K, V>(r: seq<V>, tag: V -> K, k: K) {
    exists v :: v in r && tag(v) == k
  }

  /** Some passing item has the key `k`. */
  ghost predicate Passing<T, K>(xs: seq<T>, keep: T -> bool, key: T -> K, k: K) {
    exists i :: 0 <= i < |xs| && keep(xs[i]) && key(xs[i]) == k
  }

  /** What `list(d.values())` holds after the loop, given a `tag` function that reads
      each stored value's key back: at most one value per input item; exactly
      the values of the first passing item of each key; no tag twice; and a
      tag present exactly when some passing item has that key. */
  lemma DedupFacts<T, K, V>(xs: seq<T>, keep: T -> bool, key: T -> K, make: T -> V, tag: V -> K)
    requires forall t :: tag(make(t)) == key(t)
    ensures var r := Values(Fold([], xs, keep, key, make));
            && |r| <= |xs|
            && (forall v :: v in r <==> exists i :: 0 <= i < |xs| && IsFirst(xs, i, keep, key) && v == make(xs[i]))
            && (forall a, b :: 0 <= a < b < |r| ==> tag(r[a]) != tag(r[b]))
            && (forall k :: Tagged(r, tag, k) <==> Passing(xs, keep, key, k))
  {
    var ys := FirstOf(xs, keep, key);
    var d := Fold([], xs, keep, key, make);
    var r := Values(d);
    FoldIsFirstOf(xs, keep, key, make);
    FirstOfSound(xs, keep, key);
    FirstOfUniqueKeys(xs, keep, key);
    assert r == Mapped(ys, make);
    forall v | v in r ensures exists i :: 0 <= i < |xs| && IsFirst(xs, i, keep, key) && v == make(xs[i]) {
      var a :| 0 <= a < |r| && r[a] == v;
      assert ys[a] in ys;
    }
    forall i | 0 <= i < |xs| && IsFirst(xs, i, keep, key) ensures make(xs[i]) in r {
      FirstOfComplete(xs, keep, key, i);
      var a :| 0 <= a < |ys| && ys[a] == xs[i];
      assert r[a] == make(xs[i]);
    }
    forall a, b | 0 <= a < b < |r| ensures tag(r[a]) != tag(r[b]) {
      assert tag(r[a]) == key(ys[a]) && tag(r[b]) == key(ys[b]);
    }
    forall k ensures Tagged(r, tag, k) <==> Passing(xs, keep, key, k) {
      FoldKeys(xs, keep, key, make, k);
      if exists v :: v in r && tag(v) == k {
        var v :| v in r && tag(v) == k;
        var a :| 0 <= a < |r| && r[a] == v;
        assert d[a].0 == key(ys[a]) == k;
      }
      if HasKey(d, k) {
        var a :| 0 <= a < |d| && d[a].0 == k;
        assert r[a] in r && tag(r[a]) == key(ys[a]);
      }
    }
  }
}
