/**
 * The linear scans that stop at the first element satisfying a condition
 * (`for x in xs: if cond(x): return ...`), stated once for any condition.
 */
module Search {
  import opened Wrappers

  /** The index of the first element at or after `from` that satisfies `p`, if any. */
  function FirstFrom<T>(xs: seq<T>, p: T -> bool, from: nat): (r: Option<nat>)
    requires from <= |xs|
    ensures r.Some? ==> from <= r.value < |xs| && p(xs[r.value])
                        && forall j :: from <= j < r.value ==> !p(xs[j])
    ensures r.None? ==> forall j :: from <= j < |xs| ==> !p(xs[j])
    decreases |xs| - from
  {
    if from == |xs| then None
    else if p(xs[from]) then Some(from)
    else FirstFrom(xs, p, from + 1)
  }

  /** An element satisfying `p` with none before it is the one found. */
  lemma {:induction false} FirstFromAt<T>(xs: seq<T>, p: T -> bool, from: nat, i: nat)
    requires from <= i < |xs| && p(xs[i])
    requires forall j :: from <= j < i ==> !p(xs[j])
    ensures FirstFrom(xs, p, from) == Some(i)
    decreases i - from
  {
    if from < i {
      FirstFromAt(xs, p, from + 1, i);
    }
  }

  /** `[f(x) for x in xs if p(x)]`, built from the end so that a loop's prefix
      is a prefix of the result. */
  function Select<T, U>(xs: seq<T>, p: T -> bool, f: T -> U): seq<U>
    decreases |xs|
  {
    if xs == [] then []
    else
      var n := |xs| - 1;
      Select(xs[..n], p, f) + (if p(xs[n]) then [f(xs[n])] else [])
  }

  /** One more element at the end adds its image, if it passes, at the end. */
  lemma SelectSnoc<T, U>(xs: seq<T>, x: T, p: T -> bool, f: T -> U)
    ensures Select(xs + [x], p, f) == Select(xs, p, f) + (if p(x) then [f(x)] else [])
  {
    assert (xs + [x])[..|xs|] == xs;
  }

  /** Selection distributes over concatenation, so it keeps order. */
  lemma {:induction false} SelectAppend<T, U>(a: seq<T>, b: seq<T>, p: T -> bool, f: T -> U)
    ensures Select(a + b, p, f) == Select(a, p, f) + Select(b, p, f)
    decreases |b|
  {
    if b == [] {
      assert a + b == a;
    } else {
      var n := |b| - 1;
      var tail := if p(b[n]) then [f(b[n])] else [];
      assert a + b == (a + b[..n]) + [b[n]];
      assert b == b[..n] + [b[n]];
      SelectSnoc(a + b[..n], b[n], p, f);
      SelectSnoc(b[..n], b[n], p, f);
      SelectAppend(a, b[..n], p, f);
      assert Select(a, p, f) + (Select(b[..n], p, f) + tail) == (Select(a, p, f) + Select(b[..n], p, f)) + tail;
    }
  }

  /** Exactly the passing elements contribute, one image each. */
  lemma {:induction false} SelectExact<T, U>(xs: seq<T>, p: T -> bool, f: T -> U)
    ensures |Select(xs, p, f)| <= |xs|
    ensures forall y :: y in Select(xs, p, f) <==> exists i :: 0 <= i < |xs| && p(xs[i]) && y == f(xs[i])
    decreases |xs|
  {
    if xs != [] {
      var n := |xs| - 1;
      var pre := xs[..n];
      var tail := if p(xs[n]) then [f(xs[n])] else [];
      assert Select(xs, p, f) == Select(pre, p, f) + tail;
      SelectExact(pre, p, f);
      forall y ensures y in Select(xs, p, f) <==> exists i :: 0 <= i < |xs| && p(xs[i]) && y == f(xs[i]) {
        if y in Select(pre, p, f) {
          var i :| 0 <= i < |pre| && p(pre[i]) && y == f(pre[i]);
          assert xs[i] == pre[i];
        } else if y in tail {
          assert p(xs[n]) && y == f(xs[n]);
        }
        if exists i :: 0 <= i < |xs| && p(xs[i]) && y == f(xs[i]) {
          var i :| 0 <= i < |xs| && p(xs[i]) && y == f(xs[i]);
          if i < n {
            assert pre[i] == xs[i];
          } else {
            assert tail == [f(xs[n])];
          }
        }
      }
    }
  }

  /** Nothing passes, nothing is selected. */
  lemma {:induction false} SelectNone<T, U>(xs: seq<T>, p: T -> bool, f: T -> U)
    requires forall j :: 0 <= j < |xs| ==> !p(xs[j])
    ensures Select(xs, p, f) == []
    decreases |xs|
  {
    if xs != [] {
      SelectNone(xs[..|xs| - 1], p, f);
    }
  }
}
