/** Sequence facts shared by the tools: repeat-free lists, Python's
    "append when not yet present" idiom and first-appearance de-duplication. */
module Collections {

  predicate Distinct<T(==)>(s: seq<T>) {
    forall i, j :: 0 <= i < j < |s| ==> s[i] != s[j]
  }

  /** The values of `xs` once each, in the order in which they first occur. */
  function Dedup<T(==,!new)>(xs: seq<T>): (r: seq<T>)
    ensures Distinct(r)
    ensures forall x :: x in r <==> x in xs
    ensures |r| <= |xs|
  {
    if xs == [] then []
    else
      var p := Dedup(xs[..|xs| - 1]);
      if xs[|xs| - 1] in p then p else p + [xs[|xs| - 1]]
  }

  /** Dedup keeps first-appearance order: wherever `r[b]` occurs in `xs`,
      every earlier entry `r[a]` has already occurred. */
  lemma {:induction false} DedupFirstAppearance<T(!new)>(xs: seq<T>, a: nat, b: nat, j: nat)
    requires a < b < |Dedup(xs)| && j < |xs| && xs[j] == Dedup(xs)[b]
    ensures Dedup(xs)[a] in xs[..j]
  {
    var n := |xs| - 1;
    var p := Dedup(xs[..n]);
    var r := Dedup(xs);
    if b < |p| {
      assert r[a] == p[a] && r[b] == p[b];
      if j < n {
        assert xs[..n][j] == xs[j];
        DedupFirstAppearance(xs[..n], a, b, j);
        assert xs[..n][..j] == xs[..j];
      } else {
        assert p[b] in xs[..n];
        var j0 :| 0 <= j0 < n && xs[..n][j0] == p[b];
        DedupFirstAppearance(xs[..n], a, b, j0);
        assert xs[..n][..j0] <= xs[..j];
      }
    } else {
      assert r == p + [xs[n]] && r[b] == xs[n] && xs[n] !in xs[..n];
      assert j == n;
      assert r[a] == p[a] && p[a] in xs[..n];
    }
  }

  lemma {:induction false} DedupOfDistinct<T(!new)>(xs: seq<T>)
    requires Distinct(xs)
    ensures Dedup(xs) == xs
  {
    if xs != [] {
      var n := |xs| - 1;
      assert Distinct(xs[..n]);
      DedupOfDistinct(xs[..n]);
      assert xs[n] !in xs[..n];
      assert xs[..n] + [xs[n]] == xs;
    }
  }

  /** Python's `list.index(x)`: the position of the first `x`. */
  function Position<T(==)>(s: seq<T>, x: T): (k: nat)
    requires x in s
    ensures k < |s| && s[k] == x && x !in s[..k]
  {
    if s[0] == x then 0
    else
      var k := Position(s[1..], x);
      assert s[..1 + k] == [s[0]] + s[1..][..k];
      1 + k
  }

  /** Python's `for v in values: if v not in acc: acc.append(v)`. */
  method AppendNew<T(==)>(acc: seq<T>, values: seq<T>) returns (r: seq<T>)
    ensures |acc| <= |r| && r[..|acc|] == acc
    ensures forall x :: x in r <==> x in acc || x in values
    ensures Distinct(acc) ==> Distinct(r)
  {
    r := acc;
    for k := 0 to |values|
      invariant |acc| <= |r| && r[..|acc|] == acc
      invariant forall x :: x in r <==> x in acc || x in values[..k]
      invariant Distinct(acc) ==> Distinct(r)
    {
      assert values[..k + 1] == values[..k] + [values[k]];
      if values[k] !in r {
        r := r + [values[k]];
      }
    }
    assert values[..|values|] == values;
  }
}
