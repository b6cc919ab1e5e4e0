/** The longest common subsequence of two runs, as index pairs (`matches` in crates/mb-core/src/conflict.rs). */
module Lcs {
  import opened Strings

  type IndexPair = (nat, nat)

  function Larger(a: nat, b: nat): nat {
    if a < b then b else a
  }

  /** The table entry: how long a common subsequence of `a[i..]` and `b[j..]` the recurrence finds. */
  function Length<T(==)>(a: seq<T>, b: seq<T>, i: nat, j: nat): nat
    requires i <= |a| && j <= |b|
    decreases |a| - i + |b| - j
  {
    if i == |a| || j == |b| then 0
    else if a[i] == b[j] then Length(a, b, i + 1, j + 1) + 1
    else Larger(Length(a, b, i + 1, j), Length(a, b, i, j + 1))
  }

  /** The traceback from `(i, j)`. */
  function Trace<T(==)>(a: seq<T>, b: seq<T>, i: nat, j: nat): seq<IndexPair>
    requires i <= |a| && j <= |b|
    decreases |a| - i + |b| - j
  {
    if i == |a| || j == |b| then []
    else if a[i] == b[j] then [(i, j)] + Trace(a, b, i + 1, j + 1)
    else if Length(a, b, i + 1, j) >= Length(a, b, i, j + 1) then Trace(a, b, i + 1, j)
    else Trace(a, b, i, j + 1)
  }

  function Matches<T(==)>(a: seq<T>, b: seq<T>): seq<IndexPair> {
    Trace(a, b, 0, 0)
  }

  /** Row `i` of the table is right from column `from` on. */
  ghost predicate RowFilled<T>(lengths: array2<nat>, a: seq<T>, b: seq<T>, i: nat, from: nat)
    requires lengths.Length0 == |a| + 1 && lengths.Length1 == |b| + 1
    requires i <= |a|
    reads lengths
  {
    forall q :: from <= q <= |b| ==> lengths[i, q] == Length(a, b, i, q)
  }

  /** One row of the table, filled from its far end, given the row below it. */
  method FillRow<T(==)>(lengths: array2<nat>, a: seq<T>, b: seq<T>, i: nat)
    requires lengths.Length0 == |a| + 1 && lengths.Length1 == |b| + 1
    requires i < |a| && lengths[i, |b|] == 0
    requires RowFilled(lengths, a, b, i + 1, 0)
    modifies lengths
    ensures RowFilled(lengths, a, b, i, 0)
    ensures forall p: nat :: p <= |a| && p != i && old(RowFilled(lengths, a, b, p, 0)) ==> RowFilled(lengths, a, b, p, 0)
    ensures forall p, q :: 0 <= p <= |a| && p != i && 0 <= q <= |b| ==> lengths[p, q] == old(lengths[p, q])
  {
    for j := |b| downto 0
      invariant RowFilled(lengths, a, b, i, j)
      invariant forall p, q :: 0 <= p <= |a| && p != i && 0 <= q <= |b| ==> lengths[p, q] == old(lengths[p, q])
    {
      assert lengths[i + 1, j] == Length(a, b, i + 1, j) && lengths[i + 1, j + 1] == Length(a, b, i + 1, j + 1);
      lengths[i, j] :=
        if a[i] == b[j] then lengths[i + 1, j + 1] + 1
        else Larger(lengths[i + 1, j], lengths[i, j + 1]);
    }
  }

  /** The table of `matches`, filled from its last row upwards. */
  method FillTable<T(==)>(a: seq<T>, b: seq<T>) returns (lengths: array2<nat>)
    ensures fresh(lengths) && lengths.Length0 == |a| + 1 && lengths.Length1 == |b| + 1
    ensures forall p: nat :: p <= |a| ==> RowFilled(lengths, a, b, p, 0)
  {
    lengths := new nat[|a| + 1, |b| + 1]((_, _) => 0);
    assert RowFilled(lengths, a, b, |a|, 0);
    for i := |a| downto 0
      invariant forall p: nat :: i <= p <= |a| ==> RowFilled(lengths, a, b, p, 0)
      invariant forall p :: 0 <= p < i ==> lengths[p, |b|] == 0
    {
      FillRow(lengths, a, b, i);
    }
  }

  /** `matches` as the program runs it: the table, then a walk from its near corner. */
  method ComputeMatches<T(==)>(a: seq<T>, b: seq<T>) returns (pairs: seq<IndexPair>)
    ensures pairs == Matches(a, b)
  {
    var rows, columns := |a|, |b|;
    var lengths := FillTable(a, b);
    pairs := [];
    var i, j := 0, 0;
    while i < rows && j < columns
      invariant i <= rows && j <= columns
      invariant pairs + Trace(a, b, i, j) == Matches(a, b)
      decreases rows - i + columns - j
    {
      if a[i] == b[j] {
        assert pairs + ([(i, j)] + Trace(a, b, i + 1, j + 1)) == (pairs + [(i, j)]) + Trace(a, b, i + 1, j + 1);
        pairs := pairs + [(i, j)];
        i, j := i + 1, j + 1;
      } else {
        assert RowFilled(lengths, a, b, i, 0) && RowFilled(lengths, a, b, i + 1, 0);
        if lengths[i + 1, j] >= lengths[i, j + 1] {
          i := i + 1;
        } else {
          j := j + 1;
        }
      }
    }
  }

  /** Both components of every pair increase strictly, starting no earlier than `(i, j)`. */
  predicate Increasing(pairs: seq<IndexPair>, i: nat, j: nat) {
    && (forall k :: 0 <= k < |pairs| ==> i <= pairs[k].0 && j <= pairs[k].1)
    && (forall k, l :: 0 <= k < l < |pairs| ==> pairs[k].0 < pairs[l].0 && pairs[k].1 < pairs[l].1)
  }

  /** A common subsequence: increasing index pairs of equal elements. */
  predicate IsCommon<T(==)>(a: seq<T>, b: seq<T>, pairs: seq<IndexPair>, i: nat, j: nat) {
    && Increasing(pairs, i, j)
    && (forall k :: 0 <= k < |pairs| ==> pairs[k].0 < |a| && pairs[k].1 < |b| && a[pairs[k].0] == b[pairs[k].1])
  }

  lemma CommonBehind<T>(a: seq<T>, b: seq<T>, i: nat, j: nat, rest: seq<IndexPair>)
    requires i < |a| && j < |b| && a[i] == b[j] && IsCommon(a, b, rest, i + 1, j + 1)
    ensures IsCommon(a, b, [(i, j)] + rest, i, j)
  {
    var all := [(i, j)] + rest;
    assert forall k :: 0 < k < |all| ==> all[k] == rest[k - 1];
  }

  lemma {:induction false} TraceIsCommon<T>(a: seq<T>, b: seq<T>, i: nat, j: nat)
    requires i <= |a| && j <= |b|
    ensures IsCommon(a, b, Trace(a, b, i, j), i, j)
    ensures |Trace(a, b, i, j)| == Length(a, b, i, j)
    decreases |a| - i + |b| - j
  {
    if i < |a| && j < |b| {
      if a[i] == b[j] {
        TraceIsCommon(a, b, i + 1, j + 1);
        CommonBehind(a, b, i, j, Trace(a, b, i + 1, j + 1));
      } else {
        TraceIsCommon(a, b, i + 1, j);
        TraceIsCommon(a, b, i, j + 1);
      }
    }
  }

  lemma {:induction false} NoneIsLonger<T>(a: seq<T>, b: seq<T>, i: nat, j: nat, pairs: seq<IndexPair>)
    requires i <= |a| && j <= |b|
    requires IsCommon(a, b, pairs, i, j)
    ensures |pairs| <= Length(a, b, i, j)
    decreases |a| - i + |b| - j
  {
    if pairs != [] {
      assert i <= pairs[0].0 < |a| && j <= pairs[0].1 < |b|;
      assert forall k :: 0 < k < |pairs| ==> pairs[0].0 < pairs[k].0 && pairs[0].1 < pairs[k].1;
      if a[i] == b[j] {
        var rest := pairs[1..];
        assert forall k :: 0 <= k < |rest| ==> rest[k] == pairs[k + 1];
        NoneIsLonger(a, b, i + 1, j + 1, rest);
      } else if i < pairs[0].0 {
        NoneIsLonger(a, b, i + 1, j, pairs);
      } else {
        NoneIsLonger(a, b, i, j + 1, pairs);
      }
    }
  }

  /** What `matches` returns is a common subsequence, and no common subsequence is longer. */
  lemma MatchesAreLongest<T>(a: seq<T>, b: seq<T>)
    ensures IsCommon(a, b, Matches(a, b), 0, 0)
    ensures forall pairs :: IsCommon(a, b, pairs, 0, 0) ==> |pairs| <= |Matches(a, b)|
  {
    TraceIsCommon(a, b, 0, 0);
    forall pairs | IsCommon(a, b, pairs, 0, 0)
      ensures |pairs| <= |Matches(a, b)|
    {
      NoneIsLonger(a, b, 0, 0, pairs);
    }
  }

  function Diagonal(i: nat, n: nat): seq<IndexPair>
    requires i <= n
  {
    seq(n - i, k requires 0 <= k < n - i => (i + k, i + k))
  }

  /** A run matched with itself pairs every element with itself. */
  lemma {:induction false} TraceOfSelf<T>(a: seq<T>, i: nat)
    requires i <= |a|
    ensures Trace(a, a, i, i) == Diagonal(i, |a|)
    decreases |a| - i
  {
    if i < |a| {
      TraceOfSelf(a, i + 1);
    }
  }

  /** Where both ways are as long, the traceback skips an element of the first run. */
  lemma TieSkipsTheFirst<T>(x: T, y: T)
    requires x != y
    ensures Matches([x, y], [y, x]) == [(1, 0)]
  {
    var a, b := [x, y], [y, x];
    assert Length(a, b, 2, 1) == 0 && Length(a, b, 1, 1) == 0 && Length(a, b, 2, 0) == 0;
    assert Length(a, b, 1, 0) == Length(a, b, 2, 1) + 1;
    assert Length(a, b, 0, 1) == Length(a, b, 1, 2) + 1 && Length(a, b, 1, 2) == 0;
    assert Trace(a, b, 1, 0) == [(1, 0)] + Trace(a, b, 2, 1);
  }
}
