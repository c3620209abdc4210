/** The arithmetic of the parallel adder: sums, the split of the vector into segments, and the sequential loops. */
module Segments {

  function Sum(s: seq<int>): int {
    if s == [] then 0 else Sum(s[..|s| - 1]) + s[|s| - 1]
  }

  lemma SumAppend(s: seq<int>, x: int)
    ensures Sum(s + [x]) == Sum(s) + x
  {
    assert (s + [x])[..|s|] == s;
  }

  lemma {:induction false} SumConcat(s: seq<int>, t: seq<int>)
    ensures Sum(s + t) == Sum(s) + Sum(t)
  {
    if t == [] {
      assert s + t == s;
    } else {
      var front := t[..|t| - 1];
      assert (s + t)[..|s + t| - 1] == s + front;
      SumConcat(s, front);
    }
  }

  const INT_MAX: int := 0x7fff_ffff
  const INT_MIN: int := -0x8000_0000
  const LONG_MAX: int := 0x7fff_ffff_ffff_ffff
  const LONG_MIN: int := -0x8000_0000_0000_0000

  predicate IsIntVector(v: seq<int>) {
    |v| <= INT_MAX && forall k :: 0 <= k < |v| ==> INT_MIN <= v[k] <= INT_MAX
  }

  /** A 64-bit accumulator never overflows on 32-bit elements counted by a 32-bit size. */
  lemma {:induction false} SumFitsLong(v: seq<int>)
    requires IsIntVector(v)
    ensures INT_MIN * |v| <= Sum(v) <= INT_MAX * |v|
    ensures LONG_MIN <= Sum(v) <= LONG_MAX
  {
    if v != [] {
      SumFitsLong(v[..|v| - 1]);
    }
  }

  lemma SliceFitsLong(v: seq<int>, a: nat, b: nat)
    requires IsIntVector(v) && a <= b <= |v|
    ensures LONG_MIN <= Sum(v[a..b]) <= LONG_MAX
    ensures a == 0 ==> LONG_MIN <= Sum(v[..b]) <= LONG_MAX
  {
    SumFitsLong(v[a..b]);
    assert a == 0 ==> v[a..b] == v[..b];
  }

  /** What one worker is given: the bounds of its segment and a place for its sum. */
  datatype Context = Context(pstart: nat, pend: int, result: int)

  /** `pref` in the i-th iteration of the submitting loop. */
  function Offset(i: nat, range: nat): nat {
    if i == 0 then 0 else Offset(i - 1, range) + range
  }

  /** The context that the i-th iteration prepares, with the clamp the source applies to the end. */
  function Prepared(i: nat, range: nat, size: nat): Context {
    var start := Offset(i, range);
    Context(start, if start + range > size then size else start + range, 0)
  }

  lemma {:induction false} OffsetIsProduct(i: nat, range: nat)
    ensures Offset(i, range) == i * range
  {
    if i > 0 {
      OffsetIsProduct(i - 1, range);
    }
  }

  lemma {:induction false} OffsetGrows(i: nat, j: nat, range: nat)
    requires i <= j
    ensures Offset(i, range) <= Offset(j, range)
  {
    if i < j {
      OffsetGrows(i, j - 1, range);
    }
  }

  /** How many elements the segments cover when the range is the size over the number of parts. */
  function Covered(size: nat, parts: nat): nat
    requires parts > 0
  {
    size - size % parts
  }

  lemma WholePartsFit(size: nat, parts: nat)
    requires parts > 0
    ensures Offset(parts, size / parts) == parts * (size / parts) == Covered(size, parts) <= size
  {
    OffsetIsProduct(parts, size / parts);
  }

  /** The segments lie inside the vector, each begins where the one before ends, and the clamp never acts. */
  lemma SegmentsAreAdjacent(i: nat, parts: nat, range: nat, size: nat)
    requires i < parts && Offset(parts, range) <= size
    ensures Prepared(i, range, size).pend == Offset(i + 1, range) == Prepared(i + 1, range, size).pstart
    ensures Prepared(i, range, size).pstart <= Prepared(i, range, size).pend <= size
  {
    OffsetGrows(i + 1, parts, range);
  }

  function SegmentSum(v: seq<int>, i: nat, parts: nat, range: nat): int
    requires i < parts && Offset(parts, range) <= |v|
  {
    SegmentsAreAdjacent(i, parts, range, |v|);
    Sum(v[Prepared(i, range, |v|).pstart..Prepared(i, range, |v|).pend])
  }

  /** What the parallel adder returns: the last `size % parts` elements belong to no segment. */
  function ParallelTotal(v: seq<int>, parts: nat): int
    requires parts > 0
  {
    Sum(v[..Covered(|v|, parts)])
  }

  /** What the parallel adder misses is the sum of the elements in no segment. */
  lemma LeftOver(v: seq<int>, parts: nat)
    requires parts > 0
    ensures ParallelTotal(v, parts) + Sum(v[Covered(|v|, parts)..]) == Sum(v)
    ensures |v| % parts == 0 ==> ParallelTotal(v, parts) == Sum(v)
  {
    var cut := Covered(|v|, parts);
    SumConcat(v[..cut], v[cut..]);
    assert v[..cut] + v[cut..] == v;
    assert |v| % parts == 0 ==> v[..cut] == v;
  }

  /** Adding one more segment extends the prefix that has been summed. */
  lemma PrefixGrows(v: seq<int>, i: nat, parts: nat, range: nat)
    requires i < parts && Offset(parts, range) <= |v|
    ensures Offset(i, range) <= Offset(i + 1, range) <= |v|
    ensures Sum(v[..Offset(i + 1, range)]) == Sum(v[..Offset(i, range)]) + SegmentSum(v, i, parts, range)
  {
    SegmentsAreAdjacent(i, parts, range, |v|);
    var a, b := Offset(i, range), Offset(i + 1, range);
    SumConcat(v[..a], v[a..b]);
    assert v[..a] + v[a..b] == v[..b];
  }

  /** The parallel and the sequential adder agree on every vector of a given size exactly when the number of
      segments divides the size. */
  lemma AgreeExactlyWhenDivisible(size: nat, parts: nat)
    requires parts > 0
    ensures (forall v: seq<int> :: |v| == size ==> ParallelTotal(v, parts) == Sum(v)) <==> size % parts == 0
  {
    var cut := Covered(size, parts);
    if cut < size {
      var v := DroppedElement(size, cut);
      assert |v| == size && ParallelTotal(v, parts) != Sum(v);
    } else {
      forall v: seq<int> | |v| == size
        ensures ParallelTotal(v, parts) == Sum(v)
      {
        assert v[..cut] == v;
      }
    }
  }

  /** A vector whose one non-zero element is the last. */
  lemma DroppedElement(size: nat, cut: nat) returns (v: seq<int>)
    requires cut < size
    ensures |v| == size && Sum(v[..cut]) == 0 && Sum(v) == 1
  {
    var zeros: seq<int> := seq(size - 1, _ => 0);
    v := zeros + [1];
    SumOfZeros(zeros);
    SumAppend(zeros, 1);
    assert v[..cut] == zeros[..cut];
    SumOfZeros(zeros[..cut]);
  }

  lemma {:induction false} SumOfZeros(s: seq<int>)
    requires forall k :: 0 <= k < |s| ==> s[k] == 0
    ensures Sum(s) == 0
  {
    if s != [] {
      SumOfZeros(s[..|s| - 1]);
    }
  }

  // ----- The sequential loops -----

  /** The loop of the work function. */
  method SumSegment(v: array<int>, pstart: nat, pend: nat) returns (sum: int)
    requires pstart <= pend <= v.Length
    ensures sum == Sum(v[pstart..pend])
  {
    sum := 0;
    var curr := pstart;
    while curr != pend
      invariant pstart <= curr <= pend
      invariant sum == Sum(v[pstart..curr])
    {
      SumAppend(v[pstart..curr], v[curr]);
      assert v[pstart..curr + 1] == v[pstart..curr] + [v[curr]];
      sum := sum + v[curr];
      curr := curr + 1;
    }
  }

  method SeqAdder(vals: array<int>, nvals: nat) returns (total: int)
    requires nvals <= vals.Length
    ensures total == Sum(vals[..nvals])
  {
    total := 0;
    for i := 0 to nvals
      invariant total == Sum(vals[..i])
    {
      SumAppend(vals[..i], vals[i]);
      assert vals[..i + 1] == vals[..i] + [vals[i]];
      total := total + vals[i];
    }
  }

  /** The loop that fills the contexts, one after the other from the front of the vector. */
  method FillContexts(contexts: array<Context>, size: nat)
    requires contexts.Length > 0
    modifies contexts
    ensures forall i :: 0 <= i < contexts.Length ==> contexts[i] == Prepared(i, size / contexts.Length, size)
  {
    var pref := 0;
    var range := size / contexts.Length;
    for i := 0 to contexts.Length
      invariant pref == Offset(i, range)
      invariant forall k :: 0 <= k < i ==> contexts[k] == Prepared(k, range, size)
    {
      contexts[i] := Context(pref, if pref + range > size then size else pref + range, 0);
      pref := pref + range;
    }
  }

  /** The loop that adds the partial results up. */
  method Aggregate(contexts: array<Context>, v: seq<int>, ghost range: nat) returns (total: int)
    requires Offset(contexts.Length, range) <= |v|
    requires forall i :: 0 <= i < contexts.Length ==>
               contexts[i].result == SegmentSum(v, i, contexts.Length, range)
    ensures total == Sum(v[..Offset(contexts.Length, range)])
  {
    total := 0;
    for i := 0 to contexts.Length
      invariant Offset(i, range) <= |v|
      invariant total == Sum(v[..Offset(i, range)])
    {
      PrefixGrows(v, i, contexts.Length, range);
      total := total + contexts[i].result;
    }
  }
}
