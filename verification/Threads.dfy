/** Counting and adding over threads. The programs modelled here synchronise any number of threads, so the control
    points of all threads are kept in one sequence, indexed by thread, and the invariants count how many threads
    are at a given kind of control point. */
module Threads {

  /** How many elements of `s` satisfy `p`. */
  function Count<T>(s: seq<T>, p: T -> bool): (n: nat)
    ensures n <= |s|
  {
    if s == [] then 0 else Count(s[..|s| - 1], p) + (if p(s[|s| - 1]) then 1 else 0)
  }

  function Map<T, U>(s: seq<T>, f: T -> U): (r: seq<U>)
    ensures |r| == |s| && forall i :: 0 <= i < |s| ==> r[i] == f(s[i])
  {
    seq(|s|, i requires 0 <= i < |s| => f(s[i]))
  }

  lemma CountAppend<T>(s: seq<T>, x: T, p: T -> bool)
    ensures Count(s + [x], p) == Count(s, p) + (if p(x) then 1 else 0)
  {
    assert (s + [x])[..|s|] == s;
  }

  lemma {:induction false} CountConcat<T>(s: seq<T>, t: seq<T>, p: T -> bool)
    ensures Count(s + t, p) == Count(s, p) + Count(t, p)
  {
    if t == [] {
      assert s + t == s;
    } else {
      var front := t[..|t| - 1];
      assert (s + t)[..|s + t| - 1] == s + front;
      CountConcat(s, front, p);
    }
  }

  /** Moving thread `i` to `x` changes a count only through the point it left and the point it reached. */
  lemma {:induction false} CountUpdate<T>(s: seq<T>, i: nat, x: T, p: T -> bool)
    requires i < |s|
    ensures Count(s[i := x], p) == Count(s, p) - (if p(s[i]) then 1 else 0) + (if p(x) then 1 else 0)
  {
    var n := |s| - 1;
    var front := s[..n];
    if i == n {
      assert s[i := x][..n] == front;
    } else {
      assert s[i := x][..n] == front[i := x];
      CountUpdate(front, i, x, p);
    }
  }

  lemma {:induction false} CountMap<T, U>(s: seq<T>, f: T -> U, p: U -> bool, q: T -> bool)
    requires forall x: T :: x in s ==> p(f(x)) == q(x)
    ensures Count(Map(s, f), p) == Count(s, q)
  {
    if s != [] {
      var front := s[..|s| - 1];
      assert Map(s, f)[..|s| - 1] == Map(front, f);
      CountMap(front, f, p, q);
    }
  }

  lemma {:induction false} CountSame<T>(s: seq<T>, p: T -> bool, q: T -> bool)
    requires forall x: T :: x in s ==> p(x) == q(x)
    ensures Count(s, p) == Count(s, q)
  {
    if s != [] {
      CountSame(s[..|s| - 1], p, q);
    }
  }

  lemma {:induction false} CountNone<T>(s: seq<T>, p: T -> bool)
    ensures Count(s, p) == 0 <==> forall i :: 0 <= i < |s| ==> !p(s[i])
  {
    if s != [] {
      var front := s[..|s| - 1];
      CountNone(front, p);
      assert forall i :: 0 <= i < |front| ==> front[i] == s[i];
    }
  }

  lemma {:induction false} CountEvery<T>(s: seq<T>, p: T -> bool)
    ensures Count(s, p) == |s| <==> forall i :: 0 <= i < |s| ==> p(s[i])
  {
    if s != [] {
      var front := s[..|s| - 1];
      CountEvery(front, p);
      assert forall i :: 0 <= i < |front| ==> front[i] == s[i];
    }
  }

  /** If all but one thread satisfy `p` and thread `t` does not, every other thread does. */
  lemma {:induction false} CountAllButOne<T>(s: seq<T>, t: nat, p: T -> bool)
    requires t < |s| && !p(s[t])
    requires Count(s, p) == |s| - 1
    ensures forall u :: 0 <= u < |s| && u != t ==> p(s[u])
  {
    var n := |s| - 1;
    var front := s[..n];
    CountEvery(front, p);
    if t != n {
      assert !p(front[t]);
      CountAllButOne(front, t, p);
    }
    assert forall u :: 0 <= u < n ==> front[u] == s[u];
  }

  /** Disjoint kinds of control point together count no more than all the threads. */
  lemma {:induction false} CountDisjoint<T>(s: seq<T>, p: T -> bool, q: T -> bool, both: T -> bool)
    requires forall x: T :: x in s ==> !(p(x) && q(x)) && both(x) == (p(x) || q(x))
    ensures Count(s, p) + Count(s, q) == Count(s, both)
  {
    if s != [] {
      CountDisjoint(s[..|s| - 1], p, q, both);
    }
  }

  /** The sum of `w` over the elements of `s`. */
  function Total<T>(s: seq<T>, w: T -> int): int {
    if s == [] then 0 else Total(s[..|s| - 1], w) + w(s[|s| - 1])
  }

  lemma {:induction false} TotalUpdate<T>(s: seq<T>, i: nat, x: T, w: T -> int)
    requires i < |s|
    ensures Total(s[i := x], w) == Total(s, w) - w(s[i]) + w(x)
  {
    var n := |s| - 1;
    if i == n {
      assert s[i := x][..n] == s[..n];
    } else {
      assert s[i := x][..n] == s[..n][i := x];
      TotalUpdate(s[..n], i, x, w);
    }
  }

  lemma TotalAppend<T>(s: seq<T>, x: T, w: T -> int)
    ensures Total(s + [x], w) == Total(s, w) + w(x)
  {
    assert (s + [x])[..|s|] == s;
  }

  /** A sum of numbers that are not negative is zero exactly when all of them are. */
  lemma {:induction false} TotalZero<T>(s: seq<T>, w: T -> int)
    requires forall i :: 0 <= i < |s| ==> 0 <= w(s[i])
    ensures 0 <= Total(s, w)
    ensures Total(s, w) == 0 <==> forall i :: 0 <= i < |s| ==> w(s[i]) == 0
  {
    if s != [] {
      var front := s[..|s| - 1];
      assert forall i :: 0 <= i < |front| ==> front[i] == s[i];
      TotalZero(front, w);
    }
  }

  lemma {:induction false} TotalScaled<T>(s: seq<T>, w: T -> int, v: T -> int, factor: int)
    requires forall i :: 0 <= i < |s| ==> w(s[i]) == factor * v(s[i])
    ensures Total(s, w) == factor * Total(s, v)
  {
    if s != [] {
      var front := s[..|s| - 1];
      assert forall i :: 0 <= i < |front| ==> front[i] == s[i];
      TotalScaled(front, w, v, factor);
    }
  }

  /** A sum of numbers that are not negative is at least each of them. */
  lemma {:induction false} TotalAtLeast<T>(s: seq<T>, w: T -> int, i: nat)
    requires i < |s| && forall j :: 0 <= j < |s| ==> 0 <= w(s[j])
    ensures w(s[i]) <= Total(s, w)
  {
    var front := s[..|s| - 1];
    assert forall j :: 0 <= j < |front| ==> front[j] == s[j];
    if i < |front| {
      TotalAtLeast(front, w, i);
    } else {
      TotalZero(front, w);
    }
  }
}
