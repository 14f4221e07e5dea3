/** Generic list operations shared by the state container and the pages:
    `Array.prototype.filter`, `slice(0, n)`, and the include-or-exclude toggle
    that the checkbox handlers use. */
module Seqs {

  /** `b` keeps the elements of `a` in their original relative order (a is a subsequence of b). */
  ghost predicate Sublist<T>(a: seq<T>, b: seq<T>)
    decreases |b|
  {
    if |a| == 0 then true
    else if |b| == 0 then false
    else (a[0] == b[0] && Sublist(a[1..], b[1..])) || Sublist(a, b[1..])
  }

  lemma {:induction false} SublistRefl<T>(a: seq<T>)
    ensures Sublist(a, a)
    decreases |a|
  {
    if |a| > 0 {
      SublistRefl(a[1..]);
    }
  }

  /** `xs.filter(keep)`: the kept elements, in order, each as often as it occurs in `xs`. */
  function Filter<T(!new)>(xs: seq<T>, keep: T -> bool): (r: seq<T>)
    ensures |r| <= |xs|
    ensures forall x :: x in r <==> x in xs && keep(x)
    ensures Sublist(r, xs)
    ensures forall x :: multiset(r)[x] == if keep(x) then multiset(xs)[x] else 0
    decreases |xs|
  {
    if |xs| == 0 then []
    else
      assert xs == [xs[0]] + xs[1..];
      if keep(xs[0]) then [xs[0]] + Filter(xs[1..], keep)
      else Filter(xs[1..], keep)
  }

  /** Filtering is done element by element, so it distributes over concatenation. */
  lemma {:induction false} FilterAppend<T(!new)>(a: seq<T>, b: seq<T>, keep: T -> bool)
    ensures Filter(a + b, keep) == Filter(a, keep) + Filter(b, keep)
    decreases |a|
  {
    if |a| > 0 {
      assert (a + b)[1..] == a[1..] + b;
      FilterAppend(a[1..], b, keep);
    } else {
      assert a + b == b;
    }
  }

  /** A filter that keeps every element returns its input. */
  lemma {:induction false} FilterKeepsAll<T(!new)>(xs: seq<T>, keep: T -> bool)
    requires forall i :: 0 <= i < |xs| ==> keep(xs[i])
    ensures Filter(xs, keep) == xs
    decreases |xs|
  {
    if |xs| > 0 {
      FilterKeepsAll(xs[1..], keep);
    }
  }

  /** `xs.slice(0, n)` for n >= 0: at most n leading elements. */
  function Take<T>(xs: seq<T>, n: nat): (r: seq<T>)
    ensures |r| == if |xs| < n then |xs| else n
    ensures r <= xs
  {
    if |xs| <= n then xs else xs[..n]
  }

  /** `xs.includes(x) ? xs.filter(v => v !== x) : [...xs, x]`. */
  function Toggle<T(==,!new)>(xs: seq<T>, x: T): (r: seq<T>)
    ensures x in r <==> x !in xs
    ensures forall y :: y != x ==> (y in r <==> y in xs)
    ensures x !in xs ==> r == xs + [x]
    ensures x in xs ==> Sublist(r, xs)
  {
    if x in xs then Filter(xs, v => v != x) else xs + [x]
  }

  /** No element occurs twice. */
  predicate NoDuplicates<T(==)>(xs: seq<T>) {
    forall i, j :: 0 <= i < j < |xs| ==> xs[i] != xs[j]
  }

  lemma {:induction false} FilterNoDuplicates<T(!new)>(xs: seq<T>, keep: T -> bool)
    requires NoDuplicates(xs)
    ensures NoDuplicates(Filter(xs, keep))
    decreases |xs|
  {
    if |xs| > 0 {
      FilterNoDuplicates(xs[1..], keep);
    }
  }

  /** Toggling twice gives back the same membership; from an absent value it gives back the very same list. */
  lemma ToggleTwice<T(!new)>(xs: seq<T>, x: T)
    ensures forall y :: y in Toggle(Toggle(xs, x), x) <==> y in xs
    ensures x !in xs ==> Toggle(Toggle(xs, x), x) == xs
  {
    if x !in xs {
      FilterAppend(xs, [x], v => v != x);
      FilterKeepsAll(xs, v => v != x);
      assert Filter([x], v => v != x) == [];
    }
  }

  /** A selection list built only by toggling never holds a value twice. */
  lemma ToggleKeepsNoDuplicates<T(!new)>(xs: seq<T>, x: T)
    requires NoDuplicates(xs)
    ensures NoDuplicates(Toggle(xs, x))
  {
    if x in xs {
      FilterNoDuplicates(xs, v => v != x);
    }
  }

  /** The elements in the opposite order. */
  function Reverse<T>(xs: seq<T>): (r: seq<T>)
    ensures |r| == |xs|
    ensures forall i :: 0 <= i < |xs| ==> r[i] == xs[|xs| - 1 - i]
    decreases |xs|
  {
    if |xs| == 0 then [] else [xs[|xs| - 1]] + Reverse(xs[..|xs| - 1])
  }

  /** The last element heads the reversal, ahead of the reversed rest and whatever follows. */
  lemma ReverseLastFirst<T>(xs: seq<T>, ys: seq<T>)
    requires |xs| > 0
    ensures Reverse(xs) + ys == [xs[|xs| - 1]] + (Reverse(xs[..|xs| - 1]) + ys)
  {
    var older := Reverse(xs[..|xs| - 1]);
    assert Reverse(xs) == [xs[|xs| - 1]] + older;
    AppendAssoc([xs[|xs| - 1]], older, ys);
  }

  lemma AppendAssoc<T>(a: seq<T>, b: seq<T>, c: seq<T>)
    ensures (a + b) + c == a + (b + c)
  {
  }
}
