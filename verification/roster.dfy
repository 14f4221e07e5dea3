/** Lookups over lists of influencer records keyed by `id`, as the state container and
    the pages write them with `find`, `some` and `filter`. */
module Roster {
  import opened Wrappers
  import opened Model
  import Seqs

  /** `xs.some(i => i.id === id)`; also what `!!xs.find(i => i.id === id)` tests. */
  predicate HasId(xs: seq<Influencer>, id: string) {
    exists x :: x in xs && x.id == id
  }

  /** `xs.find(i => i.id === id)`: the first record with that id. */
  function FindById(xs: seq<Influencer>, id: string): (r: Option<Influencer>)
    ensures r.Some? <==> HasId(xs, id)
    ensures r.Some? ==> r.value in xs && r.value.id == id
    ensures |xs| > 0 && xs[0].id == id ==> r == Some(xs[0])
    decreases |xs|
  {
    if |xs| == 0 then None
    else if xs[0].id == id then Some(xs[0])
    else
      var r := FindById(xs[1..], id);
      assert HasId(xs, id) ==> HasId(xs[1..], id) by {
        if HasId(xs, id) {
          var x :| x in xs && x.id == id;
          assert x in xs[1..] by { assert x == xs[0] || x in xs[1..]; }
        }
      }
      r
  }

  /** The first record with an id is found ahead of any later one. */
  lemma {:induction false} FindByIdPrefers(a: seq<Influencer>, b: seq<Influencer>, id: string)
    requires HasId(a, id)
    ensures FindById(a + b, id) == FindById(a, id)
    decreases |a|
  {
    if a[0].id != id {
      var x :| x in a && x.id == id;
      assert x in a[1..] by { assert x == a[0] || x in a[1..]; }
      assert (a + b)[1..] == a[1..] + b;
      FindByIdPrefers(a[1..], b, id);
    }
  }

  /** `xs.filter(i => i.id !== id)`: every record with that id goes, the rest keep their order. */
  function WithoutId(xs: seq<Influencer>, id: string): (r: seq<Influencer>)
    ensures !HasId(r, id)
    ensures forall x :: x in r <==> x in xs && x.id != id
    ensures Seqs.Sublist(r, xs)
    ensures forall x :: multiset(r)[x] == if x.id != id then multiset(xs)[x] else 0
    ensures !HasId(xs, id) ==> r == xs
  {
    var keep := (x: Influencer) => x.id != id;
    if !HasId(xs, id) then
      Seqs.FilterKeepsAll(xs, keep);
      Seqs.Filter(xs, keep)
    else
      Seqs.Filter(xs, keep)
  }

  /** No two records share an id. */
  predicate UniqueIds(xs: seq<Influencer>) {
    forall i, j :: 0 <= i < j < |xs| ==> xs[i].id != xs[j].id
  }

  lemma {:induction false} FilterKeepsUniqueIds(xs: seq<Influencer>, keep: Influencer -> bool)
    requires UniqueIds(xs)
    ensures UniqueIds(Seqs.Filter(xs, keep))
    decreases |xs|
  {
    if |xs| > 0 {
      UniqueIdsTail(xs);
      FilterKeepsUniqueIds(xs[1..], keep);
      var rest := Seqs.Filter(xs[1..], keep);
      if keep(xs[0]) {
        forall j | 0 <= j < |rest|
          ensures rest[j].id != xs[0].id
        {
          assert rest[j] in xs[1..];
          var k :| 0 <= k < |xs[1..]| && xs[1..][k] == rest[j];
          assert xs[k + 1] == rest[j];
        }
        ConsKeepsUniqueIds(xs[0], rest);
        assert Seqs.Filter(xs, keep) == [xs[0]] + rest;
      } else {
        assert Seqs.Filter(xs, keep) == rest;
      }
    }
  }

  lemma UniqueIdsTail(xs: seq<Influencer>)
    requires UniqueIds(xs) && |xs| > 0
    ensures UniqueIds(xs[1..])
  {
    forall i, j | 0 <= i < j < |xs| - 1
      ensures xs[1..][i].id != xs[1..][j].id
    {
      assert xs[1..][i] == xs[i + 1] && xs[1..][j] == xs[j + 1];
    }
  }

  /** A record whose id the rest lack, put in front of them, keeps the ids unique. */
  lemma ConsKeepsUniqueIds(x: Influencer, rest: seq<Influencer>)
    requires UniqueIds(rest)
    requires forall j :: 0 <= j < |rest| ==> rest[j].id != x.id
    ensures UniqueIds([x] + rest)
  {
    var c := [x] + rest;
    forall i, j | 0 <= i < j < |c|
      ensures c[i].id != c[j].id
    {
      assert c[j] == rest[j - 1];
      if i > 0 {
        assert c[i] == rest[i - 1];
      }
    }
  }

  lemma WithoutIdKeepsUniqueIds(xs: seq<Influencer>, id: string)
    requires UniqueIds(xs)
    ensures UniqueIds(WithoutId(xs, id))
  {
    FilterKeepsUniqueIds(xs, (x: Influencer) => x.id != id);
  }

  /** Every prefix of a list with unique ids has unique ids. */
  lemma UniqueIdsPrefix(b: seq<Influencer>, n: nat)
    requires UniqueIds(b) && n <= |b|
    ensures UniqueIds(b[..n])
  {
    var p := b[..n];
    forall i, j | 0 <= i < j < |p|
      ensures p[i].id != p[j].id
    {
      assert p[i] == b[i] && p[j] == b[j];
    }
  }

  /** Appending a record whose id is new keeps the ids unique. */
  lemma AppendNewKeepsUniqueIds(xs: seq<Influencer>, x: Influencer)
    requires UniqueIds(xs) && !HasId(xs, x.id)
    ensures UniqueIds(xs + [x])
  {
    forall i | 0 <= i < |xs|
      ensures xs[i].id != x.id
    {
      assert xs[i] in xs;
    }
  }
}
