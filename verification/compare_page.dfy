/** The comparison page (pages/ComparePage.tsx): the pool of influencers that can be
    picked, the candidates still offered, and the list of at most four being compared. */
module ComparePage {
  import opened Wrappers
  import opened Model
  import opened Roster
  import Seqs
  import AppState

  /** The page's built-in sample records. */
  const MockInfluencers: seq<Influencer> := [
    Basic("1", "Alice Wonderland", Instagram, "1.2M", "3.5%", "Lifestyle", "https://i.pravatar.cc/300?u=alice").(isVerified := Some(true)),
    Basic("2", "Bob The Builder", YouTube, "500K", "5.1%", "DIY & Crafts", "https://i.pravatar.cc/300?u=bob"),
    Basic("3", "Charlie Chaplin", TikTok, "2.5M", "10.2%", "Comedy", "https://i.pravatar.cc/300?u=charlie").(isVerified := Some(true)),
    Basic("4", "Diana Prince", Twitter, "800K", "2.1%", "Activism", "https://i.pravatar.cc/300?u=diana")
  ]

  /** How many influencers can be compared at once. */
  const CompareLimit: nat := 4

  /** The English fallback text of the limit toast. */
  const LimitReachedDefault: string := "Maximum of 4 influencers can be compared."

  // ---------------------------------------------------------------- the selectable pool

  /** `map.set(x.id, x)` on a `Map` kept as its entries in insertion order: a known key keeps
      its place and takes the new value, a new key goes at the end. */
  function Upsert(acc: seq<Influencer>, x: Influencer): (r: seq<Influencer>)
    ensures HasId(acc, x.id) ==> |r| == |acc|
    ensures HasId(acc, x.id) ==> forall i :: 0 <= i < |acc| ==> r[i] == if acc[i].id == x.id then x else acc[i]
    ensures !HasId(acc, x.id) ==> r == acc + [x]
  {
    if HasId(acc, x.id) then seq(|acc|, i requires 0 <= i < |acc| => if acc[i].id == x.id then x else acc[i])
    else acc + [x]
  }

  /** `Array.from(new Map(xs.map(x => [x.id, x])).values())`. */
  function Dedupe(xs: seq<Influencer>): seq<Influencer>
    decreases |xs|
  {
    if |xs| == 0 then [] else Upsert(Dedupe(xs[..|xs| - 1]), xs[|xs| - 1])
  }

  /** The position of the first record with the id. */
  function FirstIndex(xs: seq<Influencer>, id: string): (k: nat)
    requires HasId(xs, id)
    ensures k < |xs| && xs[k].id == id
    ensures forall j :: 0 <= j < k ==> xs[j].id != id
    decreases |xs|
  {
    if xs[0].id == id then 0
    else
      assert HasId(xs[1..], id) by {
        var x :| x in xs && x.id == id;
        assert x == xs[0] || x in xs[1..];
      }
      1 + FirstIndex(xs[1..], id)
  }

  /** The last record with the id, if any. */
  function LastWith(xs: seq<Influencer>, id: string): (r: Option<Influencer>)
    ensures r.Some? <==> HasId(xs, id)
    ensures r.Some? ==> r.value in xs && r.value.id == id
    decreases |xs|
  {
    if |xs| == 0 then None
    else if xs[|xs| - 1].id == id then Some(xs[|xs| - 1])
    else
      var init := xs[..|xs| - 1];
      assert HasId(xs, id) ==> HasId(init, id) by {
        if HasId(xs, id) {
          var x :| x in xs && x.id == id;
          assert xs == init + [xs[|xs| - 1]];
        }
      }
      LastWith(init, id)
  }

  lemma FirstIndexAppend(xs: seq<Influencer>, x: Influencer, id: string)
    requires HasId(xs, id)
    ensures HasId(xs + [x], id)
    ensures FirstIndex(xs + [x], id) == FirstIndex(xs, id)
  {
    var k := FirstIndex(xs, id);
    assert (xs + [x])[k] == xs[k];
    assert xs[k] in xs + [x];
  }

  lemma FirstIndexAppendNew(xs: seq<Influencer>, x: Influencer)
    requires !HasId(xs, x.id)
    ensures HasId(xs + [x], x.id)
    ensures FirstIndex(xs + [x], x.id) == |xs|
  {
    assert (xs + [x])[|xs|] == x;
  }

  lemma HasIdAppend(xs: seq<Influencer>, x: Influencer, id: string)
    ensures HasId(xs + [x], id) <==> HasId(xs, id) || x.id == id
  {
    if HasId(xs + [x], id) {
      var y :| y in xs + [x] && y.id == id;
      assert y in xs || y == x;
    }
    if HasId(xs, id) {
      var y :| y in xs && y.id == id;
      assert y in xs + [x];
    }
    assert x in xs + [x];
  }

  /** `r` lists each id of `xs` exactly once, holds the last record `xs` gives for it, and
      orders the ids by their first appearance in `xs`. */
  ghost predicate Faithful(xs: seq<Influencer>, r: seq<Influencer>) {
    && UniqueIds(r)
    && (forall id :: HasId(r, id) <==> HasId(xs, id))
    && (forall y :: y in r ==> LastWith(xs, y.id) == Some(y))
    && InFirstOrder(xs, r)
  }

  /** The ids of `r` occur in `xs`, and in the order of their first occurrence there. */
  ghost predicate InFirstOrder(xs: seq<Influencer>, r: seq<Influencer>) {
    forall i, j :: 0 <= i < j < |r| ==> FirstBefore(xs, r[i].id, r[j].id)
  }

  /** Both ids occur in `xs`, and `a` first occurs before `b` does. */
  ghost predicate FirstBefore(xs: seq<Influencer>, a: string, b: string) {
    HasId(xs, a) && HasId(xs, b) && FirstIndex(xs, a) < FirstIndex(xs, b)
  }

  /** Two lists that agree on every position's id have the same ids. */
  lemma SameIds(d: seq<Influencer>, r: seq<Influencer>)
    requires |r| == |d| && forall i :: 0 <= i < |d| ==> r[i].id == d[i].id
    ensures forall id :: HasId(r, id) <==> HasId(d, id)
    ensures UniqueIds(d) ==> UniqueIds(r)
  {
    forall id
      ensures HasId(r, id) <==> HasId(d, id)
    {
      if HasId(r, id) {
        var y :| y in r && y.id == id;
        var i :| 0 <= i < |r| && r[i] == y;
        assert d[i] in d;
      }
      if HasId(d, id) {
        var y :| y in d && y.id == id;
        var i :| 0 <= i < |d| && d[i] == y;
        assert r[i] in r;
      }
    }
  }

  lemma UpsertKnown(init: seq<Influencer>, d: seq<Influencer>, x: Influencer)
    requires Faithful(init, d) && HasId(d, x.id)
    ensures Faithful(init + [x], Upsert(d, x))
  {
    var xs := init + [x];
    var r := Upsert(d, x);
    assert |r| == |d|;
    assert forall i :: 0 <= i < |d| ==> r[i].id == d[i].id;
    SameIds(d, r);
    forall id
      ensures HasId(xs, id) <==> HasId(init, id) || x.id == id
    {
      HasIdAppend(init, x, id);
    }
    UpsertKnownLast(init, d, x);
    UpsertKnownOrder(init, d, x);
  }

  lemma UpsertKnownLast(init: seq<Influencer>, d: seq<Influencer>, x: Influencer)
    requires HasId(d, x.id)
    requires forall y :: y in d ==> LastWith(init, y.id) == Some(y)
    ensures forall y :: y in Upsert(d, x) ==> LastWith(init + [x], y.id) == Some(y)
  {
    var xs := init + [x];
    var r := Upsert(d, x);
    forall y | y in r
      ensures LastWith(xs, y.id) == Some(y)
    {
      var i :| 0 <= i < |r| && r[i] == y;
      if d[i].id != x.id {
        assert d[i] in d;
        assert xs[..|xs| - 1] == init;
      }
    }
  }

  lemma UpsertKnownOrder(init: seq<Influencer>, d: seq<Influencer>, x: Influencer)
    requires HasId(d, x.id)
    requires forall id :: HasId(d, id) ==> HasId(init, id)
    requires InFirstOrder(init, d)
    ensures InFirstOrder(init + [x], Upsert(d, x))
  {
    var xs := init + [x];
    var r := Upsert(d, x);
    assert |r| == |d|;
    forall i, j | 0 <= i < j < |r|
      ensures FirstBefore(xs, r[i].id, r[j].id)
    {
      assert r[i].id == d[i].id && r[j].id == d[j].id;
      assert d[i] in d && d[j] in d;
      assert HasId(init, d[i].id) && HasId(init, d[j].id);
      assert FirstBefore(init, d[i].id, d[j].id);
      FirstIndexAppend(init, x, d[i].id);
      FirstIndexAppend(init, x, d[j].id);
    }
  }

  lemma UpsertNew(init: seq<Influencer>, d: seq<Influencer>, x: Influencer)
    requires Faithful(init, d) && !HasId(d, x.id)
    ensures Faithful(init + [x], Upsert(d, x))
  {
    var xs := init + [x];
    var r := Upsert(d, x);
    assert r == d + [x];
    AppendNewKeepsUniqueIds(d, x);
    forall id
      ensures HasId(r, id) <==> HasId(xs, id)
    {
      HasIdAppend(init, x, id);
      HasIdAppend(d, x, id);
    }
    UpsertNewLast(init, d, x);
    UpsertNewOrder(init, d, x);
  }

  lemma UpsertNewLast(init: seq<Influencer>, d: seq<Influencer>, x: Influencer)
    requires forall y :: y in d ==> LastWith(init, y.id) == Some(y)
    requires !HasId(d, x.id)
    ensures forall y :: y in d + [x] ==> LastWith(init + [x], y.id) == Some(y)
  {
    var xs := init + [x];
    assert xs[..|xs| - 1] == init;
    forall y | y in d + [x]
      ensures LastWith(xs, y.id) == Some(y)
    {
      if y != x {
        assert y in d;
        assert y.id != x.id;
      }
    }
  }

  lemma UpsertNewOrder(init: seq<Influencer>, d: seq<Influencer>, x: Influencer)
    requires forall id :: HasId(d, id) ==> HasId(init, id)
    requires InFirstOrder(init, d)
    requires !HasId(init, x.id)
    ensures InFirstOrder(init + [x], d + [x])
  {
    var xs := init + [x];
    var r := d + [x];
    forall i, j | 0 <= i < j < |r|
      ensures FirstBefore(xs, r[i].id, r[j].id)
    {
      assert r[i] == d[i] && d[i] in d;
      FirstIndexAppend(init, x, d[i].id);
      if j < |d| {
        assert r[j] == d[j] && d[j] in d;
        FirstIndexAppend(init, x, d[j].id);
      } else {
        assert r[j] == x;
        FirstIndexAppendNew(init, x);
      }
    }
  }

  /** The pool built from `xs` has each id exactly once, holds the last record given for it,
      and lists the ids in the order they first appear. */
  lemma DedupeSpec(xs: seq<Influencer>)
    ensures UniqueIds(Dedupe(xs))
    ensures forall id :: HasId(Dedupe(xs), id) <==> HasId(xs, id)
    ensures forall y :: y in Dedupe(xs) ==> LastWith(xs, y.id) == Some(y)
    ensures forall i, j :: 0 <= i < j < |Dedupe(xs)| ==>
              HasId(xs, Dedupe(xs)[i].id) && HasId(xs, Dedupe(xs)[j].id) &&
              FirstIndex(xs, Dedupe(xs)[i].id) < FirstIndex(xs, Dedupe(xs)[j].id)
  {
    DedupeFaithful(xs);
  }

  lemma {:induction false} DedupeFaithful(xs: seq<Influencer>)
    ensures Faithful(xs, Dedupe(xs))
    decreases |xs|
  {
    if |xs| > 0 {
      var init := xs[..|xs| - 1];
      var x := xs[|xs| - 1];
      assert xs == init + [x];
      DedupeFaithful(init);
      if HasId(Dedupe(init), x.id) {
        UpsertKnown(init, Dedupe(init), x);
      } else {
        UpsertNew(init, Dedupe(init), x);
      }
    }
  }

  /** The records that can be picked: the samples, then the saved list, one per id. */
  function SelectablePool(saved: seq<Influencer>): seq<Influencer> {
    Dedupe(MockInfluencers + saved)
  }

  /** In the pool a saved record replaces the sample with the same id, and every id occurs once. */
  lemma SavedRecordWins(saved: seq<Influencer>, y: Influencer)
    requires UniqueIds(saved) && y in saved
    ensures y in SelectablePool(saved)
    ensures UniqueIds(SelectablePool(saved))
  {
    var xs := MockInfluencers + saved;
    DedupeSpec(xs);
    assert y in xs;
    assert HasId(xs, y.id);
    var p :| p in Dedupe(xs) && p.id == y.id;
    assert LastWith(xs, y.id) == Some(p);
    LastWithUnique(MockInfluencers, saved, y);
  }

  lemma {:induction false} LastWithUnique(a: seq<Influencer>, b: seq<Influencer>, y: Influencer)
    requires UniqueIds(b) && y in b
    ensures LastWith(a + b, y.id) == Some(y)
    decreases |b|
  {
    var xs := a + b;
    var n := |b| - 1;
    var last := b[n];
    assert xs[|xs| - 1] == last;
    if last != y {
      var k :| 0 <= k < |b| && b[k] == y;
      assert k < n;
      assert b[k].id != b[n].id;
      var binit := b[..n];
      assert binit[k] == y;
      UniqueIdsPrefix(b, n);
      var front := xs[..|xs| - 1];
      assert front == a + binit;
      assert LastWith(xs, y.id) == LastWith(front, y.id);
      LastWithUnique(a, binit, y);
    } else {
      assert LastWith(xs, y.id) == Some(last);
    }
  }

  /** `selectable.filter(s => !compare.find(c => c.id === s.id))`: the pool entries not yet compared. */
  function Candidates(pool: seq<Influencer>, compare: seq<Influencer>): (r: seq<Influencer>)
    ensures forall p :: p in r <==> p in pool && !HasId(compare, p.id)
    ensures Seqs.Sublist(r, pool)
    ensures forall p :: multiset(r)[p] == if !HasId(compare, p.id) then multiset(pool)[p] else 0
  {
    Seqs.Filter(pool, (p: Influencer) => !HasId(compare, p.id))
  }

  // ---------------------------------------------------------------- the compared list

  /** `addInfluencerToCompare`: appended below the limit when the id is new; at the limit a warning
      toast and no change; below the limit with a known id nothing at all. */
  function AddToCompare(ctx: AppState.State, compare: seq<Influencer>, inf: Influencer, ms: nat)
    : (r: AppState.Outcome<seq<Influencer>>)
    ensures |compare| < CompareLimit && !HasId(compare, inf.id) ==> r.value == compare + [inf] && r.emitted == []
    ensures |compare| >= CompareLimit ==>
              r.value == compare && |r.emitted| == 1 && r.emitted[0].kind == Warning
              && r.emitted[0].message == AppState.T(ctx, "compareLimitReached",
                                                    [("default", LimitReachedDefault)])
    ensures |compare| < CompareLimit && HasId(compare, inf.id) ==> r == AppState.Outcome(compare, [])
    ensures |compare| <= CompareLimit ==> |r.value| <= CompareLimit
    ensures UniqueIds(compare) ==> UniqueIds(r.value)
  {
    if |compare| < CompareLimit && !HasId(compare, inf.id) then
      assert UniqueIds(compare) ==> UniqueIds(compare + [inf]) by {
        if UniqueIds(compare) { AppendNewKeepsUniqueIds(compare, inf); }
      }
      AppState.Outcome(compare + [inf], [])
    else if |compare| >= CompareLimit then
      var message := AppState.T(ctx, "compareLimitReached", [("default", LimitReachedDefault)]);
      AppState.Outcome(compare, [AppState.NewToast(message, Warning, ms)])
    else
      AppState.Outcome(compare, [])
  }

  /** `removeInfluencerFromCompare(id)`: every entry with that id goes, the rest keep their order. */
  function RemoveFromCompare(compare: seq<Influencer>, id: string): (r: seq<Influencer>)
    ensures !HasId(r, id)
    ensures forall x :: x in r <==> x in compare && x.id != id
    ensures Seqs.Sublist(r, compare)
    ensures |r| <= |compare|
    ensures forall x :: multiset(r)[x] == if x.id != id then multiset(compare)[x] else 0
  {
    WithoutId(compare, id)
  }

  /** One click on the page: an add button or a remove button. */
  datatype Click = AddClick(influencer: Influencer) | RemoveClick(id: string)

  function Clicks(ctx: AppState.State, compare: seq<Influencer>, clicks: seq<Click>, ms: nat): seq<Influencer>
    decreases |clicks|
  {
    if |clicks| == 0 then compare
    else
      var prev := Clicks(ctx, compare, clicks[..|clicks| - 1], ms);
      match clicks[|clicks| - 1]
      case AddClick(inf) => AddToCompare(ctx, prev, inf, ms).value
      case RemoveClick(id) => RemoveFromCompare(prev, id)
  }

  /** However the buttons are clicked, starting from an empty comparison the list never holds
      more than four influencers and never the same id twice. */
  lemma {:induction false} ClicksKeepLimit(ctx: AppState.State, clicks: seq<Click>, ms: nat)
    ensures |Clicks(ctx, [], clicks, ms)| <= CompareLimit
    ensures UniqueIds(Clicks(ctx, [], clicks, ms))
    decreases |clicks|
  {
    if |clicks| > 0 {
      ClicksKeepLimit(ctx, clicks[..|clicks| - 1], ms);
      var prev := Clicks(ctx, [], clicks[..|clicks| - 1], ms);
      match clicks[|clicks| - 1]
      case AddClick(inf) =>
      case RemoveClick(id) => WithoutIdKeepsUniqueIds(prev, id);
    }
  }
}
