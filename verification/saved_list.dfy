/** The saved-influencer shortlist as `addSavedInfluencer` and `removeSavedInfluencer`
    change it (contexts/AppContext.tsx), separated from the toasts they emit. */
module SavedList {
  import opened Model
  import opened Roster
  import Seqs

  /** The list after `addSavedInfluencer`: appended at the end unless its id is already saved. */
  function Add(xs: seq<Influencer>, inf: Influencer): (r: seq<Influencer>)
    ensures HasId(xs, inf.id) ==> r == xs
    ensures !HasId(xs, inf.id) ==> r == xs + [inf]
    ensures HasId(r, inf.id)
    ensures forall id :: HasId(r, id) <==> HasId(xs, id) || id == inf.id
    ensures UniqueIds(xs) ==> UniqueIds(r)
  {
    if HasId(xs, inf.id) then xs
    else
      assert inf in xs + [inf];
      assert UniqueIds(xs) ==> UniqueIds(xs + [inf]) by {
        if UniqueIds(xs) { AppendNewKeepsUniqueIds(xs, inf); }
      }
      xs + [inf]
  }

  /** The list after `removeSavedInfluencer(id)`: every entry with that id dropped, the rest in order. */
  function Remove(xs: seq<Influencer>, id: string): (r: seq<Influencer>)
    ensures !HasId(r, id)
    ensures forall other :: HasId(r, other) <==> HasId(xs, other) && other != id
    ensures forall x :: x in r <==> x in xs && x.id != id
    ensures Seqs.Sublist(r, xs)
    ensures forall x :: multiset(r)[x] == if x.id != id then multiset(xs)[x] else 0
    ensures UniqueIds(xs) ==> UniqueIds(r)
  {
    var r := WithoutId(xs, id);
    assert UniqueIds(xs) ==> UniqueIds(r) by {
      if UniqueIds(xs) { WithoutIdKeepsUniqueIds(xs, id); }
    }
    r
  }

  /** One user action on the shortlist. */
  datatype Edit = Save(influencer: Influencer) | Unsave(id: string)

  function Apply(xs: seq<Influencer>, e: Edit): seq<Influencer> {
    match e
    case Save(inf) => Add(xs, inf)
    case Unsave(id) => Remove(xs, id)
  }

  /** The list after performing `edits` in order, starting from `xs`. */
  function Replay(xs: seq<Influencer>, edits: seq<Edit>): seq<Influencer>
    decreases |edits|
  {
    if |edits| == 0 then xs
    else Apply(Replay(xs, edits[..|edits| - 1]), edits[|edits| - 1])
  }

  /** Reference meaning of membership: some edit saved this id and no later edit removed it. */
  ghost predicate Live(edits: seq<Edit>, id: string) {
    exists i :: 0 <= i < |edits| && edits[i].Save? && edits[i].influencer.id == id &&
      forall j :: i < j < |edits| ==> !(edits[j].Unsave? && edits[j].id == id)
  }

  lemma LiveAfterSave(edits: seq<Edit>, inf: Influencer, id: string)
    ensures Live(edits + [Save(inf)], id) <==> Live(edits, id) || id == inf.id
  {
    var es := edits + [Save(inf)];
    if id == inf.id {
      assert es[|edits|].Save? && es[|edits|].influencer.id == id;
    }
    if Live(edits, id) {
      var i :| 0 <= i < |edits| && edits[i].Save? && edits[i].influencer.id == id &&
        forall j :: i < j < |edits| ==> !(edits[j].Unsave? && edits[j].id == id);
      assert es[i] == edits[i];
      forall j | i < j < |es|
        ensures !(es[j].Unsave? && es[j].id == id)
      {
        if j < |edits| { assert es[j] == edits[j]; }
      }
    }
    if Live(es, id) && id != inf.id {
      var i :| 0 <= i < |es| && es[i].Save? && es[i].influencer.id == id &&
        forall j :: i < j < |es| ==> !(es[j].Unsave? && es[j].id == id);
      assert i < |edits|;
      assert edits[i] == es[i];
      forall j | i < j < |edits|
        ensures !(edits[j].Unsave? && edits[j].id == id)
      {
        assert es[j] == edits[j];
      }
    }
  }

  lemma LiveAfterUnsave(edits: seq<Edit>, gone: string, id: string)
    ensures Live(edits + [Unsave(gone)], id) <==> Live(edits, id) && id != gone
  {
    var es := edits + [Unsave(gone)];
    if Live(edits, id) && id != gone {
      var i :| 0 <= i < |edits| && edits[i].Save? && edits[i].influencer.id == id &&
        forall j :: i < j < |edits| ==> !(edits[j].Unsave? && edits[j].id == id);
      assert es[i] == edits[i];
      forall j | i < j < |es|
        ensures !(es[j].Unsave? && es[j].id == id)
      {
        if j < |edits| { assert es[j] == edits[j]; }
      }
    }
    if Live(es, id) {
      var i :| 0 <= i < |es| && es[i].Save? && es[i].influencer.id == id &&
        forall j :: i < j < |es| ==> !(es[j].Unsave? && es[j].id == id);
      assert i < |edits|;
      assert id != gone by { assert es[|edits|] == Unsave(gone); }
      assert edits[i] == es[i];
      forall j | i < j < |edits|
        ensures !(edits[j].Unsave? && edits[j].id == id)
      {
        assert es[j] == edits[j];
      }
    }
  }

  /** Any run of saves and removals from an empty shortlist keeps the ids unique, and an id is
      saved exactly when it was saved at some point and not removed since. */
  lemma {:induction false} ReplayFromEmpty(edits: seq<Edit>)
    ensures UniqueIds(Replay([], edits))
    ensures forall id :: HasId(Replay([], edits), id) <==> Live(edits, id)
    decreases |edits|
  {
    if |edits| > 0 {
      var init := edits[..|edits| - 1];
      var e := edits[|edits| - 1];
      assert edits == init + [e];
      ReplayFromEmpty(init);
      forall id
        ensures HasId(Replay([], edits), id) <==> Live(edits, id)
      {
        match e
        case Save(inf) => LiveAfterSave(init, inf, id);
        case Unsave(gone) => LiveAfterUnsave(init, gone, id);
      }
    }
  }
}
