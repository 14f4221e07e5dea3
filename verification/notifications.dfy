/** The notification list of the state container (contexts/AppContext.tsx): newest first,
    at most `Cap` entries, edited by id. */
module Notifications {
  import opened Model
  import Seqs

  /** How many notifications are kept. */
  const Cap: nat := 20

  function Min(a: int, b: int): int {
    if a < b then a else b
  }

  /** `[n, ...ns.slice(0, 19)]`: the new entry first, then the newest previous ones in their order. */
  function Push(ns: seq<Notification>, n: Notification): (r: seq<Notification>)
    ensures |r| == Min(|ns| + 1, Cap)
    ensures |r| <= Cap
    ensures r[0] == n
    ensures forall i :: 1 <= i < |r| ==> r[i] == ns[i - 1]
  {
    [n] + Seqs.Take(ns, Cap - 1)
  }

  /** The notifications after pushing `news` one by one. */
  function PushAll(ns: seq<Notification>, news: seq<Notification>): seq<Notification>
    decreases |news|
  {
    if |news| == 0 then ns else Push(PushAll(ns, news[..|news| - 1]), news[|news| - 1])
  }

  /** After any run of pushes the list holds the most recent `Cap` notifications, newest
      first, followed by as many older ones as still fit. */
  lemma {:induction false} PushAllKeepsNewest(ns: seq<Notification>, news: seq<Notification>)
    requires |ns| <= Cap
    ensures PushAll(ns, news) == (Seqs.Reverse(news) + ns)[..Min(|news| + |ns|, Cap)]
    decreases |news|
  {
    if |news| > 0 {
      var init := news[..|news| - 1];
      var n := news[|news| - 1];
      assert PushAll(ns, news) == Push(PushAll(ns, init), n);
      PushAllKeepsNewest(ns, init);
      var x := Seqs.Reverse(init) + ns;
      var k := Min(|init| + |ns|, Cap);
      PushPrefix(x, n, k);
      Seqs.ReverseLastFirst(news, ns);
    }
  }

  /** Pushing onto the first `k` entries of `x` keeps the first entries of `x` behind the new one. */
  lemma PushPrefix(x: seq<Notification>, n: Notification, k: nat)
    requires k <= |x| && k <= Cap
    ensures Push(x[..k], n) == ([n] + x)[..Min(k + 1, Cap)]
  {
    var r := Push(x[..k], n);
    var want := ([n] + x)[..Min(k + 1, Cap)];
    assert |r| == |want|;
    forall i | 0 <= i < |r|
      ensures r[i] == want[i]
    {
      if i > 0 {
        assert r[i] == x[i - 1];
      }
    }
  }

  /** Has some entry that id? */
  predicate HasId(ns: seq<Notification>, id: string) {
    exists n :: n in ns && n.id == id
  }

  /** `clearNotification(id)`: every entry with that id goes, the others keep their order. */
  function Dismiss(ns: seq<Notification>, id: string): (r: seq<Notification>)
    ensures forall n :: n in r <==> n in ns && n.id != id
    ensures !HasId(r, id)
    ensures Seqs.Sublist(r, ns) && |r| <= |ns|
    ensures forall n :: multiset(r)[n] == if n.id != id then multiset(ns)[n] else 0
    ensures !HasId(ns, id) ==> r == ns
  {
    var keep := (n: Notification) => n.id != id;
    if !HasId(ns, id) then
      Seqs.FilterKeepsAll(ns, keep);
      Seqs.Filter(ns, keep)
    else
      Seqs.Filter(ns, keep)
  }

  /** `markNotificationAsRead(id)`: the entries with that id become read, nothing else changes. */
  function MarkRead(ns: seq<Notification>, id: string): (r: seq<Notification>)
    ensures |r| == |ns|
    ensures forall i :: 0 <= i < |ns| && ns[i].id != id ==> r[i] == ns[i]
    ensures forall i :: 0 <= i < |ns| && ns[i].id == id ==> r[i] == ns[i].(read := true)
    decreases |ns|
  {
    if |ns| == 0 then []
    else [if ns[0].id == id then ns[0].(read := true) else ns[0]] + MarkRead(ns[1..], id)
  }

  /** Marking an absent id changes nothing, and marking twice is marking once. */
  lemma MarkReadNoOpAndIdempotent(ns: seq<Notification>, id: string)
    ensures !HasId(ns, id) ==> MarkRead(ns, id) == ns
    ensures MarkRead(MarkRead(ns, id), id) == MarkRead(ns, id)
  {
    if !HasId(ns, id) {
      forall i | 0 <= i < |ns|
        ensures ns[i].id != id
      {
        assert ns[i] in ns;
      }
    }
  }
}
