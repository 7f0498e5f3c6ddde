/** The page that a read of a list answers: which of its items, and in which order. */
module ListPages {
  import opened Wrappers
  import opened ListStore
  import opened MeteringServer
  import Paging

  /* The arrangement */

  /** The item has a time period, and so a start. */
  predicate Dated(r: Resource) {
    (r.MirrorReadingSet? || r.ReadingSet? || r.Reading?) && r.timePeriod.Some?
  }

  ghost predicate AllDated(items: seq<Resource>) {
    forall k :: 0 <= k < |items| ==> Dated(items[k])
  }

  /** Item i of the arrangement stands at order[i] in the list; of any two items the first starts later, or at
      the same time and stands first in the list. */
  ghost predicate LatestFirstOrder(items: seq<Resource>, shown: seq<Resource>, order: seq<nat>) {
    && AllDated(shown) && Paging.Arrangement(items, shown, order)
    && forall i, j :: 0 <= i < j < |shown| ==>
                        || shown[i].timePeriod.value.start > shown[j].timePeriod.value.start
                        || (shown[i].timePeriod.value.start == shown[j].timePeriod.value.start && order[i] < order[j])
  }

  /** Sorted when that is asked for and all items are dated; in the order of the list otherwise. */
  ghost predicate Shows(items: seq<Resource>, byStart: bool, shown: seq<Resource>) {
    if byStart && AllDated(items) then exists order :: LatestFirstOrder(items, shown, order) else shown == items
  }

  /** The page is cut from that arrangement of the whole list. */
  ghost predicate PageOfList(items: seq<Resource>, byStart: bool, start: int, after: int, limit: int,
                             page: Paging.Page<Resource>) {
    exists shown: seq<Resource> ::
      |shown| == |items| && Shows(items, byStart, shown) && Paging.PageOf(shown, start, after, limit, page)
  }

  lemma LatestFirstShows(items: seq<Resource>)
    ensures |LatestFirst(items)| == |items| && Shows(items, true, LatestFirst(items))
  {
    hide Paging.Sorted;
    var key := (r: Resource) => StartOf(r).GetOr(0);
    forall k | 0 <= k < |items| ensures StartOf(items[k]).Some? <==> Dated(items[k]) {
    }
    if AllDated(items) {
      var order := Paging.SortedArranges(key, true, items);
      var shown := Paging.Sorted(key, true, items);
      forall i | 0 <= i < |shown| ensures Dated(shown[i]) && key(shown[i]) == shown[i].timePeriod.value.start {
        assert shown[i] == items[order[i]];
      }
      forall i, j | 0 <= i < j < |shown|
        ensures shown[i].timePeriod.value.start > shown[j].timePeriod.value.start
                || (shown[i].timePeriod.value.start == shown[j].timePeriod.value.start && order[i] < order[j])
      {
        assert Paging.Before(key, true, shown[i], shown[j]) || (key(shown[i]) == key(shown[j]) && order[i] < order[j]);
      }
      assert LatestFirstOrder(items, shown, order);
    }
  }

  /* The answer */

  /** The answer to a read of this list, by what is stored in it. */
  ghost predicate Lists(s: Store, o: Outcome<Answer>, uri: string, byStart: bool, start: int, after: int, limit: int) {
    && (forall u :: Items(o.store, u) == Items(s, u))
    && o.result.Ok? && o.result.value.Listing?
    && PageOfList(Values(Items(s, uri)), byStart, start, after, limit, o.result.value.page)
  }

  /** A list is answered if and only if its class is registered, and else with a KeyError: its items latest
      first if asked and if all have a time period, from position start + after on, `limit` of them, or all
      of them when none of the three is given; `all` is the size of the list. */
  lemma AnsweredPage(s: Store, uri: string, start: int, after: int, limit: int, byStart: bool)
    ensures var o := GetResourceList(s, uri, start, after, limit, byStart);
            if uri in s.types then Lists(s, o, uri, byStart, start, after, limit) else o == Outcome(s, Raise(KeyError))
  {
    hide LatestFirst;
    hide Paging.ResourcePage;
    hide Paging.PageOf;
    if uri in s.types {
      var items := Values(Items(s, uri));
      LatestFirstShows(items);
      var shown := if byStart then LatestFirst(items) else items;
      Paging.ResourcePageIs(shown, start, after, limit);
      assert Shows(items, byStart, shown);
      PageIsOf(items, byStart, start, after, limit, shown, Paging.ResourcePage(shown, start, after, limit));
    }
  }

  lemma PageIsOf(items: seq<Resource>, byStart: bool, start: int, after: int, limit: int, shown: seq<Resource>,
                 page: Paging.Page<Resource>)
    requires |shown| == |items| && Shows(items, byStart, shown) && Paging.PageOf(shown, start, after, limit, page)
    ensures PageOfList(items, byStart, start, after, limit, page)
  {
  }
}
