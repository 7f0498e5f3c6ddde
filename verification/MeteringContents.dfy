/** What one post of a meter reading leaves in the lists below it. */
module MeteringContents {
  import opened Wrappers
  import opened Text
  import opened ListStore
  import opened MeteringSpec
  import opened MeteringUris
  import opened MeteringInvariant
  import opened MeteringSteps
  import opened MeteringSaves
  import opened MeteringPoints
  import opened MeteringServer
  import opened MeteringLocations
  import opened Readings
  import Hrefs = MeteringHrefs

  /* Which lists each step can touch */

  lemma ReadingFrame(s: Store, u: string, r: ReadingItem)
    ensures forall v :: v != u ==> Items(CreateOrUpdateReading(s, u, r).store, v) == Items(s, v)
  {
    hide Split;
    hide Append;
    hide AppendAndIncrementHref;
    AppendFrame(s, u, r);
  }

  lemma {:induction false} ReadingsFrame(s: Store, u: string, readings: seq<ReadingItem>)
    ensures forall v :: v != u ==> Items(CreateOrUpdateReadings(s, u, readings).store, v) == Items(s, v)
    decreases |readings|
  {
    hide CreateOrUpdateReading;
    if readings != [] {
      ReadingFrame(s, u, readings[0]);
      ReadingsFrame(CreateOrUpdateReading(s, u, readings[0]).store, u, readings[1..]);
    }
  }

  /* Reading lists of sets that do not exist yet are empty */

  function SetList(y: string): string {
    Sub(Upt(y), "rs")
  }

  function SetReadings(y: string, k: nat): string {
    Sub(Sub(SetList(y), Dec(k)), "r")
  }

  ghost predicate SetsUnborn(s: Store) {
    forall y: string, k: nat :: k >= |Items(s, SetList(y))| ==> Items(s, SetReadings(y, k)) == []
  }

  lemma SetReadingsInjective(y: string, k: nat, z: string, l: nat)
    ensures SetReadings(y, k) == SetReadings(z, l) ==> y == z && k == l
    ensures SetList(y) == SetList(z) ==> y == z
    ensures UriClass(SetReadings(y, k)) == Some(ReadingClass) && UriClass(SetList(y)) == Some(ReadingSetClass)
    ensures UriClass(Sub(Mup(y), "rs")) == Some(MirrorReadingSetClass)
  {
    hide UriClass;
    hide Split;
    SetPlace(y, k);
    if SetList(y) == SetList(z) {
      SubInjective(Upt(y), "rs", Upt(z), "rs");
      assert Upt(y)[4..] == Upt(z)[4..];
    }
    if SetReadings(y, k) == SetReadings(z, l) {
      DecValue(k);
      DecValue(l);
      SubInjective(Sub(SetList(y), Dec(k)), "r", Sub(SetList(z), Dec(l)), "r");
      SubInjective(SetList(y), Dec(k), SetList(z), Dec(l));
      DecInjective(k, l);
      SubInjective(Upt(y), "rs", Upt(z), "rs");
      assert Upt(y)[4..] == Upt(z)[4..];
    }
  }

  /** The reading list of a meter reading is not that of a reading set. */
  lemma MeterReadingsApart(u: string, j: nat, y: string, k: nat)
    ensures Sub(Sub(Sub(u, "mr"), Dec(j)), "r") != SetReadings(y, k)
  {
    hide Split;
    if Sub(Sub(Sub(u, "mr"), Dec(j)), "r") == SetReadings(y, k) {
      DecValue(j);
      DecValue(k);
      SubInjective(Sub(Sub(u, "mr"), Dec(j)), "r", Sub(SetList(y), Dec(k)), "r");
      SubInjective(Sub(u, "mr"), Dec(j), SetList(y), Dec(k));
      SubInjective(u, "mr", Upt(y), "rs");
    }
  }

  /** Steps that leave set lists and their reading lists alone. */
  lemma UnbornKept(s: Store, s': Store)
    requires SetsUnborn(s)
    requires forall y: string :: Items(s', SetList(y)) == Items(s, SetList(y))
    requires forall y: string, k: nat :: Items(s', SetReadings(y, k)) == Items(s, SetReadings(y, k))
    ensures SetsUnborn(s')
  {
    hide SetList;
    hide SetReadings;
  }

  /** What a post of sets to the list of y leaves: only new entries, and only their readings. */
  ghost predicate SetsAdded(s: Store, s': Store, y: string) {
    var n, n' := |Items(s, SetList(y))|, |Items(s', SetList(y))|;
    && n <= n' && Items(s', SetList(y))[..n] == Items(s, SetList(y))
    && (forall z: string :: z != y ==> Items(s', SetList(z)) == Items(s, SetList(z)))
    && (forall z: string, k: nat :: z != y || k < n || k >= n' ==>
                                      Items(s', SetReadings(z, k)) == Items(s, SetReadings(z, k)))
    && (forall v :: UriClass(v) == Some(ReadingClass) && Items(s', v) != Items(s, v) ==>
                      exists k: nat :: n <= k < n' && v == SetReadings(y, k))
  }

  lemma SetsAddedUnborn(s: Store, s': Store, y: string)
    requires SetsUnborn(s) && SetsAdded(s, s', y)
    ensures SetsUnborn(s')
  {
    hide SetList;
    hide SetReadings;
    hide UriClass;
    forall z: string, k: nat | k >= |Items(s', SetList(z))| ensures Items(s', SetReadings(z, k)) == [] {
      assert k >= |Items(s, SetList(z))|;
    }
  }

  lemma SetsAddedTransitive(s: Store, s1: Store, s2: Store, y: string)
    requires SetsAdded(s, s1, y) && SetsAdded(s1, s2, y)
    ensures SetsAdded(s, s2, y)
  {
    hide SetList;
    hide SetReadings;
    hide UriClass;
    var n := |Items(s, SetList(y))|;
    assert Items(s2, SetList(y))[..n] == Items(s1, SetList(y))[..n];
    forall v | UriClass(v) == Some(ReadingClass) && Items(s2, v) != Items(s, v)
      ensures exists k: nat :: n <= k < |Items(s2, SetList(y))| && v == SetReadings(y, k)
    {
      if Items(s1, v) != Items(s, v) {
        var k: nat :| n <= k < |Items(s1, SetList(y))| && v == SetReadings(y, k);
      } else {
        var k: nat :| |Items(s1, SetList(y))| <= k < |Items(s2, SetList(y))| && v == SetReadings(y, k);
      }
    }
  }

  predicate NoHrefs(readings: seq<ReadingItem>) {
    forall k :: 0 <= k < |readings| ==> readings[k].href.None?
  }

  function LinkedSets(posts: seq<ReadingSetPost>, u: string, n: nat): (d: Dict)
    ensures |d| == |posts| && forall k :: 0 <= k < |posts| ==> d[k] == Entry(n + k, LinkedSet(posts[k].item, u, n + k))
  {
    seq(|posts|, k requires 0 <= k < |posts| => Entry(n + k, LinkedSet(posts[k].item, u, n + k)))
  }

  /** One new entry for each posted set, in order, each with its own readings. */
  ghost predicate SetsStored(s: Store, s': Store, y: string, posts: seq<ReadingSetPost>) {
    var n := |Items(s, SetList(y))|;
    && Items(s', SetList(y)) == Items(s, SetList(y)) + LinkedSets(posts, SetList(y), n)
    && forall k :: 0 <= k < |posts| && Returning(posts[k].readings) ==>
                     Upserted(Items(s', SetReadings(y, n + k)), posts[k].readings)
  }

  /** The set is new, as far as the list goes that its own href names if it has one, and its
      readings are all taken. */
  ghost predicate SetAccepted(s: Store, y: string, post: ReadingSetPost) {
    && FindReadingSet(s, post.item) == Ok(None)
    && UpsertAll([], SetReadings(y, |Items(s, SetList(y))|), post.readings).Ok?
  }

  /** Each set is accepted in the state the sets before it leave. */
  ghost predicate SetsAccepted(s: Store, y: string, posts: seq<ReadingSetPost>)
    decreases |posts|
  {
    posts != [] ==>
      && SetAccepted(s, y, posts[0])
      && SetsAccepted(PostReadingSet(s, SetList(y), posts[0]).store, y, posts[1..])
  }

  /** A set posted as clients post it, without hrefs of its own. */
  predicate PlainSet(post: ReadingSetPost) {
    post.item.href.None? && NoHrefs(post.readings)
  }

  /** A post of one set. */
  lemma SetPostContents(s: Store, y: string, post: ReadingSetPost)
    requires Inv(s, PointPaths()) && '/' !in y && SetsUnborn(s)
    ensures var o := PostReadingSet(s, SetList(y), post);
            && SetsAdded(s, o.store, y) && SetsUnborn(o.store)
            && (o.result.Ok? ==> SetsStored(s, o.store, y, [post]))
            && (o.result.Ok? <==> SetAccepted(s, y, post))
  {
    hide UriClass;
    hide Split;
    hide Inv;
    hide WellFormed;
    hide CreateOrUpdateReadingSet;
    hide CreateReadingSetPair;
    hide CreateOrUpdateReadings;
    hide PostReadingSet;
    hide LinkedSet;
    hide SetsAdded;
    hide SetsStored;
    hide Sub;
    hide Assign;
    hide UpsertAll;
    hide FindReadingSet;
    var u := SetList(y);
    var n := |Items(s, u)|;
    PointRoutes();
    InvParts(s, y, PointPaths());
    PostedSetHrefNeverUpdates(s, u, post.item);
    if CreateOrUpdateReadingSet(s, u, post.item) == CreateReadingSetPair(s, u, post.item) {
      var list := SetReadings(y, n);
      PairLinked(s, y, post.item, PointPaths());
      PostIsPairThenReadings(s, u, post, n);
      var s2 := Assign(CreateReadingSetPair(s, u, post.item).store, Ref(u, n, LinkedSet(post.item, u, n)));
      var s3 := CreateOrUpdateReadings(s2, list, post.readings).store;
      SetReadingsInjective(y, n, y, n);
      ReadingsFrame(s2, list, post.readings);
      assert Items(s3, u) == Items(s2, u);
      OneSetAdded(s, s3, y, LinkedSet(post.item, u, n));
      SetsAddedUnborn(s, s3, y);
      InvParts(s2, y, PointPaths());
      if PostReadingSet(s, u, post).result.Ok? {
        OneSetStored(s, s2, y, post);
      }
      ReadingsUpsert(s2, list, post.readings);
      assert FindReadingSet(s, post.item) == Ok(None) by {
        CreatedIsNew(s, u, post.item);
      }
    } else {
      if FindReadingSet(s, post.item) == Ok(None) {
        NewIsCreated(s, u, post.item);
      }
      PostOfFailedSet(s, u, post);
      NothingAdded(s, y);
    }
  }

  lemma OneSetStored(s: Store, s2: Store, y: string, post: ReadingSetPost)
    requires WellFormed(s2) && Items(s2, SetReadings(y, |Items(s, SetList(y))|)) == []
    requires var u := SetList(y);
             Items(s2, u) == Items(s, u) + [Entry(|Items(s, u)|, LinkedSet(post.item, u, |Items(s, u)|))]
    requires CreateOrUpdateReadings(s2, SetReadings(y, |Items(s, SetList(y))|), post.readings).result.Ok?
    ensures SetsStored(s, CreateOrUpdateReadings(s2, SetReadings(y, |Items(s, SetList(y))|),
                                                 post.readings).store, y, [post])
  {
    hide UriClass;
    hide WellFormed;
    hide CreateOrUpdateReadings;
    hide Upserted;
    hide SetList;
    hide SetReadings;
    hide LinkedSet;
    hide Items;
    var n := |Items(s, SetList(y))|;
    SetReadingsInjective(y, n, y, n);
    ReadingsFrame(s2, SetReadings(y, n), post.readings);
    assert LinkedSets([post], SetList(y), n) == [Entry(n, LinkedSet(post.item, SetList(y), n))];
    if Returning(post.readings) {
      UpsertReadings(s2, SetReadings(y, n), post.readings);
    }
  }

  lemma NewIsCreated(s: Store, u: string, item: ReadingSetItem)
    requires FindReadingSet(s, item) == Ok(None)
    ensures CreateOrUpdateReadingSet(s, u, item) == CreateReadingSetPair(s, u, item)
  {
    hide CreateReadingSetPair;
    hide FindReadingSet;
  }

  lemma CreatedIsNew(s: Store, u: string, item: ReadingSetItem)
    requires WellFormed(s) && CreateOrUpdateReadingSet(s, u, item).result.Ok?
    ensures FindReadingSet(s, item) == Ok(None)
  {
    hide CreateReadingSetPair;
    hide CreateOrUpdateReadingSet;
    hide WellFormed;
    hide FindReadingSet;
    PostedSetHrefNeverUpdates(s, u, item);
  }

  lemma PointRoutes()
    ensures forall p :: p in PointPaths() ==> RoutePath(p)
  {
    SeparatedPointsOnly();
    SeparatedRoutes(PointPaths());
  }

  lemma NothingAdded(s: Store, y: string)
    ensures SetsAdded(s, s, y)
  {
    hide UriClass;
  }

  lemma OneSetAdded(s: Store, s': Store, y: string, set_: Resource)
    requires Items(s', SetList(y)) == Items(s, SetList(y)) + [Entry(|Items(s, SetList(y))|, set_)]
    requires forall v :: v != SetList(y) && v != Sub(Mup(y), "rs") && v != SetReadings(y, |Items(s, SetList(y))|) ==>
                           Items(s', v) == Items(s, v)
    ensures SetsAdded(s, s', y)
  {
    hide UriClass;
    hide SetList;
    hide SetReadings;
    hide Mup;
    hide Split;
    hide Sub;
    hide Items;
    var n := |Items(s, SetList(y))|;
    assert Items(s', SetList(y))[..n] == Items(s, SetList(y));
    SetReadingsInjective(y, n, y, n);
    forall z: string | z != y ensures Items(s', SetList(z)) == Items(s, SetList(z)) {
      SetReadingsInjective(z, n, y, n);
    }
    forall z: string, k: nat | z != y || k != n ensures Items(s', SetReadings(z, k)) == Items(s, SetReadings(z, k)) {
      SetReadingsInjective(z, k, y, n);
    }
    forall v | UriClass(v) == Some(ReadingClass) && Items(s', v) != Items(s, v)
      ensures exists k: nat :: n <= k < |Items(s', SetList(y))| && v == SetReadings(y, k)
    {
      assert v == SetReadings(y, n);
    }
  }

  lemma NothingStored(s: Store, y: string)
    ensures SetsStored(s, s, y, [])
  {
    hide Items;
  }

  lemma SetsStoredCons(s: Store, s1: Store, s2: Store, y: string, posts: seq<ReadingSetPost>)
    requires posts != [] && SetsStored(s, s1, y, [posts[0]]) && SetsStored(s1, s2, y, posts[1..])
    requires SetsAdded(s1, s2, y)
    ensures SetsStored(s, s2, y, posts)
  {
    hide UriClass;
    hide Upserted;
    hide SetList;
    hide SetReadings;
    hide LinkedSets;
    hide Items;
    hide Returning;
    var u := SetList(y);
    var n := |Items(s, u)|;
    LinkedSetsCons(posts, u, n);
    assert |Items(s1, u)| == n + 1;
    assert Items(s2, SetReadings(y, n)) == Items(s1, SetReadings(y, n));
    forall k | 0 <= k < |posts| && Returning(posts[k].readings)
      ensures Upserted(Items(s2, SetReadings(y, n + k)), posts[k].readings)
    {
      if k == 0 {
        assert [posts[0]][0] == posts[0];
        assert Upserted(Items(s1, SetReadings(y, n + 0)), posts[0].readings);
      } else {
        assert posts[1..][k - 1] == posts[k];
        assert n + k == (n + 1) + (k - 1);
      }
    }
  }

  lemma LinkedSetsCons(posts: seq<ReadingSetPost>, u: string, n: nat)
    requires posts != []
    ensures LinkedSets(posts, u, n) == LinkedSets([posts[0]], u, n) + LinkedSets(posts[1..], u, n + 1)
    ensures |LinkedSets([posts[0]], u, n)| == 1
  {
    hide LinkedSet;
  }

  lemma {:induction false} SetPostsContents(s: Store, y: string, posts: seq<ReadingSetPost>)
    requires Inv(s, PointPaths()) && '/' !in y && SetsUnborn(s)
    ensures var o := PostReadingSets(s, SetList(y), posts);
            && SetsAdded(s, o.store, y) && SetsUnborn(o.store)
            && (o.result.Ok? ==> SetsStored(s, o.store, y, posts))
    decreases |posts|
  {
    hide UriClass;
    hide Split;
    hide Inv;
    hide PostReadingSet;
    hide Upserted;
    hide LinkedSet;
    hide SetsUnborn;
    hide SetsAdded;
    hide SetsStored;
    hide Items;
    NothingAdded(s, y);
    if posts == [] {
      NothingStored(s, y);
    } else {
      PointRoutes();
      SetPostContents(s, y, posts[0]);
      PostReadingSetInv(s, y, posts[0], PointPaths());
      var first := PostReadingSet(s, SetList(y), posts[0]);
      if first.result.Ok? {
        SetPostsContents(first.store, y, posts[1..]);
        var o := PostReadingSets(first.store, SetList(y), posts[1..]);
        SetsAddedTransitive(s, first.store, o.store, y);
        if o.result.Ok? {
          SetsStoredCons(s, first.store, o.store, y, posts);
        }
      }
    }
  }

  lemma {:induction false} SetPostsAnswered(s: Store, y: string, posts: seq<ReadingSetPost>)
    requires Inv(s, PointPaths()) && '/' !in y && SetsUnborn(s)
    ensures PostReadingSets(s, SetList(y), posts).result.Ok? <==> SetsAccepted(s, y, posts)
    decreases |posts|
  {
    hide UriClass;
    hide Split;
    hide Inv;
    hide PostReadingSet;
    hide SetsUnborn;
    hide SetsAdded;
    hide SetsStored;
    hide SetAccepted;
    hide Items;
    if posts != [] {
      PointRoutes();
      SetPostContents(s, y, posts[0]);
      PostReadingSetInv(s, y, posts[0], PointPaths());
      var first := PostReadingSet(s, SetList(y), posts[0]);
      if first.result.Ok? {
        SetPostsAnswered(first.store, y, posts[1..]);
      }
    }
  }

  /** Plain sets are all accepted exactly when no localID comes a third time within one of them. */
  lemma {:induction false} PlainSetsAccepted(s: Store, y: string, posts: seq<ReadingSetPost>)
    requires forall k :: 0 <= k < |posts| ==> PlainSet(posts[k])
    ensures SetsAccepted(s, y, posts) <==> forall k :: 0 <= k < |posts| ==> Repeatable(posts[k].readings)
    decreases |posts|
  {
    hide PostReadingSet;
    hide SetReadings;
    hide SetList;
    hide UpsertAll;
    hide Repeatable;
    hide Items;
    if posts != [] {
      PlainAll(SetReadings(y, |Items(s, SetList(y))|), posts[0].readings);
      PlainSetsAccepted(PostReadingSet(s, SetList(y), posts[0]).store, y, posts[1..]);
      assert forall k :: 1 <= k < |posts| ==> posts[k] == posts[1..][k - 1];
    }
  }
}
