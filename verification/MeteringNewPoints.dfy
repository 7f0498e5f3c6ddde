/** What a post of a mirror usage point leaves, new or known, written out for every list it reaches. */
module MeteringNewPoints {
  import opened Wrappers
  import opened Text
  import opened ListStore
  import opened MeteringSpec
  import opened MeteringUris
  import opened MeteringInvariant
  import opened MeteringSteps
  import opened MeteringSaves
  import opened MeteringPoints
  import opened MeteringServer
  import opened MeteringLocations
  import opened MeteringContents
  import opened MeteringDetails
  import opened MeteringEntries

  /* The meter readings of a new point */

  /** How many meter readings come before the first without a type. */
  function LeadingTyped(posts: seq<MeterReadingPost>): (m: nat)
    ensures m <= |posts| && (forall k :: 0 <= k < m ==> posts[k].readingType.Some?)
    ensures m < |posts| ==> posts[m].readingType.None?
  {
    if posts == [] || posts[0].readingType.None? then 0 else 1 + LeadingTyped(posts[1..])
  }

  function MirrorEntries(posts: seq<MeterReadingPost>, list: string, n: nat): (d: Dict)
    ensures |d| == |posts|
    ensures forall k :: 0 <= k < |posts| ==>
                          d[k] == Entry(n + k, MirrorMeterReading(Some(Sub(list, Dec(n + k))), posts[k].mrid,
                                                                  posts[k].description))
  {
    seq(|posts|, k requires 0 <= k < |posts| =>
      Entry(n + k, MirrorMeterReading(Some(Sub(list, Dec(n + k))), posts[k].mrid, posts[k].description)))
  }

  function ReplicaEntries(posts: seq<MeterReadingPost>, list: string, types: string, n: nat): (d: Dict)
    ensures |d| == |posts|
    ensures forall k :: 0 <= k < |posts| ==>
                          d[k] == Entry(n + k, MeterReading(Some(Sub(list, Dec(n + k))), posts[k].mrid,
                                                            posts[k].description, Some(Sub(types, Dec(n + k))),
                                                            None, None))
  {
    seq(|posts|, k requires 0 <= k < |posts| =>
      Entry(n + k, MeterReading(Some(Sub(list, Dec(n + k))), posts[k].mrid, posts[k].description,
                                Some(Sub(types, Dec(n + k))), None, None)))
  }

  /** The href of the k-th type, counted from n on. */
  function TypeHref(types: string, n: nat, k: nat): string {
    Sub(types, Dec(n + k))
  }

  ghost predicate NoTypeHref(h: string, types: string, n: nat, m: nat) {
    forall k: nat :: k < m ==> h != TypeHref(types, n, k)
  }

  /** The types of these posts stand under their numbered hrefs, and nothing else has changed. */
  ghost predicate TypesAdded(t: map<string, ReadingTypeData>, t': map<string, ReadingTypeData>,
                             posts: seq<MeterReadingPost>, types: string, n: nat) {
    && (forall k: nat :: k < |posts| ==>
                           && TypeHref(types, n, k) in t' && Some(t'[TypeHref(types, n, k)]) == posts[k].readingType)
    && forall h :: NoTypeHref(h, types, n, |posts|) ==>
                     (h in t' <==> h in t) && (h in t ==> t'[h] == t[h])
  }

  lemma TypesAddedCons(t: map<string, ReadingTypeData>, t': map<string, ReadingTypeData>,
                       posts: seq<MeterReadingPost>, types: string, n: nat)
    requires posts != [] && posts[0].readingType.Some?
    requires TypesAdded(t[Sub(types, Dec(n)) := posts[0].readingType.value], t', posts[1..], types, n + 1)
    ensures TypesAdded(t, t', posts, types, n)
  {
    hide Sub;
    var t1, next := t[Sub(types, Dec(n)) := posts[0].readingType.value], n + 1;
    assert TypeHref(types, n, 0) == Sub(types, Dec(n));
    forall k: nat | k < |posts|
      ensures TypeHref(types, n, k) in t' && Some(t'[TypeHref(types, n, k)]) == posts[k].readingType
    {
      if k > 0 {
        assert posts[k] == posts[1..][k - 1];
        assert TypeHref(types, n, k) == TypeHref(types, n + 1, k - 1);
      } else {
        FirstTypeHref(types, n, |posts| - 1);
      }
    }
    forall h | NoTypeHref(h, types, n, |posts|)
      ensures (h in t' <==> h in t) && (h in t ==> t'[h] == t[h])
    {
      assert NoTypeHref(h, types, next, |posts| - 1) by {
        forall k: nat | k < |posts| - 1 ensures h != TypeHref(types, next, k) {
          assert TypeHref(types, n, k + 1) == TypeHref(types, next, k);
        }
      }
    }
  }

  lemma FirstTypeHref(types: string, n: nat, m: nat)
    ensures NoTypeHref(Sub(types, Dec(n)), types, n + 1, m)
  {
    hide Sub;
    var next := n + 1;
    forall k: nat | k < m ensures Sub(types, Dec(n)) != TypeHref(types, next, k) {
      if Sub(types, Dec(n)) == TypeHref(types, next, k) {
        SubDecInjective(types, n, n + 1 + k);
      }
    }
  }

  lemma SubDecInjective(u: string, j: nat, k: nat)
    requires Sub(u, Dec(j)) == Sub(u, Dec(k))
    ensures j == k
  {
    LastOfNumbered(u, j);
    LastOfNumbered(u, k);
    DecInjective(j, k);
  }

  /** One turn of the loop. */
  lemma AddOneStores(s: Store, i: nat, post: MeterReadingPost, j: nat, link: string)
    requires Inv(s, PointPaths()) && i < |Items(s, MUP_ROOT)|
    requires |Items(s, MeterReadingListHref(MUP_ROOT, i))| == j
    ensures var u, v := MeterReadingListHref(MUP_ROOT, i), MeterReadingListHref(UPT_ROOT, i);
            var mmr := MirrorMeterReading(Some(Sub(u, Dec(j))), post.mrid, post.description);
            var mr := MeterReading(Some(Sub(v, Dec(j))), post.mrid, post.description, Some(link), None, None);
            var s1 := Append(s, u, mmr).store;
            var s2 := Append(s1, v, mr).store;
            && |Items(s, v)| == j && u != v && s2.singles == s.singles && s2.index == s.index
            && Items(s2, u) == Items(s, u) + [Entry(j, mmr)] && Items(s2, v) == Items(s, v) + [Entry(j, mr)]
            && forall w :: w != u && w != v ==> Items(s2, w) == Items(s, w)
  {
    hide UriClass;
    hide Split;
    hide Inv;
    hide Append;
    hide WellFormed;
    hide Sub;
    hide Dec;
    var u, v := MeterReadingListHref(MUP_ROOT, i), MeterReadingListHref(UPT_ROOT, i);
    PointPathIsRoute(i);
    assert PointPath(i) in PointPaths();
    TwoLists(PointPath(i));
    InvAt(s, PointPath(i), PointPaths());
    var mmr := MirrorMeterReading(Some(Sub(u, Dec(j))), post.mrid, post.description);
    var mr := MeterReading(Some(Sub(v, Dec(j))), post.mrid, post.description, Some(link), None, None);
    AppendExtends(s, u, mmr);
    AppendKeepsCaches(s, u, mmr);
    var s1 := Append(s, u, mmr).store;
    AppendExtends(s1, v, mr);
    AppendKeepsCaches(s1, v, mr);
  }

  lemma AppendKeepsCaches(s: Store, u: string, item: Resource)
    ensures SameCaches(s, Append(s, u, item).store)
  {
    hide Slot;
    hide Put;
  }

  /** What the loop leaves, also when a meter reading without a type ends it. */
  ghost predicate ReadingsAdded(s: Store, o: Outcome<()>, i: nat, posts: seq<MeterReadingPost>, j: nat) {
    var u, v, types := MeterReadingListHref(MUP_ROOT, i), MeterReadingListHref(UPT_ROOT, i),
                       Sub(PointHref(UPT_ROOT, i), "rt");
    var m := LeadingTyped(posts);
    && o.result == (if m == |posts| then Ok(()) else Raise(TypeError))
    && Items(o.store, u) == Items(s, u) + MirrorEntries(posts[..m], u, j)
    && Items(o.store, v) == Items(s, v) + ReplicaEntries(posts[..m], v, types, j)
    && TypesAdded(s.singles, o.store.singles, posts[..m], types, j)
    && TypesAdded(s.index, o.store.index, posts[..m], types, j)
    && forall w :: w != u && w != v ==> Items(o.store, w) == Items(s, w)
  }

  lemma NothingToAdd(s: Store, i: nat, posts: seq<MeterReadingPost>, j: nat)
    requires LeadingTyped(posts) == 0
    ensures ReadingsAdded(s, Outcome(s, if posts == [] then Ok(()) else Raise(TypeError)), i, posts, j)
  {
    hide Sub;
    forall types: string
      ensures TypesAdded(s.singles, s.singles, [], types, j) && TypesAdded(s.index, s.index, [], types, j)
    {
    }
  }

  /** The first meter reading, then the others. */
  lemma ReadingsAddedCons(s: Store, s2: Store, o: Outcome<()>, i: nat, posts: seq<MeterReadingPost>, j: nat)
    requires posts != [] && posts[0].readingType.Some?
    requires var u, v := MeterReadingListHref(MUP_ROOT, i), MeterReadingListHref(UPT_ROOT, i);
             var link := Sub(Sub(PointHref(UPT_ROOT, i), "rt"), Dec(j));
             && u != v
             && Items(s2, u) == Items(s, u) + [Entry(j, MirrorMeterReading(Some(Sub(u, Dec(j))), posts[0].mrid,
                                                                           posts[0].description))]
             && Items(s2, v) == Items(s, v) + [Entry(j, MeterReading(Some(Sub(v, Dec(j))), posts[0].mrid,
                                                                     posts[0].description, Some(link), None, None))]
             && (forall w :: w != u && w != v ==> Items(s2, w) == Items(s, w))
             && s2.singles == s.singles && s2.index == s.index
             && ReadingsAdded(RegisterReadingType(s2, link, posts[0].readingType.value), o, i, posts[1..], j + 1)
    ensures ReadingsAdded(s, o, i, posts, j)
  {
    hide Sub;
    hide TypesAdded;
    hide LeadingTyped;
    var u, v, types := MeterReadingListHref(MUP_ROOT, i), MeterReadingListHref(UPT_ROOT, i),
                       Sub(PointHref(UPT_ROOT, i), "rt");
    LeadingTypedCons(posts);
    var m := LeadingTyped(posts);
    assert posts[..m][1..] == posts[1..][..m - 1] && posts[..m][0] == posts[0];
    TypesAddedCons(s.singles, o.store.singles, posts[..m], types, j);
    TypesAddedCons(s.index, o.store.index, posts[..m], types, j);
    MirrorEntriesCons(posts[..m], u, j);
    ReplicaEntriesCons(posts[..m], v, types, j);
    hide MirrorEntries;
    hide ReplicaEntries;
    var mirror, replica := Items(s2, u)[|Items(s, u)|], Items(s2, v)[|Items(s, v)|];
    var s3 := RegisterReadingType(s2, Sub(types, Dec(j)), posts[0].readingType.value);
    assert forall w :: Items(s3, w) == Items(s2, w);
    Regroup(Items(s, u), [mirror], MirrorEntries(posts[..m][1..], u, j + 1));
    Regroup(Items(s, v), [replica], ReplicaEntries(posts[..m][1..], v, types, j + 1));
  }

  lemma LeadingTypedCons(posts: seq<MeterReadingPost>)
    requires posts != [] && posts[0].readingType.Some?
    ensures LeadingTyped(posts) == 1 + LeadingTyped(posts[1..])
  {
  }

  lemma MirrorEntriesCons(posts: seq<MeterReadingPost>, u: string, j: nat)
    requires posts != []
    ensures MirrorEntries(posts, u, j)
         == [Entry(j, MirrorMeterReading(Some(Sub(u, Dec(j))), posts[0].mrid, posts[0].description))]
            + MirrorEntries(posts[1..], u, j + 1)
  {
    hide Sub;
    hide Dec;
    hide MirrorEntries;
  }

  lemma ReplicaEntriesCons(posts: seq<MeterReadingPost>, v: string, types: string, j: nat)
    requires posts != []
    ensures ReplicaEntries(posts, v, types, j)
         == [Entry(j, MeterReading(Some(Sub(v, Dec(j))), posts[0].mrid, posts[0].description,
                                   Some(Sub(types, Dec(j))), None, None))]
            + ReplicaEntries(posts[1..], v, types, j + 1)
  {
    hide Sub;
    hide Dec;
    hide ReplicaEntries;
  }

  lemma {:induction false} LoopAdds(s: Store, i: nat, posts: seq<MeterReadingPost>, j: nat)
    requires Inv(s, PointPaths()) && i < |Items(s, MUP_ROOT)|
    requires |Items(s, MeterReadingListHref(MUP_ROOT, i))| == j
    ensures ReadingsAdded(s, AddMeterReadings(s, PointHref(UPT_ROOT, i), MeterReadingListHref(MUP_ROOT, i),
                                              MeterReadingListHref(UPT_ROOT, i), posts, j), i, posts, j)
    decreases |posts|
  {
    hide UriClass;
    hide Inv;
    hide Append;
    hide Split;
    hide Separated;
    hide ReadingsAdded;
    if LeadingTyped(posts) == 0 {
      NothingToAdd(s, i, posts, j);
    } else {
      var u, v := MeterReadingListHref(MUP_ROOT, i), MeterReadingListHref(UPT_ROOT, i);
      var link := Sub(Sub(PointHref(UPT_ROOT, i), "rt"), Dec(j));
      SeparatedPointsOnly();
      assert PointPath(i) in PointPaths();
      AddOneInv(s, i, posts[0], j, link, PointPaths());
      AddOneStores(s, i, posts[0], j, link);
      var s1 := Append(s, u, MirrorMeterReading(Some(Sub(u, Dec(j))), posts[0].mrid, posts[0].description)).store;
      var s2 := Append(s1, v, MeterReading(Some(Sub(v, Dec(j))), posts[0].mrid, posts[0].description,
                                           Some(link), None, None)).store;
      var s3 := RegisterReadingType(s2, link, posts[0].readingType.value);
      SameListsInv(s2, s3, PointPaths());
      LoopAdds(s3, i, posts[1..], j + 1);
      var o := AddMeterReadings(s3, PointHref(UPT_ROOT, i), u, v, posts[1..], j + 1);
      ReadingsAddedCons(s, s2, o, i, posts, j);
    }
  }

  lemma JoinedHrefs(root: string, n: nat, part: string, k: nat)
    ensures Join([root, Dec(n)]) == PointHref(root, n)
    ensures Join([root, Dec(n), part]) == Sub(PointHref(root, n), part)
    ensures Join([root, Dec(n), part, Dec(k)]) == Sub(Sub(PointHref(root, n), part), Dec(k))
  {
    hide Sub;
    JoinSnoc([root], Dec(n));
    JoinSnoc([root, Dec(n)], part);
    JoinSnoc([root, Dec(n), part], Dec(k));
    assert [root] + [Dec(n)] == [root, Dec(n)] && [root, Dec(n)] + [part] == [root, Dec(n), part];
    assert [root, Dec(n), part] + [Dec(k)] == [root, Dec(n), part, Dec(k)];
  }

  /** Entry k of the list of mirrors of point n is the k-th posted meter reading. */
  ghost predicate MirrorsStored(d: Dict, posts: seq<MeterReadingPost>, n: nat) {
    && |d| == |posts|
    && forall k :: 0 <= k < |posts| ==>
                     d[k] == Entry(k, MirrorMeterReading(Some(Join(["/mup", Dec(n), "mr", Dec(k)])), posts[k].mrid,
                                                         posts[k].description))
  }

  /** Entry k of the list of replicas is too, with the link of its type. */
  ghost predicate ReplicasStored(d: Dict, posts: seq<MeterReadingPost>, n: nat) {
    && |d| == |posts|
    && forall k :: 0 <= k < |posts| ==>
                     d[k] == Entry(k, MeterReading(Some(Join(["/upt", Dec(n), "mr", Dec(k)])), posts[k].mrid,
                                                   posts[k].description, Some(Join(["/upt", Dec(n), "rt", Dec(k)])),
                                                   None, None))
  }

  /** The types stand under these links. */
  ghost predicate TypesStored(t: map<string, ReadingTypeData>, posts: seq<MeterReadingPost>, n: nat) {
    forall k :: 0 <= k < |posts| ==>
                  var link := Join(["/upt", Dec(n), "rt", Dec(k)]);
                  link in t && Some(t[link]) == posts[k].readingType
  }

  lemma EntriesAreMirrors(posts: seq<MeterReadingPost>, n: nat)
    ensures MirrorsStored(MirrorEntries(posts, MeterReadingListHref(MUP_ROOT, n), 0), posts, n)
  {
    hide Sub;
    hide Join;
    hide PointHref;
    forall k: nat
      ensures Join(["/mup", Dec(n), "mr", Dec(k)]) == Sub(MeterReadingListHref(MUP_ROOT, n), Dec(k))
    {
      JoinedHrefs(MUP_ROOT, n, "mr", k);
    }
  }

  lemma EntriesAreReplicas(posts: seq<MeterReadingPost>, n: nat)
    ensures var types := Sub(PointHref(UPT_ROOT, n), "rt");
            ReplicasStored(ReplicaEntries(posts, MeterReadingListHref(UPT_ROOT, n), types, 0), posts, n)
  {
    hide Sub;
    hide Join;
    hide PointHref;
    forall k: nat
      ensures Join(["/upt", Dec(n), "mr", Dec(k)]) == Sub(MeterReadingListHref(UPT_ROOT, n), Dec(k))
      ensures Join(["/upt", Dec(n), "rt", Dec(k)]) == Sub(Sub(PointHref(UPT_ROOT, n), "rt"), Dec(k))
    {
      JoinedHrefs(UPT_ROOT, n, "mr", k);
      JoinedHrefs(UPT_ROOT, n, "rt", k);
    }
  }

  lemma AddedTypesStored(t: map<string, ReadingTypeData>, t': map<string, ReadingTypeData>,
                         posts: seq<MeterReadingPost>, n: nat)
    requires TypesAdded(t, t', posts, Sub(PointHref(UPT_ROOT, n), "rt"), 0)
    ensures TypesStored(t', posts, n)
  {
    hide Sub;
    hide Join;
    hide PointHref;
    forall k: nat
      ensures Join(["/upt", Dec(n), "rt", Dec(k)]) == TypeHref(Sub(PointHref(UPT_ROOT, n), "rt"), 0, k)
    {
      JoinedHrefs(UPT_ROOT, n, "rt", k);
    }
  }

  /** The state after a post of new point n: the point and its replica stand at the end of the roots, the
      first m of its meter readings in the lists of the point, with their types, and no other list has
      changed. */
  ghost predicate PointStored(s: Store, s': Store, post: UsagePointPost, n: nat, m: nat)
    requires m <= |post.meterReadings|
  {
    var posts := post.meterReadings[..m];
    var mirrors, replicas := Join(["/mup", Dec(n), "mr"]), Join(["/upt", Dec(n), "mr"]);
    && Items(s', "/mup") == Items(s, "/mup") + [Entry(n, MirrorUsagePoint(Some(Join(["/mup", Dec(n)])), post.mrid,
                                                                          post.usage, post.postRate))]
    && Items(s', "/upt") == Items(s, "/upt") + [Entry(n, UsagePoint(Some(Join(["/upt", Dec(n)])), post.mrid,
                                                                    post.usage, replicas))]
    && MirrorsStored(Items(s', mirrors), posts, n) && ReplicasStored(Items(s', replicas), posts, n)
    && TypesStored(s'.singles, posts, n) && TypesStored(s'.index, posts, n)
    && forall w :: w !in {"/mup", "/upt", mirrors, replicas} ==> Items(s', w) == Items(s, w)
  }

  /** What the loop adds to the empty lists of a point. */
  lemma LoopStores(s: Store, o: Outcome<()>, posts: seq<MeterReadingPost>, n: nat)
    requires ReadingsAdded(s, o, n, posts, 0)
    requires Items(s, MeterReadingListHref(MUP_ROOT, n)) == [] && Items(s, MeterReadingListHref(UPT_ROOT, n)) == []
    ensures var front := posts[..LeadingTyped(posts)];
            && MirrorsStored(Items(o.store, MeterReadingListHref(MUP_ROOT, n)), front, n)
            && ReplicasStored(Items(o.store, MeterReadingListHref(UPT_ROOT, n)), front, n)
            && TypesStored(o.store.singles, front, n) && TypesStored(o.store.index, front, n)
  {
    hide TypesAdded;
    hide MirrorsStored;
    hide ReplicasStored;
    hide TypesStored;
    hide MirrorEntries;
    hide ReplicaEntries;
    hide LeadingTyped;
    hide Sub;
    hide Items;
    var front := posts[..LeadingTyped(posts)];
    var mirrors, replicas := MeterReadingListHref(MUP_ROOT, n), MeterReadingListHref(UPT_ROOT, n);
    EntriesAreMirrors(front, n);
    EntriesAreReplicas(front, n);
    AddedTypesStored(s.singles, o.store.singles, front, n);
    AddedTypesStored(s.index, o.store.index, front, n);
    assert Items(o.store, mirrors) == MirrorEntries(front, mirrors, 0);
    assert Items(o.store, replicas) == ReplicaEntries(front, replicas, Sub(PointHref(UPT_ROOT, n), "rt"), 0);
  }

  /** What the loop adds, seen from the state before the post. */
  lemma PointStoredIn(s: Store, post: UsagePointPost)
    requires Inv(s, PointPaths()) && FindUsagePoint(s, post.mrid) == Ok(None)
    ensures var n, m := |Items(s, MUP_ROOT)|, LeadingTyped(post.meterReadings);
            var o, href := CreateMirrorUsagePoint(s, post), Some(Join(["/mup", Dec(n)]));
            && PointStored(s, o.store, post, n, m)
            && o.result ==
               (if m < |post.meterReadings| then Raise(TypeError)
                else Ok(ReturnValue(MirrorUsagePoint(href, post.mrid, post.usage, post.postRate), false, href)))
  {
    hide UriClass;
    hide Split;
    hide Inv;
    hide WellFormed;
    hide Separated;
    hide CreateUsagePointPair;
    hide CreateMirrorUsagePoint;
    hide AddMeterReadings;
    hide FindUsagePoint;
    hide NewPoint;
    hide TypesAdded;
    hide MirrorsStored;
    hide ReplicasStored;
    hide TypesStored;
    hide MirrorEntries;
    hide ReplicaEntries;
    hide Sub;
    hide Join;
    var n, m := |Items(s, MUP_ROOT)|, LeadingTyped(post.meterReadings);
    var posts := post.meterReadings[..m];
    var mirrors, replicas := MeterReadingListHref(MUP_ROOT, n), MeterReadingListHref(UPT_ROOT, n);
    SeparatedPointsOnly();
    RootsEqual(s, PointPaths());
    PointPairAppends(s, post);
    NewPointLists(s, post);
    NewPointInv(s, post, PointPaths());
    var s4 := NewPoint(s, post);
    LoopAdds(s4, n, post.meterReadings, 0);
    JoinedHrefs(MUP_ROOT, n, "mr", 0);
    JoinedHrefs(UPT_ROOT, n, "mr", 0);
    PointPathIsRoute(n);
    assert PointPath(n) in PointPaths();
    InvAt(s4, PointPath(n), PointPaths());
    var o := AddMeterReadings(s4, PointHref(UPT_ROOT, n), mirrors, replicas, post.meterReadings, 0);
    LoopStores(s4, o, post.meterReadings, n);
    var s' := CreateMirrorUsagePoint(s, post).store;
    assert s' == o.store;
    forall w | w !in {"/mup", "/upt", mirrors, replicas} ensures Items(s', w) == Items(s, w) {
      assert Items(s4, w) == Items(s, w);
    }
  }

  lemma NotFound(s: Store, mrid: Option<string>)
    requires WellFormed(s) && FirstAt(Items(s, MUP_ROOT), mrid, |Items(s, MUP_ROOT)|)
    ensures FindUsagePoint(s, mrid) == Ok(None)
  {
    hide WellFormed;
    hide FindUsagePoint;
    FindUsagePointHit(s, mrid);
  }

  /** In every state that runs can reach, a post of a point whose mRID is new becomes point n, the next one,
      with its meter readings in order; it raises exactly when one of them has no type, and then those
      before the first such are stored all the same. */
  lemma NewPointStored(s: Store, post: UsagePointPost) returns (m: nat)
    requires Reachable(s) && FirstAt(Items(s, "/mup"), post.mrid, |Items(s, "/mup")|)
    ensures m <= |post.meterReadings| && (forall k :: 0 <= k < m ==> post.meterReadings[k].readingType.Some?)
    ensures m < |post.meterReadings| ==> post.meterReadings[m].readingType.None?
    ensures var n, o := |Items(s, "/mup")|, CreateMirrorUsagePoint(s, post);
            var href := Some(Join(["/mup", Dec(n)]));
            && |Items(s, "/upt")| == n && PointStored(s, o.store, post, n, m)
            && o.result ==
               (if m < |post.meterReadings| then Raise(TypeError)
                else Ok(ReturnValue(MirrorUsagePoint(href, post.mrid, post.usage, post.postRate), false, href)))
  {
    hide Inv;
    hide FirstAt;
    hide WellFormed;
    hide PointStored;
    hide CreateMirrorUsagePoint;
    hide FindUsagePoint;
    hide Join;
    ReachableInv(s);
    RootsEqual(s, PointPaths());
    NotFound(s, post.mrid);
    PointStoredIn(s, post);
    m := LeadingTyped(post.meterReadings);
  }

  /** A post of a point whose mRID is known replaces mRID and attributes of the first such point, which keeps
      its href and its post rate; nothing else changes, its replica included. */
  lemma KnownPointStored(s: Store, post: UsagePointPost, k: nat)
    requires Reachable(s) && FirstAt(Items(s, "/mup"), post.mrid, k) && k < |Items(s, "/mup")|
    ensures var o, points, href := CreateMirrorUsagePoint(s, post), Items(s, "/mup"), Some(Join(["/mup", Dec(k)]));
            && points[k].item.MirrorUsagePoint? && points[k].item.href == href
            && Items(o.store, "/mup")
               == points[k := Entry(k, MirrorUsagePoint(href, post.mrid, post.usage, points[k].item.postRate))]
            && (forall w :: w != "/mup" ==> Items(o.store, w) == Items(s, w))
            && o.result == Ok(ReturnValue(MirrorUsagePoint(href, post.mrid, post.usage, post.postRate), true, href))
  {
    hide Inv;
    hide WellFormed;
    hide FindUsagePoint;
    hide AddMeterReadings;
    hide CreateUsagePointPair;
    hide UriClass;
    hide Sub;
    hide Join;
    ReachableInv(s);
    RootsEqual(s, PointPaths());
    RootClasses();
    ListFacts(s, MUP_ROOT);
    JoinedHrefs(MUP_ROOT, k, "", 0);
    FoundFirst(s, post.mrid, k);
  }

  lemma FoundFirst(s: Store, mrid: Option<string>, k: nat)
    requires WellFormed(s) && FirstAt(Items(s, MUP_ROOT), mrid, k) && k < |Items(s, MUP_ROOT)|
    ensures FindUsagePoint(s, mrid) == Ok(Some(Ref(MUP_ROOT, k, Items(s, MUP_ROOT)[k].item)))
  {
    hide UriClass;
    RootClasses();
    var d := Items(s, MUP_ROOT);
    HitIsFirst(s, MUP_ROOT, mrid);
    forall j | 0 <= j < |d| ensures Attr(d[j].item, MRID) == Some(d[j].item.mrid) {
    }
  }
}
