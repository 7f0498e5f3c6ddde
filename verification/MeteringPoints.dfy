/** Creating and updating mirror usage points keeps the metering invariant. */
module MeteringPoints {
  import opened Wrappers
  import opened Text
  import opened ListStore
  import opened MeteringSpec
  import opened MeteringUris
  import opened MeteringInvariant
  import opened MeteringSteps
  import opened MeteringSaves

  lemma RootsEqual(s: Store, paths: iset<string>)
    requires Inv(s, paths)
    ensures WellFormed(s) && |Items(s, MUP_ROOT)| == |Items(s, UPT_ROOT)|
  {
    hide UriClass;
  }

  lemma FindUsagePointHit(s: Store, mrid: Option<string>)
    requires WellFormed(s)
    ensures var mups := Items(s, MUP_ROOT);
            && FindUsagePoint(s, mrid).Ok?
            && (FindUsagePoint(s, mrid).value.None? ==>
                  forall k :: 0 <= k < |mups| ==> Attr(mups[k].item, MRID) != Some(mrid))
            && (FindUsagePoint(s, mrid).value.Some? ==>
                  var ref := FindUsagePoint(s, mrid).value.value;
                  && ref.uri == MUP_ROOT && Denotes(s, ref) && ref.item.MirrorUsagePoint? && ref.item.mrid == mrid
                  && ref.item.href == Some(PointHref(MUP_ROOT, ref.slot)))
  {
    hide UriClass;
    RootClasses();
    assert ListOk(MUP_ROOT, Items(s, MUP_ROOT), MirrorUsagePointClass);
  }

  /** Both roots grow by one object with the posted mRID, under the same number. */
  lemma PointPairAppends(s: Store, post: UsagePointPost)
    requires WellFormed(s) && |Items(s, MUP_ROOT)| == |Items(s, UPT_ROOT)|
    ensures var n := |Items(s, MUP_ROOT)|;
            var mup := MirrorUsagePoint(Some(PointHref(MUP_ROOT, n)), post.mrid, post.usage, post.postRate);
            var upt := UsagePoint(Some(PointHref(UPT_ROOT, n)), post.mrid, post.usage,
                                  MeterReadingListHref(UPT_ROOT, n));
            var o := CreateUsagePointPair(s, post);
            && o.result == Ok(Ref(MUP_ROOT, n, mup)) && WellFormed(o.store)
            && Items(o.store, MUP_ROOT) == Items(s, MUP_ROOT) + [Entry(n, mup)]
            && Items(o.store, UPT_ROOT) == Items(s, UPT_ROOT) + [Entry(n, upt)]
            && forall v :: v != MUP_ROOT && v != UPT_ROOT ==> Items(o.store, v) == Items(s, v)
  {
    hide UriClass;
    hide Sub;
    hide Dec;
    hide WellFormed;
    hide Append;
    RootClasses();
    var n := |Items(s, MUP_ROOT)|;
    var mup := MirrorUsagePoint(Some(PointHref(MUP_ROOT, n)), post.mrid, post.usage, post.postRate);
    AppendExtends(s, MUP_ROOT, mup);
    var s1 := Append(s, MUP_ROOT, mup).store;
    assert Items(s1, UPT_ROOT) == Items(s, UPT_ROOT);
    AppendExtends(s1, UPT_ROOT, UsagePoint(Some(PointHref(UPT_ROOT, n)), post.mrid, post.usage,
                                           MeterReadingListHref(UPT_ROOT, n)));
  }

  lemma PointPairInv(s: Store, post: UsagePointPost, paths: iset<string>)
    requires Inv(s, paths) && Separated(paths)
    requires FindUsagePoint(s, post.mrid) == Ok(None)
    ensures Inv(CreateUsagePointPair(s, post).store, paths)
  {
    hide UriClass;
    hide Split;
    hide Separated;
    hide CreateUsagePointPair;
    hide FindUsagePoint;
    hide WellFormed;
    hide ReadingsPaired;
    hide SetsPaired;
    hide Unborn;
    SeparatedRoutes(paths);
    FindUsagePointHit(s, post.mrid);
    PointPairAppends(s, post);
    RootsGrow(s, CreateUsagePointPair(s, post).store, paths);
  }

  /** Nothing below the roots depends on how many points there are, beyond the last one. */
  lemma RootsGrow(s: Store, s': Store, paths: iset<string>)
    requires ReadingsPaired(s, paths) && Unborn(s) && SetsPaired(s) && forall p :: p in paths ==> RoutePath(p)
    requires |Items(s', MUP_ROOT)| >= |Items(s, MUP_ROOT)|
    requires forall v :: v != MUP_ROOT && v != UPT_ROOT ==> Items(s', v) == Items(s, v)
    ensures ReadingsPaired(s', paths) && Unborn(s') && SetsPaired(s')
  {
    hide UriClass;
    hide Split;
    hide Replace;
    RootClasses();
    assert Still(s, s', METER_CLASSES + SET_CLASSES);
    StillSets(s, s');
    forall p | p in paths && Addresses(p) ensures SameMrids(Items(s', MmrList(p)), Items(s', MrList(p))) {
      MirrorOfRoute(p);
      assert SameMrids(Items(s, MmrList(p)), Items(s, MrList(p)));
    }
    forall i: nat | i >= |Items(s', MUP_ROOT)|
      ensures Items(s', MeterReadingListHref(MUP_ROOT, i)) == []
      ensures Items(s', MeterReadingListHref(UPT_ROOT, i)) == []
    {
      CanonicalClasses(i);
    }
  }

  /** Registering the class of a list that is still empty. */
  lemma InitializeInv(s: Store, u: string, c: Class, paths: iset<string>)
    requires Inv(s, paths) && UriClass(u) == Some(c) && forall p :: p in paths ==> RoutePath(p)
    ensures InitializeUri(s, u, c).result == Ok(()) && Inv(InitializeUri(s, u, c).store, paths)
    ensures InitializeUri(s, u, c).store.lists == s.lists
  {
    hide UriClass;
    var s' := InitializeUri(s, u, c).store;
    assert s'.lists == s.lists by {
      assert Items(s, u) != [] ==> u in s.types && s.types[u] == c;
    }
    assert forall v :: Items(s', v) == Items(s, v);
    StillInv(s, s', paths);
  }

  lemma PointIsChecked(s: Store, i: nat)
    requires WellFormed(s) && i < |Items(s, MUP_ROOT)| && |Items(s, MUP_ROOT)| == |Items(s, UPT_ROOT)|
    ensures CheckPoint(s, PointPath(i)).Ok?
  {
    hide UriClass;
    hide Split;
    PointPathIsRoute(i);
    RootClasses();
    assert ListOk(MUP_ROOT, Items(s, MUP_ROOT), MirrorUsagePointClass);
    assert ListOk(UPT_ROOT, Items(s, UPT_ROOT), UsagePointClass);
    DenseSlot(Items(s, MUP_ROOT), i);
    DenseSlot(Items(s, UPT_ROOT), i);
  }

  /** One turn of the loop over the meter readings of a new point. */
  lemma AddOneInv(s: Store, i: nat, post: MeterReadingPost, j: nat, link: string, paths: iset<string>)
    requires Inv(s, paths) && Separated(paths) && PointPath(i) in paths && i < |Items(s, MUP_ROOT)|
    requires |Items(s, MeterReadingListHref(MUP_ROOT, i))| == j
    ensures var mmrList, mrList := MeterReadingListHref(MUP_ROOT, i), MeterReadingListHref(UPT_ROOT, i);
            var mmr := MirrorMeterReading(Some(Sub(mmrList, Dec(j))), post.mrid, post.description);
            var mr := MeterReading(Some(Sub(mrList, Dec(j))), post.mrid, post.description, Some(link), None, None);
            var o1 := Append(s, mmrList, mmr);
            var o2 := Append(o1.store, mrList, mr);
            && o1.result.Ok? && o2.result.Ok? && Inv(o2.store, paths)
            && |Items(o2.store, mmrList)| == j + 1 && |Items(o2.store, MUP_ROOT)| == |Items(s, MUP_ROOT)|
  {
    hide UriClass;
    hide Split;
    hide Separated;
    hide Inv;
    hide CheckPoint;
    hide Append;
    hide WellFormed;
    hide Sub;
    hide Dec;
    var mmrList, mrList := MeterReadingListHref(MUP_ROOT, i), MeterReadingListHref(UPT_ROOT, i);
    PointPathIsRoute(i);
    TwoLists(PointPath(i));
    RootClasses();
    InvAt(s, PointPath(i), paths);
    PointIsChecked(s, i);
    var mmr := MirrorMeterReading(Some(Sub(mmrList, Dec(j))), post.mrid, post.description);
    var mr := MeterReading(Some(Sub(mrList, Dec(j))), post.mrid, post.description, Some(link), None, None);
    AppendExtends(s, mmrList, mmr);
    var s1 := Append(s, mmrList, mmr).store;
    assert Items(s1, mrList) == Items(s, mrList);
    AppendExtends(s1, mrList, mr);
    MeterAppendsKeepInv(s, s1, Append(s1, mrList, mr).store, PointPath(i), mmr, mr, paths);
  }

  lemma InvAt(s: Store, p: string, paths: iset<string>)
    requires Inv(s, paths) && p in paths && Addresses(p)
    ensures WellFormed(s) && |Items(s, MUP_ROOT)| == |Items(s, UPT_ROOT)|
    ensures SameMrids(Items(s, MmrList(p)), Items(s, MrList(p)))
  {
  }

  lemma {:induction false} AddMeterReadingsInv(s: Store, i: nat, posts: seq<MeterReadingPost>, j: nat,
                                               paths: iset<string>)
    requires Inv(s, paths) && Separated(paths) && PointPath(i) in paths && i < |Items(s, MUP_ROOT)|
    requires |Items(s, MeterReadingListHref(MUP_ROOT, i))| == j
    ensures var o := AddMeterReadings(s, PointHref(UPT_ROOT, i), MeterReadingListHref(MUP_ROOT, i),
                                      MeterReadingListHref(UPT_ROOT, i), posts, j);
            && Inv(o.store, paths)
            && (o.result == if exists k :: 0 <= k < |posts|
                                           && posts[k].readingType.None? then Raise(TypeError) else Ok(()))
    decreases |posts|
  {
    hide UriClass;
    hide Separated;
    hide Inv;
    hide Append;
    if posts != [] && posts[0].readingType.Some? {
      var mmrList, mrList := MeterReadingListHref(MUP_ROOT, i), MeterReadingListHref(UPT_ROOT, i);
      var link := Sub(Sub(PointHref(UPT_ROOT, i), "rt"), Dec(j));
      AddOneInv(s, i, posts[0], j, link, paths);
      var s1 := Append(s, mmrList, MirrorMeterReading(Some(Sub(mmrList, Dec(j))), posts[0].mrid,
                                                      posts[0].description)).store;
      var s2 := Append(s1, mrList, MeterReading(Some(Sub(mrList, Dec(j))), posts[0].mrid, posts[0].description,
                                                Some(link), None, None)).store;
      var s3 := RegisterReadingType(s2, link, posts[0].readingType.value);
      SameListsInv(s2, s3, paths);
      AddMeterReadingsInv(s3, i, posts[1..], j + 1, paths);
      assert forall k :: 1 <= k < |posts| ==> posts[k] == posts[1..][k - 1];
    }
  }

  /** A post of a mirror usage point raises only when it is new and one of its meter readings has
      no type; otherwise the answer names a stored point with the posted mRID. */
  ghost predicate PointOutcome(s: Store, o: Outcome<ReturnValue>, post: UsagePointPost, paths: iset<string>) {
    var n := |Items(s, MUP_ROOT)|;
    var known := exists k :: 0 <= k < n && Attr(Items(s, MUP_ROOT)[k].item, MRID) == Some(post.mrid);
    && Inv(o.store, paths)
    && |Items(o.store, MUP_ROOT)| == (if known then n else n + 1)
    && (o.result.Raise? <==> !known && exists k :: 0 <= k < |post.meterReadings|
                                                   && post.meterReadings[k].readingType.None?)
    && (o.result.Raise? ==> o.result.error == TypeError)
    && (o.result.Ok? ==> o.result.value.wasUpdate == known)
  }

  /** The state in which the loop over the meter readings of a new point starts. */
  function NewPoint(s: Store, post: UsagePointPost): Store {
    var i := |Items(s, MUP_ROOT)|;
    var s2 := CreateUsagePointPair(s, post).store;
    var s3 := InitializeUri(s2, MeterReadingListHref(MUP_ROOT, i), MirrorMeterReadingClass).store;
    InitializeUri(s3, MeterReadingListHref(UPT_ROOT, i), MeterReadingClass).store
  }

  lemma NewPointInv(s: Store, post: UsagePointPost, paths: iset<string>)
    requires Inv(s, paths) && Separated(paths) && FindUsagePoint(s, post.mrid) == Ok(None)
    ensures var i := |Items(s, MUP_ROOT)|;
            var s4 := NewPoint(s, post);
            && Inv(s4, paths) && |Items(s4, MUP_ROOT)| == i + 1
            && Items(s4, MeterReadingListHref(MUP_ROOT, i)) == []
            && CreateMirrorUsagePoint(s, post) ==
               var o := AddMeterReadings(s4, PointHref(UPT_ROOT, i), MeterReadingListHref(MUP_ROOT, i),
                                         MeterReadingListHref(UPT_ROOT, i), post.meterReadings, 0);
               var mup := MirrorUsagePoint(Some(PointHref(MUP_ROOT, i)), post.mrid, post.usage, post.postRate);
               if o.result.Raise? then Outcome(o.store, Raise(o.result.error))
               else Outcome(o.store, Ok(ReturnValue(mup, false, mup.href)))
  {
    hide UriClass;
    hide Split;
    hide Separated;
    hide FindUsagePoint;
    hide CreateUsagePointPair;
    hide WellFormed;
    hide ReadingsPaired;
    hide SetsPaired;
    hide InitializeUri;
    var i := |Items(s, MUP_ROOT)|;
    SeparatedRoutes(paths);
    CanonicalClasses(i);
    PointPairAppends(s, post);
    PointPairInv(s, post, paths);
    var s2 := CreateUsagePointPair(s, post).store;
    assert Items(s2, MeterReadingListHref(MUP_ROOT, i)) == [] by {
      RootClasses();
    }
    InitializeInv(s2, MeterReadingListHref(MUP_ROOT, i), MirrorMeterReadingClass, paths);
    var s3 := InitializeUri(s2, MeterReadingListHref(MUP_ROOT, i), MirrorMeterReadingClass).store;
    InitializeInv(s3, MeterReadingListHref(UPT_ROOT, i), MeterReadingClass, paths);
  }

  lemma CreateMirrorUsagePointInv(s: Store, post: UsagePointPost, paths: iset<string>)
    requires Inv(s, paths) && Separated(paths) && PointPaths() <= paths
    ensures PointOutcome(s, CreateMirrorUsagePoint(s, post), post, paths)
  {
    hide UriClass;
    hide Split;
    hide Separated;
    hide Inv;
    hide AddMeterReadings;
    hide CreateMirrorUsagePoint;
    hide FindUsagePoint;
    hide WellFormed;
    hide NewPoint;
    InvParts(s, "", paths);
    FindUsagePointHit(s, post.mrid);
    SeparatedRoutes(paths);
    match FindUsagePoint(s, post.mrid).value
    case None =>
      var i := |Items(s, MUP_ROOT)|;
      assert PointPath(i) in PointPaths();
      NewPointInv(s, post, paths);
      AddMeterReadingsInv(NewPoint(s, post), i, post.meterReadings, 0, paths);
      AddMeterReadingsKeepsRoots(NewPoint(s, post), i, post.meterReadings, 0);
    case Some(ref) =>
      var ref' := ref.(item := WithUsage(ref.item, post));
      AssignQuiet(s, ref');
      StillInv(s, Assign(s, ref'), paths);
      KnownPoint(s, post, ref);
      assert Attr(Items(s, MUP_ROOT)[ref.slot].item, MRID) == Some(post.mrid);
  }

  /** Registering the classes of the new lists changes no list. */
  lemma NewPointLists(s: Store, post: UsagePointPost)
    ensures NewPoint(s, post).lists == CreateUsagePointPair(s, post).store.lists
  {
    hide CreateUsagePointPair;
  }

  lemma KnownPoint(s: Store, post: UsagePointPost, ref: Ref)
    requires FindUsagePoint(s, post.mrid) == Ok(Some(ref))
    ensures var o := CreateMirrorUsagePoint(s, post);
            && o.store == Assign(s, ref.(item := WithUsage(ref.item, post)))
            && o.result.Ok? && o.result.value.wasUpdate && o.result.value.location == ref.item.href
  {
    hide FindUsagePoint;
    hide Assign;
    hide AddMeterReadings;
    hide CreateUsagePointPair;
  }

  lemma {:induction false} AddMeterReadingsKeepsRoots(s: Store, i: nat, posts: seq<MeterReadingPost>, j: nat)
    ensures var o := AddMeterReadings(s, PointHref(UPT_ROOT, i), MeterReadingListHref(MUP_ROOT, i),
                                      MeterReadingListHref(UPT_ROOT, i), posts, j);
            Items(o.store, MUP_ROOT) == Items(s, MUP_ROOT)
    decreases |posts|
  {
    hide UriClass;
    hide Append;
    hide Split;
    CanonicalClasses(i);
    RootClasses();
    if posts != [] && posts[0].readingType.Some? {
      var mmrList, mrList := MeterReadingListHref(MUP_ROOT, i), MeterReadingListHref(UPT_ROOT, i);
      var link := Sub(Sub(PointHref(UPT_ROOT, i), "rt"), Dec(j));
      var mmr := MirrorMeterReading(Some(Sub(mmrList, Dec(j))), posts[0].mrid, posts[0].description);
      var mr := MeterReading(Some(Sub(mrList, Dec(j))), posts[0].mrid, posts[0].description, Some(link), None, None);
      AppendFrame(s, mmrList, mmr);
      var o1 := Append(s, mmrList, mmr);
      AppendFrame(o1.store, mrList, mr);
      var o2 := Append(o1.store, mrList, mr);
      if o1.result.Ok? && o2.result.Ok? {
        AddMeterReadingsKeepsRoots(RegisterReadingType(o2.store, link, posts[0].readingType.value), i, posts[1..],
                                   j + 1);
      }
    }
  }
}
