/** What an answered post of a meter reading has stored, in every state that runs can reach. */
module MeteringDetails {
  import opened Wrappers
  import opened Text
  import opened ListStore
  import opened MeteringSpec
  import opened MeteringUris
  import opened MeteringInvariant
  import opened MeteringSteps
  import opened MeteringSaves
  import opened MeteringPoints
  import opened MeteringServer
  import opened MeteringLocations
  import opened MeteringContents
  import opened Readings
  import Hrefs = MeteringHrefs

  const SETS_AND_READINGS: set<Class> := {ReadingSetClass, ReadingClass}

  lemma UntouchedUnborn(s: Store, s': Store)
    requires SetsUnborn(s) && Untouched(s, s', SETS_AND_READINGS)
    ensures SetsUnborn(s')
  {
    hide UriClass;
    hide SetList;
    hide SetReadings;
    forall y: string ensures Items(s', SetList(y)) == Items(s, SetList(y)) {
      SetReadingsInjective(y, 0, y, 0);
    }
    forall y: string, k: nat ensures Items(s', SetReadings(y, k)) == Items(s, SetReadings(y, k)) {
      SetReadingsInjective(y, k, y, k);
    }
    UnbornKept(s, s');
  }

  /* The details of one meter reading */

  /** The list of readings after one more was posted to it. */
  ghost predicate ReadingStored(d: Dict, d': Dict, list: string, r: Option<ReadingItem>) {
    match r
    case None => d' == d
    case Some(reading) => UpsertInto(d, list, reading) == Ok(d')
  }

  /** The meter reading links exactly what was posted with it, now or before. */
  function Detailed(old_: Resource, href: string, post: MeterReadingPost): Resource
    requires old_.MeterReading?
  {
    MeterReading(old_.href, old_.mrid, old_.description,
                 if post.readingType.Some? then Some(Sub(href, "rt")) else old_.readingTypeLink,
                 if post.reading.Some? then Some(Sub(href, "r")) else old_.readingListLink,
                 Some(Sub(href, "rs")))
  }

  ghost predicate DetailsStored(s: Store, s': Store, href: string, post: MeterReadingPost) {
    && (post.readingType.Some? ==>
          Sub(href, "rt") in s'.singles && s'.singles[Sub(href, "rt")] == post.readingType.value)
    && ReadingStored(Items(s, Sub(href, "r")), Items(s', Sub(href, "r")), Sub(href, "r"), post.reading)
    && |href| >= 4 && SetsStored(s, s', href[4..], post.readingSets)
  }

  lemma ReadingIsStored(s: Store, u: string, r: ReadingItem)
    requires UriClass(u).Some? && CreateOrUpdateReading(s, u, r).result.Ok?
    ensures ReadingStored(Items(s, u), Items(CreateOrUpdateReading(s, u, r).store, u), u, Some(r))
  {
    hide UriClass;
    hide Split;
    ListUriIsNoItem(u);
  }

  /** Neither the single resources nor the href cache differ. */
  predicate SameCaches(s: Store, s': Store) {
    s'.singles == s.singles && s'.index == s.index
  }

  lemma ReadingKeepsCaches(s: Store, u: string, r: ReadingItem)
    ensures SameCaches(s, CreateOrUpdateReading(s, u, r).store)
  {
    hide Split;
  }

  lemma {:induction false} ReadingsKeepCaches(s: Store, u: string, readings: seq<ReadingItem>)
    ensures SameCaches(s, CreateOrUpdateReadings(s, u, readings).store)
    decreases |readings|
  {
    hide CreateOrUpdateReading;
    if readings != [] {
      ReadingKeepsCaches(s, u, readings[0]);
      ReadingsKeepCaches(CreateOrUpdateReading(s, u, readings[0]).store, u, readings[1..]);
    }
  }

  lemma SetItemKeepsCaches(s: Store, u: string, item: ReadingSetItem)
    ensures SameCaches(s, CreateOrUpdateReadingSet(s, u, item).store)
  {
    hide Split;
    hide Replace;
    hide FindReadingSet;
    hide KeyOfHref;
    hide Get;
    hide AppendAndIncrementHref;
    NumberingKeepsCaches(s, MirrorSetList(u), item);
    NumberingKeepsCaches(AppendAndIncrementHref(s, MirrorSetList(u), item).store, u,
                         ReadingSet(None, None, item.description, item.timePeriod, item.version, None));
  }

  lemma NumberingKeepsCaches(s: Store, u: string, item: Resource)
    ensures SameCaches(s, AppendAndIncrementHref(s, u, item).store)
  {
    hide Split;
  }

  lemma SetKeepsCaches(s: Store, u: string, post: ReadingSetPost)
    ensures SameCaches(s, PostReadingSet(s, u, post).store)
  {
    hide CreateOrUpdateReadings;
    hide CreateOrUpdateReadingSet;
    hide Sub;
    SetItemKeepsCaches(s, u, post.item);
    forall s2: Store, list ensures SameCaches(s2, CreateOrUpdateReadings(s2, list, post.readings).store) {
      ReadingsKeepCaches(s2, list, post.readings);
    }
  }

  lemma {:induction false} SetsKeepCaches(s: Store, u: string, posts: seq<ReadingSetPost>)
    ensures SameCaches(s, PostReadingSets(s, u, posts).store)
    decreases |posts|
  {
    hide PostReadingSet;
    if posts != [] {
      SetKeepsCaches(s, u, posts[0]);
      SetsKeepCaches(PostReadingSet(s, u, posts[0]).store, u, posts[1..]);
    }
  }

  lemma TypeStored(s: Store, ref: Ref, href: string, t: Option<ReadingTypeData>)
    requires ref.item.MeterReading?
    ensures var (s1, ref1) := StoreType(s, ref, href, t);
            && (forall v :: v != ref.uri ==> Items(s1, v) == Items(s, v))
            && (t.Some? ==> Sub(href, "rt") in s1.singles && s1.singles[Sub(href, "rt")] == t.value)
  {
  }

  lemma ReadingPartStored(s: Store, ref: Ref, href: string, r: Option<ReadingItem>)
    requires ref.item.MeterReading? && UriClass(Sub(href, "r")).Some? && ref.uri != Sub(href, "r")
    ensures var o := StoreReading(s, ref, href, r);
            && o.store.singles == s.singles
            && (forall v :: v != ref.uri && v != Sub(href, "r") ==> Items(o.store, v) == Items(s, v))
            && (o.result.Ok? ==> ReadingStored(Items(s, Sub(href, "r")), Items(o.store, Sub(href, "r")),
                                               Sub(href, "r"), r))
  {
    hide UriClass;
    hide CreateOrUpdateReading;
    hide ReadingStored;
    hide Sub;
    if r.Some? {
      var s1 := LinkReadings(s, ref, href).0;
      ReadingFrame(s1, Sub(href, "r"), r.value);
      ReadingKeepsCaches(s1, Sub(href, "r"), r.value);
      if StoreReading(s, ref, href, r).result.Ok? {
        ReadingIsStored(s1, Sub(href, "r"), r.value);
      }
    } else {
      SameReadings(s, Sub(href, "r"));
    }
  }

  lemma SameReadings(s: Store, list: string)
    ensures ReadingStored(Items(s, list), Items(s, list), list, None)
  {
  }

  /** The state in which the posted sets are stored. */
  lemma BeforeSets(s: Store, ref: Ref, href: string, post: MeterReadingPost)
    requires ref.item.MeterReading? && UriClass(Sub(href, "r")).Some? && ref.uri != Sub(href, "r")
    ensures var (s1, ref1) := StoreType(s, ref, href, post.readingType);
            var o2 := StoreReading(s1, ref1, href, post.reading);
            && (forall v :: v != ref.uri && v != Sub(href, "r") ==> Items(o2.store, v) == Items(s, v))
            && (o2.result.Ok? ==>
                  var (s3, ref3) := LinkReadingSets(o2.store, o2.result.value, href);
                  && (forall v :: v != ref.uri && v != Sub(href, "r") ==> Items(s3, v) == Items(s, v))
                  && ReadingStored(Items(s, Sub(href, "r")), Items(s3, Sub(href, "r")), Sub(href, "r"), post.reading)
                  && (post.readingType.Some? ==>
                        Sub(href, "rt") in s3.singles && s3.singles[Sub(href, "rt")] == post.readingType.value)
                  && ref3.item == Detailed(ref.item, href, post))
  {
    hide UriClass;
    hide ReadingStored;
    hide Sub;
    TypeStored(s, ref, href, post.readingType);
    var (s1, ref1) := StoreType(s, ref, href, post.readingType);
    ReadingPartStored(s1, ref1, href, post.reading);
    hide CreateOrUpdateReading;
  }

  /** Where the objects of one meter reading are kept: its readings in no list of a reading set. */
  lemma DetailPlaces(p: string, k: nat) returns (y: string)
    requires RoutePath(p)
    ensures var href := Sub(MrList(p), Dec(k));
            && href == Upt(y) && '/' !in y && href[4..] == y && |href| >= 4
            && Sub(href, "rs") == SetList(y) && UriClass(Sub(href, "r")) == Some(ReadingClass)
            && Sub(href, "r") != MrList(p)
            && forall z: string, l: nat :: Sub(href, "r") != SetReadings(z, l)
  {
    hide UriClass;
    hide Split;
    hide SetReadings;
    hide Replace;
    y := ReplicaPlace(p, k);
    MirrorOfRoute(p);
    SubClasses(y);
    forall z: string, l: nat ensures Sub(Sub(MrList(p), Dec(k)), "r") != SetReadings(z, l) {
      MeterReadingsApart(Mirror(p), k, z, l);
    }
  }

  lemma BeforeSetsInv(s: Store, ref: Ref, href: string, post: MeterReadingPost, y: string)
    requires Inv(s, PointPaths()) && Denotes(s, ref) && ref.item.MeterReading?
    requires href == Upt(y) && UriClass(ref.uri) == Some(MeterReadingClass)
    ensures var (s1, ref1) := StoreType(s, ref, href, post.readingType);
            var o2 := StoreReading(s1, ref1, href, post.reading);
            o2.result.Ok? ==> Inv(LinkReadingSets(o2.store, o2.result.value, href).0, PointPaths())
  {
    hide UriClass;
    hide Inv;
    hide StoreReading;
    PointRoutes();
    var (s1, ref1) := StoreType(s, ref, href, post.readingType);
    StoreTypeInv(s, ref, href, post.readingType, PointPaths());
    StoreReadingInv(s1, ref1, href, post.reading, y, PointPaths());
    var o2 := StoreReading(s1, ref1, href, post.reading);
    if o2.result.Ok? {
      LinkInv(o2.store, o2.result.value, LinkReadingSets(o2.store, o2.result.value, href).1.item, PointPaths());
    }
  }

  /** Changes outside the set lists and their reading lists. */
  lemma ElsewhereUnborn(s: Store, s': Store, u: string, v: string)
    requires SetsUnborn(s) && UriClass(u) == Some(MeterReadingClass)
    requires forall z: string, l: nat :: v != SetReadings(z, l)
    requires UriClass(v) == Some(ReadingClass)
    requires forall w :: w != u && w != v ==> Items(s', w) == Items(s, w)
    ensures SetsUnborn(s')
    ensures forall z: string :: Items(s', SetList(z)) == Items(s, SetList(z))
  {
    hide UriClass;
    hide SetList;
    hide SetReadings;
    hide Items;
    forall z: string ensures Items(s', SetList(z)) == Items(s, SetList(z)) {
      SetReadingsInjective(z, 0, z, 0);
    }
    forall z: string, l: nat ensures Items(s', SetReadings(z, l)) == Items(s, SetReadings(z, l)) {
      SetReadingsInjective(z, l, z, l);
    }
    UnbornKept(s, s');
  }

  lemma SetsStoredFrom(s: Store, s3: Store, s4: Store, y: string, posts: seq<ReadingSetPost>)
    requires SetsStored(s3, s4, y, posts) && Items(s3, SetList(y)) == Items(s, SetList(y))
    ensures SetsStored(s, s4, y, posts)
  {
    hide SetList;
    hide SetReadings;
  }

  lemma AddedElsewhere(s: Store, s': Store, y: string, list: string)
    requires SetsAdded(s, s', y) && UriClass(list) == Some(ReadingClass)
    requires forall z: string, l: nat :: list != SetReadings(z, l)
    ensures Items(s', list) == Items(s, list)
  {
    hide UriClass;
    hide SetList;
    hide SetReadings;
  }

  lemma DetailsContents(s: Store, ref: Ref, p: string, post: MeterReadingPost)
    requires Inv(s, PointPaths()) && SetsUnborn(s) && RoutePath(p)
    requires Denotes(s, ref) && ref.uri == MrList(p) && ref.item.MeterReading?
    ensures var href := Sub(MrList(p), Dec(ref.slot));
            var o := StoreDetails(s, ref, href, post);
            && SetsUnborn(o.store)
            && (o.result.Ok? ==> DetailsStored(s, o.store, href, post)
                                 && o.result.value.item == Detailed(ref.item, href, post))
  {
    hide UriClass;
    hide Split;
    hide Replace;
    hide Inv;
    hide StoreType;
    hide StoreReading;
    hide LinkReadingSets;
    hide PostReadingSets;
    hide SetsUnborn;
    hide SetsAdded;
    hide SetsStored;
    hide ReadingStored;
    hide SetReadings;
    hide SetList;
    hide MrList;
    hide Sub;
    hide Items;
    hide Denotes;
    var href := Sub(MrList(p), Dec(ref.slot));
    var y := DetailPlaces(p, ref.slot);
    MirrorOfRoute(p);
    BeforeSets(s, ref, href, post);
    BeforeSetsInv(s, ref, href, post, y);
    var (s1, ref1) := StoreType(s, ref, href, post.readingType);
    var o2 := StoreReading(s1, ref1, href, post.reading);
    if o2.result.Raise? {
      ElsewhereUnborn(s, o2.store, MrList(p), Sub(href, "r"));
    } else {
      var s3 := LinkReadingSets(o2.store, o2.result.value, href).0;
      ElsewhereUnborn(s, s3, MrList(p), Sub(href, "r"));
      SetPostsContents(s3, y, post.readingSets);
      SetsKeepCaches(s3, SetList(y), post.readingSets);
      var o4 := PostReadingSets(s3, SetList(y), post.readingSets);
      AddedElsewhere(s3, o4.store, y, Sub(href, "r"));
      if o4.result.Ok? {
        SetsStoredFrom(s, s3, o4.store, y, post.readingSets);
      }
    }
  }

  /** The reading of a post is accepted unless its localID was posted with no href before. */
  ghost predicate ReadingAccepted(d: Dict, r: Option<ReadingItem>) {
    r.Some? ==>
      match FirstWhere(d, LOCAL_ID, r.value.localId)
      case Missing => true
      case Found(k) => KeyOfHref(d[k].item.href).Ok?
      case NoAttribute => false
  }

  lemma ReadingAnswered(s: Store, u: string, r: ReadingItem)
    requires WellFormed(s) && UriClass(u) == Some(ReadingClass)
    ensures CreateOrUpdateReading(s, u, r).result.Ok? <==> ReadingAccepted(Items(s, u), Some(r))
  {
    hide UriClass;
    hide Split;
    hide KeyOfHref;
    ListUriIsNoItem(u);
  }

  lemma ReadingPartAnswered(s: Store, ref: Ref, href: string, r: Option<ReadingItem>)
    requires WellFormed(s) && UriClass(Sub(href, "r")) == Some(ReadingClass) && ref.uri != Sub(href, "r")
    requires ref.item.MeterReading? && WellFormed(LinkReadings(s, ref, href).0)
    ensures StoreReading(s, ref, href, r).result.Ok? <==> ReadingAccepted(Items(s, Sub(href, "r")), r)
  {
    hide UriClass;
    hide WellFormed;
    hide CreateOrUpdateReading;
    hide Sub;
    if r.Some? {
      ReadingAnswered(LinkReadings(s, ref, href).0, Sub(href, "r"), r.value);
    }
  }

  /** The state in which the sets of a post are stored. */
  function StateAtSets(s: Store, ref: Ref, href: string, post: MeterReadingPost): Store
    requires ref.item.MeterReading?
  {
    var (s1, ref1) := StoreType(s, ref, href, post.readingType);
    var o2 := StoreReading(s1, ref1, href, post.reading);
    if o2.result.Ok? then LinkReadingSets(o2.store, o2.result.value, href).0 else o2.store
  }

  lemma DetailsAnswered(s: Store, ref: Ref, p: string, post: MeterReadingPost)
    requires Inv(s, PointPaths()) && SetsUnborn(s) && RoutePath(p)
    requires Denotes(s, ref) && ref.uri == MrList(p) && ref.item.MeterReading?
    ensures var href := Sub(MrList(p), Dec(ref.slot));
            && |href| >= 4
            && (StoreDetails(s, ref, href, post).result.Ok?
                <==> && ReadingAccepted(Items(s, Sub(href, "r")), post.reading)
                     && SetsAccepted(StateAtSets(s, ref, href, post), href[4..], post.readingSets))
  {
    hide UriClass;
    hide Split;
    hide Replace;
    hide Inv;
    hide WellFormed;
    hide StoreType;
    hide StoreReading;
    hide LinkReadingSets;
    hide PostReadingSets;
    hide SetsUnborn;
    hide ReadingStored;
    hide ReadingAccepted;
    hide SetsAccepted;
    hide SetReadings;
    hide SetList;
    hide MrList;
    hide Sub;
    hide Items;
    hide Denotes;
    var href := Sub(MrList(p), Dec(ref.slot));
    var y := DetailPlaces(p, ref.slot);
    MirrorOfRoute(p);
    PointRoutes();
    BeforeSets(s, ref, href, post);
    BeforeSetsInv(s, ref, href, post, y);
    StoreTypeInv(s, ref, href, post.readingType, PointPaths());
    var (s1, ref1) := StoreType(s, ref, href, post.readingType);
    TypeStored(s, ref, href, post.readingType);
    InvParts(s1, "", PointPaths());
    LinkReadingsInv(s1, ref1, href);
    ReadingPartAnswered(s1, ref1, href, post.reading);
    var o2 := StoreReading(s1, ref1, href, post.reading);
    if o2.result.Ok? {
      var s3 := LinkReadingSets(o2.store, o2.result.value, href).0;
      ElsewhereUnborn(s, s3, MrList(p), Sub(href, "r"));
      SetPostsAnswered(s3, y, post.readingSets);
    }
  }

  lemma LinkReadingsInv(s: Store, ref: Ref, href: string)
    requires Inv(s, PointPaths()) && Denotes(s, ref) && ref.item.MeterReading?
    ensures WellFormed(LinkReadings(s, ref, href).0)
  {
    hide UriClass;
    hide Inv;
    hide WellFormed;
    PointRoutes();
    LinkInv(s, ref, LinkReadings(s, ref, href).1.item, PointPaths());
    InvParts(LinkReadings(s, ref, href).0, "", PointPaths());
  }

  /* One post */

  lemma SaveBothUntouched(s: Store, p: string, post: MeterReadingPost)
    requires RoutePath(p)
    ensures Untouched(s, SaveBoth(s, p, post).store, SETS_AND_READINGS)
  {
    hide UriClass;
    hide SaveBoth;
    hide Replace;
    MirrorOfRoute(p);
    SaveBothFrame(s, p, post);
    UntouchedOutside2(s, SaveBoth(s, p, post).store, MmrList(p), MrList(p), SETS_AND_READINGS);
  }

  /** The state in which the details of a post are stored. */
  lemma SavedState(s: Store, p: string, post: MeterReadingPost)
    requires Inv(s, PointPaths()) && SetsUnborn(s) && RoutePath(p) && CheckPoint(s, p).Ok?
    ensures var saved, ref := SaveBoth(s, p, post), ReplicaRef(s, p, post);
            && Inv(saved.store, PointPaths()) && SetsUnborn(saved.store)
            && Untouched(s, saved.store, SETS_AND_READINGS) && Denotes(saved.store, ref)
            && ref.item.MeterReading? && ref.item.href == Some(Sub(MrList(p), Dec(ref.slot)))
            && saved.result == if SlotsAgree(s, p, post.mrid) then Ok(Reflected(ref, ref.slot < |Items(s, MrList(p))|))
                               else Raise(IndexAssertion)
  {
    hide Inv;
    hide SetsUnborn;
    hide Untouched;
    hide CheckPoint;
    hide SaveBoth;
    hide SlotsAgree;
    hide Reflection;
    hide MirrorDescription;
    hide MrList;
    hide Sub;
    InvParts(s, "", PointPaths());
    SaveBothKeepsInv(s, p, post);
    var s1, mirror := SaveBothAny(s, p, post);
    SaveBothUntouched(s, p, post);
    UntouchedUnborn(s, SaveBoth(s, p, post).store);
  }

  /** What an answered post has stored, seen from the state before it. */
  ghost predicate PostStored(s: Store, o: Outcome<ReturnValue>, p: string, post: MeterReadingPost) {
    var ref := ReplicaRef(s, p, post);
    var href := Sub(MrList(p), Dec(ref.slot));
    && SlotsAgree(s, p, post.mrid)
    && o.result.Ok? && o.result.value.location == Some(href)
    && ref.item.MeterReading? && o.result.value.item == Detailed(ref.item, href, post)
    && Denotes(o.store, Ref(MrList(p), ref.slot, o.result.value.item))
    && DetailsStored(s, o.store, href, post)
  }

  lemma PostContents(s: Store, p: string, post: MeterReadingPost)
    requires Inv(s, PointPaths()) && SetsUnborn(s) && RoutePath(p)
    ensures SetsUnborn(PostMeterReading(s, p, post).store)
    ensures PostMeterReading(s, p, post).result.Ok? ==> PostStored(s, PostMeterReading(s, p, post), p, post)
  {
    hide UriClass;
    hide Split;
    hide Replace;
    hide Inv;
    hide SetsUnborn;
    hide DetailsStored;
    hide Untouched;
    hide CheckPoint;
    hide SaveBoth;
    hide SlotsAgree;
    hide StoreDetails;
    hide PostMeterReading;
    hide Reflection;
    hide MirrorDescription;
    hide MrList;
    hide Sub;
    if CheckPoint(s, p).Raise? {
      UncheckedPost(s, p, post);
    } else {
      SavedState(s, p, post);
      var saved, ref := SaveBoth(s, p, post), ReplicaRef(s, p, post);
      if SlotsAgree(s, p, post.mrid) {
        DetailsContents(saved.store, ref, p, post);
        PostIsSaveThenDetails(s, p, post, ref, ref.item.href.value);
        if PostMeterReading(s, p, post).result.Ok? {
          DetailsFrom(s, saved.store, PostMeterReading(s, p, post).store, p, ref.slot, post);
          DetailsDenote(saved.store, ref, p, post);
        }
      } else {
        FailedSave(s, p, post);
      }
    }
  }

  lemma DetailsDenote(s: Store, ref: Ref, p: string, post: MeterReadingPost)
    requires Inv(s, PointPaths()) && RoutePath(p)
    requires Denotes(s, ref) && ref.uri == MrList(p) && ref.item.MeterReading?
    ensures var o := StoreDetails(s, ref, Sub(MrList(p), Dec(ref.slot)), post);
            o.result.Ok? ==> Denotes(o.store, Ref(MrList(p), ref.slot, o.result.value.item))
  {
    hide UriClass;
    hide Split;
    hide Replace;
    hide Inv;
    hide StoreDetails;
    hide MrList;
    hide Sub;
    MirrorOfRoute(p);
    PointRoutes();
    var y := ReplicaPlace(p, ref.slot);
    StoreDetailsInv(s, ref, Sub(MrList(p), Dec(ref.slot)), post, y, PointPaths());
  }

  lemma DetailsFrom(s: Store, s1: Store, s': Store, p: string, k: nat, post: MeterReadingPost)
    requires DetailsStored(s1, s', Sub(MrList(p), Dec(k)), post) && Untouched(s, s1, SETS_AND_READINGS) && RoutePath(p)
    ensures DetailsStored(s, s', Sub(MrList(p), Dec(k)), post)
  {
    hide UriClass;
    hide Split;
    hide Replace;
    hide SetsStored;
    hide SetList;
    hide SetReadings;
    hide MrList;
    hide Sub;
    hide ReadingStored;
    var y := DetailPlaces(p, k);
    SetReadingsInjective(y, 0, y, 0);
    SetsStoredFrom(s, s1, s', y, post.readingSets);
  }

  /* Runs */

  lemma {:induction false} AddMeterReadingsUntouched(s: Store, i: nat, posts: seq<MeterReadingPost>, j: nat)
    ensures var o := AddMeterReadings(s, PointHref(UPT_ROOT, i), MeterReadingListHref(MUP_ROOT, i),
                                      MeterReadingListHref(UPT_ROOT, i), posts, j);
            Untouched(s, o.store, SETS_AND_READINGS)
    decreases |posts|
  {
    hide UriClass;
    hide Append;
    hide Split;
    CanonicalClasses(i);
    if posts != [] && posts[0].readingType.Some? {
      var mmrList, mrList := MeterReadingListHref(MUP_ROOT, i), MeterReadingListHref(UPT_ROOT, i);
      var link := Sub(Sub(PointHref(UPT_ROOT, i), "rt"), Dec(j));
      var mmr := MirrorMeterReading(Some(Sub(mmrList, Dec(j))), posts[0].mrid, posts[0].description);
      var mr := MeterReading(Some(Sub(mrList, Dec(j))), posts[0].mrid, posts[0].description, Some(link), None, None);
      AppendFrame(s, mmrList, mmr);
      var o1 := Append(s, mmrList, mmr);
      AppendFrame(o1.store, mrList, mr);
      var o2 := Append(o1.store, mrList, mr);
      if o1.result.Ok? && o2.result.Ok? {
        var s3 := RegisterReadingType(o2.store, link, posts[0].readingType.value);
        AddMeterReadingsUntouched(s3, i, posts[1..], j + 1);
      }
    }
  }

  lemma CreatePointUntouched(s: Store, post: UsagePointPost)
    requires Inv(s, PointPaths())
    ensures Untouched(s, CreateMirrorUsagePoint(s, post).store, SETS_AND_READINGS)
  {
    hide UriClass;
    hide Split;
    hide Inv;
    hide Separated;
    hide AddMeterReadings;
    hide CreateUsagePointPair;
    hide CreateMirrorUsagePoint;
    hide FindUsagePoint;
    hide WellFormed;
    hide NewPoint;
    InvParts(s, "", PointPaths());
    SeparatedPointsOnly();
    FindUsagePointHit(s, post.mrid);
    RootClasses();
    match FindUsagePoint(s, post.mrid).value
    case None =>
      var i := |Items(s, MUP_ROOT)|;
      NewPointInv(s, post, PointPaths());
      RootsEqual(s, PointPaths());
      PointPairAppends(s, post);
      NewPointLists(s, post);
      AddMeterReadingsUntouched(NewPoint(s, post), i, post.meterReadings, 0);
    case Some(ref) =>
      KnownPoint(s, post, ref);
  }

  lemma ReadsUntouched(s: Store, r: Request)
    requires Inv(s, PointPaths()) && Routed(r) && (r.GetMirror? || r.GetUsage?)
    ensures forall u :: Items(Handle(s, r).store, u) == Items(s, u)
  {
    hide UriClass;
    hide Inv;
    hide Split;
    hide GetResourceList;
    hide InitializeUri;
    PointRoutes();
    match r
    case GetMirror(path) =>
      ListingInv(s, path, 0, 0, 0, false, PointPaths());
      if Hrefs.UsagePointIndex(path).Absent? {
        RootPathClass(path);
        InitializeInv(s, path, MirrorUsagePointClass, PointPaths());
        ListingInv(InitializeUri(s, path, MirrorUsagePointClass).store, path, 0, 0, 0, false, PointPaths());
      }
    case GetUsage(path, start, after, limit) =>
      ListingInv(s, path, start, after, limit, true, PointPaths());
      ListingInv(s, path, start, after, limit, false, PointPaths());
      ListingInv(GetResourceList(s, path, start, after, limit, false).store, path, start, after, limit, false,
                 PointPaths());
  }

  lemma RootPathClass(path: string)
    requires RoutePath(path) && Hrefs.UsagePointIndex(path).Absent?
    ensures UriClass(path) == Some(MirrorUsagePointClass)
  {
  }

  lemma HandleUnborn(s: Store, r: Request)
    requires Inv(s, PointPaths()) && SetsUnborn(s) && Routed(r)
    ensures SetsUnborn(Handle(s, r).store)
  {
    hide UriClass;
    hide Inv;
    hide Split;
    hide SetsUnborn;
    hide PostStored;
    hide UsagePointGet;
    hide MirrorUsagePointGet;
    match r
    case PostPoint(_, post) =>
      CreatePointUntouched(s, post);
      UntouchedUnborn(s, CreateMirrorUsagePoint(s, post).store);
    case PostMeter(path, post) =>
      PostContents(s, path, post);
    case PostSet(_) =>
    case GetMirror(_) =>
      ReadsUntouched(s, r);
      UntouchedUnborn(s, Handle(s, r).store);
    case GetUsage(_, _, _, _) =>
      ReadsUntouched(s, r);
      UntouchedUnborn(s, Handle(s, r).store);
  }

  lemma {:induction false} RunUnborn(requests: seq<Request>)
    requires AllRouted(requests)
    ensures Inv(Run(EMPTY, requests), PointPaths()) && SetsUnborn(Run(EMPTY, requests))
    decreases |requests|
  {
    hide UriClass;
    hide Inv;
    hide Handle;
    RunKeeps(requests);
    if requests != [] {
      var n := |requests| - 1;
      RunUnborn(requests[..n]);
      HandleUnborn(Run(EMPTY, requests[..n]), requests[n]);
    }
  }

  /** After any run, also one in which the index assertion failed, and on any routed path: an answered
      post of a meter reading has stored it in the first entry of its mRID, with its links, its type,
      its reading and one new set for each posted one; the reading list of each new set holds what
      was posted with it, and nothing else, whenever those readings come back. */
  lemma AnsweredPostIsStored(requests: seq<Request>, p: string, post: MeterReadingPost)
    requires AllRouted(requests) && RoutePath(p)
    ensures var s := Run(EMPTY, requests);
            var o := PostMeterReading(s, p, post);
            o.result.Ok? ==> PostStored(s, o, p, post)
  {
    hide Inv;
    RunUnborn(requests);
    PostContents(Run(EMPTY, requests), p, post);
  }

  /** The place of the meter reading that a post goes to. */
  ghost function Target(s: Store, p: string, mrid: Option<string>): string {
    Sub(MrList(p), Dec(HitSlot(Items(s, MrList(p)), mrid)))
  }

  /** The state in which the sets of a post on path p are stored, once both entries are saved. */
  ghost function StateAtSetsOf(s: Store, p: string, post: MeterReadingPost): Store {
    var ref := ReplicaRef(s, p, post);
    if ref.item.MeterReading? then StateAtSets(SaveBoth(s, p, post).store, ref, Target(s, p, post.mrid), post) else s
  }

  /** After any run, a post of a meter reading to any routed path is answered exactly when the point it
      addresses exists, the searches for its mRID in the list of mirrors and in the replica list end
      at one slot, its own reading is accepted, and each of its sets is accepted in turn: the list
      its own href names, if it has one, has neither its mRID nor readings, and its readings are taken. */
  lemma PostAnsweredIff(requests: seq<Request>, p: string, post: MeterReadingPost)
    requires AllRouted(requests) && RoutePath(p)
    ensures var s := Run(EMPTY, requests);
            var href := Target(s, p, post.mrid);
            && |href| >= 4
            && (PostMeterReading(s, p, post).result.Ok?
                <==> && PointExists(s, p) && SlotsAgree(s, p, post.mrid)
                     && ReadingAccepted(Items(s, Sub(href, "r")), post.reading)
                     && SetsAccepted(StateAtSetsOf(s, p, post), href[4..], post.readingSets))
    ensures p in PointPaths() && PointExists(Run(EMPTY, requests), p) ==> SlotsAgree(Run(EMPTY, requests), p, post.mrid)
  {
    hide UriClass;
    hide Split;
    hide Replace;
    hide Inv;
    hide SetsUnborn;
    hide CheckPoint;
    hide SaveBoth;
    hide SlotsAgree;
    hide StoreDetails;
    hide StateAtSets;
    hide PostMeterReading;
    hide ReadingAccepted;
    hide SetsAccepted;
    hide PointExists;
    hide Reflection;
    hide MirrorDescription;
    hide MrList;
    hide Sub;
    RunUnborn(requests);
    var s := Run(EMPTY, requests);
    RootsEqual(s, PointPaths());
    CheckedIffExists(s, p);
    var ref := ReplicaRef(s, p, post);
    var y := DetailPlaces(p, ref.slot);
    if CheckPoint(s, p).Raise? {
      UncheckedPost(s, p, post);
    } else {
      SavedState(s, p, post);
      SaveBothKeepsInv(s, p, post);
      if SlotsAgree(s, p, post.mrid) {
        DetailsAnswered(SaveBoth(s, p, post).store, ref, p, post);
        PostIsSaveThenDetails(s, p, post, ref, ref.item.href.value);
      } else {
        FailedSave(s, p, post);
      }
    }
  }

  /** Posted as clients post them, without hrefs, the sets are accepted exactly when no localID comes
      a third time within one of them; and on the href of a point the searches always agree. */
  lemma PlainPostAnsweredIff(requests: seq<Request>, p: string, post: MeterReadingPost)
    requires AllRouted(requests) && RoutePath(p)
    requires forall k :: 0 <= k < |post.readingSets| ==> PlainSet(post.readingSets[k])
    ensures var s := Run(EMPTY, requests);
            PostMeterReading(s, p, post).result.Ok?
            <==> && PointExists(s, p) && (p in PointPaths() || SlotsAgree(s, p, post.mrid))
                 && ReadingAccepted(Items(s, Sub(Target(s, p, post.mrid), "r")), post.reading)
                 && forall k :: 0 <= k < |post.readingSets| ==> Repeatable(post.readingSets[k].readings)
  {
    hide PostMeterReading;
    hide StateAtSetsOf;
    hide SlotsAgree;
    hide Repeatable;
    hide ReadingAccepted;
    hide SetsAccepted;
    hide PointExists;
    hide PlainSet;
    hide RoutePath;
    PostAnsweredIff(requests, p, post);
    var s := Run(EMPTY, requests);
    PlainSetsAccepted(StateAtSetsOf(s, p, post), Target(s, p, post.mrid)[4..], post.readingSets);
  }

  /** The last part of the path is the number of a usage point. */
  ghost predicate PointExists(s: Store, p: string) {
    var k := PyInt(Last(Split(p)));
    k.Some? && 0 <= k.value < |Items(s, MUP_ROOT)|
  }

  lemma CheckedIffExists(s: Store, p: string)
    requires WellFormed(s) && |Items(s, MUP_ROOT)| == |Items(s, UPT_ROOT)|
    ensures CheckPoint(s, p).Ok? <==> PointExists(s, p)
  {
    hide UriClass;
    hide Split;
    hide PyInt;
    hide WellFormed;
    RootClasses();
    ListFacts(s, MUP_ROOT);
    ListFacts(s, UPT_ROOT);
    var k := PyInt(Last(Split(p)));
    if k.Some? {
      DenseSlot(Items(s, MUP_ROOT), k.value);
      DenseSlot(Items(s, UPT_ROOT), k.value);
    }
  }
}
