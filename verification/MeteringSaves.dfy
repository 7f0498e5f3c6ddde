/** Saving a meter reading with its replica, on any path, and what a whole post of it keeps. */
module MeteringSaves {
  import opened Wrappers
  import opened Text
  import opened ListStore
  import opened MeteringSpec
  import opened MeteringUris
  import opened MeteringInvariant
  import opened MeteringSteps

  /* Meter readings */

  lemma SameFirst(a: Dict, b: Dict, mrid: Option<string>)
    requires SameMrids(a, b) && forall k :: 0 <= k < |a| ==> Attr(a[k].item, MRID).Some?
    ensures FirstWhere(a, MRID, mrid) == FirstWhere(b, MRID, mrid)
  {
    assert forall k :: 0 <= k < |b| ==> Attr(b[k].item, MRID) == Attr(a[k].item, MRID);
    var h, h' := FirstWhere(a, MRID, mrid), FirstWhere(b, MRID, mrid);
    if h.Found? {
      assert Attr(b[h.slot].item, MRID) == Some(mrid);
    }
    if h'.Found? {
      assert Attr(a[h'.slot].item, MRID) == Some(mrid);
    }
  }

  /** A path that passes the check names an existing point by its last part. */
  lemma CheckedPoint(s: Store, path: string)
    requires WellFormed(s) && CheckPoint(s, path).Ok?
    ensures Addresses(path)
    ensures 0 <= PyInt(Last(Split(path))).value < |Items(s, MUP_ROOT)|
  {
    hide UriClass;
    hide Split;
    RootClasses();
    assert ListOk(MUP_ROOT, s.lists[MUP_ROOT], MirrorUsagePointClass);
    DenseSlot(s.lists[MUP_ROOT], PyInt(Last(Split(path))).value);
  }

  /** The pair of appends, seen from the invariant. */
  lemma MeterAppendsKeepInv(s: Store, s1: Store, s2: Store, p: string, a: Resource, b: Resource,
                            paths: iset<string>)
    requires Inv(s, paths) && WellFormed(s2) && Separated(paths) && p in paths && CheckPoint(s, p).Ok?
    requires ClassOf(a) == MirrorMeterReadingClass && ClassOf(b) == MeterReadingClass && a.mrid == b.mrid
    requires Extended(s, s1, MmrList(p), a) && Extended(s1, s2, MrList(p), b)
    ensures Inv(s2, paths)
  {
    hide UriClass;
    hide Split;
    hide Replace;
    hide Sub;
    hide CheckPoint;
    hide MmrList;
    hide MrList;
    hide WellFormed;
    hide Separated;
    hide RootsPaired;
    hide ReadingsPaired;
    hide Unborn;
    hide SetsPaired;
    InvParts(s, "", paths);
    SeparatedRoutes(paths);
    TwoLists(p);
    CheckedPoint(s, p);
    TwoExtendedStill(s, s1, s2, MmrList(p), MrList(p), a, b, ROOT_CLASSES);
    TwoExtendedStill(s, s1, s2, MmrList(p), MrList(p), a, b, SET_CLASSES);
    StillRoots(s, s2);
    StillSets(s, s2);
    MeterAppendsKeepPairs(s, s2, p, a, b, paths);
    MeterAppendsKeepUnborn(s, s2, p);
  }

  lemma TwoExtendedStill(s: Store, s1: Store, s2: Store, u: string, v: string, a: Resource, b: Resource,
                         cs: set<Class>)
    requires Extended(s, s1, u, a) && UriClass(u) == Some(ClassOf(a)) && ClassOf(a) !in cs
    requires Extended(s1, s2, v, b) && UriClass(v) == Some(ClassOf(b)) && ClassOf(b) !in cs
    ensures Still(s, s2, cs)
  {
    hide UriClass;
    ExtendedStill(s, s1, u, a, cs);
    ExtendedStill(s1, s2, v, b, cs);
    StillTransitive(s, s1, s2, cs);
  }

  lemma MeterAppendsKeepPairs(s: Store, s': Store, p: string, a: Resource, b: Resource, paths: iset<string>)
    requires ReadingsPaired(s, paths) && Separated(paths) && p in paths && Addresses(p)
    requires a.MirrorMeterReading? && b.MeterReading? && a.mrid == b.mrid
    requires Items(s', MmrList(p)) == Items(s, MmrList(p)) + [Entry(|Items(s, MmrList(p))|, a)]
    requires Items(s', MrList(p)) == Items(s, MrList(p)) + [Entry(|Items(s, MrList(p))|, b)]
    requires forall v :: v != MmrList(p) && v != MrList(p) ==> Items(s', v) == Items(s, v)
    ensures ReadingsPaired(s', paths)
  {
    hide UriClass;
    hide Split;
    hide Replace;
    hide PyInt;
    forall q | q in paths && Addresses(q) ensures SameMrids(Items(s', MmrList(q)), Items(s', MrList(q))) {
      MirrorOfRoute(p);
      MirrorOfRoute(q);
      SameReplica(p, q);
      assert SameMrids(Items(s, MmrList(q)), Items(s, MrList(q)));
      if q != p {
        assert MrList(q) != MrList(p);
        if MmrList(q) == MmrList(p) {
          SubInjective(q, "mr", p, "mr");
        }
      }
    }
  }

  lemma MeterAppendsKeepUnborn(s: Store, s': Store, p: string)
    requires Unborn(s) && RoutePath(p) && |Items(s', MUP_ROOT)| == |Items(s, MUP_ROOT)|
    requires PyInt(Last(Split(p))).Some? && PyInt(Last(Split(p))).value < |Items(s, MUP_ROOT)|
    requires forall v :: v != MmrList(p) && v != MrList(p) ==> Items(s', v) == Items(s, v)
    ensures Unborn(s')
  {
    hide Split;
    hide Replace;
    hide PyInt;
    forall i: nat | i >= |Items(s', MUP_ROOT)|
      ensures Items(s', MeterReadingListHref(MUP_ROOT, i)) == []
      ensures Items(s', MeterReadingListHref(UPT_ROOT, i)) == []
    {
      OnlyPointReachesItsReplica(p, i);
      PointPathIsRoute(i);
      MirrorOfRoute(p);
      CanonicalClasses(i);
      assert p != PointPath(i);
    }
  }

  lemma AppendFrame(s: Store, u: string, item: Resource)
    ensures forall v :: v != u ==> Items(Append(s, u, item).store, v) == Items(s, v)
    ensures forall v :: v != u ==> Items(AppendAndIncrementHref(s, u, item).store, v) == Items(s, v)
  {
    hide Split;
  }

  lemma SaveBothFrame(s: Store, p: string, post: MeterReadingPost)
    ensures forall v :: v != MmrList(p) && v != MrList(p) ==> Items(SaveBoth(s, p, post).store, v) == Items(s, v)
  {
    hide Split;
    hide Append;
    hide AppendAndIncrementHref;
    hide MmrList;
    hide MrList;
    AppendFrame(s, MmrList(p), MirrorMeterReading(None, post.mrid, post.description));
    var o := SaveMirrorMeterReading(s, MmrList(p), post);
    if o.result.Ok? && o.result.value.item.MirrorMeterReading? {
      ReflectFrame(o.store, MrList(p), o.result.value.item);
    }
  }

  lemma ReflectFrame(s: Store, u: string, mmr: Resource)
    requires mmr.MirrorMeterReading?
    ensures forall v :: v != u ==> Items(ReflectMeterReading(s, u, mmr).store, v) == Items(s, v)
  {
    hide Split;
    hide Append;
    hide AppendAndIncrementHref;
    AppendFrame(s, u, MeterReading(None, mmr.mrid, mmr.description, None, None, None));
  }

  lemma LastOfNumbered(u: string, n: nat)
    ensures Last(Split(Sub(u, Dec(n)))) == Dec(n)
  {
    DecValue(n);
    SplitSub(u, Dec(n));
  }

  lemma TwoLists(p: string)
    requires RoutePath(p)
    ensures MmrList(p) != MrList(p)
    ensures UriClass(MmrList(p)) == Some(MirrorMeterReadingClass) && UriClass(MrList(p)) == Some(MeterReadingClass)
  {
    MirrorOfRoute(p);
  }

  lemma SeparatedRoutes(paths: iset<string>)
    requires Separated(paths)
    ensures forall q :: q in paths ==> RoutePath(q)
  {
  }

  function SaveBoth(s: Store, p: string, post: MeterReadingPost): Outcome<Reflected> {
    var (s1, mmr) :- SaveMirrorMeterReading(s, MmrList(p), post);
    if !mmr.item.MirrorMeterReading? then Outcome(s1, Raise(AttributeError))
    else ReflectMeterReading(s1, MrList(p), mmr.item)
  }

  /** The stored object a reference denotes is the one it carries. */
  ghost predicate Denotes(s: Store, ref: Ref) {
    ref.slot < |Items(s, ref.uri)| && Items(s, ref.uri)[ref.slot].item == ref.item
  }

  /** The slot that a save with this mRID goes to: that of the entry it finds, or the next one. */
  function HitSlot(d: Dict, mrid: Option<string>): (k: nat)
    ensures k <= |d|
  {
    match FirstWhere(d, MRID, mrid)
    case Found(k) => k
    case _ => |d|
  }

  /** The description a replica is given: that of the mirror, which a later post does not change. */
  function MirrorDescription(d: Dict, post: MeterReadingPost): Option<string> {
    match FirstWhere(d, MRID, post.mrid)
    case Found(k) => if d[k].item.MirrorMeterReading? then d[k].item.description else None
    case _ => post.description
  }

  /** A replica: a known one takes the description, a new one is numbered. */
  function Reflection(d: Dict, u: string, mrid: Option<string>, description: Option<string>): Resource {
    match FirstWhere(d, MRID, mrid)
    case Found(k) => WithDescription(d[k].item, description)
    case _ => MeterReading(Some(Sub(u, Dec(|d|))), mrid, description, None, None, None)
  }

  lemma ListHit(s: Store, u: string, mrid: Option<string>)
    requires WellFormed(s) && UriClass(u).Some? && UriClass(u).value != ReadingClass
    ensures var d := Items(s, u);
            && !FirstWhere(d, MRID, mrid).NoAttribute?
            && (FirstWhere(d, MRID, mrid).Found? ==>
                  var k := HitSlot(d, mrid);
                  && k < |d| && ClassOf(d[k].item) == UriClass(u).value && d[k].item.href == Some(Sub(u, Dec(k)))
                  && Attr(d[k].item, MRID) == Some(mrid) && u in s.lists && u in s.types)
            && (FirstWhere(d, MRID, mrid).Missing? ==> HitSlot(d, mrid) == |d|)
  {
    hide UriClass;
    hide WellFormed;
    ListFacts(s, u);
    ListedIn(s, u);
    assert forall k :: 0 <= k < |Items(s, u)| ==> Attr(Items(s, u)[k].item, MRID).Some?;
  }

  lemma ListedIn(s: Store, u: string)
    ensures Items(s, u) != [] ==> u in s.lists
  {
  }

  lemma SaveMirrorAny(s: Store, u: string, post: MeterReadingPost)
    requires WellFormed(s) && UriClass(u) == Some(MirrorMeterReadingClass)
    ensures var o := SaveMirrorMeterReading(s, u, post);
            var d := Items(s, u);
            var k := HitSlot(d, post.mrid);
            var mirror := MirrorMeterReading(Some(Sub(u, Dec(k))), post.mrid, MirrorDescription(d, post));
            && o.result == Ok(Ref(u, k, mirror)) && WellFormed(o.store)
            && if FirstWhere(d, MRID, post.mrid).Found? then o.store == s else Extended(s, o.store, u, mirror)
  {
    hide UriClass;
    hide WellFormed;
    hide AppendAndIncrementHref;
    hide Sub;
    hide Dec;
    ListHit(s, u, post.mrid);
    AppendNumberedExtends(s, u, MirrorMeterReading(None, post.mrid, post.description));
  }

  lemma SaveReplicaAny(s: Store, u: string, mmr: Resource)
    requires WellFormed(s) && UriClass(u) == Some(MeterReadingClass) && mmr.MirrorMeterReading?
    ensures var o := SaveMeterReading(s, u, mmr);
            var d := Items(s, u);
            var k := HitSlot(d, mmr.mrid);
            var ref := Ref(u, k, Reflection(d, u, mmr.mrid, mmr.description));
            && o.result == Ok(Reflected(ref, k < |d|)) && WellFormed(o.store) && Denotes(o.store, ref)
            && ref.item.MeterReading? && ref.item.mrid == mmr.mrid && ref.item.href == Some(Sub(u, Dec(k)))
            && if FirstWhere(d, MRID, mmr.mrid).Found? then o.store == Assign(s, ref) && Quiet(s, o.store)
               else Extended(s, o.store, u, ref.item)
  {
    hide UriClass;
    hide WellFormed;
    hide Still;
    hide AppendAndIncrementHref;
    hide Sub;
    hide Dec;
    var d := Items(s, u);
    ListHit(s, u, mmr.mrid);
    if FirstWhere(d, MRID, mmr.mrid).Found? {
      AssignQuiet(s, Ref(u, HitSlot(d, mmr.mrid), Reflection(d, u, mmr.mrid, mmr.description)));
    } else {
      AppendNumberedExtends(s, u, MeterReading(None, mmr.mrid, mmr.description, None, None, None));
    }
  }

  /** Both searches point to one slot. */
  ghost predicate SlotsAgree(s: Store, p: string, mrid: Option<string>) {
    HitSlot(Items(s, MmrList(p)), mrid) == HitSlot(Items(s, MrList(p)), mrid)
  }

  /** The reference to the replica that a save leaves. */
  function ReplicaRef(s: Store, p: string, post: MeterReadingPost): Ref {
    var d := Items(s, MrList(p));
    Ref(MrList(p), HitSlot(d, post.mrid),
        Reflection(d, MrList(p), post.mrid, MirrorDescription(Items(s, MmrList(p)), post)))
  }

  /** The state between the two saves, and the one after them. */
  lemma SaveBothAny(s: Store, p: string, post: MeterReadingPost) returns (s1: Store, mirror: Resource)
    requires WellFormed(s) && RoutePath(p)
    ensures var a, b := Items(s, MmrList(p)), Items(s, MrList(p));
            var o, ref := SaveBoth(s, p, post), ReplicaRef(s, p, post);
            && WellFormed(o.store) && Denotes(o.store, ref)
            && ref.item.MeterReading? && ref.item.mrid == post.mrid
            && ref.item.href == Some(Sub(MrList(p), Dec(ref.slot)))
            && o.result == (if SlotsAgree(s, p, post.mrid) then Ok(Reflected(ref, ref.slot < |b|))
                            else Raise(IndexAssertion))
            && mirror == MirrorMeterReading(Some(Sub(MmrList(p), Dec(HitSlot(a, post.mrid)))), post.mrid,
                                            MirrorDescription(a, post))
            && (if FirstWhere(a, MRID, post.mrid).Found? then s1 == s else Extended(s, s1, MmrList(p), mirror))
            && (if FirstWhere(b, MRID, post.mrid).Found? then o.store == Assign(s1, ref) && Quiet(s1, o.store)
                else Extended(s1, o.store, MrList(p), ref.item))
  {
    hide UriClass;
    hide Split;
    hide Replace;
    hide WellFormed;
    hide Still;
    hide SaveMirrorMeterReading;
    hide SaveMeterReading;
    hide MmrList;
    hide MrList;
    hide HitSlot;
    hide MirrorDescription;
    hide Reflection;
    hide Sub;
    TwoLists(p);
    SaveMirrorAny(s, MmrList(p), post);
    var o1 := SaveMirrorMeterReading(s, MmrList(p), post);
    s1, mirror := o1.store, o1.result.value.item;
    assert Items(s1, MrList(p)) == Items(s, MrList(p));
    SaveReplicaAny(s1, MrList(p), mirror);
    var j, k := HitSlot(Items(s, MmrList(p)), post.mrid), HitSlot(Items(s, MrList(p)), post.mrid);
    LastOfNumbered(MmrList(p), j);
    LastOfNumbered(MrList(p), k);
    if Dec(j) == Dec(k) {
      DecInjective(j, k);
    }
  }

  /** What saving leaves when the trees agree: the index assertion cannot fail. */
  ghost predicate SavedBoth(s: Store, o: Outcome<Reflected>, p: string, post: MeterReadingPost, paths: iset<string>) {
    Inv(o.store, paths) && SlotsAgree(s, p, post.mrid)
  }

  /** The assertion that a meter reading and its replica share an index cannot fail. */
  lemma SaveBothInv(s: Store, p: string, post: MeterReadingPost, paths: iset<string>)
    requires Inv(s, paths) && Separated(paths) && p in paths && CheckPoint(s, p).Ok?
    ensures SavedBoth(s, SaveBoth(s, p, post), p, post, paths)
  {
    hide UriClass;
    hide Split;
    hide Replace;
    hide Inv;
    hide WellFormed;
    hide Separated;
    hide Still;
    hide CheckPoint;
    hide SaveBoth;
    hide MmrList;
    hide MrList;
    hide Sub;
    SeparatedRoutes(paths);
    InvParts(s, "", paths);
    HitsAgree(s, p, post.mrid, paths);
    var s1, mirror := SaveBothAny(s, p, post);
    var s2, ref := SaveBoth(s, p, post).store, ReplicaRef(s, p, post);
    if FirstWhere(Items(s, MmrList(p)), MRID, post.mrid).Found? {
      StillInv(s, s2, paths);
    } else {
      MeterAppendsKeepInv(s, s1, s2, p, mirror, ref.item, paths);
    }
  }

  /** The searches for an mRID in a list of mirrors and in its replica list end alike. */
  lemma HitsAgree(s: Store, p: string, mrid: Option<string>, paths: iset<string>)
    requires Inv(s, paths) && Separated(paths) && p in paths && CheckPoint(s, p).Ok?
    ensures FirstWhere(Items(s, MmrList(p)), MRID, mrid) == FirstWhere(Items(s, MrList(p)), MRID, mrid)
    ensures SlotsAgree(s, p, mrid)
  {
    hide UriClass;
    hide Split;
    hide Replace;
    hide Sub;
    hide WellFormed;
    InvParts(s, "", paths);
    CheckedPoint(s, p);
    SeparatedRoutes(paths);
    TwoLists(p);
    ListFacts(s, MmrList(p));
    var a, b := Items(s, MmrList(p)), Items(s, MrList(p));
    assert SameMrids(a, b);
    assert forall k :: 0 <= k < |a| ==> Attr(a[k].item, MRID).Some?;
    SameFirst(a, b, mrid);
  }

  /* Paths that are no href of a point */

  /** What happens there cannot be seen from the points. */
  lemma ElsewhereInv(s: Store, s': Store, p: string)
    requires Inv(s, PointPaths()) && WellFormed(s') && RoutePath(p) && p !in PointPaths()
    requires forall v :: v != MmrList(p) && v != MrList(p) ==> Items(s', v) == Items(s, v)
    ensures Inv(s', PointPaths())
  {
    hide UriClass;
    hide Split;
    hide Replace;
    hide WellFormed;
    hide Sub;
    hide PyInt;
    hide Items;
    TwoLists(p);
    RootClasses();
    forall i: nat
      ensures Items(s', MeterReadingListHref(MUP_ROOT, i)) == Items(s, MeterReadingListHref(MUP_ROOT, i))
      ensures Items(s', MeterReadingListHref(UPT_ROOT, i)) == Items(s, MeterReadingListHref(UPT_ROOT, i))
    {
      assert PointPath(i) in PointPaths();
      OnlyPointReachesItsReplica(p, i);
      CanonicalClasses(i);
    }
    forall q | q in PointPaths() && Addresses(q) ensures SameMrids(Items(s', MmrList(q)), Items(s', MrList(q))) {
      var i: nat :| q == PointPath(i);
      PointPathIsRoute(i);
      assert SameMrids(Items(s, MmrList(q)), Items(s, MrList(q)));
    }
    forall y: string ensures SameSets(Items(s', Sub(Mup(y), "rs")), Items(s', Sub(Upt(y), "rs"))) {
      SubClasses(y);
      assert SameSets(Items(s, Sub(Mup(y), "rs")), Items(s, Sub(Upt(y), "rs")));
    }
  }

  /** Saving on any routed path keeps the invariant over the hrefs of points. */
  lemma SaveBothKeepsInv(s: Store, p: string, post: MeterReadingPost)
    requires Inv(s, PointPaths()) && RoutePath(p) && CheckPoint(s, p).Ok?
    ensures Inv(SaveBoth(s, p, post).store, PointPaths())
    ensures p in PointPaths() ==> SlotsAgree(s, p, post.mrid)
  {
    hide Inv;
    hide WellFormed;
    hide Separated;
    hide CheckPoint;
    hide SaveBoth;
    if p in PointPaths() {
      SeparatedPointsOnly();
      SaveBothInv(s, p, post, PointPaths());
    } else {
      InvParts(s, "", PointPaths());
      var s1, mirror := SaveBothAny(s, p, post);
      SaveBothFrame(s, p, post);
      ElsewhereInv(s, SaveBoth(s, p, post).store, p);
    }
  }

  /* The details of a meter reading */

  lemma LinkInv(s: Store, ref: Ref, item: Resource, paths: iset<string>)
    requires Inv(s, paths) && Denotes(s, ref) && forall p :: p in paths ==> RoutePath(p)
    requires ref.item.MeterReading? && item.MeterReading? && item.href == ref.item.href && item.mrid == ref.item.mrid
    ensures var s' := Assign(s, ref.(item := item));
            && Inv(s', paths) && Denotes(s', ref.(item := item))
            && |Items(s', ref.uri)| == |Items(s, ref.uri)|
            && forall v :: v != ref.uri ==> Items(s', v) == Items(s, v)
  {
    hide UriClass;
    hide Inv;
    hide WellFormed;
    hide Still;
    InvParts(s, "", paths);
    AssignQuiet(s, ref.(item := item));
    StillInv(s, Assign(s, ref.(item := item)), paths);
  }

  /** Only lists and registered classes matter to the invariant. */
  lemma SameListsInv(s: Store, s': Store, paths: iset<string>)
    requires Inv(s, paths) && s'.lists == s.lists && s'.types == s.types
    ensures Inv(s', paths)
  {
    hide UriClass;
    assert forall u :: Items(s', u) == Items(s, u);
  }

  lemma StoreReadingInv(s: Store, ref: Ref, href: string, r: Option<ReadingItem>, y: string, paths: iset<string>)
    requires Inv(s, paths) && Denotes(s, ref) && forall p :: p in paths ==> RoutePath(p)
    requires ref.item.MeterReading? && href == Upt(y) && UriClass(ref.uri) == Some(MeterReadingClass)
    ensures var o := StoreReading(s, ref, href, r);
            && Inv(o.store, paths)
            && (o.result.Raise? ==> o.result.error in {AttributeError, ValueError})
            && (o.result.Ok? ==>
                  var ref' := o.result.value;
                  && ref'.item.MeterReading? && Denotes(o.store, ref') && ref'.uri == ref.uri && ref'.slot == ref.slot
                  && ref'.item.href == ref.item.href && ref'.item.mrid == ref.item.mrid
                  && |Items(o.store, ref.uri)| == |Items(s, ref.uri)|)
  {
    hide UriClass;
    hide Inv;
    hide CreateOrUpdateReading;
    if r.Some? {
      var list := Sub(href, "r");
      var (s1, linked) := LinkReadings(s, ref, href);
      LinkInv(s, ref, linked.item, paths);
      SubClasses(y);
      InvParts(s1, "", paths);
      ReadingQuiet(s1, list, r.value);
      StillInv(s1, CreateOrUpdateReading(s1, list, r.value).store, paths);
    }
  }

  lemma StoreDetailsInv(s: Store, ref: Ref, href: string, post: MeterReadingPost, y: string, paths: iset<string>)
    requires Inv(s, paths) && Denotes(s, ref) && forall p :: p in paths ==> RoutePath(p)
    requires ref.item.MeterReading? && href == Upt(y) && '/' !in y && UriClass(ref.uri) == Some(MeterReadingClass)
    ensures var o := StoreDetails(s, ref, href, post);
            && Inv(o.store, paths)
            && (o.result.Raise? ==> o.result.error in {AttributeError, ValueError})
            && (o.result.Ok? ==>
                  var ref' := o.result.value;
                  && ref'.item.MeterReading? && Denotes(o.store, ref') && ref'.uri == ref.uri && ref'.slot == ref.slot
                  && ref'.item.href == ref.item.href && ref'.item.mrid == ref.item.mrid
                  && |Items(o.store, ref.uri)| == |Items(s, ref.uri)|)
  {
    hide UriClass;
    hide Inv;
    hide StoreReading;
    hide PostReadingSets;
    var (s1, ref1) := StoreType(s, ref, href, post.readingType);
    StoreTypeInv(s, ref, href, post.readingType, paths);
    StoreReadingInv(s1, ref1, href, post.reading, y, paths);
    var o2 := StoreReading(s1, ref1, href, post.reading);
    if o2.result.Ok? {
      var (s3, ref3) := LinkReadingSets(o2.store, o2.result.value, href);
      LinkInv(o2.store, o2.result.value, ref3.item, paths);
      PostReadingSetsInv(s3, y, post.readingSets, paths);
      assert Untouched(s3, PostReadingSets(s3, Sub(href, "rs"), post.readingSets).store, ABOVE_SETS);
    }
  }

  lemma StoreTypeInv(s: Store, ref: Ref, href: string, t: Option<ReadingTypeData>, paths: iset<string>)
    requires Inv(s, paths) && Denotes(s, ref) && forall p :: p in paths ==> RoutePath(p)
    requires ref.item.MeterReading?
    ensures var (s', ref') := StoreType(s, ref, href, t);
            && Inv(s', paths) && Denotes(s', ref') && ref'.item.href == ref.item.href && ref'.item.mrid == ref.item.mrid
            && |Items(s', ref.uri)| == |Items(s, ref.uri)|
  {
    hide UriClass;
    hide Inv;
    if t.Some? {
      var s0 := s.(singles := s.singles[Sub(href, "rt") := t.value]);
      SameListsInv(s, s0, paths);
      LinkInv(s0, ref, StoreType(s, ref, href, t).1.item, paths);
    }
  }

  lemma ReplicaPlace(p: string, k: nat) returns (y: string)
    requires RoutePath(p)
    ensures Sub(MrList(p), Dec(k)) == Upt(y) && '/' !in y
  {
    hide Split;
    MirrorOfRoute(p);
    var rest := Mirror(p[4..]);
    MupSub(rest, "mr");
    MupSub(Sub(rest, "mr"), Dec(k));
    y := Sub(Sub(rest, "mr"), Dec(k));
  }

  /** What posting a meter reading leaves and may answer, whatever the store went through before. */
  ghost predicate PostOutcome(s: Store, o: Outcome<ReturnValue>, p: string, post: MeterReadingPost,
                              paths: iset<string>) {
    && Inv(o.store, paths)
    && (o.result.Raise? ==> o.result.error in {KeyError, ValueError, NotFoundError, AttributeError, IndexAssertion})
    && (o.result == Raise(IndexAssertion) <==> CheckPoint(s, p).Ok? && !SlotsAgree(s, p, post.mrid))
    && (o.result.Ok? ==>
          var k := HitSlot(Items(s, MrList(p)), post.mrid);
          && o.result.value.location == Some(Sub(MrList(p), Dec(k)))
          && o.result.value.item.MeterReading? && o.result.value.item.mrid == post.mrid
          && Denotes(o.store, Ref(MrList(p), k, o.result.value.item))
          && (o.result.value.wasUpdate <==> k < |Items(s, MrList(p))|))
  }

  lemma CheckPointErrors(s: Store, p: string)
    requires WellFormed(s) && CheckPoint(s, p).Raise?
    ensures CheckPoint(s, p).error in {KeyError, ValueError, NotFoundError}
  {
    hide UriClass;
    hide Split;
    hide PyInt;
    RootClasses();
  }

  /** A post, seen as the saving of both entries followed by the details. */
  lemma PostIsSaveThenDetails(s: Store, p: string, post: MeterReadingPost, ref: Ref, href: string)
    requires CheckPoint(s, p).Ok? && SaveBoth(s, p, post).result.Ok?
    requires ref == SaveBoth(s, p, post).result.value.ref && ref.item.MeterReading? && ref.item.href == Some(href)
    ensures var saved := SaveBoth(s, p, post);
            var d := StoreDetails(saved.store, ref, href, post);
            PostMeterReading(s, p, post) ==
            if d.result.Raise? then Outcome(d.store, Raise(d.result.error))
            else Outcome(d.store, Ok(ReturnValue(d.result.value.item, saved.result.value.wasUpdate, Some(href))))
  {
    hide CheckPoint;
    hide SaveMirrorMeterReading;
    hide ReflectMeterReading;
    hide StoreDetails;
  }

  lemma UncheckedPost(s: Store, p: string, post: MeterReadingPost)
    requires CheckPoint(s, p).Raise?
    ensures PostMeterReading(s, p, post) == Outcome(s, Raise(CheckPoint(s, p).error))
  {
    hide CheckPoint;
  }

  lemma FailedSave(s: Store, p: string, post: MeterReadingPost)
    requires CheckPoint(s, p).Ok? && SaveBoth(s, p, post).result.Raise?
    ensures PostMeterReading(s, p, post)
         == Outcome(SaveBoth(s, p, post).store, Raise(SaveBoth(s, p, post).result.error))
  {
    hide CheckPoint;
    hide SaveMirrorMeterReading;
    hide ReflectMeterReading;
    hide StoreDetails;
  }

  lemma PostKeepsInv(s: Store, p: string, post: MeterReadingPost, paths: iset<string>)
    requires Inv(s, paths) && RoutePath(p) && forall q :: q in paths ==> RoutePath(q)
    requires CheckPoint(s, p).Ok? ==> Inv(SaveBoth(s, p, post).store, paths)
    ensures PostOutcome(s, PostMeterReading(s, p, post), p, post, paths)
  {
    hide UriClass;
    hide Split;
    hide Inv;
    hide WellFormed;
    hide Sub;
    hide CheckPoint;
    hide SaveBoth;
    hide SlotsAgree;
    hide StoreDetails;
    hide PostMeterReading;
    hide Reflection;
    hide MirrorDescription;
    hide MrList;
    InvParts(s, "", paths);
    if CheckPoint(s, p).Raise? {
      CheckPointErrors(s, p);
      UncheckedPost(s, p, post);
    } else {
      var s1, mirror := SaveBothAny(s, p, post);
      var saved, ref := SaveBoth(s, p, post), ReplicaRef(s, p, post);
      if SlotsAgree(s, p, post.mrid) {
        var href := ref.item.href.value;
        var y := ReplicaPlace(p, ref.slot);
        TwoLists(p);
        StoreDetailsInv(saved.store, ref, href, post, y, paths);
        PostIsSaveThenDetails(s, p, post, ref, href);
      } else {
        FailedSave(s, p, post);
      }
    }
  }

  /** A post on separated paths: the index assertion does not fail. */
  lemma PostMeterReadingInv(s: Store, p: string, post: MeterReadingPost, paths: iset<string>)
    requires Inv(s, paths) && Separated(paths) && p in paths
    ensures PostOutcome(s, PostMeterReading(s, p, post), p, post, paths)
    ensures PostMeterReading(s, p, post).result != Raise(IndexAssertion)
  {
    hide Inv;
    hide Separated;
    hide CheckPoint;
    hide SaveBoth;
    hide SlotsAgree;
    hide PostMeterReading;
    SeparatedRoutes(paths);
    if CheckPoint(s, p).Ok? {
      SaveBothInv(s, p, post, paths);
    }
    PostKeepsInv(s, p, post, paths);
  }

  /** A post on any routed path: the invariant over the hrefs of points survives it, also when the
      index assertion fails. */
  lemma PostMeterReadingAny(s: Store, p: string, post: MeterReadingPost)
    requires Inv(s, PointPaths()) && RoutePath(p)
    ensures PostOutcome(s, PostMeterReading(s, p, post), p, post, PointPaths())
    ensures p in PointPaths() ==> PostMeterReading(s, p, post).result != Raise(IndexAssertion)
  {
    hide Inv;
    hide Separated;
    hide CheckPoint;
    hide SaveBoth;
    hide SlotsAgree;
    hide PostMeterReading;
    SeparatedPointsOnly();
    SeparatedRoutes(PointPaths());
    if CheckPoint(s, p).Ok? {
      SaveBothKeepsInv(s, p, post);
    }
    PostKeepsInv(s, p, post, PointPaths());
  }
}
