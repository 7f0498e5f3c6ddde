/** The entries that an answered post of a meter reading leaves, written out for the list of mirrors and
    for the list of replicas, in every state that runs can reach. */
module MeteringEntries {
  import opened Wrappers
  import opened Text
  import opened ListStore
  import opened MeteringSpec
  import opened MeteringUris
  import opened MeteringInvariant
  import opened MeteringSteps
  import opened MeteringSaves
  import opened MeteringPoints
  import opened MeteringServer
  import opened MeteringLocations
  import opened MeteringContents
  import opened MeteringDetails

  /* What the details of a post leave of the lists of points and meter readings */

  /** Of these lists only one differs, and there only in one object. */
  ghost predicate OnlyAt(s: Store, s': Store, u: string, k: nat) {
    && (forall v :: UriClass(v).Some? && UriClass(v).value in ABOVE_SETS && v != u ==> Items(s', v) == Items(s, v))
    && SameBut(Items(s, u), Items(s', u), k)
  }

  ghost predicate SameBut(d: Dict, d': Dict, k: nat) {
    |d'| == |d| && forall j :: 0 <= j < |d| && j != k ==> d'[j] == d[j]
  }

  lemma OnlyAtTransitive(s: Store, s1: Store, s2: Store, u: string, k: nat)
    requires OnlyAt(s, s1, u, k) && OnlyAt(s1, s2, u, k)
    ensures OnlyAt(s, s2, u, k)
  {
    hide UriClass;
  }

  lemma AssignOnlyAt(s: Store, s1: Store, ref: Ref)
    requires s1.lists == s.lists
    ensures OnlyAt(s, Assign(s1, ref), ref.uri, ref.slot)
  {
    hide UriClass;
  }

  lemma UntouchedOnlyAt(s: Store, s': Store, u: string, k: nat)
    requires Untouched(s, s', ABOVE_SETS) && UriClass(u) == Some(MeterReadingClass)
    ensures OnlyAt(s, s', u, k)
  {
    hide UriClass;
  }

  lemma TypeOnlyAt(s: Store, ref: Ref, href: string, t: Option<ReadingTypeData>)
    requires ref.item.MeterReading?
    ensures OnlyAt(s, StoreType(s, ref, href, t).0, ref.uri, ref.slot)
  {
    hide UriClass;
    if t.Some? {
      AssignOnlyAt(s, s.(singles := s.singles[Sub(href, "rt") := t.value]), StoreType(s, ref, href, t).1);
    }
  }

  lemma ReadingOnlyAt(s: Store, ref: Ref, href: string, r: Option<ReadingItem>)
    requires ref.item.MeterReading? && UriClass(ref.uri) == Some(MeterReadingClass)
    requires UriClass(Sub(href, "r")) == Some(ReadingClass)
    ensures var o := StoreReading(s, ref, href, r);
            && OnlyAt(s, o.store, ref.uri, ref.slot)
            && (o.result.Ok? ==> o.result.value.uri == ref.uri && o.result.value.slot == ref.slot)
  {
    hide UriClass;
    hide OnlyAt;
    hide Sub;
    hide CreateOrUpdateReading;
    if r.Some? {
      var s1 := LinkReadings(s, ref, href).0;
      AssignOnlyAt(s, s, LinkReadings(s, ref, href).1);
      ReadingFrame(s1, Sub(href, "r"), r.value);
      var s2 := CreateOrUpdateReading(s1, Sub(href, "r"), r.value).store;
      UntouchedOutside(s1, s2, Sub(href, "r"), ABOVE_SETS);
      UntouchedOnlyAt(s1, s2, ref.uri, ref.slot);
      OnlyAtTransitive(s, s1, s2, ref.uri, ref.slot);
    } else {
      UntouchedSame(s, ABOVE_SETS);
      UntouchedOnlyAt(s, s, ref.uri, ref.slot);
    }
  }

  /** All the details of a post, whether or not they are all taken, touch no mirror and no other
      replica. */
  lemma DetailsOnlyAt(s: Store, ref: Ref, p: string, post: MeterReadingPost)
    requires Inv(s, PointPaths()) && RoutePath(p)
    requires Denotes(s, ref) && ref.uri == MrList(p) && ref.item.MeterReading?
    ensures OnlyAt(s, StoreDetails(s, ref, Sub(MrList(p), Dec(ref.slot)), post).store, MrList(p), ref.slot)
  {
    hide UriClass;
    hide Inv;
    hide Replace;
    hide Split;
    hide OnlyAt;
    hide StoreType;
    hide StoreReading;
    hide LinkReadingSets;
    hide PostReadingSets;
    hide Untouched;
    hide SetReadings;
    hide SetList;
    hide MrList;
    hide Sub;
    hide Denotes;
    var href := Sub(MrList(p), Dec(ref.slot));
    var y := DetailPlaces(p, ref.slot);
    MirrorOfRoute(p);
    PointRoutes();
    BeforeSetsInv(s, ref, href, post, y);
    TypeOnlyAt(s, ref, href, post.readingType);
    var (s1, ref1) := StoreType(s, ref, href, post.readingType);
    ReadingOnlyAt(s1, ref1, href, post.reading);
    var o2 := StoreReading(s1, ref1, href, post.reading);
    OnlyAtTransitive(s, s1, o2.store, ref.uri, ref.slot);
    if o2.result.Ok? {
      var (s3, ref3) := LinkReadingSets(o2.store, o2.result.value, href);
      LinkSetsOnlyAt(o2.store, o2.result.value, href);
      OnlyAtTransitive(s, o2.store, s3, ref.uri, ref.slot);
      SetListIs(y);
      PostReadingSetsInv(s3, y, post.readingSets, PointPaths());
      var s4 := PostReadingSets(s3, SetList(y), post.readingSets).store;
      UntouchedOnlyAt(s3, s4, ref.uri, ref.slot);
      OnlyAtTransitive(s, s3, s4, ref.uri, ref.slot);
    }
  }

  lemma SetListIs(y: string)
    ensures SetList(y) == Sub(Upt(y), "rs")
  {
  }

  lemma LinkSetsOnlyAt(s: Store, ref: Ref, href: string)
    requires ref.item.MeterReading?
    ensures OnlyAt(s, LinkReadingSets(s, ref, href).0, ref.uri, ref.slot)
  {
    hide UriClass;
    hide OnlyAt;
    AssignOnlyAt(s, s, LinkReadingSets(s, ref, href).1);
  }

  /* One post of a meter reading */

  /** The first entry with the mRID stands at k; k is the length if there is none. */
  ghost predicate FirstAt(d: Dict, mrid: Option<string>, k: nat) {
    && k <= |d| && (forall j :: 0 <= j < |d| ==> !d[j].item.Reading?)
    && (forall j :: 0 <= j < k ==> d[j].item.mrid != mrid)
    && (k < |d| ==> d[k].item.mrid == mrid)
  }

  lemma HitIsFirst(s: Store, u: string, mrid: Option<string>)
    requires WellFormed(s) && UriClass(u).Some? && UriClass(u).value != ReadingClass
    ensures var d := Items(s, u);
            && FirstAt(d, mrid, HitSlot(d, mrid))
            && (FirstWhere(d, MRID, mrid).Found? <==> HitSlot(d, mrid) < |d|)
  {
    hide UriClass;
    hide WellFormed;
    ListHit(s, u, mrid);
    ListFacts(s, u);
    var d := Items(s, u);
    forall j | 0 <= j < |d| ensures !d[j].item.Reading? && Attr(d[j].item, MRID) == Some(d[j].item.mrid) {
      assert ClassOf(d[j].item) == UriClass(u).value;
    }
  }

  /** What saving both entries leaves of the two lists. */
  lemma SavedLists(s: Store, p: string, post: MeterReadingPost)
    requires WellFormed(s) && RoutePath(p)
    ensures var a, b := Items(s, MmrList(p)), Items(s, MrList(p));
            var s', ref := SaveBoth(s, p, post).store, ReplicaRef(s, p, post);
            var j := HitSlot(a, post.mrid);
            && Items(s', MmrList(p)) ==
               (if j < |a| then a
                else a + [Entry(j, MirrorMeterReading(Some(Sub(MmrList(p), Dec(j))), post.mrid, post.description))])
            && Items(s', MrList(p)) ==
               (if ref.slot < |b| then b[ref.slot := Entry(ref.slot, ref.item)] else b + [Entry(ref.slot, ref.item)])
            && WellFormed(s') && Denotes(s', ref) && ref.item.MeterReading?
  {
    hide UriClass;
    hide WellFormed;
    hide Split;
    hide Replace;
    hide SaveBoth;
    hide Quiet;
    hide Sub;
    hide MmrList;
    hide MrList;
    TwoLists(p);
    HitIsFirst(s, MmrList(p), post.mrid);
    HitIsFirst(s, MrList(p), post.mrid);
    ListFacts(s, MrList(p));
    var s1, mirror := SaveBothAny(s, p, post);
  }

  /** The replica that a post goes to, before the details: the one that stood at its slot, with the
      description of the mirror, or a new one. */
  lemma SavedReplica(s: Store, p: string, post: MeterReadingPost)
    requires WellFormed(s) && RoutePath(p)
    ensures var a, b := Items(s, MmrList(p)), Items(s, MrList(p));
            var ref, j := ReplicaRef(s, p, post), HitSlot(a, post.mrid);
            && ref.item.MeterReading? && ref.item.mrid == post.mrid
            && ref.item.href == Some(Sub(MrList(p), Dec(ref.slot)))
            && (j < |a| ==> a[j].item.MirrorMeterReading?)
            && ref.item.description == (if j < |a| then a[j].item.description else post.description)
            && (ref.slot < |b| ==>
                  && b[ref.slot].item.MeterReading? && b[ref.slot].item.mrid == ref.item.mrid
                  && b[ref.slot].item.href == ref.item.href
                  && ref.item.readingTypeLink == b[ref.slot].item.readingTypeLink
                  && ref.item.readingListLink == b[ref.slot].item.readingListLink
                  && ref.item.readingSetListLink == b[ref.slot].item.readingSetListLink)
            && (ref.slot == |b| ==> ref.item.readingTypeLink == None && ref.item.readingListLink == None
                                    && ref.item.readingSetListLink == None)
  {
    hide UriClass;
    hide WellFormed;
    hide Split;
    hide Replace;
    hide Sub;
    hide MmrList;
    hide MrList;
    TwoLists(p);
    ListHit(s, MmrList(p), post.mrid);
    ListHit(s, MrList(p), post.mrid);
  }

  /** The list of mirrors after an answered post: a mirror is added with what was posted unless there is
      one of its mRID. */
  ghost predicate MirrorPosted(a: Dict, a': Dict, list: string, post: MeterReadingPost, k: nat) {
    && FirstAt(a, post.mrid, k)
    && a' == (if k < |a| then a
              else a + [Entry(k, MirrorMeterReading(Some(Sub(list, Dec(k))), post.mrid, post.description))])
    && a'[k].item.MirrorMeterReading?
  }

  /** The list of replicas: slot k holds the answered object, with the posted mRID, the description of
      the mirror, and the links that were posted or stood there before. */
  ghost predicate ReplicaPosted(b: Dict, b': Dict, list: string, description: Option<string>, v: ReturnValue,
                                post: MeterReadingPost, k: nat) {
    var href := Sub(list, Dec(k));
    && FirstAt(b, post.mrid, k) && v.item.MeterReading?
    && b' == (if k < |b| then b[k := Entry(k, v.item)] else b + [Entry(k, v.item)])
    && (k < |b| ==> b[k].item.MeterReading? && b[k].item.href == Some(href))
    && v.location == Some(href) && (v.wasUpdate <==> k < |b|)
    && v.item.href == Some(href) && v.item.mrid == post.mrid && v.item.description == description
    && v.item.readingTypeLink == (if post.readingType.Some? then Some(Sub(href, "rt"))
                                  else if k < |b| then b[k].item.readingTypeLink else None)
    && v.item.readingListLink == (if post.reading.Some? then Some(Sub(href, "r"))
                                  else if k < |b| then b[k].item.readingListLink else None)
    && v.item.readingSetListLink == Some(Sub(href, "rs"))
  }

  /** No other list of points and meter readings differs. */
  ghost predicate OthersKept(s: Store, s': Store, p: string) {
    forall u :: UriClass(u).Some? && UriClass(u).value in ABOVE_SETS && u != MmrList(p) && u != MrList(p) ==>
                  Items(s', u) == Items(s, u)
  }

  /** What an answered post leaves at slot k of both lists, and that it leaves all other entries of
      points and meter readings alone. */
  ghost predicate EntriesPosted(s: Store, s': Store, v: ReturnValue, p: string, post: MeterReadingPost, k: nat) {
    && MirrorPosted(Items(s, MmrList(p)), Items(s', MmrList(p)), MmrList(p), post, k)
    && ReplicaPosted(Items(s, MrList(p)), Items(s', MrList(p)), MrList(p), Items(s', MmrList(p))[k].item.description,
                     v, post, k)
    && OthersKept(s, s', p)
  }

  /** The lists after the save, and after the details. */
  lemma ListsOfPost(s: Store, p: string, post: MeterReadingPost)
    requires Inv(s, PointPaths()) && SetsUnborn(s) && RoutePath(p) && PostMeterReading(s, p, post).result.Ok?
    ensures var o, saved, k := PostMeterReading(s, p, post), SaveBoth(s, p, post).store, ReplicaRef(s, p, post).slot;
            && OnlyAt(saved, o.store, MrList(p), k) && k == HitSlot(Items(s, MmrList(p)), post.mrid)
            && o.result.value.wasUpdate == (k < |Items(s, MrList(p))|)
            && k < |Items(o.store, MrList(p))| && Items(o.store, MrList(p))[k] == Entry(k, o.result.value.item)
  {
    hide UriClass;
    hide Split;
    hide Replace;
    hide Inv;
    hide WellFormed;
    hide SetsUnborn;
    hide DetailsStored;
    hide CheckPoint;
    hide SaveBoth;
    hide OnlyAt;
    hide StoreDetails;
    hide PostMeterReading;
    hide HitSlot;
    hide Reflection;
    hide MirrorDescription;
    hide MrList;
    hide Sub;
    PostContents(s, p, post);
    PostMeterReadingAny(s, p, post);
    var o := PostMeterReading(s, p, post);
    var saved, ref := SaveBoth(s, p, post), ReplicaRef(s, p, post);
    assert CheckPoint(s, p).Ok? by {
      if CheckPoint(s, p).Raise? {
        UncheckedPost(s, p, post);
      }
    }
    SavedState(s, p, post);
    PostIsSaveThenDetails(s, p, post, ref, Sub(MrList(p), Dec(ref.slot)));
    DetailsOnlyAt(saved.store, ref, p, post);
    InvParts(o.store, "", PointPaths());
    TwoLists(p);
    ListFacts(o.store, MrList(p));
  }

  /** Slot k of the list was written, which is the next one if it was not there. */
  ghost predicate SlotWritten(b: Dict, b': Dict, k: nat) {
    k <= |b| && k < |b'| && b' == if k < |b| then b[k := b'[k]] else b + [b'[k]]
  }

  ghost predicate MirrorDescribes(a: Dict, k: nat, description: Option<string>) {
    k < |a| && a[k].item.MirrorMeterReading? && a[k].item.description == description
  }

  function ReplicaDescription(ref: Ref): Option<string> {
    if ref.item.MeterReading? then ref.item.description else None
  }

  /** The two lists of the post. */
  lemma ListsPosted(s: Store, p: string, post: MeterReadingPost)
    requires Inv(s, PointPaths()) && SetsUnborn(s) && RoutePath(p) && PostMeterReading(s, p, post).result.Ok?
    ensures var s', ref := PostMeterReading(s, p, post).store, ReplicaRef(s, p, post);
            && MirrorPosted(Items(s, MmrList(p)), Items(s', MmrList(p)), MmrList(p), post, ref.slot)
            && MirrorDescribes(Items(s', MmrList(p)), ref.slot, ReplicaDescription(ref))
            && SlotWritten(Items(s, MrList(p)), Items(s', MrList(p)), ref.slot) && OthersKept(s, s', p)
  {
    hide UriClass;
    hide Split;
    hide Replace;
    hide Inv;
    hide WellFormed;
    hide SetsUnborn;
    hide SaveBoth;
    hide PostMeterReading;
    hide HitSlot;
    hide Reflection;
    hide MirrorDescription;
    hide MmrList;
    hide MrList;
    hide Sub;
    InvParts(s, "", PointPaths());
    TwoLists(p);
    HitIsFirst(s, MmrList(p), post.mrid);
    HitIsFirst(s, MrList(p), post.mrid);
    SavedLists(s, p, post);
    SavedReplica(s, p, post);
    SaveBothFrame(s, p, post);
    ListsOfPost(s, p, post);
  }

  lemma EntriesPostedAt(s: Store, p: string, post: MeterReadingPost) returns (k: nat)
    requires Inv(s, PointPaths()) && SetsUnborn(s) && RoutePath(p) && PostMeterReading(s, p, post).result.Ok?
    ensures var o := PostMeterReading(s, p, post);
            EntriesPosted(s, o.store, o.result.value, p, post, k)
  {
    hide UriClass;
    hide Split;
    hide Replace;
    hide Inv;
    hide WellFormed;
    hide SetsUnborn;
    hide DetailsStored;
    hide MirrorPosted;
    hide SaveBoth;
    hide PostMeterReading;
    hide HitSlot;
    hide FirstAt;
    hide Reflection;
    hide MirrorDescription;
    hide MmrList;
    hide MrList;
    hide Sub;
    hide Items;
    InvParts(s, "", PointPaths());
    TwoLists(p);
    HitIsFirst(s, MrList(p), post.mrid);
    ListsPosted(s, p, post);
    SavedReplica(s, p, post);
    ListsOfPost(s, p, post);
    PostContents(s, p, post);
    k := ReplicaRef(s, p, post).slot;
  }

  /** In every state that runs can reach, an answered post of a meter reading on any routed path leaves
      the replica at the answered Location with the posted mRID, the description of its mirror, and
      the links that were posted or stood there before; a mirror is added with what was posted if and
      only if the mRID is new to its list, and no other entry is touched. */
  lemma PostedEntries(s: Store, p: string, post: MeterReadingPost) returns (k: nat)
    requires Reachable(s) && RoutePath(p) && PostMeterReading(s, p, post).result.Ok?
    ensures var o := PostMeterReading(s, p, post);
            EntriesPosted(s, o.store, o.result.value, p, post, k)
  {
    hide Inv;
    hide SetsUnborn;
    hide PostMeterReading;
    hide EntriesPosted;
    var requests: seq<Request> :| AllRouted(requests) && s == Run(EMPTY, requests);
    RunUnborn(requests);
    k := EntriesPostedAt(s, p, post);
  }

  /* A post whose reading is refused */

  lemma RefusedReading(s: Store, u: string, r: ReadingItem)
    requires WellFormed(s) && UriClass(u) == Some(ReadingClass) && CreateOrUpdateReading(s, u, r).result.Raise?
    ensures CreateOrUpdateReading(s, u, r).store == s
  {
    hide UriClass;
    hide Split;
    ListUriIsNoItem(u);
    ListFacts(s, u);
  }

  /** What has happened by then: the replica has the links of the type and of the list of readings. */
  lemma RefusedDetails(s: Store, ref: Ref, p: string, post: MeterReadingPost)
    requires Inv(s, PointPaths()) && SetsUnborn(s) && RoutePath(p)
    requires Denotes(s, ref) && ref.uri == MrList(p) && ref.item.MeterReading?
    requires !ReadingAccepted(Items(s, Sub(Sub(MrList(p), Dec(ref.slot)), "r")), post.reading)
    ensures var href := Sub(MrList(p), Dec(ref.slot));
            var (s1, ref1) := StoreType(s, ref, href, post.readingType);
            var o := StoreDetails(s, ref, href, post);
            o.result.Raise? && o.store == LinkReadings(s1, ref1, href).0
  {
    hide UriClass;
    hide Split;
    hide Replace;
    hide Inv;
    hide WellFormed;
    hide SetsUnborn;
    hide StoreType;
    hide LinkReadings;
    hide CreateOrUpdateReading;
    hide PostReadingSets;
    hide SetsAccepted;
    hide StateAtSets;
    hide ReadingAccepted;
    hide SetReadings;
    hide SetList;
    hide MrList;
    hide Sub;
    hide Items;
    hide Denotes;
    var href := Sub(MrList(p), Dec(ref.slot));
    var y := DetailPlaces(p, ref.slot);
    MirrorOfRoute(p);
    PointRoutes();
    StoreTypeInv(s, ref, href, post.readingType, PointPaths());
    var (s1, ref1) := StoreType(s, ref, href, post.readingType);
    TypeStored(s, ref, href, post.readingType);
    InvParts(s1, "", PointPaths());
    LinkReadingsInv(s1, ref1, href);
    ReadingPartAnswered(s1, ref1, href, post.reading);
    NoReadingAccepted(Items(s, Sub(href, "r")));
    var s2 := LinkReadings(s1, ref1, href).0;
    RefusedReading(s2, Sub(href, "r"), post.reading.value);
  }

  lemma NoReadingAccepted(d: Dict)
    ensures ReadingAccepted(d, None)
  {
  }

  /** The state a refused reading leaves: both entries saved, type and its link stored, the list of readings
      linked, but no reading and no set stored. */
  ghost predicate RefusedAt(s: Store, s': Store, p: string, post: MeterReadingPost, k: nat) {
    var a, a', b, b' := Items(s, MmrList(p)), Items(s', MmrList(p)), Items(s, MrList(p)), Items(s', MrList(p));
    var href := Sub(MrList(p), Dec(k));
    && MirrorPosted(a, a', MmrList(p), post, k) && FirstAt(b, post.mrid, k) && SlotWritten(b, b', k)
    && b'[k].item.MeterReading? && (k < |b| ==> b[k].item.MeterReading?)
    && MirrorDescribes(a', k, b'[k].item.description)
    && b'[k].item.href == Some(href) && b'[k].item.mrid == post.mrid
    && b'[k].item.readingTypeLink == (if post.readingType.Some? then Some(Sub(href, "rt"))
                                      else if k < |b| then b[k].item.readingTypeLink else None)
    && b'[k].item.readingListLink == Some(Sub(href, "r"))
    && b'[k].item.readingSetListLink == (if k < |b| then b[k].item.readingSetListLink else None)
    && (post.readingType.Some? ==>
          Sub(href, "rt") in s'.singles && s'.singles[Sub(href, "rt")] == post.readingType.value)
    && forall u :: u != MmrList(p) && u != MrList(p) ==> Items(s', u) == Items(s, u)
  }

  lemma LinkedReplica(s: Store, ref: Ref, href: string, t: Option<ReadingTypeData>)
    requires Denotes(s, ref) && ref.item.MeterReading?
    ensures var (s1, ref1) := StoreType(s, ref, href, t);
            var s2, d := LinkReadings(s1, ref1, href).0, Items(s, ref.uri);
            && ref.slot < |d|
            && Items(s2, ref.uri) ==
               d[ref.slot := Entry(d[ref.slot].key, MeterReading(ref.item.href, ref.item.mrid, ref.item.description,
                                                                 if t.Some? then Some(Sub(href, "rt"))
                                                                 else ref.item.readingTypeLink,
                                                                 Some(Sub(href, "r")), ref.item.readingSetListLink))]
            && (forall u :: u != ref.uri ==> Items(s2, u) == Items(s, u))
            && (t.Some? ==> Sub(href, "rt") in s2.singles && s2.singles[Sub(href, "rt")] == t.value)
  {
    hide Sub;
  }

  /** In every reachable state: a post whose own reading is refused, though its point exists and both searches
      end at one slot, raises and leaves exactly that. */
  lemma RefusedReadingLeaves(s: Store, p: string, post: MeterReadingPost) returns (k: nat)
    requires Reachable(s) && RoutePath(p) && PointExists(s, p) && SlotsAgree(s, p, post.mrid)
    requires !ReadingAccepted(Items(s, Sub(Target(s, p, post.mrid), "r")), post.reading)
    ensures PostMeterReading(s, p, post).result.Raise?
    ensures RefusedAt(s, PostMeterReading(s, p, post).store, p, post, k)
  {
    hide UriClass;
    hide Split;
    hide Replace;
    hide Inv;
    hide WellFormed;
    hide SetsUnborn;
    hide Untouched;
    hide CheckPoint;
    hide SaveBoth;
    hide PointExists;
    hide HitSlot;
    hide FirstAt;
    hide StoreDetails;
    hide StoreType;
    hide LinkReadings;
    hide ReadingAccepted;
    hide PostMeterReading;
    hide Reflection;
    hide MirrorDescription;
    hide MrList;
    hide MmrList;
    hide Sub;
    var requests: seq<Request> :| AllRouted(requests) && s == Run(EMPTY, requests);
    hide Run;
    hide AllRouted;
    RunUnborn(requests);
    RootsEqual(s, PointPaths());
    CheckedIffExists(s, p);
    SavedState(s, p, post);
    var saved, ref := SaveBoth(s, p, post), ReplicaRef(s, p, post);
    k := ref.slot;
    var href := Sub(MrList(p), Dec(k));
    var y := DetailPlaces(p, k);
    assert Items(saved.store, Sub(href, "r")) == Items(s, Sub(href, "r")) by {
      SameReadingList(s, saved.store, Sub(href, "r"));
    }
    RefusedDetails(saved.store, ref, p, post);
    LinkedReplica(saved.store, ref, href, post.readingType);
    PostIsSaveThenDetails(s, p, post, ref, href);
    var o := PostMeterReading(s, p, post);
    SavedIsRefused(s, o.store, p, post);
  }

  lemma SameReadingList(s: Store, s': Store, u: string)
    requires Untouched(s, s', SETS_AND_READINGS) && UriClass(u) == Some(ReadingClass)
    ensures Items(s', u) == Items(s, u)
  {
    hide UriClass;
  }

  lemma SavedIsRefused(s: Store, s': Store, p: string, post: MeterReadingPost)
    requires WellFormed(s) && RoutePath(p) && SlotsAgree(s, p, post.mrid)
    requires var saved, ref := SaveBoth(s, p, post).store, ReplicaRef(s, p, post);
             var d, href := Items(saved, MrList(p)), Sub(MrList(p), Dec(ref.slot));
             && ref.item.MeterReading? && ref.slot < |d|
             && Items(s', MrList(p)) ==
                d[ref.slot := Entry(d[ref.slot].key, MeterReading(ref.item.href, ref.item.mrid, ref.item.description,
                                                                  if post.readingType.Some? then Some(Sub(href, "rt"))
                                                                  else ref.item.readingTypeLink,
                                                                  Some(Sub(href, "r")), ref.item.readingSetListLink))]
             && (forall u :: u != MrList(p) ==> Items(s', u) == Items(saved, u))
             && (post.readingType.Some? ==>
                   Sub(href, "rt") in s'.singles && s'.singles[Sub(href, "rt")] == post.readingType.value)
    ensures RefusedAt(s, s', p, post, ReplicaRef(s, p, post).slot)
  {
    hide UriClass;
    hide WellFormed;
    hide SaveBoth;
    hide HitSlot;
    hide FirstAt;
    hide Reflection;
    hide MirrorDescription;
    hide MrList;
    hide MmrList;
    hide Sub;
    hide Split;
    hide Replace;
    TwoLists(p);
    HitIsFirst(s, MmrList(p), post.mrid);
    HitIsFirst(s, MrList(p), post.mrid);
    SavedLists(s, p, post);
    SavedReplica(s, p, post);
    SaveBothFrame(s, p, post);
  }
}
