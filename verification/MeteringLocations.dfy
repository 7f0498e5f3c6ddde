/** Reachable metering states, and that the hrefs the server hands out lead back to the objects. */
module MeteringLocations {
  import opened Wrappers
  import opened Text
  import opened ListStore
  import opened MeteringSpec
  import opened MeteringUris
  import opened MeteringInvariant
  import opened MeteringSteps
  import opened MeteringSaves
  import opened MeteringPoints
  import opened MeteringServer
  import Paging
  import Hrefs = MeteringHrefs

  /** A state that some run of routed requests reaches, whatever failed in it. */
  ghost predicate Reachable(s: Store) {
    exists requests: seq<Request> :: AllRouted(requests) && s == Run(EMPTY, requests)
  }

  lemma ReachableInv(s: Store)
    requires Reachable(s)
    ensures Inv(s, PointPaths())
  {
    hide Inv;
    var requests: seq<Request> :| AllRouted(requests) && s == Run(EMPTY, requests);
    RunKeeps(requests);
  }

  /* The two trees agree */

  lemma PlacePaths(i: nat, j: nat)
    ensures Hrefs.Href(MUP_ROOT, Hrefs.MeterReadingList(i)) == MeterReadingListHref(MUP_ROOT, i)
    ensures Hrefs.Href(UPT_ROOT, Hrefs.MeterReadingList(i)) == MeterReadingListHref(UPT_ROOT, i)
    ensures exists y :: '/' !in y
                        && Hrefs.Href(MUP_ROOT, Hrefs.ReadingSetList(i, j)) == Sub(Mup(y), "rs")
                        && Hrefs.Href(UPT_ROOT, Hrefs.ReadingSetList(i, j)) == Sub(Upt(y), "rs")
  {
    hide Split;
    hide Hrefs.Href;
    assert MUP_ROOT == Mup("") && UPT_ROOT == Upt("");
    forall root | root == MUP_ROOT || root == UPT_ROOT
      ensures Hrefs.Href(root, Hrefs.MeterReadingList(i)) == MeterReadingListHref(root, i)
      ensures Hrefs.Href(root, Hrefs.ReadingSetList(i, j)) == Sub(Sub(MeterReadingListHref(root, i), Dec(j)), "rs")
    {
      PlaceChain(root, i, j);
    }
    MupSub("", Dec(i));
    MupSub(Sub("", Dec(i)), "mr");
    MupSub(Sub(Sub("", Dec(i)), "mr"), Dec(j));
    var y := Sub(Sub(Sub("", Dec(i)), "mr"), Dec(j));
    assert Hrefs.Href(UPT_ROOT, Hrefs.ReadingSetList(i, j)) == Sub(Upt(y), "rs");
    assert '/' !in y;
  }

  lemma PlaceChain(root: string, i: nat, j: nat)
    ensures Hrefs.Href(root, Hrefs.MeterReadingList(i)) == MeterReadingListHref(root, i)
    ensures Hrefs.Href(root, Hrefs.ReadingSetList(i, j)) == Sub(Sub(MeterReadingListHref(root, i), Dec(j)), "rs")
  {
    hide Split;
    Hrefs.HrefOverParent(root, Hrefs.MeterReadingList(i));
    Hrefs.JoinIsSub(root, Dec(i));
    Hrefs.HrefOverParent(root, Hrefs.MeterReading(i, j));
    Hrefs.HrefOverParent(root, Hrefs.ReadingSetList(i, j));
  }

  /** In every reachable state the trees of mirrors and of replicas agree, level by level: points and
      meter readings in their mRIDs, reading sets in what was posted of them. */
  lemma TreesAgree(s: Store)
    requires Reachable(s)
    ensures SameMrids(Items(s, MUP_ROOT), Items(s, UPT_ROOT))
    ensures forall i, j :: 0 <= i < j < |Items(s, MUP_ROOT)| ==>
                             Attr(Items(s, MUP_ROOT)[i].item, MRID) != Attr(Items(s, MUP_ROOT)[j].item, MRID)
    ensures forall i: nat :: SameMrids(Items(s, Hrefs.Href(MUP_ROOT, Hrefs.MeterReadingList(i))),
                                       Items(s, Hrefs.Href(UPT_ROOT, Hrefs.MeterReadingList(i))))
    ensures forall i: nat, j: nat :: SameSets(Items(s, Hrefs.Href(MUP_ROOT, Hrefs.ReadingSetList(i, j))),
                                              Items(s, Hrefs.Href(UPT_ROOT, Hrefs.ReadingSetList(i, j))))
  {
    hide UriClass;
    hide Split;
    hide Hrefs.Href;
    ReachableInv(s);
    forall i: nat
      ensures SameMrids(Items(s, Hrefs.Href(MUP_ROOT, Hrefs.MeterReadingList(i))),
                        Items(s, Hrefs.Href(UPT_ROOT, Hrefs.MeterReadingList(i))))
    {
      PlacePaths(i, 0);
      PointPathIsRoute(i);
      assert PointPath(i) in PointPaths();
      InvAt(s, PointPath(i), PointPaths());
    }
    forall i: nat, j: nat
      ensures SameSets(Items(s, Hrefs.Href(MUP_ROOT, Hrefs.ReadingSetList(i, j))),
                       Items(s, Hrefs.Href(UPT_ROOT, Hrefs.ReadingSetList(i, j))))
    {
      PlacePaths(i, j);
      var y :| '/' !in y && Hrefs.Href(MUP_ROOT, Hrefs.ReadingSetList(i, j)) == Sub(Mup(y), "rs")
               && Hrefs.Href(UPT_ROOT, Hrefs.ReadingSetList(i, j)) == Sub(Upt(y), "rs");
      SetsAt(s, y);
    }
  }

  lemma SetsAt(s: Store, y: string)
    requires Inv(s, PointPaths())
    ensures SameSets(Items(s, Sub(Mup(y), "rs")), Items(s, Sub(Upt(y), "rs")))
  {
    hide UriClass;
  }

  /* Dispatch */

  /** The number an item is kept under. */
  function Number(p: Hrefs.Place): nat {
    match p
    case UsagePoint(i) => i
    case MeterReading(_, j) => j
    case ReadingSet(_, _, k) => k
    case SetReading(_, _, _, l) => l
    case Reading(_, _, k) => k
    case _ => 0
  }

  predicate SortedPlace(p: Hrefs.Place) {
    p.ReadingSetList? || p.SetReadingList? || p.ReadingList?
  }

  /** Which list and key each href of the tree is dispatched to. */
  lemma DispatchReads(s: Store, p: Hrefs.Place, start: int, after: int, limit: int)
    requires !p.UsagePoint?
    ensures var path := Hrefs.Href(UPT_ROOT, p);
            UsagePointGet(s, path, start, after, limit) ==
            if p.ReadingType? then Outcome(s, Ok(TypeOf(if path in s.index then Some(s.index[path]) else None)))
            else if Hrefs.IsItem(p) then
              (match Get(s, Hrefs.Enclosing(UPT_ROOT, p), Number(p))
               case Raise(e) => Outcome(s, Raise(e))
               case Ok(ref) => Outcome(s, Ok(Single(ref.item))))
            else GetResourceList(s, path, start, after, limit, SortedPlace(p))
  {
    hide Split;
    hide GetResourceList;
    hide Hrefs.Href;
    Hrefs.ParserReadsBuilder(UPT_ROOT, p);
    Hrefs.LastListEncloses(UPT_ROOT, p);
    hide Hrefs.HasReadingList;
    hide Hrefs.HasReadingSetList;
    hide Hrefs.HasMeterReadingList;
    hide Hrefs.HasReadingType;
    hide Hrefs.ReadingIndex;
    hide Hrefs.ReadingSetIndex;
    hide Hrefs.MeterReadingIndex;
    hide Hrefs.LastList;
  }

  /** A usage point cannot be read through its own href: the handler has no branch for it and
      takes it for a list that was never initialised. */
  lemma UsagePointNotServed(s: Store, i: nat, start: int, after: int, limit: int)
    requires Reachable(s)
    ensures UsagePointGet(s, PointHref(UPT_ROOT, i), start, after, limit) == Outcome(s, Raise(KeyError))
  {
    hide UriClass;
    hide Split;
    ReachableInv(s);
    InvParts(s, "", PointPaths());
    var p := Hrefs.UsagePoint(i);
    Hrefs.JoinIsSub(UPT_ROOT, Dec(i));
    Hrefs.ParserReadsBuilder(UPT_ROOT, p);
    hide Hrefs.HasReadingList;
    hide Hrefs.HasReadingSetList;
    hide Hrefs.HasMeterReadingList;
    var path := PointHref(UPT_ROOT, i);
    if path in s.types {
      ListUriIsNoItem(path);
      LastOfNumbered(UPT_ROOT, i);
      DecValue(i);
    }
  }

  /** An entry of a dense list whose href is its place is what a read of that place answers. */
  lemma GetAtSlot(s: Store, u: string, k: nat)
    requires WellFormed(s) && UriClass(u).Some? && UriClass(u).value != ReadingClass && k < |Items(s, u)|
    ensures Get(s, u, k) == Ok(Ref(u, k, Items(s, u)[k].item))
    ensures Items(s, u)[k].item.href == Some(Sub(u, Dec(k)))
  {
    hide UriClass;
    assert ListOk(u, Items(s, u), UriClass(u).value);
    DenseSlot(Items(s, u), k);
  }

  lemma ItemHref(p: Hrefs.Place)
    requires Hrefs.IsItem(p)
    ensures Hrefs.Href(UPT_ROOT, p) == Sub(Hrefs.Enclosing(UPT_ROOT, p), Dec(Number(p)))
  {
    if p.UsagePoint? {
      Hrefs.JoinIsSub(UPT_ROOT, Dec(p.upt));
    } else {
      Hrefs.HrefOverParent(UPT_ROOT, p);
    }
  }

  /** The list of a meter reading or of a reading set, by the class of its objects. */
  lemma PlaceClass(p: Hrefs.Place)
    requires p.MeterReading? || p.ReadingSet?
    ensures UriClass(Hrefs.Enclosing(UPT_ROOT, p))
         == Some(if p.MeterReading? then MeterReadingClass else ReadingSetClass)
  {
    hide UriClass;
    hide Split;
    hide Hrefs.Href;
    match p
    case MeterReading(i, j) =>
      PlacePaths(i, 0);
      CanonicalClasses(i);
    case ReadingSet(i, j, k) =>
      PlacePaths(i, j);
      var y :| '/' !in y && Hrefs.Href(UPT_ROOT, Hrefs.ReadingSetList(i, j)) == Sub(Upt(y), "rs");
      SubClasses(y);
  }

  lemma ServedInPlace(s: Store, p: Hrefs.Place, start: int, after: int, limit: int)
    requires WellFormed(s) && (p.MeterReading? || p.ReadingSet?)
    requires Number(p) < |Items(s, Hrefs.Enclosing(UPT_ROOT, p))|
    ensures var item := Items(s, Hrefs.Enclosing(UPT_ROOT, p))[Number(p)].item;
            && item.href == Some(Hrefs.Href(UPT_ROOT, p))
            && UsagePointGet(s, item.href.value, start, after, limit) == Outcome(s, Ok(Single(item)))
  {
    hide UriClass;
    hide WellFormed;
    hide Hrefs.Href;
    hide Hrefs.Enclosing;
    hide UsagePointGet;
    hide Get;
    hide Items;
    PlaceClass(p);
    DispatchReads(s, p, start, after, limit);
    ItemHref(p);
    GetAtSlot(s, Hrefs.Enclosing(UPT_ROOT, p), Number(p));
  }

  /** Every meter reading and every reading set below a usage point is read back through its own
      href, in every reachable state. */
  lemma StoredIsServed(s: Store, p: Hrefs.Place, start: int, after: int, limit: int)
    requires Reachable(s) && (p.MeterReading? || p.ReadingSet?)
    requires Number(p) < |Items(s, Hrefs.Enclosing(UPT_ROOT, p))|
    ensures var item := Items(s, Hrefs.Enclosing(UPT_ROOT, p))[Number(p)].item;
            && item.href == Some(Hrefs.Href(UPT_ROOT, p))
            && UsagePointGet(s, item.href.value, start, after, limit) == Outcome(s, Ok(Single(item)))
  {
    hide Inv;
    hide WellFormed;
    hide Hrefs.Href;
    hide Hrefs.Enclosing;
    hide UsagePointGet;
    ReachableInv(s);
    InvParts(s, "", PointPaths());
    ServedInPlace(s, p, start, after, limit);
  }

  /** The Location answered to the post of a mirror usage point, new or known, reads back the
      stored object, which carries what was posted. */
  lemma PointLocation(s: Store, post: UsagePointPost)
    requires Reachable(s) && CreateMirrorUsagePoint(s, post).result.Ok?
    ensures var Outcome(s', Ok(v)) := CreateMirrorUsagePoint(s, post);
            && v.location.Some? && RoutePath(v.location.value)
            && exists item: Resource ::
                 && item.MirrorUsagePoint? && item.mrid == post.mrid && item.usage == post.usage
                 && item.href == v.location
                 && MirrorUsagePointGet(s', v.location.value) == Outcome(s', Ok(Single(item)))
  {
    hide UriClass;
    hide Split;
    hide Inv;
    hide Separated;
    hide MirrorUsagePointGet;
    hide FindUsagePoint;
    hide AddMeterReadings;
    ReachableInv(s);
    SeparatedPointsOnly();
    CreateMirrorUsagePointInv(s, post, PointPaths());
    InvParts(s, "", PointPaths());
    FindUsagePointHit(s, post.mrid);
    var o := CreateMirrorUsagePoint(s, post);
    InvParts(o.store, "", PointPaths());
    match FindUsagePoint(s, post.mrid).value
    case None =>
      var n := |Items(s, MUP_ROOT)|;
      NewPointRoots(s, post);
      PointServed(o.store, n);
    case Some(ref) =>
      PointServed(o.store, ref.slot);
  }

  lemma NewPointRoots(s: Store, post: UsagePointPost)
    requires Inv(s, PointPaths()) && FindUsagePoint(s, post.mrid) == Ok(None)
    requires CreateMirrorUsagePoint(s, post).result.Ok?
    ensures var n := |Items(s, MUP_ROOT)|;
            var mup := MirrorUsagePoint(Some(PointHref(MUP_ROOT, n)), post.mrid, post.usage, post.postRate);
            && Items(CreateMirrorUsagePoint(s, post).store, MUP_ROOT) == Items(s, MUP_ROOT) + [Entry(n, mup)]
            && CreateMirrorUsagePoint(s, post).result.value.location == mup.href
  {
    hide UriClass;
    hide Split;
    hide Inv;
    hide Separated;
    hide CreateMirrorUsagePoint;
    hide AddMeterReadings;
    hide CreateUsagePointPair;
    var n := |Items(s, MUP_ROOT)|;
    SeparatedPointsOnly();
    RootsEqual(s, PointPaths());
    NewPointInv(s, post, PointPaths());
    PointPairAppends(s, post);
    var s2 := CreateUsagePointPair(s, post).store;
    assert forall c, u :: InitializeUri(s2, u, c).store.lists == s2.lists;
    AddMeterReadingsKeepsRoots(NewPoint(s, post), n, post.meterReadings, 0);
  }

  lemma PointServed(s: Store, k: nat)
    requires WellFormed(s) && k < |Items(s, MUP_ROOT)|
    ensures MirrorUsagePointGet(s, PointPath(k)) == Outcome(s, Ok(Single(Items(s, MUP_ROOT)[k].item)))
    ensures Items(s, MUP_ROOT)[k].item.href == Some(PointPath(k)) && RoutePath(PointPath(k))
  {
    hide UriClass;
    hide Split;
    RootClasses();
    GetAtSlot(s, MUP_ROOT, k);
    PointPathIsRoute(k);
    Hrefs.JoinIsSub(MUP_ROOT, Dec(k));
    Hrefs.ParserReadsBuilder(MUP_ROOT, Hrefs.UsagePoint(k));
    assert StartsWith(PointPath(k), MUP_ROOT);
  }

  /** The Location answered to the post of a meter reading on a usage point's href reads back the
      stored object, with the posted mRID. */
  lemma MeterLocation(s: Store, i: nat, post: MeterReadingPost, start: int, after: int, limit: int)
    requires Reachable(s) && PostMeterReading(s, PointPath(i), post).result.Ok?
    ensures var Outcome(s', Ok(v)) := PostMeterReading(s, PointPath(i), post);
            && v.location.Some? && v.item.MeterReading? && v.item.mrid == post.mrid && v.item.href == v.location
            && UsagePointGet(s', v.location.value, start, after, limit) == Outcome(s', Ok(Single(v.item)))
  {
    hide Inv;
    hide WellFormed;
    hide PostMeterReading;
    hide UsagePointGet;
    hide MrList;
    hide HitSlot;
    hide Sub;
    hide Hrefs.Href;
    ReachableInv(s);
    PointPathIsRoute(i);
    PlacePaths(i, 0);
    PostMeterReadingAny(s, PointPath(i), post);
    var o := PostMeterReading(s, PointPath(i), post);
    InvParts(o.store, "", PointPaths());
    var p := Hrefs.MeterReading(i, HitSlot(Items(s, MrList(PointPath(i))), post.mrid));
    ItemHref(p);
    ServedInPlace(o.store, p, start, after, limit);
  }

  /** The href given to a new reading, of a meter reading or of a reading set, reads it back. */
  lemma ReadingLocation(s: Store, p: Hrefs.Place, r: ReadingItem, start: int, after: int, limit: int)
    requires Reachable(s) && (p.Reading? || p.SetReading?)
    requires var u := Hrefs.Enclosing(UPT_ROOT, p);
             && Number(p) == |Items(s, u)| && FirstWhere(Items(s, u), LOCAL_ID, r.localId).Missing?
    ensures var o := CreateOrUpdateReading(s, Hrefs.Enclosing(UPT_ROOT, p), r);
            && o.result.Ok? && o.result.value.location == Some(Hrefs.Href(UPT_ROOT, p))
            && o.result.value.item == WithHref(r, Hrefs.Href(UPT_ROOT, p))
            && UsagePointGet(o.store, Hrefs.Href(UPT_ROOT, p), start, after, limit)
               == Outcome(o.store, Ok(Single(o.result.value.item)))
  {
    hide UriClass;
    hide Split;
    hide Hrefs.Href;
    hide UsagePointGet;
    ReachableInv(s);
    InvParts(s, "", PointPaths());
    var u := Hrefs.Enclosing(UPT_ROOT, p);
    ReadingListClass(p);
    ListUriIsNoItem(u);
    ItemHref(p);
    var o := CreateOrUpdateReading(s, u, r);
    PutThenSlot(Items(s, u), Number(p), WithHref(r, Hrefs.Href(UPT_ROOT, p)));
    DispatchReads(o.store, p, start, after, limit);
  }

  /* Updated readings */

  /** The list and the key that a path is read from, when the handler takes it for an item. */
  function ReadTarget(path: string): Option<(string, int)> {
    var index := if Hrefs.HasReadingList(path) then Hrefs.ReadingIndex(path)
                 else if Hrefs.HasReadingSetList(path) then Hrefs.ReadingSetIndex(path)
                 else if Hrefs.HasMeterReadingList(path)
                         && !Hrefs.HasReadingType(path) then Hrefs.MeterReadingIndex(path)
                 else Hrefs.Absent;
    match index
    case Index(v) => Some((Hrefs.LastList(path), v))
    case _ => None
  }

  /** A path answers an item exactly when it has a target and something is stored there. */
  lemma GetReads(s: Store, path: string, start: int, after: int, limit: int)
    ensures var o := UsagePointGet(s, path, start, after, limit);
            var t := ReadTarget(path);
            && (o.result.Ok? && o.result.value.Single? <==> t.Some? && Get(s, t.value.0, t.value.1).Ok?)
            && (t.Some? && Get(s, t.value.0, t.value.1).Ok? ==>
                  o == Outcome(s, Ok(Single(Get(s, t.value.0, t.value.1).value.item))))
  {
    hide Split;
    hide LatestFirst;
    hide Get;
  }

  lemma PlaceTarget(p: Hrefs.Place)
    requires Hrefs.IsItem(p) && !p.UsagePoint?
    ensures ReadTarget(Hrefs.Href(UPT_ROOT, p)) == Some((Hrefs.Enclosing(UPT_ROOT, p), Number(p)))
  {
    hide Split;
    hide Hrefs.Href;
    Hrefs.ParserReadsBuilder(UPT_ROOT, p);
    Hrefs.LastListEncloses(UPT_ROOT, p);
    hide Hrefs.HasReadingList;
    hide Hrefs.HasReadingSetList;
    hide Hrefs.HasMeterReadingList;
    hide Hrefs.HasReadingType;
    hide Hrefs.ReadingIndex;
    hide Hrefs.ReadingSetIndex;
    hide Hrefs.MeterReadingIndex;
    hide Hrefs.LastList;
  }

  lemma GetIsLookup(s: Store, u: string, key: int)
    ensures Get(s, u, key).Ok? <==> u in s.lists && Lookup(s.lists[u], key).Some?
    ensures Get(s, u, key).Ok? ==> Some(Get(s, u, key).value.item) == Lookup(s.lists[u], key)
  {
  }

  /** The location answered to this update reads back the posted reading. */
  ghost predicate UpdateReadBack(s: Store, u: string, r: ReadingItem, start: int, after: int, limit: int) {
    var o := CreateOrUpdateReading(s, u, r);
    o.result.Ok? ==>
      && o.result.value.location.Some?
      && UsagePointGet(o.store, o.result.value.location.value, start, after, limit) == Outcome(o.store, Ok(Single(r)))
  }

  lemma UpdateStores(s: Store, u: string, r: ReadingItem, h: string)
    requires var d := Items(s, u);
             var hit := FirstWhere(d, LOCAL_ID, r.localId);
             hit.Found? && d[hit.slot].item.href == Some(h)
    ensures var o := CreateOrUpdateReading(s, u, r);
            && (o.result.Ok? <==> KeyOfHref(Some(h)).Ok?)
            && (o.result.Ok? ==>
                  && o.result.value == ReturnValue(Items(s, u)[FirstWhere(Items(s, u), LOCAL_ID, r.localId).slot].item,
                                                   true, Some(h))
                  && u in s.lists && o.store.lists == s.lists[u := Put(s.lists[u], KeyOfHref(Some(h)).value, r)])
  {
    hide KeyOfHref;
    hide Put;
  }

  /** What is read back of an update whose target is elsewhere does not depend on the update. */
  lemma ElsewhereUnchanged(s: Store, s': Store, u: string, key: int, r: ReadingItem, l: string, v: int)
    requires u in s.lists && s'.lists == s.lists[u := Put(s.lists[u], key, r)] && (l, v) != (u, key)
    ensures Get(s', l, v).Ok? <==> Get(s, l, v).Ok?
    ensures Get(s, l, v).Ok? ==> Get(s', l, v).value.item == Get(s, l, v).value.item
  {
    hide Put;
    PutLookup(s.lists[u], key, r);
    GetIsLookup(s, l, v);
    GetIsLookup(s', l, v);
  }

  /** An answered update is read back, whatever its reading, if and only if the href of the entry it
      replaces is read from the very list and key that the update writes. */
  lemma ReadingUpdateLocationIff(s: Store, u: string, id: Option<string>, h: string, start: int, after: int, limit: int)
    requires var d := Items(s, u);
             var hit := FirstWhere(d, LOCAL_ID, id);
             hit.Found? && d[hit.slot].item.href == Some(h)
    ensures (forall r: ReadingItem :: r.localId == id ==> UpdateReadBack(s, u, r, start, after, limit))
       <==> (KeyOfHref(Some(h)).Ok? ==> ReadTarget(h) == Some((u, KeyOfHref(Some(h)).value)))
  {
    hide UsagePointGet;
    hide CreateOrUpdateReading;
    hide KeyOfHref;
    hide ReadTarget;
    hide Get;
    hide Put;
    var key := KeyOfHref(Some(h));
    forall r: ReadingItem | r.localId == id && (key.Ok? ==> ReadTarget(h) == Some((u, key.value)))
      ensures UpdateReadBack(s, u, r, start, after, limit)
    {
      UpdateStores(s, u, r, h);
      var o := CreateOrUpdateReading(s, u, r);
      if o.result.Ok? {
        PutLookup(s.lists[u], key.value, r);
        GetIsLookup(o.store, u, key.value);
        GetReads(o.store, h, start, after, limit);
      }
    }
    if key.Ok? && ReadTarget(h) != Some((u, key.value)) {
      var r0: ReadingItem, r1: ReadingItem := Reading(None, id, None, Some(0)), Reading(None, id, None, Some(1));
      UpdateStores(s, u, r0, h);
      UpdateStores(s, u, r1, h);
      var s0, s1 := CreateOrUpdateReading(s, u, r0).store, CreateOrUpdateReading(s, u, r1).store;
      GetReads(s0, h, start, after, limit);
      GetReads(s1, h, start, after, limit);
      if ReadTarget(h).Some? {
        var (l, v) := ReadTarget(h).value;
        ElsewhereUnchanged(s, s0, u, key.value, r0, l, v);
        ElsewhereUnchanged(s, s1, u, key.value, r1, l, v);
      }
      assert !(UpdateReadBack(s, u, r0, start, after, limit) && UpdateReadBack(s, u, r1, start, after, limit));
    }
  }

  /** So is an update of a reading that still has the href of a place in its list. */
  lemma ReadingUpdateLocation(s: Store, p: Hrefs.Place, r: ReadingItem, start: int, after: int, limit: int)
    requires p.Reading? || p.SetReading?
    requires var d := Items(s, Hrefs.Enclosing(UPT_ROOT, p));
             var h := FirstWhere(d, LOCAL_ID, r.localId);
             h.Found? && d[h.slot].item.href == Some(Hrefs.Href(UPT_ROOT, p))
    ensures var u := Hrefs.Enclosing(UPT_ROOT, p);
            var d, o := Items(s, u), CreateOrUpdateReading(s, u, r);
            && o.result == Ok(ReturnValue(d[FirstWhere(d, LOCAL_ID, r.localId).slot].item, true,
                                          Some(Hrefs.Href(UPT_ROOT, p))))
            && UsagePointGet(o.store, Hrefs.Href(UPT_ROOT, p), start, after, limit) == Outcome(o.store, Ok(Single(r)))
  {
    hide Split;
    hide Hrefs.Href;
    hide Hrefs.Enclosing;
    hide UsagePointGet;
    hide CreateOrUpdateReading;
    hide ReadTarget;
    hide PyInt;
    var u, h := Hrefs.Enclosing(UPT_ROOT, p), Hrefs.Href(UPT_ROOT, p);
    ItemHref(p);
    LastOfNumbered(u, Number(p));
    DecValue(Number(p));
    PlaceTarget(p);
    UpdateStores(s, u, r, h);
    ReadingUpdateLocationIff(s, u, r.localId, h, start, after, limit);
    assert UpdateReadBack(s, u, r, start, after, limit);
  }

  lemma PutThenSlot(d: Dict, key: int, item: Resource)
    ensures var d' := Put(d, key, item);
            && Slot(d', key) < |d'| && d'[Slot(d', key)].item == item
  {
    var d' := Put(d, key, item);
    var k := Slot(d, key);
    assert d'[k].key == key && forall j :: 0 <= j < k ==> d'[j].key != key;
  }

  lemma ReadingListClass(p: Hrefs.Place)
    requires p.Reading? || p.SetReading?
    ensures UriClass(Hrefs.Enclosing(UPT_ROOT, p)) == Some(ReadingClass)
  {
    hide Split;
    hide UriClass;
    hide Hrefs.Href;
    PlacePaths(p.upt, p.mr);
    var y :| '/' !in y && Hrefs.Href(UPT_ROOT, Hrefs.ReadingSetList(p.upt, p.mr)) == Sub(Upt(y), "rs");
    PlaceChain(UPT_ROOT, p.upt, p.mr);
    if p.Reading? {
      Hrefs.HrefOverParent(UPT_ROOT, Hrefs.ReadingList(p.upt, p.mr));
      Hrefs.HrefOverParent(UPT_ROOT, Hrefs.ReadingSetList(p.upt, p.mr));
      SubInjective(Hrefs.Href(UPT_ROOT, Hrefs.MeterReading(p.upt, p.mr)), "rs", Upt(y), "rs");
      SubClasses(y);
    } else {
      Hrefs.HrefOverParent(UPT_ROOT, Hrefs.ReadingSet(p.upt, p.mr, p.rs));
      Hrefs.HrefOverParent(UPT_ROOT, Hrefs.SetReadingList(p.upt, p.mr, p.rs));
      SetPlace(y, p.rs);
    }
  }
}
