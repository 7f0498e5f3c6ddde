/** What posts keep of the mirrors of meter readings over whole runs, and the statuses they answer. */
module MeteringRuns {
  import opened Wrappers
  import opened Text
  import opened ListStore
  import opened MeteringSpec
  import opened MeteringUris
  import opened MeteringInvariant
  import opened MeteringSteps
  import opened MeteringSaves
  import opened MeteringPoints
  import opened MeteringServer
  import opened MeteringTheorems
  import opened MeteringLocations
  import opened MeteringContents
  import opened MeteringDetails
  import opened MeteringEntries
  import opened MeteringNewPoints

  /* Mirrors over runs */

  /** Every list of mirror meter readings keeps its entries. */
  ghost predicate MirrorsKept(s: Store, s': Store) {
    forall u :: UriClass(u) == Some(MirrorMeterReadingClass) ==> Items(s, u) <= Items(s', u)
  }

  lemma MirrorsKeptTransitive(s: Store, s1: Store, s2: Store)
    requires MirrorsKept(s, s1) && MirrorsKept(s1, s2)
    ensures MirrorsKept(s, s2)
  {
    hide UriClass;
    forall u | UriClass(u) == Some(MirrorMeterReadingClass) ensures Items(s, u) <= Items(s2, u) {
      assert Items(s, u) <= Items(s1, u) <= Items(s2, u);
    }
  }

  lemma OnlyAtKeeps(s: Store, s': Store, u: string, k: nat)
    requires OnlyAt(s, s', u, k) && UriClass(u) == Some(MeterReadingClass)
    ensures MirrorsKept(s, s')
  {
    hide UriClass;
  }

  lemma SaveKeepsMirrors(s: Store, p: string, post: MeterReadingPost)
    requires WellFormed(s) && RoutePath(p)
    ensures MirrorsKept(s, SaveBoth(s, p, post).store)
  {
    hide UriClass;
    hide WellFormed;
    hide Split;
    hide Replace;
    hide SaveBoth;
    hide HitSlot;
    hide Reflection;
    hide MirrorDescription;
    hide Sub;
    hide MmrList;
    hide MrList;
    TwoLists(p);
    SavedLists(s, p, post);
    SaveBothFrame(s, p, post);
  }

  lemma MeterPostKeepsMirrors(s: Store, p: string, post: MeterReadingPost)
    requires Inv(s, PointPaths()) && SetsUnborn(s) && RoutePath(p)
    ensures MirrorsKept(s, PostMeterReading(s, p, post).store)
  {
    hide UriClass;
    hide Split;
    hide Replace;
    hide Inv;
    hide WellFormed;
    hide SetsUnborn;
    hide CheckPoint;
    hide SaveBoth;
    hide SlotsAgree;
    hide MirrorsKept;
    hide StoreDetails;
    hide PostMeterReading;
    hide Reflection;
    hide MirrorDescription;
    hide MrList;
    hide Sub;
    InvParts(s, "", PointPaths());
    SameMirrors(s);
    if CheckPoint(s, p).Raise? {
      UncheckedPost(s, p, post);
    } else {
      SavedState(s, p, post);
      SaveKeepsMirrors(s, p, post);
      var saved, ref := SaveBoth(s, p, post), ReplicaRef(s, p, post);
      if SlotsAgree(s, p, post.mrid) {
        var href := Sub(MrList(p), Dec(ref.slot));
        PostIsSaveThenDetails(s, p, post, ref, href);
        DetailsOnlyAt(saved.store, ref, p, post);
        TwoLists(p);
        OnlyAtKeeps(saved.store, PostMeterReading(s, p, post).store, MrList(p), ref.slot);
        MirrorsKeptTransitive(s, saved.store, PostMeterReading(s, p, post).store);
      } else {
        FailedSave(s, p, post);
      }
    }
  }

  lemma SameMirrors(s: Store)
    ensures MirrorsKept(s, s)
  {
  }

  lemma PointPostKeepsMirrors(s: Store, post: UsagePointPost)
    requires Inv(s, PointPaths())
    ensures MirrorsKept(s, CreateMirrorUsagePoint(s, post).store)
  {
    hide UriClass;
    hide Split;
    hide Inv;
    hide WellFormed;
    hide CreateMirrorUsagePoint;
    hide FindUsagePoint;
    hide MirrorsStored;
    hide ReplicasStored;
    hide TypesStored;
    hide Join;
    hide Sub;
    RootClasses();
    RootsEqual(s, PointPaths());
    FindUsagePointHit(s, post.mrid);
    match FindUsagePoint(s, post.mrid).value
    case None =>
      var n := |Items(s, MUP_ROOT)|;
      PointStoredIn(s, post);
      JoinedHrefs(MUP_ROOT, n, "mr", 0);
      JoinedHrefs(UPT_ROOT, n, "mr", 0);
      CanonicalClasses(n);
      NotBorn(s, n);
    case Some(ref) =>
      KnownPoint(s, post, ref);
  }

  lemma NotBorn(s: Store, n: nat)
    requires Inv(s, PointPaths()) && n >= |Items(s, MUP_ROOT)|
    ensures Items(s, MeterReadingListHref(MUP_ROOT, n)) == []
    ensures Items(s, MeterReadingListHref(UPT_ROOT, n)) == []
  {
    hide UriClass;
  }

  lemma HandleKeepsMirrors(s: Store, r: Request)
    requires Inv(s, PointPaths()) && SetsUnborn(s) && Routed(r)
    ensures MirrorsKept(s, Handle(s, r).store)
  {
    hide Inv;
    hide Split;
    hide SetsUnborn;
    hide MirrorsKept;
    hide PostMeterReading;
    hide CreateMirrorUsagePoint;
    SameMirrors(s);
    match r
    case PostPoint(_, post) =>
      PointPostKeepsMirrors(s, post);
    case PostMeter(path, post) =>
      MeterPostKeepsMirrors(s, path, post);
    case PostSet(_) =>
    case GetMirror(_) =>
      ReadsUntouched(s, r);
      SameListsKeepMirrors(s, Handle(s, r).store);
    case GetUsage(_, _, _, _) =>
      ReadsUntouched(s, r);
      SameListsKeepMirrors(s, Handle(s, r).store);
  }

  lemma SameListsKeepMirrors(s: Store, s': Store)
    requires forall u :: Items(s', u) == Items(s, u)
    ensures MirrorsKept(s, s')
  {
    hide UriClass;
  }

  /** Once stored, the mirror of a meter reading never changes: later posts, answered or not, only add. */
  lemma {:induction false} MirrorsOnlyGrow(s: Store, more: seq<Request>)
    requires Inv(s, PointPaths()) && SetsUnborn(s) && AllRouted(more)
    ensures MirrorsKept(s, Run(s, more))
    ensures Inv(Run(s, more), PointPaths()) && SetsUnborn(Run(s, more))
    decreases |more|
  {
    hide Inv;
    hide Handle;
    hide SetsUnborn;
    hide MirrorsKept;
    if more == [] {
      SameMirrors(s);
    } else {
      var n := |more| - 1;
      MirrorsOnlyGrow(s, more[..n]);
      HandleKeeps(Run(s, more[..n]), more[n]);
      HandleUnborn(Run(s, more[..n]), more[n]);
      HandleKeepsMirrors(Run(s, more[..n]), more[n]);
      MirrorsKeptTransitive(s, Run(s, more[..n]), Run(s, more));
    }
  }

  /** Whatever was posted in between, an answered post to a path gives the replica the description that was
      first posted there with its mRID. */
  lemma FirstDescriptionStays(s: Store, more: seq<Request>, p: string, post: MeterReadingPost, k: nat)
    requires Reachable(s) && AllRouted(more) && RoutePath(p)
    requires FirstAt(Items(s, MmrList(p)), post.mrid, k) && k < |Items(s, MmrList(p))|
    requires PostMeterReading(Run(s, more), p, post).result.Ok?
    ensures Items(s, MmrList(p))[k].item.MirrorMeterReading?
    ensures var v := PostMeterReading(Run(s, more), p, post).result.value;
            && v.location == Some(Sub(MrList(p), Dec(k))) && v.item.MeterReading?
            && v.item.description == Items(s, MmrList(p))[k].item.description
  {
    hide UriClass;
    hide Inv;
    hide SetsUnborn;
    hide PostMeterReading;
    hide MmrList;
    hide MrList;
    hide Run;
    var requests: seq<Request> :| AllRouted(requests) && s == Run(EMPTY, requests);
    RunUnborn(requests);
    MirrorsOnlyGrow(s, more);
    TwoLists(p);
    var l := EntriesPostedAt(Run(s, more), p, post);
    var a, a1 := Items(s, MmrList(p)), Items(Run(s, more), MmrList(p));
    assert a <= a1;
    assert a1[k] == a[k];
    assert forall j :: 0 <= j < k ==> a1[j] == a[j];
    assert l == k;
  }

  /* Status codes */

  /** A post of a point answers 201 when the roots have grown by its object, and 204 when its mRID was known. */
  lemma PointStatus(s: Store, path: string, post: UsagePointPost) returns (k: nat)
    requires Reachable(s) && Handle(s, PostPoint(path, post)).result.Ok?
    ensures var Outcome(s', Ok(answer)) := Handle(s, PostPoint(path, post));
            var n := |Items(s, "/mup")|;
            && FirstAt(Items(s, "/mup"), post.mrid, k)
            && |Items(s', "/mup")| == |Items(s', "/upt")| == (if k == n then n + 1 else n)
            && answer == Stored(if k == n then 201 else 204, Some(Join(["/mup", Dec(k)])))
  {
    hide Inv;
    hide WellFormed;
    hide UriClass;
    hide CreateMirrorUsagePoint;
    hide Join;
    hide FindUsagePoint;
    hide FirstAt;
    hide MirrorsStored;
    hide ReplicasStored;
    hide TypesStored;
    ReachableInv(s);
    RootsEqual(s, PointPaths());
    RootClasses();
    HitIsFirst(s, MUP_ROOT, post.mrid);
    k := HitSlot(Items(s, MUP_ROOT), post.mrid);
    if k == |Items(s, MUP_ROOT)| {
      var m := NewPointStored(s, post);
      assert |Items(CreateMirrorUsagePoint(s, post).store, "/upt")| == k + 1;
    } else {
      KnownPointStored(s, post, k);
      assert "/upt" != "/mup";
      assert |Items(CreateMirrorUsagePoint(s, post).store, "/upt")| == |Items(s, "/upt")|;
    }
  }

  /** A post of a meter reading answers 201 when the list of replicas has grown by its object, and 204 when
      it held one of its mRID. */
  lemma MeterStatus(s: Store, path: string, post: MeterReadingPost) returns (k: nat)
    requires Reachable(s) && RoutePath(path) && Handle(s, PostMeter(path, post)).result.Ok?
    ensures var Outcome(s', Ok(answer)) := Handle(s, PostMeter(path, post));
            var n := |Items(s, MrList(path))|;
            && FirstAt(Items(s, MrList(path)), post.mrid, k)
            && |Items(s', MrList(path))| == (if k == n then n + 1 else n)
            && answer == Stored(if k == n then 201 else 204, Some(Sub(MrList(path), Dec(k))))
  {
    hide PostMeterReading;
    hide MirrorPosted;
    hide Reachable;
    hide MrList;
    hide Split;
    k := PostedEntries(s, path, post);
  }

  /** A post of a reading set is never answered, and stores nothing. */
  lemma SetPostRaises(s: Store, path: string)
    requires Reachable(s) && RoutePath(path)
    ensures var o := Handle(s, PostSet(path));
            && o.store == s && o.result.Raise?
            && (o.result == Raise(NameError) <==> PointExists(s, path))
  {
    hide Inv;
    hide WellFormed;
    hide UriClass;
    hide Split;
    ReachableInv(s);
    RootsEqual(s, PointPaths());
    CheckedIffExists(s, path);
    if PointExists(s, path) {
      RouteIndexIsNat(path);
    } else if CheckPoint(s, path).Raise? {
      CheckPointErrors(s, path);
    }
  }

  /** Posts of anything but a point are refused as bad requests on the paths of one part, and nowhere else. */
  lemma BadRequestIff(s: Store, path: string, post: MeterReadingPost)
    requires Reachable(s) && RoutePath(path)
    ensures Handle(s, PostMeter(path, post)).result == Raise(BadRequest) <==> |Split(path)| == 1
    ensures Handle(s, PostSet(path)).result == Raise(BadRequest) <==> |Split(path)| == 1
    ensures |Split(path)| == 1 ==>
              Handle(s, PostMeter(path, post)).store == s && Handle(s, PostSet(path)).store == s
  {
    hide Inv;
    hide WellFormed;
    hide UriClass;
    hide Split;
    hide PostMeterReading;
    ReachableInv(s);
    InvParts(s, "", PointPaths());
    PostMeterReadingAny(s, path, post);
    if CheckPoint(s, path).Raise? {
      CheckPointErrors(s, path);
    }
  }

  /** A post to a point that does not exist stores nothing: KeyError before the first point, ValueError if the
      last part of the path is no integer, NotFoundError for any other number. */
  lemma NoSuchPoint(s: Store, path: string, post: MeterReadingPost)
    requires Reachable(s) && RoutePath(path) && |Split(path)| > 1 && !PointExists(s, path)
    ensures var e := if "/mup" !in s.lists then KeyError
                     else if PyInt(Last(Split(path))).None? then ValueError else NotFoundError;
            Handle(s, PostMeter(path, post)) == Handle(s, PostSet(path)) == Outcome(s, Raise(e))
  {
    hide UriClass;
    hide Split;
    hide PyInt;
    hide WellFormed;
    ReachableInv(s);
    RootsEqual(s, PointPaths());
    RootClasses();
    CheckedIffExists(s, path);
    UncheckedPost(s, path, post);
    hide PostMeterReading;
    ListFacts(s, MUP_ROOT);
    if PyInt(Last(Split(path))).Some? {
      DenseSlot(Items(s, MUP_ROOT), PyInt(Last(Split(path))).value);
    }
  }
}
