/** The readings of a meter reading over whole runs: its list grows by one post at a time. */
module MeteringReadings {
  import opened Wrappers
  import opened Text
  import opened ListStore
  import opened MeteringSpec
  import opened MeteringUris
  import opened MeteringInvariant
  import opened MeteringSteps
  import opened MeteringSaves
  import opened MeteringPoints
  import opened MeteringServer
  import opened MeteringLocations
  import opened MeteringContents
  import opened MeteringDetails
  import opened Readings
  import Hrefs = MeteringHrefs

  /** A list of readings that is not that of a reading set. */
  ghost predicate MeterList(u: string) {
    UriClass(u) == Some(ReadingClass) && forall z: string, l: nat :: u != SetReadings(z, l)
  }

  /** The list after an upsert that may be refused. */
  function Tried(d: Dict, u: string, r: ReadingItem): Dict {
    match UpsertInto(d, u, r)
    case Ok(d') => d'
    case Raise(_) => d
  }

  lemma TriedReading(s: Store, u: string, r: ReadingItem)
    requires WellFormed(s) && UriClass(u) == Some(ReadingClass)
    ensures Items(CreateOrUpdateReading(s, u, r).store, u) == Tried(Items(s, u), u, r)
  {
    hide UriClass;
    hide WellFormed;
    hide UpsertInto;
    hide CreateOrUpdateReading;
    ReadingUpserts(s, u, r);
  }

  lemma TriedPart(s: Store, ref: Ref, href: string, r: Option<ReadingItem>, u: string)
    requires ref.item.MeterReading? && ref.uri != u && ref.uri != Sub(href, "r")
    requires UriClass(Sub(href, "r")) == Some(ReadingClass) && WellFormed(LinkReadings(s, ref, href).0)
    ensures Items(StoreReading(s, ref, href, r).store, u) ==
            if r.Some? && u == Sub(href, "r") then Tried(Items(s, u), u, r.value) else Items(s, u)
  {
    hide UriClass;
    hide WellFormed;
    hide Tried;
    hide CreateOrUpdateReading;
    hide Sub;
    if r.Some? {
      var s1 := LinkReadings(s, ref, href).0;
      ReadingFrame(s1, Sub(href, "r"), r.value);
      TriedReading(s1, Sub(href, "r"), r.value);
    }
  }

  /** Of all the details of a post, only its own reading reaches such a list. */
  lemma DetailsTry(s: Store, ref: Ref, p: string, post: MeterReadingPost, u: string)
    requires Inv(s, PointPaths()) && SetsUnborn(s) && RoutePath(p) && MeterList(u)
    requires Denotes(s, ref) && ref.uri == MrList(p) && ref.item.MeterReading?
    ensures var href := Sub(MrList(p), Dec(ref.slot));
            Items(StoreDetails(s, ref, href, post).store, u) ==
            if post.reading.Some? && u == Sub(href, "r") then Tried(Items(s, u), u, post.reading.value) else Items(s, u)
  {
    hide UriClass;
    hide Split;
    hide Replace;
    hide Inv;
    hide WellFormed;
    hide StoreType;
    hide StoreReading;
    hide LinkReadings;
    hide PostReadingSets;
    hide SetsUnborn;
    hide SetsAdded;
    hide SetsStored;
    hide ReadingStored;
    hide SetReadings;
    hide SetList;
    hide MrList;
    hide Sub;
    hide Tried;
    hide Denotes;
    var href := Sub(MrList(p), Dec(ref.slot));
    var y := DetailPlaces(p, ref.slot);
    MirrorOfRoute(p);
    PointRoutes();
    BeforeSets(s, ref, href, post);
    BeforeSetsInv(s, ref, href, post, y);
    StoreTypeInv(s, ref, href, post.readingType, PointPaths());
    TypeStored(s, ref, href, post.readingType);
    var (s1, ref1) := StoreType(s, ref, href, post.readingType);
    LinkReadingsInv(s1, ref1, href);
    TriedPart(s1, ref1, href, post.reading, u);
    var o2 := StoreReading(s1, ref1, href, post.reading);
    if o2.result.Ok? {
      var s3 := LinkReadingSets(o2.store, o2.result.value, href).0;
      ReadingPartRef(s1, ref1, href, post.reading);
      LinkedElsewhere(o2.store, o2.result.value, href, u);
      ElsewhereUnborn(s, s3, MrList(p), Sub(href, "r"));
      SetPostsContents(s3, y, post.readingSets);
      AddedElsewhere(s3, PostReadingSets(s3, SetList(y), post.readingSets).store, y, u);
    }
  }

  lemma LinkedElsewhere(s: Store, ref: Ref, href: string, u: string)
    requires ref.item.MeterReading? && ref.uri != u
    ensures Items(LinkReadingSets(s, ref, href).0, u) == Items(s, u)
  {
  }

  lemma ReadingPartRef(s: Store, ref: Ref, href: string, r: Option<ReadingItem>)
    requires ref.item.MeterReading?
    ensures StoreReading(s, ref, href, r).result.Ok? ==> StoreReading(s, ref, href, r).result.value.uri == ref.uri
  {
    hide CreateOrUpdateReading;
  }

  /* Requests */

  lemma PostTries(s: Store, p: string, post: MeterReadingPost, u: string)
    requires Inv(s, PointPaths()) && SetsUnborn(s) && RoutePath(p) && MeterList(u)
    ensures Items(PostMeterReading(s, p, post).store, u) ==
            if PointExists(s, p) && SlotsAgree(s, p, post.mrid) && post.reading.Some?
               && u == Sub(Target(s, p, post.mrid), "r") then
              Tried(Items(s, u), u, post.reading.value)
            else Items(s, u)
  {
    hide UriClass;
    hide Split;
    hide Replace;
    hide Inv;
    hide SetsUnborn;
    hide SetReadings;
    hide CheckPoint;
    hide SaveBoth;
    hide SlotsAgree;
    hide StoreDetails;
    hide PostMeterReading;
    hide PointExists;
    hide Reflection;
    hide MirrorDescription;
    hide MrList;
    hide Sub;
    hide Tried;
    RootsEqual(s, PointPaths());
    CheckedIffExists(s, p);
    if CheckPoint(s, p).Raise? {
      UncheckedPost(s, p, post);
    } else {
      SavedState(s, p, post);
      var saved, ref := SaveBoth(s, p, post), ReplicaRef(s, p, post);
      assert Items(saved.store, u) == Items(s, u);
      if SlotsAgree(s, p, post.mrid) {
        DetailsTry(saved.store, ref, p, post, u);
        PostIsSaveThenDetails(s, p, post, ref, ref.item.href.value);
      } else {
        FailedSave(s, p, post);
      }
    }
  }

  /** The reading that a request brings to the list, if it does: to the href of a point that exists,
      or to another path on which the searches for the mRID end at one slot. */
  ghost function Posted(s: Store, r: Request, u: string): Option<ReadingItem> {
    if r.PostMeter? && |Split(r.path)| > 1 && PointExists(s, r.path) && SlotsAgree(s, r.path, r.meter.mrid)
       && u == Sub(Target(s, r.path, r.meter.mrid), "r") then r.meter.reading
    else None
  }

  lemma HandleTries(s: Store, r: Request, u: string)
    requires Inv(s, PointPaths()) && SetsUnborn(s) && Routed(r) && MeterList(u)
    ensures Items(Handle(s, r).store, u) ==
            match Posted(s, r, u)
            case Some(reading) => Tried(Items(s, u), u, reading)
            case None => Items(s, u)
  {
    hide UriClass;
    hide Inv;
    hide Split;
    hide SetReadings;
    hide SetsUnborn;
    hide UsagePointGet;
    hide MirrorUsagePointGet;
    hide PostMeterReading;
    hide CreateMirrorUsagePoint;
    hide PointExists;
    hide SlotsAgree;
    hide Target;
    hide Tried;
    match r
    case PostPoint(_, post) =>
      CreatePointUntouched(s, post);
    case PostMeter(path, post) =>
      PostTries(s, path, post, u);
    case PostSet(_) =>
    case GetMirror(_) =>
      ReadsUntouched(s, r);
    case GetUsage(_, _, _, _) =>
      ReadsUntouched(s, r);
  }

  /* Runs */

  /** The readings that a run brings to the list, in order. */
  ghost function PostedTo(requests: seq<Request>, u: string): seq<ReadingItem>
    decreases |requests|
  {
    if requests == [] then []
    else
      var front := requests[..|requests| - 1];
      match Posted(Run(EMPTY, front), requests[|requests| - 1], u)
      case Some(reading) => PostedTo(front, u) + [reading]
      case None => PostedTo(front, u)
  }

  /** After n requests the list holds each localID once, with what was posted last, and the next
      reading for it, if any, is accepted. */
  ghost predicate UpsertedAfter(requests: seq<Request>, u: string, n: nat)
    requires n <= |requests|
  {
    var s := Run(EMPTY, requests[..n]);
    && Upserted(Items(s, u), PostedTo(requests[..n], u))
    && (n < |requests| && Posted(s, requests[n], u).Some? ==>
          UpsertInto(Items(s, u), u, Posted(s, requests[n], u).value).Ok?)
  }

  ghost predicate UpsertedThroughout(requests: seq<Request>, u: string) {
    forall n: nat :: n <= |requests| ==> UpsertedAfter(requests, u, n)
  }

  /** One request more. */
  lemma ThroughoutSnoc(requests: seq<Request>, last: Request, u: string)
    ensures var s, all := Run(EMPTY, requests), requests + [last];
            UpsertedThroughout(all, u)
            <==> && UpsertedThroughout(requests, u)
                 && (Posted(s, last, u).Some? ==> UpsertInto(Items(s, u), u, Posted(s, last, u).value).Ok?)
                 && Upserted(Items(Run(EMPTY, all), u), PostedTo(all, u))
  {
    hide Run;
    hide Posted;
    hide PostedTo;
    hide Upserted;
    hide UpsertInto;
    hide Items;
    var m := |requests|;
    var all := requests + [last];
    assert all[..m] == requests && all[..m + 1] == all && all[m] == last && requests[..m] == requests;
    forall n: nat | n < m ensures UpsertedAfter(all, u, n) <==> UpsertedAfter(requests, u, n) {
      assert all[..n] == requests[..n] && all[n] == requests[n];
    }
    assert UpsertedAfter(all, u, m + 1) <==> Upserted(Items(Run(EMPTY, all), u), PostedTo(all, u));
    if UpsertedThroughout(all, u) {
      assert UpsertedAfter(all, u, m) && UpsertedAfter(all, u, m + 1);
      forall n: nat | n <= m ensures UpsertedAfter(requests, u, n) {
        assert UpsertedAfter(all, u, n);
      }
    }
    if UpsertedThroughout(requests, u) {
      assert UpsertedAfter(requests, u, m);
    }
  }

  lemma PostedSnoc(requests: seq<Request>, last: Request, u: string)
    ensures PostedTo(requests + [last], u) ==
            match Posted(Run(EMPTY, requests), last, u)
            case Some(reading) => PostedTo(requests, u) + [reading]
            case None => PostedTo(requests, u)
    ensures Run(EMPTY, requests + [last]) == Handle(Run(EMPTY, requests), last).store
  {
    hide Handle;
    hide Posted;
    var all := requests + [last];
    assert all[..|requests|] == requests && all[|requests|] == last;
  }

  /** The list of the readings of a meter reading, over every run: it holds each localID once with
      what was posted last, after every request, if and only if each reading posted to it, from the
      third of its localID on, follows one whose own href ends in the slot of its entry. */
  lemma {:induction false} RunUpsertIff(requests: seq<Request>, u: string)
    requires AllRouted(requests) && MeterList(u)
    ensures UpsertedThroughout(requests, u) <==> Returning(PostedTo(requests, u))
    ensures Returning(PostedTo(requests, u)) ==> Tracks(u, Items(Run(EMPTY, requests), u), PostedTo(requests, u))
    decreases |requests|
  {
    hide UriClass;
    hide Inv;
    hide SetsUnborn;
    hide MeterList;
    hide Handle;
    hide Run;
    hide Posted;
    hide PostedTo;
    hide UpsertedThroughout;
    hide Upserted;
    hide UpsertInto;
    hide Returning;
    hide Returned;
    hide Tracks;
    if requests == [] {
      EmptyRun(requests, u);
    } else {
      var m := |requests| - 1;
      var front, last := requests[..m], requests[m];
      assert requests == front + [last];
      RunUnborn(front);
      RunUpsertIff(front, u);
      ThroughoutSnoc(front, last, u);
      PostedSnoc(front, last, u);
      var s := Run(EMPTY, front);
      HandleTries(s, last, u);
      var d, posts := Items(s, u), PostedTo(front, u);
      match Posted(s, last, u) {
        case Some(reading) =>
          ReturningSnoc(posts, reading);
          if Returning(posts) {
            UpsertOne(u, d, posts, reading);
          }
        case None =>
          if Returning(posts) {
            TracksUpserted(u, d, posts);
          }
      }
    }
  }

  lemma EmptyRun(requests: seq<Request>, u: string)
    requires requests == []
    ensures UpsertedThroughout(requests, u) && PostedTo(requests, u) == [] && Returning([])
    ensures Items(Run(EMPTY, requests), u) == [] && Tracks(u, [], [])
  {
    NothingTracked(u);
    TracksUpserted(u, [], []);
    assert requests[..0] == [];
  }

  /** Such are the lists at "/upt_i_mr_j_r". */
  lemma ReadingListsAreMeterLists(i: nat, j: nat)
    ensures MeterList(Hrefs.Href(UPT_ROOT, Hrefs.ReadingList(i, j)))
  {
    hide UriClass;
    hide Split;
    hide Hrefs.Href;
    hide SetReadings;
    var u := Hrefs.Href(UPT_ROOT, Hrefs.ReadingList(i, j));
    ReadingListClass(Hrefs.Reading(i, j, 0));
    PlaceChain(UPT_ROOT, i, j);
    Hrefs.HrefOverParent(UPT_ROOT, Hrefs.ReadingList(i, j));
    Hrefs.HrefOverParent(UPT_ROOT, Hrefs.MeterReading(i, j));
    forall z: string, l: nat ensures u != SetReadings(z, l) {
      MeterReadingsApart(PointHref(UPT_ROOT, i), j, z, l);
    }
  }
}
