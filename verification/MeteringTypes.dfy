/** Reading types: no link that the server hands out leads to one. */
module MeteringTypes {
  import opened Wrappers
  import opened Text
  import opened ListStore
  import opened MeteringSpec
  import opened MeteringUris
  import opened MeteringInvariant
  import opened MeteringSteps
  import opened MeteringSaves
  import opened MeteringPoints
  import opened MeteringServer
  import opened MeteringLocations
  import opened MeteringDetails
  import Hrefs = MeteringHrefs

  /** Where create_mirror_usage_point registers the type of meter reading j of a new point i. */
  function TypeHref(i: nat, j: nat): string {
    Sub(Sub(PointHref(UPT_ROOT, i), "rt"), Dec(j))
  }

  ghost predicate IsTypeHref(h: string) {
    exists i: nat, j: nat :: h == TypeHref(i, j)
  }

  /** Types are registered in the href cache under those hrefs only. */
  ghost predicate TypesRegistered(s: Store) {
    forall h :: h in s.index ==> IsTypeHref(h)
  }

  /* Which steps register */

  lemma DetailsKeepIndex(s: Store, ref: Ref, href: string, post: MeterReadingPost)
    requires ref.item.MeterReading?
    ensures StoreDetails(s, ref, href, post).store.index == s.index
  {
    hide CreateOrUpdateReading;
    hide PostReadingSets;
    hide Sub;
    forall s2: Store, u, r ensures CreateOrUpdateReading(s2, u, r).store.index == s2.index {
      ReadingKeepsCaches(s2, u, r);
    }
    forall s2: Store, u ensures PostReadingSets(s2, u, post.readingSets).store.index == s2.index {
      SetsKeepCaches(s2, u, post.readingSets);
    }
  }

  lemma SavingKeepsIndex(s: Store, u: string, post: MeterReadingPost, mmr: Resource)
    requires mmr.MirrorMeterReading?
    ensures SaveMirrorMeterReading(s, u, post).store.index == s.index
    ensures ReflectMeterReading(s, u, mmr).store.index == s.index
  {
    hide Split;
    hide FirstWhere;
    hide Append;
    assert forall v, r :: Append(s, v, r).store.index == s.index by {
      AppendKeepsIndex(s);
    }
  }

  lemma AppendKeepsIndex(s: Store)
    ensures forall v, r :: Append(s, v, r).store.index == s.index
  {
  }

  lemma PostKeepsIndex(s: Store, p: string, post: MeterReadingPost)
    ensures PostMeterReading(s, p, post).store.index == s.index
  {
    hide Split;
    hide StoreDetails;
    hide CheckPoint;
    hide MmrList;
    hide MrList;
    hide SaveMirrorMeterReading;
    hide ReflectMeterReading;
    SavingKeepsIndex(s, MmrList(p), post, MirrorMeterReading(None, None, None));
    var saved := SaveMirrorMeterReading(s, MmrList(p), post);
    if CheckPoint(s, p).Ok? && saved.result.Ok? && saved.result.value.item.MirrorMeterReading? {
      SavingKeepsIndex(saved.store, MrList(p), post, saved.result.value.item);
      var reflected := ReflectMeterReading(saved.store, MrList(p), saved.result.value.item);
      if reflected.result.Ok? && reflected.result.value.ref.item.MeterReading?
         && reflected.result.value.ref.item.href.Some? {
        DetailsKeepIndex(reflected.store, reflected.result.value.ref, reflected.result.value.ref.item.href.value, post);
      }
    }
  }

  lemma {:induction false} AddingRegistersTypes(s: Store, i: nat, mmrList: string, mrList: string,
                                                posts: seq<MeterReadingPost>, j: nat)
    requires TypesRegistered(s)
    ensures TypesRegistered(AddMeterReadings(s, PointHref(UPT_ROOT, i), mmrList, mrList, posts, j).store)
    decreases |posts|
  {
    hide TypeHref;
    if posts != [] && posts[0].readingType.Some? {
      var post := posts[0];
      var link := Sub(Sub(PointHref(UPT_ROOT, i), "rt"), Dec(j));
      var o1 := Append(s, mmrList, MirrorMeterReading(Some(Sub(mmrList, Dec(j))), post.mrid, post.description));
      var o2 := Append(o1.store, mrList, MeterReading(Some(Sub(mrList, Dec(j))), post.mrid, post.description,
                                                      Some(link), None, None));
      if o1.result.Ok? && o2.result.Ok? {
        TypeHrefIs(i, j);
        AddingRegistersTypes(RegisterReadingType(o2.store, link, post.readingType.value), i, mmrList, mrList,
                             posts[1..], j + 1);
      }
    }
  }

  lemma TypeHrefIs(i: nat, j: nat)
    ensures IsTypeHref(Sub(Sub(PointHref(UPT_ROOT, i), "rt"), Dec(j)))
  {
    assert Sub(Sub(PointHref(UPT_ROOT, i), "rt"), Dec(j)) == TypeHref(i, j);
  }

  lemma PairKeepsIndex(s: Store, post: UsagePointPost)
    ensures CreateUsagePointPair(s, post).store.index == s.index
  {
    hide Sub;
    hide Append;
    AppendKeepsIndex(s);
    AppendKeepsIndex(Append(s, MUP_ROOT, MirrorUsagePoint(Some(PointHref(MUP_ROOT, |Items(s, MUP_ROOT)|)), post.mrid,
                                                          post.usage, post.postRate)).store);
  }

  lemma PointRegistersTypes(s: Store, post: UsagePointPost)
    requires TypesRegistered(s)
    ensures TypesRegistered(CreateMirrorUsagePoint(s, post).store)
  {
    hide IsTypeHref;
    hide AddMeterReadings;
    hide CreateUsagePointPair;
    hide FindUsagePoint;
    hide Sub;
    var i := |Items(s, MUP_ROOT)|;
    var mmrList, mrList := MeterReadingListHref(MUP_ROOT, i), MeterReadingListHref(UPT_ROOT, i);
    PairKeepsIndex(s, post);
    var s2 := CreateUsagePointPair(s, post).store;
    var s3 := InitializeUri(s2, mmrList, MirrorMeterReadingClass).store;
    var s4 := InitializeUri(s3, mrList, MeterReadingClass).store;
    AddingRegistersTypes(s4, i, mmrList, mrList, post.meterReadings, 0);
  }

  lemma HandleRegistersTypes(s: Store, r: Request)
    requires TypesRegistered(s)
    ensures TypesRegistered(Handle(s, r).store)
  {
    hide IsTypeHref;
    hide Split;
    hide CreateMirrorUsagePoint;
    hide PostMeterReading;
    hide UsagePointGet;
    hide MirrorUsagePointGet;
    match r
    case PostPoint(_, post) => PointRegistersTypes(s, post);
    case PostMeter(path, post) => PostKeepsIndex(s, path, post);
    case PostSet(_) =>
    case GetMirror(path) =>
      ReadsKeepIndex(s, path, 0, 0, 0);
    case GetUsage(path, start, after, limit) =>
      ReadsKeepIndex(s, path, start, after, limit);
  }

  lemma ReadsKeepIndex(s: Store, path: string, start: int, after: int, limit: int)
    ensures MirrorUsagePointGet(s, path).store.index == s.index
    ensures UsagePointGet(s, path, start, after, limit).store.index == s.index
  {
    hide Split;
    hide Get;
    hide GetResourceList;
    hide Hrefs.HasReadingList;
    hide Hrefs.HasReadingSetList;
    hide Hrefs.HasMeterReadingList;
    hide Hrefs.HasReadingType;
    ListingsKeepIndex(path);
  }

  lemma ListingsKeepIndex(path: string)
    ensures forall s: Store, start, after, limit, byStart ::
              GetResourceList(s, path, start, after, limit, byStart).store.index == s.index
  {
    hide LatestFirst;
  }

  lemma {:induction false} RunRegistersTypes(requests: seq<Request>)
    ensures TypesRegistered(Run(EMPTY, requests))
    decreases |requests|
  {
    hide IsTypeHref;
    hide Handle;
    if requests != [] {
      var n := |requests| - 1;
      RunRegistersTypes(requests[..n]);
      HandleRegistersTypes(Run(EMPTY, requests[..n]), requests[n]);
    }
  }

  lemma LinkIsNoTypeHref(i: nat, j: nat)
    ensures !IsTypeHref(Hrefs.Href(UPT_ROOT, Hrefs.ReadingType(i, j)))
  {
    hide Hrefs.Href;
    Hrefs.SplitHref(UPT_ROOT, Hrefs.ReadingType(i, j));
    assert Last(Split(Hrefs.Href(UPT_ROOT, Hrefs.ReadingType(i, j))))[0] == 'r';
    forall k: nat, l: nat ensures Hrefs.Href(UPT_ROOT, Hrefs.ReadingType(i, j)) != TypeHref(k, l) {
      DecValue(l);
      SplitSub(Sub(PointHref(UPT_ROOT, k), "rt"), Dec(l));
      assert Last(Split(TypeHref(k, l)))[0] != 'r';
    }
  }

  /** Neither link leads to the type: the one a meter reading has from the post of its point names
      a list never initialised, and the one it has from a post of its own a resource that was
      never put in the href cache. */
  lemma ReadingTypesNotServed(s: Store, i: nat, j: nat, start: int, after: int, limit: int)
    requires Reachable(s)
    ensures UsagePointGet(s, TypeHref(i, j), start, after, limit) == Outcome(s, Raise(KeyError))
    ensures UsagePointGet(s, Hrefs.Href(UPT_ROOT, Hrefs.ReadingType(i, j)), start, after, limit)
         == Outcome(s, Ok(TypeOf(None)))
  {
    hide UriClass;
    hide Split;
    hide Hrefs.Href;
    hide IsTypeHref;
    var requests: seq<Request> :| AllRouted(requests) && s == Run(EMPTY, requests);
    RunRegistersTypes(requests);
    LinkIsNoTypeHref(i, j);
    DispatchReads(s, Hrefs.ReadingType(i, j), start, after, limit);
    ReachableInv(s);
    TypeHrefParts(i, j);
    var path := TypeHref(i, j);
    if path in s.types {
      ListUriIsNoItem(path);
      DecValue(j);
    }
  }

  lemma TypeHrefParts(i: nat, j: nat)
    ensures Split(TypeHref(i, j)) == [UPT_ROOT, Dec(i), "rt", Dec(j)]
    ensures !Hrefs.HasReadingList(TypeHref(i, j)) && !Hrefs.HasReadingSetList(TypeHref(i, j))
            && !Hrefs.HasMeterReadingList(TypeHref(i, j))
  {
    DecValue(i);
    DecValue(j);
    SplitSepFree(UPT_ROOT);
    SplitSub(UPT_ROOT, Dec(i));
    SplitSub(PointHref(UPT_ROOT, i), "rt");
    SplitSub(Sub(PointHref(UPT_ROOT, i), "rt"), Dec(j));
  }
}
