/** From which paths the Location of a posted meter reading leads back to it. */
module MeteringRoutes {
  import opened Wrappers
  import opened Text
  import opened ListStore
  import opened MeteringSpec
  import opened MeteringUris
  import opened MeteringInvariant
  import opened MeteringSteps
  import opened MeteringSaves
  import opened MeteringPoints
  import opened MeteringServer
  import opened MeteringTheorems
  import opened MeteringLocations
  import opened MeteringDetails
  import Hrefs = MeteringHrefs

  /* The parts of a replica list */

  /** Replacing text without separators leaves the number of parts alone. */
  lemma {:induction false} ReplaceKeepsParts(s: string, target: string, with: string)
    requires target != "" && SepFree(target) && SepFree(with)
    ensures |Split(Replace(s, target, with))| == |Split(s)|
    decreases |s|
  {
    if s == "" {
    } else if StartsWith(s, target) {
      ReplaceKeepsParts(s[|target|..], target, with);
      assert s == target + s[|target|..];
      SplitPrefix(target, s[|target|..]);
      SplitPrefix(with, Replace(s[|target|..], target, with));
    } else {
      ReplaceKeepsParts(s[1..], target, with);
      assert ([s[0]] + Replace(s[1..], target, with))[1..] == Replace(s[1..], target, with);
    }
  }

  lemma {:induction false} SplitPrefix(prefix: string, s: string)
    requires SepFree(prefix)
    ensures |Split(prefix + s)| == |Split(s)|
  {
    if prefix == "" {
      assert prefix + s == s;
    } else {
      assert (prefix + s)[1..] == prefix[1..] + s;
      SplitPrefix(prefix[1..], s);
    }
  }

  lemma ReplicaParts(p: string)
    requires RoutePath(p)
    ensures |Split(MrList(p))| == |Split(p)| + 1 && Last(Split(MrList(p))) == "mr"
  {
    hide Replace;
    MirrorOfRoute(p);
    ReplaceKeepsParts(p, "mup", "upt");
    SplitSub(Mirror(p), "mr");
  }

  /* What is read from an item below it */

  lemma ItemParts(u: string, k: nat)
    ensures Split(Sub(u, Dec(k))) == Split(u) + [Dec(k)] && Hrefs.LastList(Sub(u, Dec(k))) == u
    ensures PyInt(Dec(k)) == Some(k) && Dec(k) !in {"mr", "r", "rs", "rt"}
  {
    DecValue(k);
    SplitSub(u, Dec(k));
    JoinSplit(u);
    var parts := Split(Sub(u, Dec(k)));
    assert parts[..|parts| - 1] == Split(u);
    assert Dec(k)[0] !in {'m', 'r'};
  }

  /** A list two parts deep: the item itself. */
  lemma ShallowGet(s: Store, u: string, k: nat, start: int, after: int, limit: int)
    requires |Split(u)| == 3 && Last(Split(u)) == "mr"
    ensures UsagePointGet(s, Sub(u, Dec(k)), start, after, limit) == GetItem(s, Sub(u, Dec(k)), k)
  {
    hide Split;
    hide GetResourceList;
    ItemParts(u, k);
  }

  /** A deeper list: an entry whose number is part of the list's own uri, or no item at all. */
  function DeepIndex(u: string): Hrefs.Access {
    if Hrefs.PartIs(u, 4, "r") then Hrefs.IntAt(u, 5)
    else if Hrefs.PartIs(u, 6, "r") then Hrefs.IntAt(u, 7)
    else if Hrefs.PartIs(u, 4, "rs") then Hrefs.IntAt(u, 5)
    else Hrefs.IntAt(u, 3)
  }

  lemma DeepGet(s: Store, u: string, k: nat, start: int, after: int, limit: int)
    requires |Split(u)| >= 4 && Last(Split(u)) == "mr"
    ensures var o := UsagePointGet(s, Sub(u, Dec(k)), start, after, limit);
            o.result.Ok? && o.result.value.Single? ==>
              DeepIndex(u).Index? && o == GetItem(s, Sub(u, Dec(k)), DeepIndex(u).value)
  {
    hide Split;
    hide PyInt;
    hide GetResourceList;
    ItemParts(u, k);
    ListingIsNoItem(s, Sub(u, Dec(k)), start, after, limit);
  }

  lemma ListingIsNoItem(s: Store, path: string, start: int, after: int, limit: int)
    ensures forall byStart :: var o := GetResourceList(s, path, start, after, limit, byStart);
                              o.result.Ok? ==> !o.result.value.Single?
    ensures forall byStart :: var o := GetResourceList(s, path, start, after, limit, byStart);
                              forall again :: var o2 := GetResourceList(o.store, path, start, after, limit, again);
                                              o2.result.Ok? ==> !o2.result.value.Single?
  {
  }

  /* Reading back */

  /** A GET of the answered Location shows the stored object. */
  ghost predicate ReadBack(o: Outcome<ReturnValue>, start: int, after: int, limit: int) {
    o.result.Ok? ==>
      && o.result.value.location.Some?
      && UsagePointGet(o.store, o.result.value.location.value, start, after, limit)
         == Outcome(o.store, Ok(Single(o.result.value.item)))
  }

  /** So it does for every answered post to the path, after every run. */
  ghost predicate AlwaysReadBack(p: string, start: int, after: int, limit: int) {
    forall requests: seq<Request>, post: MeterReadingPost ::
      AllRouted(requests) ==> ReadBack(PostMeterReading(Run(EMPTY, requests), p, post), start, after, limit)
  }

  /** The answered object sits in the replica list, under the number its Location ends in. */
  lemma AnsweredSlot(requests: seq<Request>, p: string, post: MeterReadingPost)
    requires AllRouted(requests) && RoutePath(p)
    requires PostMeterReading(Run(EMPTY, requests), p, post).result.Ok?
    ensures var s := Run(EMPTY, requests);
            var o := PostMeterReading(s, p, post);
            var k := HitSlot(Items(s, MrList(p)), post.mrid);
            && WellFormed(o.store) && UriClass(MrList(p)) == Some(MeterReadingClass)
            && o.result.value.location == Some(Sub(MrList(p), Dec(k)))
            && Denotes(o.store, Ref(MrList(p), k, o.result.value.item))
  {
    hide UriClass;
    hide Split;
    hide Replace;
    hide Inv;
    hide PostMeterReading;
    hide HitSlot;
    hide Denotes;
    hide MrList;
    hide Sub;
    TwoLists(p);
    RunKeeps(requests);
    var s := Run(EMPTY, requests);
    PostMeterReadingAny(s, p, post);
    InvParts(PostMeterReading(s, p, post).store, "", PointPaths());
  }

  lemma ShallowReadBack(p: string, start: int, after: int, limit: int)
    requires RoutePath(p) && |Split(p)| == 2
    ensures AlwaysReadBack(p, start, after, limit)
  {
    hide UriClass;
    hide Split;
    hide WellFormed;
    hide PostMeterReading;
    hide UsagePointGet;
    hide MrList;
    ReplicaParts(p);
    forall requests: seq<Request>, post: MeterReadingPost | AllRouted(requests)
      ensures ReadBack(PostMeterReading(Run(EMPTY, requests), p, post), start, after, limit)
    {
      var s := Run(EMPTY, requests);
      var o := PostMeterReading(s, p, post);
      if o.result.Ok? {
        AnsweredSlot(requests, p, post);
        var k := HitSlot(Items(s, MrList(p)), post.mrid);
        ItemParts(MrList(p), k);
        ShallowGet(o.store, MrList(p), k, start, after, limit);
        GetAtSlot(o.store, MrList(p), k);
      }
    }
  }

  /** On a deeper path, what is read back has a fixed number. */
  lemma DeepReadBack(o: Outcome<ReturnValue>, u: string, k: nat, start: int, after: int, limit: int)
    requires WellFormed(o.store) && UriClass(u) == Some(MeterReadingClass) && |Split(u)| >= 4 && Last(Split(u)) == "mr"
    requires o.result.Ok? && o.result.value.location == Some(Sub(u, Dec(k)))
    requires Denotes(o.store, Ref(u, k, o.result.value.item)) && ReadBack(o, start, after, limit)
    ensures DeepIndex(u) == Hrefs.Index(k)
  {
    hide UriClass;
    hide Split;
    hide WellFormed;
    hide UsagePointGet;
    hide DeepIndex;
    ItemParts(u, k);
    DeepGet(o.store, u, k, start, after, limit);
    var v := DeepIndex(u).value;
    GetAtSlot(o.store, u, k);
    ListFacts(o.store, u);
    DenseSlot(Items(o.store, u), v);
    GetAtSlot(o.store, u, v);
    SameNumber(u, v, k);
  }

  lemma SameNumber(u: string, v: nat, k: nat)
    requires Sub(u, Dec(v)) == Sub(u, Dec(k))
    ensures v == k
  {
    DecValue(v);
    DecValue(k);
    SubInjective(u, Dec(v), u, Dec(k));
    DecInjective(v, k);
  }

  /** Two posts of different meter readings to such a path cannot both be read back. */
  lemma DeepFails(p: string, start: int, after: int, limit: int)
    requires RoutePath(p) && Addresses(p) && |Split(p)| >= 3
    ensures !AlwaysReadBack(p, start, after, limit)
  {
    hide UriClass;
    hide Split;
    hide WellFormed;
    hide PostMeterReading;
    hide MrList;
    hide ReadBack;
    hide Run;
    ReplicaParts(p);
    var n, requests := TwoPosts(p);
    var s, s1 := Run(EMPTY, Seeds(n)), Run(EMPTY, requests);
    AnsweredSlot(Seeds(n), p, BareMeter("a"));
    AnsweredSlot(requests, p, BareMeter("b"));
    var o1, o2 := PostMeterReading(s, p, BareMeter("a")), PostMeterReading(s1, p, BareMeter("b"));
    if AlwaysReadBack(p, start, after, limit) {
      assert ReadBack(o1, start, after, limit) && ReadBack(o2, start, after, limit);
      DeepReadBack(o1, MrList(p), 0, start, after, limit);
      DeepReadBack(o2, MrList(p), 1, start, after, limit);
    }
  }

  /** Points enough for the path, and two answered posts to it, which take the slots 0 and 1. */
  lemma TwoPosts(p: string) returns (n: nat, requests: seq<Request>)
    requires RoutePath(p) && Addresses(p)
    ensures AllRouted(Seeds(n)) && AllRouted(requests)
    ensures var s, s1 := Run(EMPTY, Seeds(n)), Run(EMPTY, requests);
            && PostMeterReading(s, p, BareMeter("a")).result.Ok? && PostMeterReading(s1, p, BareMeter("b")).result.Ok?
            && HitSlot(Items(s, MrList(p)), Some("a")) == 0 && HitSlot(Items(s1, MrList(p)), Some("b")) == 1
  {
    hide UriClass;
    hide Split;
    hide Inv;
    hide WellFormed;
    hide PostMeterReading;
    hide MmrList;
    hide MrList;
    hide Addresses;
    hide Seeds;
    hide Run;
    RouteIndexIsNat(p);
    n := IndexOf(p) + 1;
    SeedsRun(n);
    var s := Run(EMPTY, Seeds(n));
    SeededAt(s, n, p);
    FirstBarePost(s, p, "a");
    SeedsRouted(n, p);
    requests := Seeds(n) + [PostMeter(p, BareMeter("a"))];
    RunSnoc(Seeds(n), PostMeter(p, BareMeter("a")));
    var o := PostMeterReading(s, p, BareMeter("a"));
    assert Run(EMPTY, requests) == o.store;
    SecondAnswered(s, n, p, requests);
  }

  lemma SeedsRouted(n: nat, p: string)
    requires RoutePath(p) && |Split(p)| > 1
    ensures AllRouted(Seeds(n)) && AllRouted(Seeds(n) + [PostMeter(p, BareMeter("a"))])
    ensures forall s: Store :: Handle(s, PostMeter(p, BareMeter("a"))).store
                               == PostMeterReading(s, p, BareMeter("a")).store
  {
    hide Split;
    hide PostMeterReading;
  }

  lemma SecondAnswered(s: Store, n: nat, p: string, requests: seq<Request>)
    requires Seeded(s, n) && RoutePath(p) && Addresses(p) && IndexOf(p) < n && AllRouted(requests)
    requires CheckPoint(s, p).Ok? && Items(s, MmrList(p)) == [] && Items(s, MrList(p)) == []
    requires Run(EMPTY, requests) == PostMeterReading(s, p, BareMeter("a")).store
    requires PostMeterReading(s, p, BareMeter("a")).result.Ok?
    ensures var s1 := Run(EMPTY, requests);
            PostMeterReading(s1, p, BareMeter("b")).result.Ok? && HitSlot(Items(s1, MrList(p)), Some("b")) == 1
  {
    hide UriClass;
    hide Split;
    hide Inv;
    hide WellFormed;
    hide PostMeterReading;
    hide SaveBoth;
    hide Replace;
    hide Run;
    hide CheckPoint;
    hide MmrList;
    hide MrList;
    var s1 := Run(EMPTY, requests);
    RouteIndexIsNat(p);
    TwoLists(p);
    InvParts(s, "", PointPaths());
    FirstPostEntries(s, p);
    RootClasses();
    PlainPostAnsweredIff(requests, p, BareMeter("b"));
    assert Items(s1, MUP_ROOT) == Items(s, MUP_ROOT);
  }

  /** After the first post both lists hold its one entry. */
  lemma FirstPostEntries(s: Store, p: string)
    requires WellFormed(s) && RoutePath(p) && CheckPoint(s, p).Ok?
    requires Items(s, MmrList(p)) == [] && Items(s, MrList(p)) == []
    ensures var s1 := PostMeterReading(s, p, BareMeter("a")).store;
            && |Items(s1, MmrList(p))| == 1 && Attr(Items(s1, MmrList(p))[0].item, MRID) == Some(Some("a"))
            && |Items(s1, MrList(p))| == 1 && Attr(Items(s1, MrList(p))[0].item, MRID) == Some(Some("a"))
            && forall u :: u != MmrList(p) && u != MrList(p) ==> Items(s1, u) == Items(s, u)
  {
    hide UriClass;
    hide Split;
    hide Replace;
    hide WellFormed;
    hide CheckPoint;
    hide SaveBoth;
    hide PostMeterReading;
    hide MmrList;
    hide MrList;
    hide Sub;
    TwoLists(p);
    FirstBarePost(s, p, "a");
    var s1, mirror := SaveBothAny(s, p, BareMeter("a"));
    var saved, ref := SaveBoth(s, p, BareMeter("a")), ReplicaRef(s, p, BareMeter("a"));
    assert Items(saved.store, MmrList(p)) == [Entry(0, mirror)];
    PostIsSaveThenDetails(s, p, BareMeter("a"), ref, ref.item.href.value);
    BareDetails(saved.store, ref, ref.item.href.value, MmrList(p));
  }

  lemma BareDetails(s: Store, ref: Ref, href: string, u: string)
    requires ref.item.MeterReading? && u != ref.uri
    ensures Items(StoreDetails(s, ref, href, BareMeter("a")).store, u) == Items(s, u)
  {
    hide Sub;
  }

  /** The Location answered to a post of a meter reading leads back to the stored object, in every
      state that any run reaches and for every post, if and only if the path has two parts. */
  lemma MeterLocationIff(p: string, start: int, after: int, limit: int)
    requires RoutePath(p) && Addresses(p)
    ensures AlwaysReadBack(p, start, after, limit) <==> |Split(p)| == 2
  {
    hide Split;
    hide AlwaysReadBack;
    hide Addresses;
    RouteIndexIsNat(p);
    if |Split(p)| == 2 {
      ShallowReadBack(p, start, after, limit);
    } else {
      DeepFails(p, start, after, limit);
    }
  }
}
