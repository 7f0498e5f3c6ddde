/** The main results on mirror metering, over every run of requests. */
module MeteringTheorems {
  import opened Wrappers
  import opened Text
  import opened ListStore
  import opened MeteringSpec
  import opened MeteringUris
  import opened MeteringInvariant
  import opened MeteringSteps
  import opened MeteringSaves
  import opened MeteringPoints
  import opened MeteringServer
  import Hrefs = MeteringHrefs

  /* The index assertion */

  /** Some run whose meter readings are posted to these paths only ends with the failure of the
      assertion that an entry and its replica share an index. */
  ghost predicate AssertionCanFail(paths: iset<string>) {
    exists requests: seq<Request>, last: Request ::
      && PostsWithin(requests + [last], paths)
      && Handle(Run(EMPTY, requests), last).result == Raise(IndexAssertion)
  }

  lemma SeparatedNeverFails(paths: iset<string>)
    requires Separated(paths)
    ensures !AssertionCanFail(paths)
  {
    hide Inv;
    hide Separated;
    hide Handle;
    var all := paths + PointPaths();
    SeparatedWithPoints(paths);
    forall requests: seq<Request>, last: Request | PostsWithin(requests + [last], paths)
      ensures Handle(Run(EMPTY, requests), last).result != Raise(IndexAssertion)
    {
      var every := requests + [last];
      assert every[|requests|] == last;
      assert forall k :: 0 <= k < |requests| ==> every[k] == requests[k];
      RunInv(requests, all);
      HandleInv(Run(EMPTY, requests), last, all);
    }
  }

  const NO_USAGE := UsageAttributes(None, None, None, None, None)

  function SeedPoint(k: nat): UsagePointPost {
    UsagePointPost(Some(Dec(k)), NO_USAGE, None, [])
  }

  function Seeds(n: nat): seq<Request> {
    seq(n, k requires 0 <= k < n => PostPoint(MUP_ROOT, SeedPoint(k)))
  }

  /** n points, and not a meter reading anywhere. */
  ghost predicate Seeded(s: Store, n: nat) {
    && Inv(s, PointPaths()) && |Items(s, MUP_ROOT)| == n
    && (forall k :: 0 <= k < n ==> Attr(Items(s, MUP_ROOT)[k].item, MRID) == Some(Some(Dec(k))))
    && (forall u :: UriClass(u).Some? && UriClass(u).value in METER_CLASSES ==> Items(s, u) == [])
  }

  lemma SeedOne(s: Store, n: nat)
    requires Seeded(s, n)
    ensures Seeded(CreateMirrorUsagePoint(s, SeedPoint(n)).store, n + 1)
  {
    hide UriClass;
    hide Split;
    hide Inv;
    hide Separated;
    hide CreateUsagePointPair;
    hide CreateMirrorUsagePoint;
    hide FindUsagePoint;
    hide InitializeUri;
    var post := SeedPoint(n);
    SeparatedPointsOnly();
    RootClasses();
    InvParts(s, "", PointPaths());
    FindUsagePointHit(s, post.mrid);
    forall k | 0 <= k < n ensures Dec(k) != Dec(n) {
      if Dec(k) == Dec(n) {
        DecInjective(k, n);
      }
    }
    NewPointInv(s, post, PointPaths());
    CreatePairItems(s, post);
  }

  lemma CreatePairItems(s: Store, post: UsagePointPost)
    requires Inv(s, PointPaths()) && FindUsagePoint(s, post.mrid) == Ok(None)
    ensures var n := |Items(s, MUP_ROOT)|;
            var s' := NewPoint(s, post);
            && |Items(s', MUP_ROOT)| == n + 1
            && Items(s', MUP_ROOT)[..n] == Items(s, MUP_ROOT)
            && Attr(Items(s', MUP_ROOT)[n].item, MRID) == Some(post.mrid)
            && forall u :: u != MUP_ROOT && u != UPT_ROOT ==> Items(s', u) == Items(s, u)
  {
    hide UriClass;
    hide Split;
    hide Inv;
    hide CreateUsagePointPair;
    hide FindUsagePoint;
    hide NewPoint;
    hide WellFormed;
    RootsEqual(s, PointPaths());
    PointPairAppends(s, post);
    NewPointLists(s, post);
  }

  lemma {:induction false} SeedsRun(n: nat)
    ensures Seeded(Run(EMPTY, Seeds(n)), n)
  {
    hide UriClass;
    hide Inv;
    hide CreateMirrorUsagePoint;
    if n == 0 {
      EmptyInv(PointPaths());
    } else {
      assert Seeds(n)[..n - 1] == Seeds(n - 1);
      SeedsRun(n - 1);
      SeedOne(Run(EMPTY, Seeds(n - 1)), n - 1);
    }
  }

  function BareMeter(mrid: string): MeterReadingPost {
    MeterReadingPost(Some(mrid), None, None, None, [])
  }

  lemma CheckPointHolds(s: Store, p: string)
    requires WellFormed(s) && RootsPaired(s)
    requires PyInt(Last(Split(p))).Some? && 0 <= PyInt(Last(Split(p))).value < |Items(s, MUP_ROOT)|
    ensures CheckPoint(s, p).Ok?
  {
    hide UriClass;
    hide Split;
    hide PyInt;
    RootClasses();
    assert ListOk(MUP_ROOT, Items(s, MUP_ROOT), MirrorUsagePointClass);
    assert ListOk(UPT_ROOT, Items(s, UPT_ROOT), UsagePointClass);
    DenseSlot(Items(s, MUP_ROOT), PyInt(Last(Split(p))).value);
    DenseSlot(Items(s, UPT_ROOT), PyInt(Last(Split(p))).value);
  }

  /** A bare meter reading posted to a path both of whose lists are empty becomes entry 0 of each. */
  lemma FirstBarePost(s: Store, p: string, mrid: string)
    requires WellFormed(s) && RoutePath(p) && CheckPoint(s, p).Ok?
    requires Items(s, MmrList(p)) == [] && Items(s, MrList(p)) == []
    ensures var o := PostMeterReading(s, p, BareMeter(mrid));
            && o.result.Ok? && WellFormed(o.store)
            && |Items(o.store, MrList(p))| == 1 && Attr(Items(o.store, MrList(p))[0].item, MRID) == Some(Some(mrid))
            && forall u :: u != MmrList(p) && u != MrList(p) ==> Items(o.store, u) == Items(s, u)
  {
    hide UriClass;
    hide Split;
    hide CheckPoint;
    hide MmrList;
    hide MrList;
    hide AppendAndIncrementHref;
    hide PostMeterReading;
    hide CreateOrUpdateReading;
    hide WellFormed;
    hide Dec;
    hide Sub;
    TwoLists(p);
    var blank := MirrorMeterReading(None, Some(mrid), None);
    var replica := MeterReading(None, Some(mrid), None, None, None, None);
    AppendNumberedExtends(s, MmrList(p), blank);
    var s1 := AppendAndIncrementHref(s, MmrList(p), blank).store;
    assert Items(s1, MrList(p)) == [];
    AppendNumberedExtends(s1, MrList(p), replica);
    LastOfNumbered(MmrList(p), 0);
    LastOfNumbered(MrList(p), 0);
    var s2 := AppendAndIncrementHref(s1, MrList(p), replica).store;
    var stored := WithHref(replica, Sub(MrList(p), Dec(0)));
    var href := Sub(MrList(p), Dec(0));
    assert SaveBoth(s, p, BareMeter(mrid)) == Outcome(s2, Ok(Reflected(Ref(MrList(p), 0, stored), false)));
    PostIsSaveThenDetails(s, p, BareMeter(mrid), Ref(MrList(p), 0, stored), href);
    var linked := LinkReadingSets(s2, Ref(MrList(p), 0, stored), href);
    AssignQuiet(s2, linked.1);
  }

  /** When the replica list already holds the reading of another path, the next index differs. */
  lemma SecondBarePost(s: Store, q: string, mrid: string)
    requires WellFormed(s) && RoutePath(q) && CheckPoint(s, q).Ok?
    requires Items(s, MmrList(q)) == [] && |Items(s, MrList(q))| == 1
    requires Attr(Items(s, MrList(q))[0].item, MRID).Some?
             && Attr(Items(s, MrList(q))[0].item, MRID) != Some(Some(mrid))
    ensures PostMeterReading(s, q, BareMeter(mrid)).result == Raise(IndexAssertion)
  {
    hide UriClass;
    hide Split;
    hide CheckPoint;
    hide MmrList;
    hide MrList;
    hide AppendAndIncrementHref;
    hide PostMeterReading;
    hide StoreDetails;
    hide WellFormed;
    hide Dec;
    hide Sub;
    TwoLists(q);
    var blank := MirrorMeterReading(None, Some(mrid), None);
    var replica := MeterReading(None, Some(mrid), None, None, None, None);
    AppendNumberedExtends(s, MmrList(q), blank);
    var s1 := AppendAndIncrementHref(s, MmrList(q), blank).store;
    assert Items(s1, MrList(q)) == Items(s, MrList(q));
    AppendNumberedExtends(s1, MrList(q), replica);
    LastOfNumbered(MmrList(q), 0);
    LastOfNumbered(MrList(q), 1);
    if Dec(0) == Dec(1) {
      DecInjective(0, 1);
    }
    var stored := WithHref(blank, Sub(MmrList(q), Dec(0)));
    assert SaveMirrorMeterReading(s, MmrList(q), BareMeter(mrid)) == Outcome(s1, Ok(Ref(MmrList(q), 0, stored)));
    assert ReflectMeterReading(s1, MrList(q), stored).result == Raise(IndexAssertion);
    FailedReflection(s, q, BareMeter(mrid), stored);
  }

  lemma FailedReflection(s: Store, q: string, post: MeterReadingPost, stored: Resource)
    requires CheckPoint(s, q).Ok? && stored.MirrorMeterReading?
    requires var saved := SaveMirrorMeterReading(s, MmrList(q), post);
             && saved.result.Ok? && saved.result.value.item == stored
             && ReflectMeterReading(saved.store, MrList(q), stored).result == Raise(IndexAssertion)
    ensures PostMeterReading(s, q, post).result == Raise(IndexAssertion)
  {
    hide CheckPoint;
    hide SaveMirrorMeterReading;
    hide ReflectMeterReading;
    hide StoreDetails;
  }

  lemma RouteIndexIsNat(p: string)
    requires RoutePath(p) && Addresses(p)
    ensures PyInt(Last(Split(p))).value >= 0 && |Split(p)| > 1
  {
    JoinSplit(p);
    LastPartOccurs(p);
    var last := Last(Split(p));
    assert last != "" && last[0] in last && last[0] in p;
    assert forall k :: 0 <= k < 4 ==> p[k] == p[..4][k];
  }

  lemma {:induction false} LastPartOccurs(p: string)
    ensures forall c :: c in Last(Split(p)) ==> c in p
  {
    if p != "" {
      LastPartOccurs(p[1..]);
      var rest := Split(p[1..]);
      if |rest| == 1 && p[0] != SEP {
        assert Last(Split(p)) == [p[0]] + Last(rest);
      } else {
        assert Last(Split(p)) == Last(rest);
      }
    }
  }

  /** Two different paths that share a replica list make the assertion fail. */
  lemma CollisionFails(p: string, q: string)
    requires RoutePath(p) && RoutePath(q) && Addresses(p) && Addresses(q) && p != q && Mirror(p) == Mirror(q)
    ensures AssertionCanFail(iset{p, q})
  {
    hide UriClass;
    hide Inv;
    hide Split;
    hide MmrList;
    hide MrList;
    hide Mirror;
    hide PostMeterReading;
    hide Addresses;
    hide PyInt;
    RouteIndexIsNat(p);
    RouteIndexIsNat(q);
    SameReplica(p, q);
    var i, j := IndexOf(p), IndexOf(q);
    var n := (if i < j then j else i) + 1;
    SeedsRun(n);
    var s := Run(EMPTY, Seeds(n));
    SeededAt(s, n, p);
    SeededAt(s, n, q);
    FirstBarePost(s, p, "a");
    var o := PostMeterReading(s, p, BareMeter("a"));
    OtherPath(o.store, s, p, q, n);
    SecondBarePost(o.store, q, "b");
    BarePostsFail(n, p, q);
  }

  /** Two such posts after the points are set up are a run of the kind in question. */
  lemma BarePostsFail(n: nat, p: string, q: string)
    requires RoutePath(p) && RoutePath(q) && |Split(p)| > 1 && |Split(q)| > 1
    requires var first := PostMeterReading(Run(EMPTY, Seeds(n)), p, BareMeter("a"));
             first.result.Ok? && PostMeterReading(first.store, q, BareMeter("b")).result == Raise(IndexAssertion)
    ensures AssertionCanFail(iset{p, q})
  {
    hide Split;
    hide PostMeterReading;
    var first, last := PostMeter(p, BareMeter("a")), PostMeter(q, BareMeter("b"));
    RoutedSeeds(n, p, q);
    hide PostsWithin;
    RunSnoc(Seeds(n), first);
    assert Handle(Run(EMPTY, Seeds(n) + [first]), last).result == Raise(IndexAssertion);
  }

  lemma RunSnoc(requests: seq<Request>, last: Request)
    ensures Run(EMPTY, requests + [last]) == Handle(Run(EMPTY, requests), last).store
  {
    hide Handle;
    var all := requests + [last];
    assert all[..|requests|] == requests && all[|requests|] == last;
  }

  function IndexOf(p: string): nat
    requires RoutePath(p) && Addresses(p)
  {
    RouteIndexIsNat(p);
    PyInt(Last(Split(p))).value
  }

  lemma RoutedSeeds(n: nat, p: string, q: string)
    requires RoutePath(p) && RoutePath(q)
    ensures PostsWithin(Seeds(n) + [PostMeter(p, BareMeter("a"))] + [PostMeter(q, BareMeter("b"))], iset{p, q})
  {
  }

  lemma SeededAt(s: Store, n: nat, p: string)
    requires Seeded(s, n) && RoutePath(p) && Addresses(p) && IndexOf(p) < n
    ensures WellFormed(s) && RootsPaired(s) && CheckPoint(s, p).Ok?
    ensures Items(s, MmrList(p)) == [] && Items(s, MrList(p)) == []
  {
    hide UriClass;
    hide Split;
    MirrorOfRoute(p);
    CheckPointHolds(s, p);
  }

  /** After the first post the other path still has no mirror readings of its own. */
  lemma OtherPath(s': Store, s: Store, p: string, q: string, n: nat)
    requires Seeded(s, n) && RoutePath(p) && RoutePath(q) && Addresses(q) && IndexOf(q) < n && p != q
    requires MrList(p) == MrList(q) && WellFormed(s')
    requires forall u :: u != MmrList(p) && u != MrList(p) ==> Items(s', u) == Items(s, u)
    ensures Items(s', MmrList(q)) == [] && CheckPoint(s', q).Ok?
  {
    hide UriClass;
    hide Split;
    MirrorOfRoute(p);
    TwoLists(q);
    SeededAt(s, n, q);
    RootClasses();
    if MmrList(p) == MmrList(q) {
      SubInjective(p, "mr", q, "mr");
    }
    CheckPointHolds(s', q);
  }

  /** The assertion is safe for a set of paths exactly when no two of them that address a point
      become equal once every "mup" in them reads "upt". */
  lemma AssertionSafeIff(paths: iset<string>)
    requires forall p :: p in paths ==> RoutePath(p)
    ensures !AssertionCanFail(paths) <==> Separated(paths)
  {
    hide Mirror;
    hide Addresses;
    hide RoutePath;
    if Separated(paths) {
      SeparatedNeverFails(paths);
    } else {
      var p, q :| p in paths && q in paths && Addresses(p) && Addresses(q) && Mirror(p) == Mirror(q) && p != q;
      CollisionFails(p, q);
      FailureSpreads(iset{p, q}, paths);
    }
  }

  lemma FailureSpreads(few: iset<string>, paths: iset<string>)
    requires AssertionCanFail(few) && few <= paths
    ensures AssertionCanFail(paths)
  {
    hide Handle;
    var requests: seq<Request>, last: Request :| PostsWithin(requests + [last], few)
                                                 && Handle(Run(EMPTY, requests), last).result == Raise(IndexAssertion);
    assert PostsWithin(requests + [last], paths);
  }

  /** A path such as "/mup_mup_0": a usage point addressed behind one more part. */
  function Detour(part: string, i: nat): string {
    Sub(Sub(MUP_ROOT, part), Dec(i))
  }

  lemma DetourIsRoute(part: string, i: nat)
    requires part == "mup" || part == "upt"
    ensures RoutePath(Detour(part, i)) && Addresses(Detour(part, i))
    ensures Mirror(Detour(part, i)) == Sub(Sub(Mirror(MUP_ROOT), "upt"), Dec(i))
  {
    hide Split;
    var path := Detour(part, i);
    forall k | 4 <= k < |path| ensures RouteChar(path[k]) {
      assert path == MUP_ROOT + ([SEP] + part + [SEP]) + Dec(i);
    }
    LastOfNumbered(Sub(MUP_ROOT, part), i);
    DecValue(i);
    MirrorDetour(part, i);
  }

  lemma MirrorDetour(part: string, i: nat)
    requires part == "mup" || part == "upt"
    ensures Mirror(Detour(part, i)) == Sub(Sub(Mirror(MUP_ROOT), "upt"), Dec(i))
  {
    ReplaceSub(Sub(MUP_ROOT, part), Dec(i), "mup", "upt");
    ReplaceSub(MUP_ROOT, part, "mup", "upt");
    NumeralUntouched(Dec(i));
    if part == "upt" {
      AbsentWithoutHead("upt", "mup");
      ReplaceAbsent("upt", "mup", "upt");
    } else {
      ReplaceHead("", "mup", "upt");
      assert "mup" + "" == "mup";
    }
  }

  /** For every point there are two such paths, "/mup_mup_i" and "/mup_upt_i", whose posts fail. */
  lemma EveryPointHasACollision(i: nat)
    ensures AssertionCanFail(iset{Detour("mup", i), Detour("upt", i)})
  {
    hide Mirror;
    hide Addresses;
    hide RoutePath;
    DetourIsRoute("mup", i);
    DetourIsRoute("upt", i);
    if Detour("mup", i) == Detour("upt", i) {
      DecValue(i);
      SubInjective(Sub(MUP_ROOT, "mup"), Dec(i), Sub(MUP_ROOT, "upt"), Dec(i));
      SubInjective(MUP_ROOT, "mup", MUP_ROOT, "upt");
    }
    CollisionFails(Detour("mup", i), Detour("upt", i));
  }
}
