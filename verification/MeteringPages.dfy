/** The lists of the two trees as they are read: what a GET of each answers in every reachable state. */
module MeteringPages {
  import opened Wrappers
  import opened Text
  import opened ListStore
  import opened MeteringSpec
  import opened MeteringUris
  import opened MeteringInvariant
  import opened MeteringSaves
  import opened MeteringPoints
  import opened MeteringServer
  import opened MeteringLocations
  import opened MeteringContents
  import opened ListPages
  import Hrefs = MeteringHrefs

  /** Every list below a usage point is read as a page, those of readings and of reading sets latest first,
      those of meter readings as they stand; one that holds anything is always answered. */
  lemma PlacePage(s: Store, p: Hrefs.Place, start: int, after: int, limit: int)
    requires Reachable(s)
    requires p.MeterReadingList? || p.ReadingSetList? || p.SetReadingList? || p.ReadingList?
    ensures var path := Hrefs.Href(UPT_ROOT, p);
            var o := UsagePointGet(s, path, start, after, limit);
            && (if path in s.types then Lists(s, o, path, !p.MeterReadingList?, start, after, limit)
                else o == Outcome(s, Raise(KeyError)))
            && (Items(s, path) != [] ==> path in s.types)
  {
    hide Split;
    hide Inv;
    hide Hrefs.Href;
    hide UsagePointGet;
    hide GetResourceList;
    hide Lists;
    var path := Hrefs.Href(UPT_ROOT, p);
    DispatchReads(s, p, start, after, limit);
    AnsweredPage(s, path, start, after, limit, !p.MeterReadingList?);
    ReachableInv(s);
    InvParts(s, "", PointPaths());
    StoredIsTyped(s, path);
  }

  lemma StoredIsTyped(s: Store, u: string)
    requires WellFormed(s)
    ensures Items(s, u) != [] ==> u in s.types
  {
    hide UriClass;
  }

  /** The points are listed in the order in which they were posted: the replicas as a page, */
  lemma UsageRootPage(s: Store, start: int, after: int, limit: int)
    requires Reachable(s)
    ensures var o := UsagePointGet(s, "/upt", start, after, limit);
            if "/upt" in s.types then Lists(s, o, "/upt", false, start, after, limit)
            else o == Outcome(s, Raise(KeyError))
    ensures Items(s, "/upt") != [] ==> "/upt" in s.types
  {
    hide Inv;
    hide GetResourceList;
    hide Lists;
    SplitSepFree("/upt");
    hide Split;
    ReachableInv(s);
    InvParts(s, "", PointPaths());
    StoredIsTyped(s, "/upt");
    TwiceListed(s, "/upt", start, after, limit);
  }

  /** and the mirrors all at once, also when there is none yet. */
  lemma MirrorRootPage(s: Store)
    requires Reachable(s)
    ensures Lists(s, MirrorUsagePointGet(s, "/mup"), "/mup", false, 0, 0, 0)
  {
    hide Inv;
    hide GetResourceList;
    hide PageOfList;
    hide InitializeUri;
    hide UriClass;
    SplitSepFree("/mup");
    hide Split;
    RootClasses();
    ReachableInv(s);
    PointRoutes();
    InitializeInv(s, "/mup", MirrorUsagePointClass, PointPaths());
    var s1 := InitializeUri(s, "/mup", MirrorUsagePointClass).store;
    Initialised(s, "/mup", MirrorUsagePointClass);
    AnsweredPage(s, "/mup", 0, 0, 0, false);
    AnsweredPage(s1, "/mup", 0, 0, 0, false);
    if "/mup" !in s.types {
      ListsFrom(s, s1, GetResourceList(s1, "/mup", 0, 0, 0, false), "/mup");
    }
  }

  lemma Initialised(s: Store, u: string, c: Class)
    requires InitializeUri(s, u, c).result.Ok?
    ensures u in InitializeUri(s, u, c).store.types
  {
  }

  lemma ListsFrom(s: Store, s1: Store, o: Outcome<Answer>, uri: string)
    requires s1.lists == s.lists && Lists(s1, o, uri, false, 0, 0, 0)
    ensures Lists(s, o, uri, false, 0, 0, 0)
  {
  }

  /** The handler reads a list at the root twice, to no other effect. */
  lemma TwiceListed(s: Store, uri: string, start: int, after: int, limit: int)
    ensures var o1 := GetResourceList(s, uri, start, after, limit, false);
            if uri in s.types then
              var o := GetResourceList(o1.store, uri, start, after, limit, false);
              o1.result.Ok? && Lists(s, o, uri, false, start, after, limit)
            else o1 == Outcome(s, Raise(KeyError))
  {
    hide LatestFirst;
    hide PageOfList;
    var o1 := GetResourceList(s, uri, start, after, limit, false);
    AnsweredPage(s, uri, start, after, limit, false);
    AnsweredPage(o1.store, uri, start, after, limit, false);
  }

  /** A path below `/mup` reads the point whose number is its second part, whatever follows. */
  lemma PointRead(s: Store, path: string)
    requires Reachable(s) && RoutePath(path) && |Split(path)| > 1
    ensures var points := Items(s, "/mup");
            MirrorUsagePointGet(s, path) ==
            match PyInt(Split(path)[1])
            case None => Outcome(s, Raise(ValueError))
            case Some(v) =>
              if 0 <= v < |points| then Outcome(s, Ok(Single(points[v].item)))
              else Outcome(s, Raise(if "/mup" in s.lists then NotFoundError else KeyError))
  {
    hide UriClass;
    hide Split;
    hide PyInt;
    ReachableInv(s);
    InvParts(s, "", PointPaths());
    RootClasses();
    ListFacts(s, MUP_ROOT);
    assert StartsWith(path, MUP_ROOT);
    if PyInt(Split(path)[1]).Some? {
      DenseSlot(Items(s, MUP_ROOT), PyInt(Split(path)[1]).value);
    }
  }

  /** The position of the part that the handler of `/upt` takes for a number, if there is one. */
  function NumberPart(parts: seq<string>): Option<nat> {
    var n := |parts|;
    if n > 4 && parts[4] == "r" then Some(5)
    else if n > 6 && parts[6] == "r" then Some(7)
    else if n > 4 && parts[4] == "rs" then Some(5)
    else if n > 2 && parts[2] == "mr" && !(n > 4 && parts[4] == "rt") then Some(3)
    else None
  }

  /** A read raises ValueError exactly when that part is there and is no integer; if it is one, it is the key
      that is read, and a missing list or key raises. */
  lemma UsageRead(s: Store, path: string, start: int, after: int, limit: int)
    ensures var o, parts := UsagePointGet(s, path, start, after, limit), Split(path);
            var k := NumberPart(parts);
            && (o.result == Raise(ValueError) <==>
                k.Some? && k.value < |parts| && PyInt(parts[k.value]).None?)
            && (k.Some? && k.value < |parts| && PyInt(parts[k.value]).Some? ==>
                  o == match Get(s, Hrefs.LastList(path), PyInt(parts[k.value]).value)
                       case Ok(ref) => Outcome(s, Ok(Single(ref.item)))
                       case Raise(e) => Outcome(s, Raise(e)))
            && (o.result.Raise? ==> o.store == s)
  {
    hide Split;
    hide PyInt;
    hide Hrefs.LastList;
    hide Get;
    hide LatestFirst;
    GetErrors(s, Hrefs.LastList(path));
  }

  lemma GetErrors(s: Store, u: string)
    ensures forall key :: Get(s, u, key).Raise? ==> Get(s, u, key).error in {KeyError, NotFoundError}
  {
  }
}
