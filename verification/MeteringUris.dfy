/** Which list a uri names: the class of its objects, when two request paths share a replica
    list, and that lists of different purpose never collide. */
module MeteringUris {
  import opened Wrappers
  import opened Text
  import opened ListStore
  import opened MeteringSpec

  function Mup(rest: string): (u: string)
    ensures |u| >= 4 && u[..4] == MUP_ROOT && u[4..] == rest
  {
    MUP_ROOT + rest
  }

  function Upt(rest: string): (u: string)
    ensures |u| >= 4 && u[..4] == UPT_ROOT && u[4..] == rest
  {
    UPT_ROOT + rest
  }

  /** The class of the objects kept under a uri of the two trees; None for any other uri. */
  function UriClass(u: string): Option<Class> {
    var parts := Split(u);
    if |u| < 4 then None
    else if u[..4] == MUP_ROOT then
      if |parts| == 1 then Some(MirrorUsagePointClass)
      else if Last(parts) == "mr" then Some(MirrorMeterReadingClass)
      else if Last(parts) == "rs" then Some(MirrorReadingSetClass)
      else None
    else if u[..4] == UPT_ROOT then
      if |parts| == 1 then Some(UsagePointClass)
      else if Last(parts) == "mr" then Some(MeterReadingClass)
      else if Last(parts) == "rs" then Some(ReadingSetClass)
      else if Last(parts) == "r" then Some(ReadingClass)
      else None
    else None
  }

  lemma RootClasses()
    ensures UriClass(MUP_ROOT) == Some(MirrorUsagePointClass)
    ensures UriClass(UPT_ROOT) == Some(UsagePointClass)
  {
    SplitSepFree(MUP_ROOT);
    SplitSepFree(UPT_ROOT);
    assert MUP_ROOT == Mup("") && UPT_ROOT == Upt("");
  }

  lemma MupSub(rest: string, part: string)
    ensures Sub(Mup(rest), part) == Mup(Sub(rest, part))
    ensures Sub(Upt(rest), part) == Upt(Sub(rest, part))
  {
    assert Sub(Mup(rest), part) == MUP_ROOT + Sub(rest, part);
    assert Sub(Upt(rest), part) == UPT_ROOT + Sub(rest, part);
  }

  lemma SubClasses(rest: string)
    ensures UriClass(Sub(Mup(rest), "mr")) == Some(MirrorMeterReadingClass)
    ensures UriClass(Sub(Mup(rest), "rs")) == Some(MirrorReadingSetClass)
    ensures UriClass(Sub(Upt(rest), "mr")) == Some(MeterReadingClass)
    ensures UriClass(Sub(Upt(rest), "rs")) == Some(ReadingSetClass)
    ensures UriClass(Sub(Upt(rest), "r")) == Some(ReadingClass)
  {
    MupSub(rest, "mr");
    MupSub(rest, "rs");
    MupSub(rest, "r");
    SplitSub(Mup(rest), "mr");
    SplitSub(Mup(rest), "rs");
    SplitSub(Upt(rest), "mr");
    SplitSub(Upt(rest), "rs");
    SplitSub(Upt(rest), "r");
  }

  /** No list of either tree has a uri whose last part is an integer, nor one whose first part is. */
  lemma ListUriIsNoItem(u: string)
    requires UriClass(u).Some?
    ensures PyInt(Last(Split(u))).None? && PyInt(Split(u)[0]).None?
  {
    assert u[0] == u[..4][0] == '/';
    FirstPartHead(u);
  }

  lemma FirstPartHead(u: string)
    requires u != "" && u[0] != SEP
    ensures Split(u)[0] != "" && Split(u)[0][0] == u[0]
  {
  }

  lemma CanonicalClasses(i: nat)
    ensures MeterReadingListHref(MUP_ROOT, i) == Sub(Mup(Sub("", Dec(i))), "mr")
    ensures MeterReadingListHref(UPT_ROOT, i) == Sub(Upt(Sub("", Dec(i))), "mr")
    ensures UriClass(MeterReadingListHref(MUP_ROOT, i)) == Some(MirrorMeterReadingClass)
    ensures UriClass(MeterReadingListHref(UPT_ROOT, i)) == Some(MeterReadingClass)
  {
    assert MUP_ROOT == Mup("") && UPT_ROOT == Upt("");
    MupSub("", Dec(i));
    SubClasses(Sub("", Dec(i)));
  }

  /* Request paths */

  predicate RouteChar(c: char) {
    'a' <= c <= 'z' || 'A' <= c <= 'Z' || '0' <= c <= '9' || c == SEP
  }

  /** The paths the server routes to the mirror-usage-point handler: "/mup" and any run of
      letters, digits and underscores. */
  predicate RoutePath(path: string) {
    |path| >= 4 && path[..4] == MUP_ROOT && forall k :: 4 <= k < |path| ==> RouteChar(path[k])
  }

  /** The path with every "mup" in it turned into "upt". */
  function Mirror(path: string): string {
    Replace(path, "mup", "upt")
  }

  /** The last part of the path is an integer, so a post to it may reach a usage point. */
  predicate Addresses(path: string) {
    PyInt(Last(Split(path))).Some?
  }

  lemma MirrorOfRoute(path: string)
    requires RoutePath(path)
    ensures Mirror(path) == Upt(Mirror(path[4..])) && '/' !in Mirror(path[4..])
    ensures MrList(path) == Sub(Mirror(path), "mr")
    ensures UriClass(MmrList(path)) == Some(MirrorMeterReadingClass)
    ensures UriClass(MrList(path)) == Some(MeterReadingClass)
  {
    var rest := path[4..];
    assert path == Mup(rest);
    assert path[1..][3..] == rest && "mup" <= path[1..] by {
      assert path[1..][..3] == path[..4][1..];
    }
    assert path[0] == path[..4][0] == '/';
    assert !("mup" <= path);
    assert Mirror(path) == ['/'] + Replace(path[1..], "mup", "upt");
    assert Mirror(path) == Upt(Mirror(rest));
    assert '/' !in rest by {
      forall k | 0 <= k < |rest| ensures rest[k] != '/' {
        assert rest[k] == path[4 + k];
      }
    }
    ReplaceKeepsOut(rest, "mup", "upt", '/');
    ReplaceSub(path, "mr", "mup", "upt");
    assert Replace("mr", "mup", "upt") == "mr" by {
      assert !Occurs("mup", "mr");
      ReplaceAbsent("mr", "mup", "upt");
    }
    SubClasses(rest);
    SubClasses(Mirror(rest));
  }

  lemma SameReplica(p: string, q: string)
    requires RoutePath(p) && RoutePath(q)
    ensures MrList(p) == MrList(q) <==> Mirror(p) == Mirror(q)
  {
    MirrorOfRoute(p);
    MirrorOfRoute(q);
    if MrList(p) == MrList(q) {
      SubInjective(Mirror(p), "mr", Mirror(q), "mr");
    }
  }

  /** The href of mirror usage point i. */
  function PointPath(i: nat): string {
    PointHref(MUP_ROOT, i)
  }

  lemma PointPathIsRoute(i: nat)
    ensures RoutePath(PointPath(i)) && Addresses(PointPath(i))
    ensures PyInt(Last(Split(PointPath(i)))) == Some(i)
    ensures Mirror(PointPath(i)) == PointHref(UPT_ROOT, i)
    ensures MmrList(PointPath(i)) == MeterReadingListHref(MUP_ROOT, i)
    ensures MrList(PointPath(i)) == MeterReadingListHref(UPT_ROOT, i)
  {
    var path := PointPath(i);
    var rest := Sub("", Dec(i));
    assert path == Mup(rest) by {
      MupSub("", Dec(i));
      assert Mup("") == MUP_ROOT;
    }
    forall k | 4 <= k < |path| ensures RouteChar(path[k]) {
      assert path[k] == rest[k - 4];
    }
    DecValue(i);
    SplitSub(MUP_ROOT, Dec(i));
    NumeralUntouched(rest);
    MirrorOfRoute(path);
    assert Upt(rest) == PointHref(UPT_ROOT, i) by {
      MupSub("", Dec(i));
      assert Upt("") == UPT_ROOT;
    }
  }

  lemma {:induction false} NumeralUntouched(rest: string)
    requires 'm' !in rest
    ensures Mirror(rest) == rest
  {
    AbsentWithoutHead(rest, "mup");
    ReplaceAbsent(rest, "mup", "upt");
  }

  /** Only the href of point i itself shares the replica list of point i. */
  lemma OnlyPointReachesItsReplica(path: string, i: nat)
    requires RoutePath(path)
    ensures MrList(path) == MeterReadingListHref(UPT_ROOT, i) ==> path == PointPath(i)
    ensures MmrList(path) == MeterReadingListHref(MUP_ROOT, i) ==> path == PointPath(i)
  {
    hide UriClass;
    hide Split;
    hide Replace;
    PointPathIsRoute(i);
    MirrorOfRoute(path);
    MirrorOfRoute(PointPath(i));
    if MrList(path) == MeterReadingListHref(UPT_ROOT, i) {
      SameReplica(path, PointPath(i));
      var rest := path[4..];
      assert Mirror(rest) == Mirror(path)[4..] == PointHref(UPT_ROOT, i)[4..];
      assert PointHref(UPT_ROOT, i)[4..] == Sub("", Dec(i));
      ReplaceUntouched(rest, "mup", "upt", 't');
      assert path == Mup(rest) && PointPath(i) == Mup(Sub("", Dec(i)));
    }
    if MmrList(path) == MeterReadingListHref(MUP_ROOT, i) {
      SubInjective(path, "mr", PointPath(i), "mr");
    }
  }

  /** A set of request paths in which no two that address a usage point share a replica list. */
  ghost predicate Separated(paths: iset<string>) {
    && (forall p :: p in paths ==> RoutePath(p))
    && forall p, q :: p in paths && q in paths && Addresses(p) && Addresses(q) && Mirror(p) == Mirror(q) ==> p == q
  }

  ghost function PointPaths(): iset<string> {
    iset i: nat :: PointPath(i)
  }

  /** Adding the hrefs of the usage points themselves separates nothing worse. */
  lemma SeparatedWithPoints(paths: iset<string>)
    requires Separated(paths)
    ensures Separated(paths + PointPaths())
  {
    forall i: nat ensures RoutePath(PointPath(i)) && MrList(PointPath(i)) == MeterReadingListHref(UPT_ROOT, i) {
      PointPathIsRoute(i);
    }
    forall p, q | p in paths + PointPaths() && q in paths + PointPaths() && Mirror(p) == Mirror(q)
                  && Addresses(p) && Addresses(q)
      ensures p == q
    {
      SameReplica(p, q);
      if q !in paths {
        var i: nat :| q == PointPath(i);
        OnlyPointReachesItsReplica(p, i);
      } else if p !in paths {
        var i: nat :| p == PointPath(i);
        OnlyPointReachesItsReplica(q, i);
      }
    }
  }

  lemma SeparatedPointsOnly()
    ensures Separated(PointPaths())
  {
    SeparatedWithPoints(iset{});
    assert iset{} + PointPaths() == PointPaths();
  }

  /** The paths in which "mup" does not come back after the root are separated. */
  lemma PlainPathsSeparated(paths: iset<string>)
    requires forall p :: p in paths ==> RoutePath(p) && !Occurs("mup", p[4..])
    ensures Separated(paths)
  {
    forall p, q | p in paths && q in paths && Mirror(p) == Mirror(q) ensures p == q {
      MirrorOfRoute(p);
      MirrorOfRoute(q);
      ReplaceAbsent(p[4..], "mup", "upt");
      ReplaceAbsent(q[4..], "mup", "upt");
      assert Mirror(p)[4..] == p[4..] && Mirror(q)[4..] == q[4..];
      assert p == Mup(p[4..]) && q == Mup(q[4..]);
    }
  }

  /** The two trees meet only at the head of a uri. */
  lemma MirrorSetListOfUpt(y: string)
    requires '/' !in y
    ensures MirrorSetList(Sub(Upt(y), "rs")) == Sub(Mup(y), "rs")
  {
    MupSub(y, "rs");
    ReplaceHead(Sub(y, "rs"), UPT_ROOT, MUP_ROOT);
  }
}
