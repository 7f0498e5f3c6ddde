/** The HTTP surface of metering: what the handlers of /mup and /upt answer, and what holds in
    every state that any run of requests can reach. */
module MeteringServer {
  import opened Wrappers
  import opened Text
  import opened ListStore
  import opened MeteringSpec
  import opened MeteringUris
  import opened MeteringInvariant
  import opened MeteringSteps
  import opened MeteringSaves
  import opened MeteringPoints
  import Paging
  import Hrefs = MeteringHrefs

  /* Reading */

  function Values(d: Dict): (items: seq<Resource>)
    ensures |items| == |d| && forall k :: 0 <= k < |d| ==> items[k] == d[k].item
  {
    seq(|d|, k requires 0 <= k < |d| => d[k].item)
  }

  /** `item.timePeriod.start`: None stands for the AttributeError that leaves a list unsorted. */
  function StartOf(r: Resource): Option<int> {
    match r
    case MirrorReadingSet(_, _, _, Some(t), _) => Some(t.start)
    case ReadingSet(_, _, _, Some(t), _, _) => Some(t.start)
    case Reading(_, _, Some(t), _) => Some(t.start)
    case _ => None
  }

  function LatestFirst(items: seq<Resource>): seq<Resource> {
    if forall k :: 0 <= k < |items| ==> StartOf(items[k]).Some?
    then Paging.Sorted((r: Resource) => StartOf(r).GetOr(0), true, items)
    else items
  }

  datatype Answer =
    | Single(item: Resource)
    | TypeOf(data: Option<ReadingTypeData>)
    | Listing(page: Paging.Page<Resource>)

  /** The list exists on first access once its type is known. */
  function GetResourceList(s: Store, uri: string, start: int, after: int, limit: int, byStart: bool): Outcome<Answer> {
    if uri !in s.types then Outcome(s, Raise(KeyError))
    else
      var s1 := if uri in s.lists then s else s.(lists := s.lists[uri := []]);
      var items := Values(Items(s1, uri));
      Outcome(s1, Ok(Listing(Paging.ResourcePage(if byStart then LatestFirst(items) else items, start, after, limit))))
  }

  function GetItem(s: Store, path: string, index: int): Outcome<Answer> {
    match Get(s, Hrefs.LastList(path), index)
    case Raise(e) => Outcome(s, Raise(e))
    case Ok(ref) => Outcome(s, Ok(Single(ref.item)))
  }

  /** An item when the path ends in an index, else the list it names. */
  function GetItemOrList(s: Store, path: string, index: Hrefs.Access, start: int, after: int, limit: int,
                         byStart: bool): Outcome<Answer> {
    match index
    case NotAnInteger => Outcome(s, Raise(ValueError))
    case Index(v) => GetItem(s, path, v)
    case Absent => GetResourceList(s, path, start, after, limit, byStart)
  }

  /** UsagePointRequest.get */
  function UsagePointGet(s: Store, path: string, start: int, after: int, limit: int): Outcome<Answer> {
    if Hrefs.HasReadingList(path) then GetItemOrList(s, path, Hrefs.ReadingIndex(path), start, after, limit, true)
    else if Hrefs.HasReadingSetList(path) then
      GetItemOrList(s, path, Hrefs.ReadingSetIndex(path), start, after, limit, true)
    else if Hrefs.HasMeterReadingList(path) then
      if Hrefs.HasReadingType(path) then
        Outcome(s, Ok(TypeOf(if path in s.index then Some(s.index[path]) else None)))
      else GetItemOrList(s, path, Hrefs.MeterReadingIndex(path), start, after, limit, false)
    else
      var (s1, _) :- GetResourceList(s, path, start, after, limit, false);
      GetResourceList(s1, path, start, after, limit, false)
  }

  /** MirrorUsagePointRequest.get */
  function MirrorUsagePointGet(s: Store, path: string): Outcome<Answer> {
    if !StartsWith(path, MUP_ROOT) then Outcome(s, Raise(ValueError))
    else match Hrefs.UsagePointIndex(path)
         case NotAnInteger => Outcome(s, Raise(ValueError))
         case Index(v) =>
           var (s1, ref) :- Outcome(s, Get(s, MUP_ROOT, v));
           Outcome(s1, Ok(Single(ref.item)))
         case Absent =>
           var (s1, _) :- if GetResourceList(s, path, 0, 0, 0, false).result.Ok? then Outcome(s, Ok(()))
                          else InitializeUri(s, path, MirrorUsagePointClass);
           GetResourceList(s1, path, 0, 0, 0, false)
  }

  /* Requests */

  datatype Request =
    | PostPoint(path: string, point: UsagePointPost)
    | PostMeter(path: string, meter: MeterReadingPost)
    | PostSet(path: string)
    | GetMirror(path: string)
    | GetUsage(path: string, start: int, after: int, limit: int)

  datatype Response = Stored(status: nat, location: Option<string>) | Shown(answer: Answer)

  function Status(o: Outcome<ReturnValue>): Outcome<Response> {
    var (s1, v) :- o;
    Outcome(s1, Ok(Stored(if v.wasUpdate then 204 else 201, v.location)))
  }

  function Show(o: Outcome<Answer>): Outcome<Response> {
    var (s1, a) :- o;
    Outcome(s1, Ok(Shown(a)))
  }

  /** The handlers of the two routes. A posted reading set reaches a return statement that names
      variables never assigned. */
  function Handle(s: Store, r: Request): Outcome<Response> {
    match r
    case PostPoint(_, post) => Status(CreateMirrorUsagePoint(s, post))
    case PostMeter(path, post) =>
      if |Split(path)| == 1 then Outcome(s, Raise(BadRequest)) else Status(PostMeterReading(s, path, post))
    case PostSet(path) =>
      if |Split(path)| == 1 then Outcome(s, Raise(BadRequest))
      else if CheckPoint(s, path).Raise? then Outcome(s, Raise(CheckPoint(s, path).error))
      else Outcome(s, Raise(NameError))
    case GetMirror(path) => Show(MirrorUsagePointGet(s, path))
    case GetUsage(path, start, after, limit) => Show(UsagePointGet(s, path, start, after, limit))
  }

  function Run(s: Store, requests: seq<Request>): Store
    decreases |requests|
  {
    if requests == [] then s
    else Handle(Run(s, requests[..|requests| - 1]), requests[|requests| - 1]).store
  }

  /** Requests as the server routes them. */
  predicate Routed(r: Request) {
    r.GetUsage? || RoutePath(r.path)
  }

  /** The paths a run posts meter readings to. */
  ghost predicate PostsWithin(requests: seq<Request>, paths: iset<string>) {
    forall k :: 0 <= k < |requests| ==> Routed(requests[k]) && (requests[k].PostMeter? ==> requests[k].path in paths)
  }

  lemma EmptyInv(paths: iset<string>)
    ensures Inv(EMPTY, paths)
  {
    hide UriClass;
  }

  lemma ListingInv(s: Store, uri: string, start: int, after: int, limit: int, byStart: bool, paths: iset<string>)
    requires Inv(s, paths) && forall p :: p in paths ==> RoutePath(p)
    ensures Inv(GetResourceList(s, uri, start, after, limit, byStart).store, paths)
    ensures forall u :: Items(GetResourceList(s, uri, start, after, limit, byStart).store, u) == Items(s, u)
  {
    hide UriClass;
    hide LatestFirst;
    var s' := GetResourceList(s, uri, start, after, limit, byStart).store;
    assert forall u :: Items(s', u) == Items(s, u);
    StillInv(s, s', paths);
  }

  lemma UsagePointGetInv(s: Store, path: string, start: int, after: int, limit: int, paths: iset<string>)
    requires Inv(s, paths) && forall p :: p in paths ==> RoutePath(p)
    ensures Inv(UsagePointGet(s, path, start, after, limit).store, paths)
  {
    hide UriClass;
    hide Inv;
    hide GetResourceList;
    hide Split;
    ListingInv(s, path, start, after, limit, true, paths);
    ListingInv(s, path, start, after, limit, false, paths);
    ListingInv(GetResourceList(s, path, start, after, limit, false).store, path, start, after, limit, false, paths);
  }

  lemma MirrorUsagePointGetInv(s: Store, path: string, paths: iset<string>)
    requires Inv(s, paths) && RoutePath(path) && forall p :: p in paths ==> RoutePath(p)
    ensures Inv(MirrorUsagePointGet(s, path).store, paths)
  {
    hide Inv;
    hide GetResourceList;
    hide InitializeUri;
    if Hrefs.UsagePointIndex(path).Absent? {
      assert UriClass(path) == Some(MirrorUsagePointClass);
      InitializeInv(s, path, MirrorUsagePointClass, paths);
      ListingInv(s, path, 0, 0, 0, false, paths);
      ListingInv(InitializeUri(s, path, MirrorUsagePointClass).store, path, 0, 0, 0, false, paths);
    }
  }

  /** One request: the invariant is kept, and neither assertion of the posting code fails. */
  lemma HandleInv(s: Store, r: Request, paths: iset<string>)
    requires Inv(s, paths) && Separated(paths) && PointPaths() <= paths && Routed(r)
    requires r.PostMeter? ==> r.path in paths
    ensures Inv(Handle(s, r).store, paths)
    ensures Handle(s, r).result.Raise? ==> Handle(s, r).result.error !in {IndexAssertion, InstanceAssertion}
  {
    hide UriClass;
    hide Inv;
    hide Split;
    hide Separated;
    hide UsagePointGet;
    hide MirrorUsagePointGet;
    SeparatedRoutes(paths);
    match r
    case PostPoint(_, post) =>
      CreateMirrorUsagePointInv(s, post, paths);
    case PostMeter(path, post) =>
      PostMeterReadingInv(s, path, post, paths);
    case PostSet(path) =>
      InvParts(s, "", paths);
      if CheckPoint(s, path).Raise? {
        CheckPointErrors(s, path);
      }
    case GetMirror(path) =>
      MirrorUsagePointGetInv(s, path, paths);
      MirrorGetErrors(s, path);
    case GetUsage(path, start, after, limit) =>
      UsagePointGetInv(s, path, start, after, limit, paths);
      UsageGetErrors(s, path, start, after, limit);
  }

  lemma MirrorGetErrors(s: Store, path: string)
    ensures var o := MirrorUsagePointGet(s, path);
            o.result.Raise? ==> o.result.error in {KeyError, ValueError, NotFoundError}
  {
    hide Split;
    hide LatestFirst;
  }

  lemma UsageGetErrors(s: Store, path: string, start: int, after: int, limit: int)
    ensures var o := UsagePointGet(s, path, start, after, limit);
            o.result.Raise? ==> o.result.error in {KeyError, ValueError, NotFoundError}
  {
    hide Split;
    hide LatestFirst;
  }

  lemma {:induction false} RunInv(requests: seq<Request>, paths: iset<string>)
    requires Separated(paths) && PointPaths() <= paths && PostsWithin(requests, paths)
    ensures Inv(Run(EMPTY, requests), paths)
    decreases |requests|
  {
    hide UriClass;
    hide Inv;
    hide Separated;
    hide Handle;
    if requests == [] {
      EmptyInv(paths);
    } else {
      var n := |requests| - 1;
      RunInv(requests[..n], paths);
      HandleInv(Run(EMPTY, requests[..n]), requests[n], paths);
    }
  }

  /* Runs over any paths */

  predicate AllRouted(requests: seq<Request>) {
    forall k :: 0 <= k < |requests| ==> Routed(requests[k])
  }

  /** Any routed request, also one in which the index assertion fails, keeps the invariant over the
      hrefs of points. */
  lemma HandleKeeps(s: Store, r: Request)
    requires Inv(s, PointPaths()) && Routed(r)
    ensures Inv(Handle(s, r).store, PointPaths())
  {
    hide UriClass;
    hide Inv;
    hide Split;
    hide Separated;
    hide UsagePointGet;
    hide MirrorUsagePointGet;
    hide PostMeterReading;
    hide CreateMirrorUsagePoint;
    SeparatedPointsOnly();
    SeparatedRoutes(PointPaths());
    match r
    case PostPoint(_, post) =>
      CreateMirrorUsagePointInv(s, post, PointPaths());
    case PostMeter(path, post) =>
      PostMeterReadingAny(s, path, post);
    case PostSet(_) =>
    case GetMirror(path) =>
      MirrorUsagePointGetInv(s, path, PointPaths());
    case GetUsage(path, start, after, limit) =>
      UsagePointGetInv(s, path, start, after, limit, PointPaths());
  }

  lemma {:induction false} RunKeeps(requests: seq<Request>)
    requires AllRouted(requests)
    ensures Inv(Run(EMPTY, requests), PointPaths())
    decreases |requests|
  {
    hide UriClass;
    hide Inv;
    hide Handle;
    if requests == [] {
      EmptyInv(PointPaths());
    } else {
      var n := |requests| - 1;
      RunKeeps(requests[..n]);
      HandleKeeps(Run(EMPTY, requests[..n]), requests[n]);
    }
  }
}
