/** The in-memory list store (ResourceListAdapter) as a value: what each operation computes.
    The class in ListAdapter.dfy performs the same operations on its fields. */
module ListStore {
  import opened Wrappers
  import opened Text

  /* Resources: the fields that the list store and the metering handlers read or write */

  datatype Interval = Interval(start: int, duration: int)

  datatype ReadingTypeData = ReadingTypeData(commodity: Option<int>, uom: Option<int>)

  datatype UsageAttributes = UsageAttributes(
    description: Option<string>,
    deviceLfdi: Option<string>,
    serviceCategoryKind: Option<int>,
    roleFlags: Option<int>,
    status: Option<int>)

  datatype Resource =
    | MirrorUsagePoint(href: Option<string>, mrid: Option<string>, usage: UsageAttributes, postRate: Option<int>)
    | UsagePoint(href: Option<string>, mrid: Option<string>, usage: UsageAttributes, meterReadingListLink: string)
    | MirrorMeterReading(href: Option<string>, mrid: Option<string>, description: Option<string>)
    | MeterReading(href: Option<string>, mrid: Option<string>, description: Option<string>,
                   readingTypeLink: Option<string>, readingListLink: Option<string>,
                   readingSetListLink: Option<string>)
    | MirrorReadingSet(href: Option<string>, mrid: Option<string>, description: Option<string>,
                       timePeriod: Option<Interval>, version: Option<int>)
    | ReadingSet(href: Option<string>, mrid: Option<string>, description: Option<string>,
                 timePeriod: Option<Interval>, version: Option<int>, readingListLink: Option<string>)
    | Reading(href: Option<string>, localId: Option<string>, timePeriod: Option<Interval>, value: Option<int>)

  /** The Python class of a resource, as `_types` registers it. */
  datatype Class =
    | MirrorUsagePointClass | UsagePointClass
    | MirrorMeterReadingClass | MeterReadingClass
    | MirrorReadingSetClass | ReadingSetClass
    | ReadingClass

  function ClassOf(r: Resource): Class {
    match r
    case MirrorUsagePoint(_, _, _, _) => MirrorUsagePointClass
    case UsagePoint(_, _, _, _) => UsagePointClass
    case MirrorMeterReading(_, _, _) => MirrorMeterReadingClass
    case MeterReading(_, _, _, _, _, _) => MeterReadingClass
    case MirrorReadingSet(_, _, _, _, _) => MirrorReadingSetClass
    case ReadingSet(_, _, _, _, _, _) => ReadingSetClass
    case Reading(_, _, _, _) => ReadingClass
  }

  function WithHref(r: Resource, href: string): (r': Resource)
    ensures r'.href == Some(href) && ClassOf(r') == ClassOf(r)
    ensures !r.Reading? ==> r'.mrid == r.mrid
    ensures r.Reading? ==> r' == Reading(Some(href), r.localId, r.timePeriod, r.value)
  {
    r.(href := Some(href))
  }

  /** A property `getattr` may be asked for. */
  datatype Property = MRID | LOCAL_ID

  /** `getattr(item, prop)`: None stands for the AttributeError. */
  function Attr(r: Resource, prop: Property): Option<Option<string>> {
    match prop
    case MRID => if r.Reading? then None else Some(r.mrid)
    case LOCAL_ID => if r.Reading? then Some(r.localId) else None
  }

  /* Containers: a Python dict keyed by integers, in insertion order */

  datatype Entry = Entry(key: int, item: Resource)

  type Dict = seq<Entry>

  /** The position of a key, or the length when it is absent. */
  function Slot(d: Dict, key: int): (k: nat)
    ensures k <= |d|
    ensures k < |d| ==> d[k].key == key
    ensures forall j :: 0 <= j < k ==> d[j].key != key
  {
    if d == [] || d[0].key == key then 0 else 1 + Slot(d[1..], key)
  }

  /** `d[key] = item`: replaces in place, or inserts at the end. */
  function Put(d: Dict, key: int, item: Resource): (d': Dict)
    ensures Slot(d, key) < |d'|
  {
    var k := Slot(d, key);
    if k < |d| then d[k := Entry(key, item)] else d + [Entry(key, item)]
  }

  /** What a dict holds under a key. */
  function Lookup(d: Dict, key: int): Option<Resource> {
    var k := Slot(d, key);
    if k < |d| then Some(d[k].item) else None
  }

  /** A put is seen under its own key and no other, and moves no key. */
  lemma PutLookup(d: Dict, key: int, item: Resource)
    ensures forall k :: Lookup(Put(d, key, item), k) == if k == key then Some(item) else Lookup(d, k)
    ensures Lookup(d, key).None? ==> Put(d, key, item) == d + [Entry(key, item)]
    ensures Lookup(d, key).Some? ==> |Put(d, key, item)| == |d|
                                     && forall j :: 0 <= j < |d| ==> Put(d, key, item)[j].key == d[j].key
  {
    var d' := Put(d, key, item);
    forall k ensures Lookup(d', k) == if k == key then Some(item) else Lookup(d, k) {
      SlotIs(d, k);
      SlotIs(d', k);
      SlotIs(d, key);
      if k != key {
        SlotPut(d, key, item, k);
      } else {
        assert d'[Slot(d, key)].key == key && forall j :: 0 <= j < Slot(d, key) ==> d'[j].key != key;
      }
    }
  }

  lemma SlotIs(d: Dict, key: int)
    ensures Slot(d, key) < |d| <==> exists k :: 0 <= k < |d| && d[k].key == key
  {
  }

  lemma SlotPut(d: Dict, key: int, item: Resource, k: int)
    requires k != key
    ensures var d' := Put(d, key, item);
            if Slot(d, k) < |d| then Slot(d', k) == Slot(d, k)
                                     && d'[Slot(d, k)] == d[Slot(d, k)] else Slot(d', k) == |d'|
  {
    var d' := Put(d, key, item);
    var z := Slot(d', k);
    assert forall j :: 0 <= j < |d| ==> d'[j].key == d[j].key;
    if z < |d'| {
      assert z < |d| && d[z].key == k;
    }
  }

  datatype Hit = Found(slot: nat) | Missing | NoAttribute

  /** The search loop of `get_item_by_prop`. */
  function FirstWhere(d: Dict, prop: Property, value: Option<string>): (h: Hit)
    ensures h.Found? ==> h.slot < |d| && Attr(d[h.slot].item, prop) == Some(value)
    ensures h.Found? ==> forall j :: 0 <= j < h.slot ==> Attr(d[j].item, prop) != Some(value)
    ensures h.Missing? ==> forall j :: 0 <= j < |d| ==> Attr(d[j].item, prop) != Some(value)
    ensures (forall j :: 0 <= j < |d| ==> Attr(d[j].item, prop).Some?) ==> !h.NoAttribute?
  {
    if d == [] then Missing
    else match Attr(d[0].item, prop)
         case None => NoAttribute
         case Some(v) =>
           if v == value then Found(0)
           else match FirstWhere(d[1..], prop, value)
                case Found(k) => Found(k + 1)
                case Missing => Missing
                case NoAttribute => NoAttribute
  }

  /* The store */

  datatype Store = Store(
    lists: map<string, Dict>,               // _container_dict
    types: map<string, Class>,              // _types
    singles: map<string, ReadingTypeData>,  // _singleton_dict
    index: map<string, ReadingTypeData>)    // the href cache of data/indexer.py

  const EMPTY := Store(map[], map[], map[], map[])

  /** What a Python call may raise; the two assertions are told apart. */
  datatype Exn =
    | KeyError | NotFoundError | AlreadyExists | ValueError | TypeError | AttributeError | NameError | BadRequest
    | ConfigurationError | InstanceAssertion | IndexAssertion

  datatype Result<+T> = Ok(value: T) | Raise(error: Exn) {
    predicate IsFailure() { Raise? }

    function PropagateFailure<U>(): Result<U>
      requires Raise?
    {
      Raise(error)
    }

    function Extract(): T
      requires Ok?
    {
      value
    }
  }

  /** The state a call leaves behind, which an exception does not undo, and what it answers. */
  datatype Outcome<+T> = Outcome(store: Store, result: Result<T>) {
    predicate IsFailure() { result.Raise? }

    function PropagateFailure<U>(): Outcome<U>
      requires result.Raise?
    {
      Outcome(store, Raise(result.error))
    }

    function Extract(): (Store, T)
      requires result.Ok?
    {
      (store, result.value)
    }
  }

  /** A reference to a stored object: where it is kept, and its current fields. */
  datatype Ref = Ref(uri: string, slot: nat, item: Resource)

  /** `_container_dict.get(list_uri, {})`. */
  function Items(s: Store, uri: string): Dict {
    if uri in s.lists then s.lists[uri] else []
  }

  function InitializeUri(s: Store, uri: string, c: Class): Outcome<()> {
    if Items(s, uri) != [] && (uri !in s.types || s.types[uri] != c) then Outcome(s, Raise(ValueError))
    else Outcome(s.(types := s.types[uri := c]), Ok(()))
  }

  /** The insertion at the end of `append`. */
  function Insert(s: Store, uri: string, item: Resource): Store {
    s.(lists := s.lists[uri := Put(Items(s, uri), |Items(s, uri)|, item)])
  }

  function Append(s: Store, uri: string, item: Resource): Outcome<Ref> {
    var slot := Slot(Items(s, uri), |Items(s, uri)|);
    if uri in s.types then
      if s.types[uri] != ClassOf(item) then Outcome(s, Raise(ValueError))
      else Outcome(Insert(s, uri, item), Ok(Ref(uri, slot, item)))
    else
      var (s1, _) :- InitializeUri(s, uri, ClassOf(item));
      Outcome(Insert(s1, uri, item), Ok(Ref(uri, slot, item)))
  }

  /** `append` of a List object: its class must be new to the uri, and each element is appended. */
  function AppendList(s: Store, uri: string, c: Class, items: seq<Resource>): Outcome<()> {
    if uri in s.types then Outcome(s, Raise(ValueError))
    else AppendEach(s.(types := s.types[uri := c]), uri, items)
  }

  function AppendEach(s: Store, uri: string, items: seq<Resource>): Outcome<()>
    decreases |items|
  {
    if items == [] then Outcome(s, Ok(()))
    else
      var (s1, _) :- Append(s, uri, items[0]);
      AppendEach(s1, uri, items[1..])
  }

  /** An href whose first part is an integer takes a branch that joins the None returned by
      `list.append` and so raises TypeError. */
  function AppendAndIncrementHref(s: Store, uri: string, item: Resource): Outcome<Ref> {
    if PyInt(Split(uri)[0]).Some? then Outcome(s, Raise(TypeError))
    else Append(s, uri, WithHref(item, Sub(uri, Dec(|Items(s, uri)|))))
  }

  function Get(s: Store, uri: string, key: int): Result<Ref> {
    if uri !in s.lists then Raise(KeyError)
    else
      var k := Slot(s.lists[uri], key);
      if k == |s.lists[uri]| then Raise(NotFoundError) else Ok(Ref(uri, k, s.lists[uri][k].item))
  }

  function Set(s: Store, uri: string, key: int, item: Resource, overwrite: bool := true): Outcome<()> {
    if uri !in s.lists then Outcome(s, Raise(KeyError))
    else if Slot(s.lists[uri], key) < |s.lists[uri]| && !overwrite then Outcome(s, Raise(AlreadyExists))
    else Outcome(s.(lists := s.lists[uri := Put(s.lists[uri], key, item)]), Ok(()))
  }

  /** `get_by_mrid`: a miss is answered with None, an AttributeError escapes. */
  function GetByMrid(s: Store, uri: string, mrid: Option<string>): Result<Option<Ref>> {
    match FirstWhere(Items(s, uri), MRID, mrid)
    case Found(k) => Ok(Some(Ref(uri, k, Items(s, uri)[k].item)))
    case Missing => Ok(None)
    case NoAttribute => Raise(AttributeError)
  }

  /** Assignment to the fields of a stored object through a reference to it. */
  function Assign(s: Store, ref: Ref): Store {
    var d := Items(s, ref.uri);
    if ref.slot < |d| then s.(lists := s.lists[ref.uri := d[ref.slot := Entry(d[ref.slot].key, ref.item)]])
    else s
  }

  /** `remove`, used by no caller: deletes the entry and leaves the other keys as they are. */
  function Remove(s: Store, uri: string, key: int): Outcome<()> {
    var d := Items(s, uri);
    var k := Slot(d, key);
    if k == |d| then Outcome(s, Raise(KeyError))
    else Outcome(s.(lists := s.lists[uri := d[..k] + d[k + 1..]]), Ok(()))
  }

  /* Dense containers */

  /** Keys are exactly 0..n-1, in insertion order. */
  predicate Dense(d: Dict) {
    forall k :: 0 <= k < |d| ==> d[k].key == k
  }

  lemma DenseSlot(d: Dict, key: int)
    requires Dense(d)
    ensures Slot(d, key) == if 0 <= key < |d| then key else |d|
  {
    assert 0 <= key < |d| ==> d[key].key == key;
  }

  lemma DensePut(d: Dict, key: int, item: Resource)
    requires Dense(d) && 0 <= key <= |d|
    ensures Dense(Put(d, key, item))
    ensures Put(d, key, item) == if key < |d| then d[key := Entry(key, item)] else d + [Entry(key, item)]
  {
    DenseSlot(d, key);
  }

  /** One call on the store. */
  datatype Call =
    | CallInitialize(uri: string, c: Class)
    | CallAppend(uri: string, item: Resource)
    | CallAppendNumbered(uri: string, item: Resource)
    | CallAppendList(uri: string, c: Class, items: seq<Resource>)
    | CallSet(uri: string, key: int, item: Resource, overwrite: bool)

  function Perform(s: Store, c: Call): Store {
    match c
    case CallInitialize(uri, cls) => InitializeUri(s, uri, cls).store
    case CallAppend(uri, item) => Append(s, uri, item).store
    case CallAppendNumbered(uri, item) => AppendAndIncrementHref(s, uri, item).store
    case CallAppendList(uri, cls, items) => AppendList(s, uri, cls, items).store
    case CallSet(uri, key, item, overwrite) => Set(s, uri, key, item, overwrite).store
  }

  function PerformAll(s: Store, calls: seq<Call>): Store
    decreases |calls|
  {
    if calls == [] then s else Perform(PerformAll(s, calls[..|calls| - 1]), calls[|calls| - 1])
  }

  /** Every `set` of the run names a key that is present when it is made. */
  ghost predicate SetsExisting(s: Store, calls: seq<Call>) {
    forall n :: 0 <= n < |calls| && calls[n].CallSet? ==>
                  var before := Items(PerformAll(s, calls[..n]), calls[n].uri);
                  Slot(before, calls[n].key) < |before|
  }

  ghost predicate AllDense(s: Store) {
    forall uri :: uri in s.lists ==> Dense(s.lists[uri])
  }

  lemma {:induction false} AppendEachDense(s: Store, uri: string, items: seq<Resource>)
    requires AllDense(s)
    ensures AllDense(AppendEach(s, uri, items).store)
    decreases |items|
  {
    if items != [] {
      DensePut(Items(s, uri), |Items(s, uri)|, items[0]);
      AppendEachDense(Append(s, uri, items[0]).store, uri, items[1..]);
    }
  }

  /** How many elements come before the first of another class. */
  function Leading(items: seq<Resource>, c: Class): (m: nat)
    ensures m <= |items| && (forall k :: 0 <= k < m ==> ClassOf(items[k]) == c)
    ensures m < |items| ==> ClassOf(items[m]) != c
  {
    if items == [] || ClassOf(items[0]) != c then 0 else 1 + Leading(items[1..], c)
  }

  function Entries(items: seq<Resource>, n: nat): (d: Dict)
    ensures |d| == |items| && forall k :: 0 <= k < |items| ==> d[k] == Entry(n + k, items[k])
  {
    seq(|items|, k requires 0 <= k < |items| => Entry(n + k, items[k]))
  }

  lemma Regroup(a: Dict, b: Dict, c: Dict)
    ensures (a + b) + c == a + (b + c)
  {
  }

  lemma EntriesCons(items: seq<Resource>, n: nat)
    requires items != []
    ensures Entries(items, n) == [Entry(n, items[0])] + Entries(items[1..], n + 1)
  {
  }

  /** What the caller of `append` observes. */
  lemma AppendSeen(s: Store, uri: string, item: Resource)
    ensures var o := Append(s, uri, item);
            && (forall v :: v != uri ==> Items(o.store, v) == Items(s, v))
            && (o.result.Raise? ==> o.store == s)
            && (o.result.Ok? && Dense(Items(s, uri)) ==>
                  Items(o.store, uri) == Items(s, uri) + [Entry(|Items(s, uri)|, item)])
            && (o.result.Ok? ==> uri in o.store.types && o.store.types[uri] == ClassOf(item))
            && (o.result.Raise? <==> if uri in s.types then s.types[uri] != ClassOf(item) else Items(s, uri) != [])
            && (o.result.Raise? ==> o.result.error == ValueError)
  {
    if Dense(Items(s, uri)) {
      DensePut(Items(s, uri), |Items(s, uri)|, item);
    }
  }

  lemma AppendOne(s: Store, uri: string, item: Resource)
    requires AllDense(s) && uri in s.types && s.types[uri] == ClassOf(item)
    ensures var o := Append(s, uri, item);
            && o.result.Ok? && AllDense(o.store) && o.store.types == s.types
            && Items(o.store, uri) == Items(s, uri) + [Entry(|Items(s, uri)|, item)]
            && forall other :: other != uri ==> Items(o.store, other) == Items(s, other)
  {
    DensePut(Items(s, uri), |Items(s, uri)|, item);
  }

  lemma AppendRefused(s: Store, uri: string, item: Resource)
    requires uri in s.types && s.types[uri] != ClassOf(item)
    ensures Append(s, uri, item) == Outcome(s, Raise(ValueError))
  {
  }

  /** A List object is stored as one entry for each element, in order, up to the first element of
      another class, which raises. */
  lemma {:induction false} AppendEachStores(s: Store, uri: string, c: Class, items: seq<Resource>)
    requires AllDense(s) && uri in s.types && s.types[uri] == c
    ensures var o := AppendEach(s, uri, items);
            var m := Leading(items, c);
            && o.result == (if m == |items| then Ok(()) else Raise(ValueError))
            && Items(o.store, uri) == Items(s, uri) + Entries(items[..m], |Items(s, uri)|)
            && forall other :: other != uri ==> Items(o.store, other) == Items(s, other)
    decreases |items|
  {
    hide Items;
    hide Dense;
    hide AllDense;
    hide Append;
    var d := Items(s, uri);
    var m := Leading(items, c);
    if items != [] && ClassOf(items[0]) == c {
      AppendOne(s, uri, items[0]);
      var s1 := Append(s, uri, items[0]).store;
      AppendEachStores(s1, uri, c, items[1..]);
      assert m == 1 + Leading(items[1..], c);
      hide Leading;
      EntriesCons(items[..m], |d|);
      assert items[..m][1..] == items[1..][..m - 1];
      hide Entries;
      Regroup(d, [Entry(|d|, items[0])], Entries(items[1..][..m - 1], |d| + 1));
    } else {
      if items != [] {
        AppendRefused(s, uri, items[0]);
      }
      assert Entries(items[..m], |d|) == [];
    }
  }

  lemma PutDense(s: Store, uri: string, key: int, item: Resource)
    requires AllDense(s) && 0 <= key <= |Items(s, uri)|
    ensures AllDense(s.(lists := s.lists[uri := Put(Items(s, uri), key, item)]))
  {
    hide Put;
    DensePut(Items(s, uri), key, item);
  }

  /** One call keeps every list dense. */
  lemma PerformDense(s: Store, c: Call)
    requires AllDense(s) && (c.CallSet? ==> Slot(Items(s, c.uri), c.key) < |Items(s, c.uri)|)
    ensures AllDense(Perform(s, c))
  {
    hide Split;
    hide Sub;
    hide Dec;
    hide Put;
    hide Dense;
    hide Slot;
    var d := Items(s, c.uri);
    match c
    case CallInitialize(_, _) =>
    case CallAppend(uri, item) =>
      PutDense(s, uri, |d|, item);
      SameListsDense(s, Append(s, uri, item).store, uri, |d|, item);
    case CallAppendNumbered(uri, item) =>
      var numbered := WithHref(item, Sub(uri, Dec(|d|)));
      PutDense(s, uri, |d|, numbered);
      SameListsDense(s, Append(s, uri, numbered).store, uri, |d|, numbered);
    case CallAppendList(uri, cls, items) =>
      AppendEachDense(s.(types := s.types[uri := cls]), uri, items);
    case CallSet(uri, key, item, _) =>
      KeyOfSlot(d, key);
      DenseKey(s, uri, key);
      PutDense(s, uri, key, item);
  }

  lemma SameListsDense(s: Store, s': Store, uri: string, key: int, item: Resource)
    requires AllDense(s) && AllDense(s.(lists := s.lists[uri := Put(Items(s, uri), key, item)]))
    requires s'.lists == s.lists || s'.lists == s.lists[uri := Put(Items(s, uri), key, item)]
    ensures AllDense(s')
  {
    hide Put;
    hide Dense;
  }

  lemma KeyOfSlot(d: Dict, key: int)
    requires Slot(d, key) < |d|
    ensures exists k :: 0 <= k < |d| && d[k].key == key
  {
  }

  lemma DenseKey(s: Store, uri: string, key: int)
    requires AllDense(s) && exists k :: 0 <= k < |Items(s, uri)| && Items(s, uri)[k].key == key
    ensures 0 <= key < |Items(s, uri)|
  {
  }

  lemma {:induction false} RunsKeepListsDense(s: Store, calls: seq<Call>)
    requires AllDense(s) && SetsExisting(s, calls)
    ensures AllDense(PerformAll(s, calls))
    decreases |calls|
  {
    hide Perform;
    hide AllDense;
    hide Slot;
    hide Items;
    if calls != [] {
      var n := |calls| - 1;
      assert SetsExisting(s, calls[..n]) by {
        forall m | 0 <= m < n ensures calls[..n][..m] == calls[..m] {
        }
      }
      RunsKeepListsDense(s, calls[..n]);
      PerformDense(PerformAll(s, calls[..n]), calls[n]);
    }
  }

  /** On a dense list an append that succeeds keeps every old entry and adds one at the end; the
      href that the numbering append hands out ends in the key under which the object is stored. */
  lemma AppendNumberedAtOwnKey(s: Store, uri: string, item: Resource)
    requires AllDense(s) && AppendAndIncrementHref(s, uri, item).result.Ok?
    ensures var Outcome(s', Ok(ref)) := AppendAndIncrementHref(s, uri, item);
            && Items(s', uri) == Items(s, uri) + [Entry(|Items(s, uri)|, ref.item)]
            && ref.slot == |Items(s, uri)| && Get(s', uri, ref.slot) == Ok(ref)
            && ref.item.href.Some? && PyInt(Last(Split(ref.item.href.value))) == Some(ref.slot)
            && forall other :: other != uri ==> Items(s', other) == Items(s, other)
  {
    hide Split;
    hide Sub;
    hide PyInt;
    var d := Items(s, uri);
    var numbered := WithHref(item, Sub(uri, Dec(|d|)));
    DensePut(d, |d|, numbered);
    DenseSlot(d, |d|);
    DenseSlot(d + [Entry(|d|, numbered)], |d|);
    DecValue(|d|);
    SplitSub(uri, Dec(|d|));
    hide Dec;
  }

  /** After a removal the next append keeps every survivor exactly when the last key was removed;
      otherwise it overwrites the last of them. */
  lemma RemoveIsSafeOnlyAtTheEnd(s: Store, uri: string, key: nat, item: Resource)
    requires Dense(Items(s, uri)) && key < |Items(s, uri)|
    requires Append(Remove(s, uri, key).store, uri, item).result.Ok?
    ensures var d := Items(s, uri);
            var shrunk, grown := Items(Remove(s, uri, key).store, uri),
                                 Items(Append(Remove(s, uri, key).store, uri, item).store, uri);
            && Remove(s, uri, key).result.Ok? && shrunk == d[..key] + d[key + 1..]
            && (grown == shrunk + [Entry(|shrunk|, item)] <==> key == |d| - 1)
            && (key < |d| - 1 ==> grown == shrunk[|shrunk| - 1 := Entry(|d| - 1, item)])
  {
    var d := Items(s, uri);
    DenseSlot(d, key);
    var s1 := Remove(s, uri, key).store;
    assert Items(Append(s1, uri, item).store, uri) == Put(Items(s1, uri), |Items(s1, uri)|, item);
    hide Append;
    hide Remove;
    AfterRemoval(d, key, item);
  }

  lemma AfterRemoval(d: Dict, key: nat, item: Resource)
    requires Dense(d) && key < |d|
    ensures var shrunk := d[..key] + d[key + 1..];
            && (Put(shrunk, |shrunk|, item) == shrunk + [Entry(|shrunk|, item)] <==> key == |d| - 1)
            && (key < |d| - 1 ==> Put(shrunk, |shrunk|, item) == shrunk[|shrunk| - 1 := Entry(|d| - 1, item)])
  {
    var shrunk := d[..key] + d[key + 1..];
    var n := |shrunk|;
    if key < |d| - 1 {
      assert shrunk[n - 1] == d[n];
      forall j | 0 <= j < n - 1 ensures shrunk[j].key != n {
        assert shrunk[j].key == if j < key then j else j + 1;
      }
      assert Slot(shrunk, n) == n - 1;
      assert |Put(shrunk, n, item)| == n;
    } else {
      assert shrunk == d[..n];
      DenseSlot(shrunk, n);
    }
  }
}
