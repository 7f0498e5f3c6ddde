/** ResourceListAdapter as the class it is: fields that its methods update, each method proved
    to do what ListStore says. */
module ListAdapter {
  import opened Wrappers
  import opened Text
  import opened ListStore
  import ListPages
  import Paging
  import Server = MeteringServer

  function Shift(h: Hit, offset: nat): Hit {
    match h
    case Found(k) => Found(k + offset)
    case _ => h
  }

  lemma ListSeen(s: Store, uri: string, c: Class, items: seq<Resource>)
    ensures uri !in s.types && AllDense(s) ==>
              var o, m := ListStore.AppendList(s, uri, c, items), Leading(items, c);
              && o.result == (if m == |items| then Ok(()) else Raise(ValueError))
              && Items(o.store, uri) == Items(s, uri) + Entries(items[..m], |Items(s, uri)|)
              && forall v :: v != uri ==> Items(o.store, v) == Items(s, v)
  {
    hide Dense;
    hide AppendEach;
    hide Leading;
    if uri !in s.types && AllDense(s) {
      AppendEachStores(s.(types := s.types[uri := c]), uri, c, items);
    }
  }

  class ResourceListAdapter {
    var lists: map<string, Dict>
    var types: map<string, Class>
    var singles: map<string, ReadingTypeData>
    // The href cache of data/indexer.py, which the metering code fills beside the lists.
    var index: map<string, ReadingTypeData>

    function Model(): Store
      reads this
    {
      Store(lists, types, singles, index)
    }

    constructor ()
      ensures Model() == EMPTY
    {
      lists, types, singles, index := map[], map[], map[], map[];
    }

    method ListSize(uri: string) returns (n: nat)
      ensures n == |Items(Model(), uri)|
    {
      n := if uri in lists then |lists[uri]| else 0;
    }

    method InitializeUri(uri: string, c: Class) returns (r: Result<()>)
      modifies this
      ensures Outcome(Model(), r) == ListStore.InitializeUri(old(Model()), uri, c)
      ensures lists == old(lists) && (r.Ok? ==> types == old(types)[uri := c]) && (r.Raise? ==> types == old(types))
      ensures r.Raise? <==> uri in lists && lists[uri] != [] && !(uri in old(types) && old(types)[uri] == c)
    {
      if uri in lists && lists[uri] != [] && (uri !in types || types[uri] != c) {
        return Raise(ValueError);
      }
      types := types[uri := c];
      return Ok(());
    }

    method Append(uri: string, item: Resource) returns (r: Result<Ref>)
      modifies this
      ensures Outcome(Model(), r) == ListStore.Append(old(Model()), uri, item)
      ensures forall v :: v != uri ==> Items(Model(), v) == Items(old(Model()), v)
      ensures r.Raise? ==> Model() == old(Model())
      ensures r.Ok? && Dense(Items(old(Model()), uri)) ==>
                Items(Model(), uri) == Items(old(Model()), uri) + [Entry(|Items(old(Model()), uri)|, item)]
      ensures r.Ok? ==> uri in types && types[uri] == ClassOf(item)
      ensures r.Raise? <==>
              if uri in old(types) then old(types)[uri] != ClassOf(item) else Items(old(Model()), uri) != []
      ensures r.Raise? ==> r.error == ValueError
    {
      AppendSeen(Model(), uri, item);
      hide Dense;
      hide Put;
      hide Slot;
      if uri in types {
        if types[uri] != ClassOf(item) {
          return Raise(ValueError);
        }
      } else {
        var _ :- InitializeUri(uri, ClassOf(item));
      }
      r := Insert(uri, item);
    }

    /** The insertion under the next number, into a list that exists from then on. */
    method Insert(uri: string, item: Resource) returns (r: Result<Ref>)
      modifies this`lists
      ensures Model() == ListStore.Insert(old(Model()), uri, item)
      ensures r == Ok(Ref(uri, Slot(Items(old(Model()), uri), |Items(old(Model()), uri)|), item))
    {
      hide Put;
      hide Slot;
      if uri !in lists {
        lists := lists[uri := []];
      }
      var d := lists[uri];
      lists := lists[uri := Put(d, |d|, item)];
      return Ok(Ref(uri, Slot(d, |d|), item));
    }

    /** `append` of a List object, element by element; an element of another class ends it. */
    method AppendList(uri: string, c: Class, items: seq<Resource>) returns (r: Result<()>)
      modifies this
      ensures Outcome(Model(), r) == ListStore.AppendList(old(Model()), uri, c, items)
      ensures uri in old(types) ==> r == Raise(ValueError) && Model() == old(Model())
      ensures uri !in old(types) && AllDense(old(Model())) ==>
                && r == (if Leading(items, c) == |items| then Ok(()) else Raise(ValueError))
                && Items(Model(), uri) == Items(old(Model()), uri)
                                          + Entries(items[..Leading(items, c)], |Items(old(Model()), uri)|)
                && forall v :: v != uri ==> Items(Model(), v) == Items(old(Model()), v)
    {
      ListSeen(Model(), uri, c, items);
      if uri in types {
        return Raise(ValueError);
      }
      types := types[uri := c];
      var k := 0;
      while k < |items|
        invariant 0 <= k <= |items|
        invariant ListStore.AppendList(old(Model()), uri, c, items) == AppendEach(Model(), uri, items[k..])
      {
        assert items[k..][1..] == items[k + 1..];
        var _ :- Append(uri, items[k]);
        k := k + 1;
      }
      return Ok(());
    }

    method AppendAndIncrementHref(uri: string, item: Resource) returns (r: Result<Ref>)
      modifies this
      ensures Outcome(Model(), r) == ListStore.AppendAndIncrementHref(old(Model()), uri, item)
      ensures r == Raise(TypeError) <==> PyInt(Split(uri)[0]).Some?
      ensures r.Raise? ==> r.error in {TypeError, ValueError} && Model() == old(Model())
      ensures forall v :: v != uri ==> Items(Model(), v) == Items(old(Model()), v)
      ensures r.Ok? ==> r.value.item.href == Some(Sub(uri, Dec(|Items(old(Model()), uri)|)))
      ensures r.Ok? && Dense(Items(old(Model()), uri)) ==>
                Items(Model(), uri) == Items(old(Model()), uri) + [Entry(|Items(old(Model()), uri)|, r.value.item)]
    {
      hide Dense;
      if PyInt(Split(uri)[0]).Some? {
        return Raise(TypeError);
      }
      var n := ListSize(uri);
      r := Append(uri, WithHref(item, Sub(uri, Dec(n))));
    }

    /** The search loop: the first item whose property has the value. */
    method GetItemByProp(uri: string, prop: Property, value: Option<string>) returns (h: Hit)
      ensures h == FirstWhere(Items(Model(), uri), prop, value)
    {
      var d := if uri in lists then lists[uri] else [];
      var k := 0;
      while k < |d|
        invariant 0 <= k <= |d|
        invariant FirstWhere(d, prop, value) == Shift(FirstWhere(d[k..], prop, value), k)
      {
        assert d[k..][1..] == d[k + 1..];
        match Attr(d[k].item, prop) {
          case None => return NoAttribute;
          case Some(v) =>
            if v == value {
              return Found(k);
            }
        }
        k := k + 1;
      }
      return Missing;
    }

    method GetByMrid(uri: string, mrid: Option<string>) returns (r: Result<Option<Ref>>)
      ensures r == ListStore.GetByMrid(Model(), uri, mrid)
    {
      var h := GetItemByProp(uri, MRID, mrid);
      match h {
        case Found(k) => r := Ok(Some(Ref(uri, k, lists[uri][k].item)));
        case Missing => r := Ok(None);
        case NoAttribute => r := Raise(AttributeError);
      }
    }

    method Get(uri: string, key: int) returns (r: Result<Ref>)
      ensures r == ListStore.Get(Model(), uri, key)
      ensures r.Ok? <==> uri in lists && Lookup(lists[uri], key).Some?
      ensures r.Ok? ==> Lookup(lists[uri], key) == Some(r.value.item)
      ensures r.Raise? ==> r.error == if uri in lists then NotFoundError else KeyError
    {
      if uri !in lists {
        return Raise(KeyError);
      }
      var k := Slot(lists[uri], key);
      if k == |lists[uri]| {
        return Raise(NotFoundError);
      }
      return Ok(Ref(uri, k, lists[uri][k].item));
    }

    method Set(uri: string, key: int, item: Resource, overwrite: bool := true) returns (r: Result<()>)
      modifies this
      ensures Outcome(Model(), r) == ListStore.Set(old(Model()), uri, key, item, overwrite)
      ensures r.Ok? <==> uri in old(lists) && (overwrite || Lookup(old(lists)[uri], key).None?)
      ensures r.Ok? ==> uri in lists && lists == old(lists)[uri := lists[uri]]
      ensures r.Ok? ==> forall k :: Lookup(lists[uri], k) == if k == key then Some(item) else Lookup(old(lists)[uri], k)
      ensures r.Raise? ==> Model() == old(Model()) && r.error == if uri in lists then AlreadyExists else KeyError
    {
      if uri !in lists {
        return Raise(KeyError);
      }
      if Slot(lists[uri], key) < |lists[uri]| && !overwrite {
        return Raise(AlreadyExists);
      }
      PutLookup(lists[uri], key, item);
      lists := lists[uri := Put(lists[uri], key, item)];
      return Ok(());
    }

    /** An assignment to fields of an object that a list holds. */
    method Assign(ref: Ref)
      modifies this`lists
      ensures Model() == ListStore.Assign(old(Model()), ref)
    {
      if Holds(ref) {
        var d := lists[ref.uri];
        lists := lists[ref.uri := d[ref.slot := Entry(d[ref.slot].key, ref.item)]];
      }
    }

    predicate Holds(ref: Ref)
      reads this
    {
      ref.uri in lists && ref.slot < |lists[ref.uri]|
    }

    method SetSingle(uri: string, data: ReadingTypeData)
      modifies this`singles
      ensures Model() == old(Model()).(singles := old(singles)[uri := data])
    {
      singles := singles[uri := data];
    }

    method AddHref(uri: string, data: ReadingTypeData)
      modifies this`index
      ensures Model() == old(Model()).(index := old(index)[uri := data])
    {
      index := index[uri := data];
    }

    method Remove(uri: string, key: int) returns (r: Result<()>)
      modifies this
      ensures Outcome(Model(), r) == ListStore.Remove(old(Model()), uri, key)
      ensures r.Raise? <==> Lookup(Items(old(Model()), uri), key).None?
      ensures r.Raise? ==> Model() == old(Model()) && r.error == KeyError
      ensures forall v :: v != uri ==> Items(Model(), v) == Items(old(Model()), v)
      ensures r.Ok? ==> |Items(Model(), uri)| == |Items(old(Model()), uri)| - 1
                        && forall e :: e in Items(Model(), uri) ==> e in Items(old(Model()), uri)
      ensures forall e :: e in Items(old(Model()), uri) && e.key != key ==> e in Items(Model(), uri)
    {
      var d := if uri in lists then lists[uri] else [];
      var k := Slot(d, key);
      if k == |d| {
        return Raise(KeyError);
      }
      lists := lists[uri := d[..k] + d[k + 1..]];
      return Ok(());
    }

    /** A page of a list, latest first when sorted. */
    method GetResourceList(uri: string, start: int, after: int, limit: int, byStart: bool)
      returns (r: Result<Server.Answer>)
      modifies this`lists
      ensures Outcome(Model(), r) == Server.GetResourceList(old(Model()), uri, start, after, limit, byStart)
      ensures if uri in types then ListPages.Lists(old(Model()), Outcome(Model(), r), uri, byStart, start, after, limit)
              else Model() == old(Model()) && r == Raise(KeyError)
    {
      ListPages.AnsweredPage(Model(), uri, start, after, limit, byStart);
      hide ListPages.Lists;
      if uri !in types {
        return Raise(KeyError);
      }
      if uri !in lists {
        lists := lists[uri := []];
      }
      var items := Server.Values(lists[uri]);
      if byStart {
        items := Server.LatestFirst(items);
      }
      var shown := items;
      if !(start == after == limit == 0) {
        var posx := start + after;
        shown := Paging.Slice(items, posx, posx + limit);
      }
      return Ok(Server.Listing(Paging.Page(|items|, |shown|, shown)));
    }
  }
}
