/** The posting code of adapters.py and the handlers of meteringfs.py as methods on the list
    adapter, each proved to compute what MeteringSpec and MeteringServer say. */
module Metering {
  import opened Wrappers
  import opened Text
  import opened ListStore
  import opened MeteringSpec
  import opened ListAdapter
  import Server = MeteringServer
  import Hrefs = MeteringHrefs

  method CreateOrUpdateReading(adapter: ResourceListAdapter, uri: string, reading: ReadingItem)
    returns (r: Result<ReturnValue>)
    modifies adapter
    ensures Outcome(adapter.Model(), r) == MeteringSpec.CreateOrUpdateReading(old(adapter.Model()), uri, reading)
  {
    var h := adapter.GetItemByProp(uri, LOCAL_ID, reading.localId);
    match h {
      case NoAttribute => return Raise(AttributeError);
      case Missing =>
        var ref :- adapter.AppendAndIncrementHref(uri, reading);
        return Ok(ReturnValue(ref.item, false, ref.item.href));
      case Found(k) =>
        var saved := adapter.lists[uri][k].item;
        var key :- KeyOfHref(saved.href);
        var _ := adapter.Set(uri, key, reading);
        return Ok(ReturnValue(saved, true, saved.href));
    }
  }

  method CreateOrUpdateReadingSet(adapter: ResourceListAdapter, uri: string, item: ReadingSetItem)
    returns (r: Result<Ref>)
    modifies adapter
    ensures Outcome(adapter.Model(), r) == MeteringSpec.CreateOrUpdateReadingSet(old(adapter.Model()), uri, item)
  {
    var current: Option<Ref> := None;
    if item.href.Some? {
      current :- adapter.GetByMrid(item.href.value, item.mrid);
    }
    if current.None? {
      var _ :- adapter.AppendAndIncrementHref(MirrorSetList(uri), item);
      r := adapter.AppendAndIncrementHref(uri, ReadingSet(None, None, item.description, item.timePeriod,
                                                          item.version, None));
    } else {
      var key :- KeyOfHref(item.href);
      var ref :- adapter.Get(uri, key);
      if !ref.item.ReadingSet? {
        return Raise(InstanceAssertion);
      }
      var updated := ReadingSet(ref.item.href, ref.item.mrid, item.description, item.timePeriod, item.version,
                                ref.item.readingListLink);
      var _ := adapter.Set(uri, key, updated);
      return Ok(ref.(item := updated));
    }
  }

  /** The body of the loop over the posted reading sets, with its inner loop over the readings. */
  method PostReadingSet(adapter: ResourceListAdapter, uri: string, post: ReadingSetPost) returns (r: Result<()>)
    modifies adapter
    ensures Outcome(adapter.Model(), r) == MeteringSpec.PostReadingSet(old(adapter.Model()), uri, post)
  {
    hide Sub;
    hide MeteringSpec.CreateOrUpdateReadingSet;
    hide CreateOrUpdateReadings;
    var ref :- CreateOrUpdateReadingSet(adapter, uri, post.item);
    if !ref.item.ReadingSet? {
      return Raise(InstanceAssertion);
    }
    if ref.item.href.None? {
      return Raise(TypeError);
    }
    var list := Sub(ref.item.href.value, "r");
    var linked := ReadingSet(ref.item.href, ref.item.mrid, ref.item.description, ref.item.timePeriod,
                             ref.item.version, Some(list));
    adapter.Assign(ref.(item := linked));
    r := PostReadings(adapter, list, post.readings);
  }

  /** The inner loop. */
  method PostReadings(adapter: ResourceListAdapter, list: string, readings: seq<ReadingItem>) returns (r: Result<()>)
    modifies adapter
    ensures Outcome(adapter.Model(), r) == CreateOrUpdateReadings(old(adapter.Model()), list, readings)
  {
    hide MeteringSpec.CreateOrUpdateReading;
    var j := 0;
    while j < |readings|
      invariant 0 <= j <= |readings|
      invariant CreateOrUpdateReadings(old(adapter.Model()), list, readings)
             == CreateOrUpdateReadings(adapter.Model(), list, readings[j..])
    {
      assert readings[j..][1..] == readings[j + 1..];
      var _ :- CreateOrUpdateReading(adapter, list, readings[j]);
      j := j + 1;
    }
    return Ok(());
  }

  /** The loop over the posted reading sets. */
  method PostSets(adapter: ResourceListAdapter, list: string, posts: seq<ReadingSetPost>) returns (r: Result<()>)
    modifies adapter
    ensures Outcome(adapter.Model(), r) == PostReadingSets(old(adapter.Model()), list, posts)
  {
    hide MeteringSpec.PostReadingSet;
    var i := 0;
    while i < |posts|
      invariant 0 <= i <= |posts|
      invariant PostReadingSets(old(adapter.Model()), list, posts) == PostReadingSets(adapter.Model(), list, posts[i..])
    {
      assert posts[i..][1..] == posts[i + 1..];
      var _ :- PostReadingSet(adapter, list, posts[i]);
      i := i + 1;
    }
    return Ok(());
  }

  method ReflectMeterReading(adapter: ResourceListAdapter, uri: string, mmr: Resource) returns (r: Result<Reflected>)
    requires mmr.MirrorMeterReading?
    modifies adapter
    ensures Outcome(adapter.Model(), r) == MeteringSpec.ReflectMeterReading(old(adapter.Model()), uri, mmr)
  {
    var current :- adapter.GetByMrid(uri, mmr.mrid);
    var saved: Ref;
    var wasUpdated := false;
    match current {
      case None =>
        saved :- adapter.AppendAndIncrementHref(uri, MeterReading(None, mmr.mrid, mmr.description, None, None, None));
      case Some(ref) =>
        wasUpdated := true;
        saved := ref.(item := WithDescription(ref.item, mmr.description));
        adapter.Assign(saved);
    }
    if saved.item.href.None? || mmr.href.None? {
      return Raise(AttributeError);
    }
    if Last(Split(saved.item.href.value)) != Last(Split(mmr.href.value)) {
      return Raise(IndexAssertion);
    }
    return Ok(Reflected(saved, wasUpdated));
  }

  method CheckedPoint(adapter: ResourceListAdapter, path: string) returns (r: Result<()>)
    ensures r == CheckPoint(adapter.Model(), path)
  {
    var text := Last(Split(path));
    if MUP_ROOT !in adapter.lists {
      return Raise(KeyError);
    }
    if PyInt(text).None? {
      return Raise(ValueError);
    }
    var mup :- adapter.Get(MUP_ROOT, PyInt(text).value);
    if !mup.item.MirrorUsagePoint? {
      return Raise(InstanceAssertion);
    }
    var upt :- adapter.Get(UPT_ROOT, PyInt(text).value);
    if !upt.item.UsagePoint? {
      return Raise(InstanceAssertion);
    }
    return Ok(());
  }

  /** The optional parts of a posted meter reading. */
  method StoreDetails(adapter: ResourceListAdapter, saved: Ref, href: string, post: MeterReadingPost)
    returns (r: Result<Ref>)
    requires saved.item.MeterReading?
    modifies adapter
    ensures Outcome(adapter.Model(), r) == MeteringSpec.StoreDetails(old(adapter.Model()), saved, href, post)
  {
    hide Sub;
    hide Split;
    hide MeteringSpec.CreateOrUpdateReading;
    hide PostReadingSets;
    var ref := saved;
    if post.readingType.Some? {
      var mr := ref.item;
      adapter.SetSingle(Sub(href, "rt"), post.readingType.value);
      ref := ref.(item := MeterReading(mr.href, mr.mrid, mr.description, Some(Sub(href, "rt")), mr.readingListLink,
                                       mr.readingSetListLink));
      adapter.Assign(ref);
    }
    if post.reading.Some? {
      var mr := ref.item;
      ref := ref.(item := MeterReading(mr.href, mr.mrid, mr.description, mr.readingTypeLink, Some(Sub(href, "r")),
                                       mr.readingSetListLink));
      adapter.Assign(ref);
      var _ :- CreateOrUpdateReading(adapter, Sub(href, "r"), post.reading.value);
    }
    var mr := ref.item;
    ref := ref.(item := MeterReading(mr.href, mr.mrid, mr.description, mr.readingTypeLink, mr.readingListLink,
                                     Some(Sub(href, "rs"))));
    adapter.Assign(ref);
    var _ :- PostSets(adapter, Sub(href, "rs"), post.readingSets);
    return Ok(ref);
  }

  method CreateOrUpdateMeterReading(adapter: ResourceListAdapter, path: string, post: MeterReadingPost)
    returns (r: Result<ReturnValue>)
    modifies adapter
    ensures Outcome(adapter.Model(), r) == PostMeterReading(old(adapter.Model()), path, post)
  {
    var _ :- CheckedPoint(adapter, path);
    var current :- adapter.GetByMrid(MmrList(path), post.mrid);
    var mmr: Ref;
    match current {
      case Some(ref) => mmr := ref;
      case None =>
        mmr :- adapter.AppendAndIncrementHref(MmrList(path), MirrorMeterReading(None, post.mrid, post.description));
    }
    if !mmr.item.MirrorMeterReading? {
      return Raise(AttributeError);
    }
    var saved :- ReflectMeterReading(adapter, MrList(path), mmr.item);
    if saved.ref.item.href.None? {
      return Raise(TypeError);
    }
    if !saved.ref.item.MeterReading? {
      return Raise(AttributeError);
    }
    var href := saved.ref.item.href.value;
    var ref :- StoreDetails(adapter, saved.ref, href, post);
    return Ok(ReturnValue(ref.item, saved.wasUpdate, Some(href)));
  }

  method CreateMirrorUsagePoint(adapter: ResourceListAdapter, post: UsagePointPost) returns (r: Result<ReturnValue>)
    modifies adapter
    ensures Outcome(adapter.Model(), r) == MeteringSpec.CreateMirrorUsagePoint(old(adapter.Model()), post)
  {
    hide Sub;
    hide Dec;
    hide FirstWhere;
    hide MeteringSpec.CreateUsagePointPair;
    hide MeteringSpec.AddMeterReadings;
    var found: Option<Ref> := None;
    var point := adapter.ListSize(MUP_ROOT);
    if point > 0 {
      found :- adapter.GetByMrid(MUP_ROOT, post.mrid);
    }
    match found {
      case None =>
        var mup :- CreateUsagePointPair(adapter, post);
        var mrList := MeterReadingListHref(UPT_ROOT, point);
        var mmrList := MeterReadingListHref(MUP_ROOT, point);
        var _ :- adapter.InitializeUri(mmrList, MirrorMeterReadingClass);
        var _ :- adapter.InitializeUri(mrList, MeterReadingClass);
        var _ :- AddMeterReadings(adapter, PointHref(UPT_ROOT, point), mmrList, mrList, post.meterReadings);
        return Ok(ReturnValue(mup.item, false, mup.item.href));
      case Some(ref) =>
        adapter.Assign(ref.(item := WithUsage(ref.item, post)));
        return Ok(ReturnValue(MirrorUsagePoint(ref.item.href, post.mrid, post.usage, post.postRate), true,
                              ref.item.href));
    }
  }

  /** The point and its replica, under one number. */
  method CreateUsagePointPair(adapter: ResourceListAdapter, post: UsagePointPost) returns (r: Result<Ref>)
    modifies adapter
    ensures Outcome(adapter.Model(), r) == MeteringSpec.CreateUsagePointPair(old(adapter.Model()), post)
  {
    hide Sub;
    hide Dec;
    hide ListStore.Append;
    var point := adapter.ListSize(MUP_ROOT);
    var mup :- adapter.Append(MUP_ROOT, MirrorUsagePoint(Some(PointHref(MUP_ROOT, point)), post.mrid, post.usage,
                                                         post.postRate));
    var _ :- adapter.Append(UPT_ROOT, UsagePoint(Some(PointHref(UPT_ROOT, point)), post.mrid, post.usage,
                                                 MeterReadingListHref(UPT_ROOT, point)));
    return Ok(mup);
  }

  /** The loop over the meter readings posted with a new point. */
  method AddMeterReadings(adapter: ResourceListAdapter, uptHref: string, mmrList: string, mrList: string,
                          posts: seq<MeterReadingPost>)
    returns (r: Result<()>)
    modifies adapter
    ensures Outcome(adapter.Model(), r)
         == MeteringSpec.AddMeterReadings(old(adapter.Model()), uptHref, mmrList, mrList, posts, 0)
  {
    var j := 0;
    while j < |posts|
      invariant 0 <= j <= |posts|
      invariant MeteringSpec.AddMeterReadings(old(adapter.Model()), uptHref, mmrList, mrList, posts, 0)
             == MeteringSpec.AddMeterReadings(adapter.Model(), uptHref, mmrList, mrList, posts[j..], j)
    {
      var post := posts[j];
      assert posts[j..][0] == post && posts[j..][1..] == posts[j + 1..];
      if post.readingType.None? {
        return Raise(TypeError);
      }
      var _ :- adapter.Append(mmrList, MirrorMeterReading(Some(Sub(mmrList, Dec(j))), post.mrid, post.description));
      var typeHref := Sub(Sub(uptHref, "rt"), Dec(j));
      var _ :- adapter.Append(mrList, MeterReading(Some(Sub(mrList, Dec(j))), post.mrid, post.description,
                                                   Some(typeHref), None, None));
      adapter.SetSingle(typeHref, post.readingType.value);
      adapter.AddHref(typeHref, post.readingType.value);
      j := j + 1;
    }
    return Ok(());
  }

  /* The handlers */

  /** UsagePointRequest.get: `handled` stays false when a branch finds no index. */
  method GetUsagePoint(adapter: ResourceListAdapter, path: string, start: int, after: int, limit: int)
    returns (r: Result<Server.Answer>)
    modifies adapter
    ensures Outcome(adapter.Model(), r) == Server.UsagePointGet(old(adapter.Model()), path, start, after, limit)
  {
    var index := Hrefs.Absent;
    var byStart := false;
    if Hrefs.HasReadingList(path) {
      byStart := true;
      index := Hrefs.ReadingIndex(path);
    } else if Hrefs.HasReadingSetList(path) {
      byStart := true;
      index := Hrefs.ReadingSetIndex(path);
    } else if Hrefs.HasMeterReadingList(path) {
      if Hrefs.HasReadingType(path) {
        return Ok(Server.TypeOf(if path in adapter.index then Some(adapter.index[path]) else None));
      }
      index := Hrefs.MeterReadingIndex(path);
    } else {
      var _ :- adapter.GetResourceList(path, start, after, limit, false);
    }
    match index {
      case NotAnInteger => return Raise(ValueError);
      case Index(v) =>
        var ref :- adapter.Get(Hrefs.LastList(path), v);
        return Ok(Server.Single(ref.item));
      case Absent =>
        r := adapter.GetResourceList(path, start, after, limit, byStart);
    }
  }

  /** MirrorUsagePointRequest.post: 204 for an update, 201 for anything new. */
  method Post(adapter: ResourceListAdapter, request: Server.Request) returns (r: Result<Server.Response>)
    requires request.PostPoint? || request.PostMeter? || request.PostSet?
    modifies adapter
    ensures Outcome(adapter.Model(), r) == Server.Handle(old(adapter.Model()), request)
  {
    if |Split(request.path)| == 1 && !request.PostPoint? {
      return Raise(BadRequest);
    }
    var result: ReturnValue;
    match request {
      case PostPoint(_, post) =>
        result :- CreateMirrorUsagePoint(adapter, post);
      case PostMeter(path, post) =>
        result :- CreateOrUpdateMeterReading(adapter, path, post);
      case PostSet(path) =>
        var _ :- CheckedPoint(adapter, path);
        return Raise(NameError);
    }
    return Ok(Server.Stored(if result.wasUpdate then 204 else 201, result.location));
  }
}
