/** What posting mirror usage points and mirror meter readings computes, state by state.
    Metering.dfy performs the same steps on the list adapter. */
module MeteringSpec {
  import opened Wrappers
  import opened Text
  import opened ListStore
  import Hrefs = MeteringHrefs

  const MUP_ROOT := Hrefs.MUP_ROOT
  const UPT_ROOT := Hrefs.UPT_ROOT

  /* Posted documents */

  type ReadingItem = r: Resource | r.Reading? witness Reading(None, None, None, None)

  type ReadingSetItem = r: Resource | r.MirrorReadingSet? witness MirrorReadingSet(None, None, None, None, None)

  datatype ReadingSetPost = ReadingSetPost(item: ReadingSetItem, readings: seq<ReadingItem>)

  datatype MeterReadingPost = MeterReadingPost(
    mrid: Option<string>,
    description: Option<string>,
    readingType: Option<ReadingTypeData>,
    reading: Option<ReadingItem>,
    readingSets: seq<ReadingSetPost>)

  datatype UsagePointPost = UsagePointPost(
    mrid: Option<string>,
    usage: UsageAttributes,
    postRate: Option<int>,
    meterReadings: seq<MeterReadingPost>)

  datatype ReturnValue = ReturnValue(item: Resource, wasUpdate: bool, location: Option<string>)

  /* Mirror usage points */

  function PointHref(root: string, i: nat): string {
    Sub(root, Dec(i))
  }

  function MeterReadingListHref(root: string, i: nat): string {
    Sub(PointHref(root, i), "mr")
  }

  function RegisterReadingType(s: Store, href: string, t: ReadingTypeData): Store {
    s.(singles := s.singles[href := t], index := s.index[href := t])
  }

  /** The loop over `mup.MirrorMeterReading`: a meter reading without a type ends it with the
      TypeError of a ReturnValue built without `was_update`, after what precedes it was stored. */
  function AddMeterReadings(s: Store, uptHref: string, mmrList: string, mrList: string,
                            posts: seq<MeterReadingPost>, j: nat): Outcome<()>
    decreases |posts|
  {
    if posts == [] then Outcome(s, Ok(()))
    else if posts[0].readingType.None? then Outcome(s, Raise(TypeError))
    else
      var post := posts[0];
      var typeHref := Sub(Sub(uptHref, "rt"), Dec(j));
      var (s1, _) :- Append(s, mmrList, MirrorMeterReading(Some(Sub(mmrList, Dec(j))), post.mrid, post.description));
      var (s2, _) :- Append(s1, mrList, MeterReading(Some(Sub(mrList, Dec(j))), post.mrid, post.description,
                                                     Some(typeHref), None, None));
      AddMeterReadings(RegisterReadingType(s2, typeHref, post.readingType.value),
                       uptHref, mmrList, mrList, posts[1..], j + 1)
  }

  function WithUsage(item: Resource, post: UsagePointPost): Resource {
    match item
    case MirrorUsagePoint(href, _, _, postRate) => MirrorUsagePoint(href, post.mrid, post.usage, postRate)
    case _ => item
  }

  function FindUsagePoint(s: Store, mrid: Option<string>): Result<Option<Ref>> {
    if |Items(s, MUP_ROOT)| > 0 then GetByMrid(s, MUP_ROOT, mrid) else Ok(None)
  }

  function CreateUsagePointPair(s: Store, post: UsagePointPost): Outcome<Ref> {
    var i := |Items(s, MUP_ROOT)|;
    var (s1, mup) :- Append(s, MUP_ROOT, MirrorUsagePoint(Some(PointHref(MUP_ROOT, i)), post.mrid, post.usage,
                                                          post.postRate));
    var (s2, _) :- Append(s1, UPT_ROOT, UsagePoint(Some(PointHref(UPT_ROOT, i)), post.mrid, post.usage,
                                                   MeterReadingListHref(UPT_ROOT, i)));
    Outcome(s2, Ok(mup))
  }

  function CreateMirrorUsagePoint(s: Store, post: UsagePointPost): Outcome<ReturnValue> {
    var (s0, found) :- Outcome(s, FindUsagePoint(s, post.mrid));
    match found
    case None =>
      var i := |Items(s0, MUP_ROOT)|;
      var mmrList := MeterReadingListHref(MUP_ROOT, i);
      var mrList := MeterReadingListHref(UPT_ROOT, i);
      var (s2, mup) :- CreateUsagePointPair(s0, post);
      var (s3, _) :- InitializeUri(s2, mmrList, MirrorMeterReadingClass);
      var (s4, _) :- InitializeUri(s3, mrList, MeterReadingClass);
      var (s5, _) :- AddMeterReadings(s4, PointHref(UPT_ROOT, i), mmrList, mrList, post.meterReadings, 0);
      Outcome(s5, Ok(ReturnValue(mup.item, false, mup.item.href)))
    case Some(ref) =>
      var s1 := Assign(s0, ref.(item := WithUsage(ref.item, post)));
      var posted := MirrorUsagePoint(ref.item.href, post.mrid, post.usage, post.postRate);
      Outcome(s1, Ok(ReturnValue(posted, true, ref.item.href)))
  }

  /* Readings */

  /** `int(href.split(SEP)[-1])` */
  function KeyOfHref(href: Option<string>): Result<int> {
    match href
    case None => Raise(AttributeError)
    case Some(h) =>
      match PyInt(Last(Split(h)))
      case None => Raise(ValueError)
      case Some(key) => Ok(key)
  }

  /** An update stores the posted reading as it is, under the key its predecessor's href ends in. */
  function CreateOrUpdateReading(s: Store, uri: string, r: ReadingItem): Outcome<ReturnValue> {
    match FirstWhere(Items(s, uri), LOCAL_ID, r.localId)
    case NoAttribute => Outcome(s, Raise(AttributeError))
    case Missing =>
      var (s1, ref) :- AppendAndIncrementHref(s, uri, r);
      Outcome(s1, Ok(ReturnValue(ref.item, false, ref.item.href)))
    case Found(k) =>
      var saved := Items(s, uri)[k].item;
      var (s0, key) :- Outcome(s, KeyOfHref(saved.href));
      var (s1, _) :- Set(s0, uri, key, r);
      Outcome(s1, Ok(ReturnValue(saved, true, saved.href)))
  }

  function CreateOrUpdateReadings(s: Store, uri: string, readings: seq<ReadingItem>): Outcome<()>
    decreases |readings|
  {
    if readings == [] then Outcome(s, Ok(()))
    else
      var (s1, _) :- CreateOrUpdateReading(s, uri, readings[0]);
      CreateOrUpdateReadings(s1, uri, readings[1..])
  }

  /* Reading sets */

  /** The list the mirror of a reading-set list is kept in. */
  function MirrorSetList(uri: string): string {
    Replace(uri, UPT_ROOT, MUP_ROOT)
  }

  /** Looks in the list named by the posted set's own href, which a posted set normally lacks. */
  function FindReadingSet(s: Store, item: ReadingSetItem): Result<Option<Ref>> {
    match item.href
    case None => Ok(None)
    case Some(h) => GetByMrid(s, h, item.mrid)
  }

  function CreateReadingSetPair(s: Store, uri: string, item: ReadingSetItem): Outcome<Ref> {
    var (s1, _) :- AppendAndIncrementHref(s, MirrorSetList(uri), item);
    AppendAndIncrementHref(s1, uri, ReadingSet(None, None, item.description, item.timePeriod, item.version, None))
  }

  function CreateOrUpdateReadingSet(s: Store, uri: string, item: ReadingSetItem): Outcome<Ref> {
    var (s0, found) :- Outcome(s, FindReadingSet(s, item));
    if found.None? then CreateReadingSetPair(s0, uri, item)
    else
      var (s1, key) :- Outcome(s0, KeyOfHref(item.href));
      var (s2, current) :- Outcome(s1, Get(s1, uri, key));
      if !current.item.ReadingSet? then Outcome(s2, Raise(InstanceAssertion))
      else
        var updated := ReadingSet(current.item.href, current.item.mrid, item.description, item.timePeriod,
                                  item.version, current.item.readingListLink);
        var (s3, _) :- Set(s2, uri, key, updated);
        Outcome(s3, Ok(current.(item := updated)))
  }

  function NonNull(s: Store, href: Option<string>, error: Exn): Outcome<string> {
    match href
    case None => Outcome(s, Raise(error))
    case Some(h) => Outcome(s, Ok(h))
  }

  function PostReadingSet(s: Store, uri: string, post: ReadingSetPost): Outcome<()> {
    var (s1, ref) :- CreateOrUpdateReadingSet(s, uri, post.item);
    if !ref.item.ReadingSet? then Outcome(s1, Raise(InstanceAssertion))
    else
      var (s2, href) :- NonNull(s1, ref.item.href, TypeError);
      var linked := ReadingSet(ref.item.href, ref.item.mrid, ref.item.description, ref.item.timePeriod,
                               ref.item.version, Some(Sub(href, "r")));
      var s3 := Assign(s2, ref.(item := linked));
      CreateOrUpdateReadings(s3, Sub(href, "r"), post.readings)
  }

  function PostReadingSets(s: Store, uri: string, posts: seq<ReadingSetPost>): Outcome<()>
    decreases |posts|
  {
    if posts == [] then Outcome(s, Ok(()))
    else
      var (s1, _) :- PostReadingSet(s, uri, posts[0]);
      PostReadingSets(s1, uri, posts[1..])
  }

  /* Meter readings */

  /** The list a path's mirror meter readings are kept in, and its replica under the usage points. */
  function MmrList(path: string): string {
    Sub(path, "mr")
  }

  function MrList(path: string): string {
    Replace(MmrList(path), "mup", "upt")
  }

  /** `get` with the text of a key. */
  function GetByText(s: Store, uri: string, text: string): Result<Ref> {
    if uri !in s.lists then Raise(KeyError)
    else match PyInt(text)
         case None => Raise(ValueError)
         case Some(key) => Get(s, uri, key)
  }

  function CheckPoint(s: Store, path: string): Result<()> {
    var mup :- GetByText(s, MUP_ROOT, Last(Split(path)));
    if !mup.item.MirrorUsagePoint? then Raise(InstanceAssertion)
    else
      var upt :- GetByText(s, UPT_ROOT, Last(Split(path)));
      if !upt.item.UsagePoint? then Raise(InstanceAssertion) else Ok(())
  }

  function SaveMirrorMeterReading(s: Store, uri: string, post: MeterReadingPost): Outcome<Ref> {
    var (s0, current) :- Outcome(s, GetByMrid(s, uri, post.mrid));
    match current
    case Some(ref) => Outcome(s0, Ok(ref))
    case None => AppendAndIncrementHref(s0, uri, MirrorMeterReading(None, post.mrid, post.description))
  }

  function WithDescription(item: Resource, description: Option<string>): Resource {
    match item
    case MeterReading(href, mrid, _, t, r, rs) => MeterReading(href, mrid, description, t, r, rs)
    case _ => item
  }

  datatype Reflected = Reflected(ref: Ref, wasUpdate: bool)

  function SaveMeterReading(s: Store, uri: string, mmr: Resource): Outcome<Reflected>
    requires mmr.MirrorMeterReading?
  {
    var (s0, current) :- Outcome(s, GetByMrid(s, uri, mmr.mrid));
    match current
    case None =>
      var (s1, ref) :- AppendAndIncrementHref(s0, uri, MeterReading(None, mmr.mrid, mmr.description, None, None, None));
      Outcome(s1, Ok(Reflected(ref, false)))
    case Some(ref) =>
      var ref' := ref.(item := WithDescription(ref.item, mmr.description));
      Outcome(Assign(s0, ref'), Ok(Reflected(ref', true)))
  }

  function LastPart(s: Store, href: Option<string>): Outcome<string> {
    var (s1, h) :- NonNull(s, href, AttributeError);
    Outcome(s1, Ok(Last(Split(h))))
  }

  /** `_create_or_update_meter_reading`, with the assertion that both entries share an index. */
  function ReflectMeterReading(s: Store, uri: string, mmr: Resource): Outcome<Reflected>
    requires mmr.MirrorMeterReading?
  {
    var (s1, saved) :- SaveMeterReading(s, uri, mmr);
    var (s2, left) :- LastPart(s1, saved.ref.item.href);
    var (s3, right) :- LastPart(s2, mmr.href);
    if left != right then Outcome(s3, Raise(IndexAssertion)) else Outcome(s3, Ok(saved))
  }

  /** The optional parts of a post, in the order in which they are stored. */
  function StoreType(s: Store, ref: Ref, href: string, t: Option<ReadingTypeData>): (r: (Store, Ref))
    requires ref.item.MeterReading?
    ensures r.1.item.MeterReading? && r.1.uri == ref.uri && r.1.slot == ref.slot
  {
    match t
    case None => (s, ref)
    case Some(data) =>
      var mr := ref.item;
      var link := Sub(href, "rt");
      var linked := ref.(item := MeterReading(mr.href, mr.mrid, mr.description, Some(link), mr.readingListLink,
                                              mr.readingSetListLink));
      (Assign(s.(singles := s.singles[link := data]), linked), linked)
  }

  function LinkReadings(s: Store, ref: Ref, href: string): (r: (Store, Ref))
    requires ref.item.MeterReading?
    ensures r.1.item.MeterReading? && r.1.uri == ref.uri && r.1.slot == ref.slot
  {
    var mr := ref.item;
    var linked := ref.(item := MeterReading(mr.href, mr.mrid, mr.description, mr.readingTypeLink,
                                            Some(Sub(href, "r")), mr.readingSetListLink));
    (Assign(s, linked), linked)
  }

  function StoreReading(s: Store, ref: Ref, href: string, r: Option<ReadingItem>): (o: Outcome<Ref>)
    requires ref.item.MeterReading?
    ensures o.result.Ok? ==> o.result.value.item.MeterReading?
  {
    match r
    case None => Outcome(s, Ok(ref))
    case Some(reading) =>
      var (s1, linked) := LinkReadings(s, ref, href);
      var (s2, _) :- CreateOrUpdateReading(s1, Sub(href, "r"), reading);
      Outcome(s2, Ok(linked))
  }

  function LinkReadingSets(s: Store, ref: Ref, href: string): (r: (Store, Ref))
    requires ref.item.MeterReading?
    ensures r.1.item.MeterReading? && r.1.uri == ref.uri && r.1.slot == ref.slot
  {
    var mr := ref.item;
    var linked := ref.(item := MeterReading(mr.href, mr.mrid, mr.description, mr.readingTypeLink,
                                            mr.readingListLink, Some(Sub(href, "rs"))));
    (Assign(s, linked), linked)
  }

  function StoreDetails(s: Store, ref: Ref, href: string, post: MeterReadingPost): Outcome<Ref>
    requires ref.item.MeterReading?
  {
    var (s1, ref1) := StoreType(s, ref, href, post.readingType);
    var (s2, ref2) :- StoreReading(s1, ref1, href, post.reading);
    var (s3, ref3) := LinkReadingSets(s2, ref2, href);
    var (s4, _) :- PostReadingSets(s3, Sub(href, "rs"), post.readingSets);
    Outcome(s4, Ok(ref3))
  }

  function PostMeterReading(s: Store, path: string, post: MeterReadingPost): Outcome<ReturnValue> {
    var (s0, _) :- Outcome(s, CheckPoint(s, path));
    var (s1, mmr) :- SaveMirrorMeterReading(s0, MmrList(path), post);
    if !mmr.item.MirrorMeterReading? then Outcome(s1, Raise(AttributeError))
    else
      var (s2, saved) :- ReflectMeterReading(s1, MrList(path), mmr.item);
      var (s3, href) :- NonNull(s2, saved.ref.item.href, TypeError);
      if !saved.ref.item.MeterReading? then Outcome(s3, Raise(AttributeError))
      else
        var (s4, ref) :- StoreDetails(s3, saved.ref, href, post);
        Outcome(s4, Ok(ReturnValue(ref.item, saved.wasUpdate, Some(href))))
  }
}
