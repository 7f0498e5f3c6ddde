/** The whole-store invariant of mirror metering, and that each step of a post keeps it. */
module MeteringInvariant {
  import opened Wrappers
  import opened Text
  import opened ListStore
  import opened MeteringSpec
  import opened MeteringUris

  /* One list at a time */

  /** Objects of one class; except in reading lists, keys dense and each href the object's own place. */
  ghost predicate ListOk(u: string, d: Dict, c: Class) {
    && (forall k :: 0 <= k < |d| ==> ClassOf(d[k].item) == c)
    && (c != ReadingClass ==>
          Dense(d) && forall k :: 0 <= k < |d| ==> d[k].item.href == Some(Sub(u, Dec(k))))
  }

  ghost predicate WellFormed(s: Store) {
    && (forall u :: u in s.types ==> UriClass(u) == Some(s.types[u]))
    && (forall u :: u in s.lists ==>
                      UriClass(u).Some? && ListOk(u, s.lists[u], UriClass(u).value)
                      && (s.lists[u] != [] ==> u in s.types))
  }

  /** The successor that differs only in one more object at the end of one list. */
  ghost predicate Extended(s: Store, s': Store, u: string, item: Resource) {
    && s'.lists == s.lists[u := Items(s, u) + [Entry(|Items(s, u)|, item)]]
    && s'.types == s.types[u := ClassOf(item)]
  }

  /** What a well-formed store says of one list. */
  lemma ListFacts(s: Store, u: string)
    requires WellFormed(s) && UriClass(u).Some?
    ensures ListOk(u, Items(s, u), UriClass(u).value)
    ensures u in s.types ==> s.types[u] == UriClass(u).value
    ensures Items(s, u) != [] ==> u in s.types
  {
    hide UriClass;
  }

  /** One list changes, within its class. */
  lemma OneListWellFormed(s: Store, s': Store, u: string, d: Dict, c: Class)
    requires WellFormed(s) && UriClass(u) == Some(c) && ListOk(u, d, c)
    requires s'.lists == s.lists[u := d] && s'.types == s.types[u := c]
    ensures WellFormed(s')
  {
    hide UriClass;
    hide ListOk;
  }

  lemma AppendExtends(s: Store, u: string, item: Resource)
    requires WellFormed(s) && UriClass(u) == Some(ClassOf(item)) && !item.Reading?
    requires item.href == Some(Sub(u, Dec(|Items(s, u)|)))
    ensures var o := Append(s, u, item);
            && o.result == Ok(Ref(u, |Items(s, u)|, item))
            && Extended(s, o.store, u, item) && WellFormed(o.store)
  {
    hide UriClass;
    hide WellFormed;
    var d := Items(s, u);
    ListFacts(s, u);
    DenseSlot(d, |d|);
    DensePut(d, |d|, item);
    hide Dense;
    hide Slot;
    hide Put;
    var s' := Append(s, u, item).store;
    assert Extended(s, s', u, item);
    assert ListOk(u, d + [Entry(|d|, item)], ClassOf(item)) by {
      ListGrows(u, d, item);
    }
    OneListWellFormed(s, s', u, d + [Entry(|d|, item)], ClassOf(item));
  }

  lemma ListGrows(u: string, d: Dict, item: Resource)
    requires ListOk(u, d, ClassOf(item)) && !item.Reading? && item.href == Some(Sub(u, Dec(|d|)))
    ensures ListOk(u, d + [Entry(|d|, item)], ClassOf(item))
  {
    hide Sub;
    hide Dec;
    assert ClassOf(item) != ReadingClass;
    hide ClassOf;
    var d' := d + [Entry(|d|, item)];
    forall k | 0 <= k < |d'|
      ensures ClassOf(d'[k].item) == ClassOf(item) && d'[k].key == k && d'[k].item.href == Some(Sub(u, Dec(k)))
    {
      if k < |d| {
        assert d'[k] == d[k];
      }
    }
  }

  lemma AppendNumberedExtends(s: Store, u: string, item: Resource)
    requires WellFormed(s) && UriClass(u) == Some(ClassOf(item)) && !item.Reading?
    ensures var o := AppendAndIncrementHref(s, u, item);
            var numbered := WithHref(item, Sub(u, Dec(|Items(s, u)|)));
            && o.result == Ok(Ref(u, |Items(s, u)|, numbered))
            && Extended(s, o.store, u, numbered) && WellFormed(o.store)
  {
    ListUriIsNoItem(u);
    AppendExtends(s, u, WithHref(item, Sub(u, Dec(|Items(s, u)|))));
  }

  /* What the lists have in common */

  ghost predicate SameMrids(a: Dict, b: Dict) {
    |a| == |b| && forall k :: 0 <= k < |a| ==> Attr(a[k].item, MRID) == Attr(b[k].item, MRID)
  }

  /** The roots agree, and no two mirror usage points share an mRID. */
  ghost predicate RootsPaired(s: Store) {
    var mups := Items(s, MUP_ROOT);
    && SameMrids(mups, Items(s, UPT_ROOT))
    && forall i, j :: 0 <= i < j < |mups| ==> Attr(mups[i].item, MRID) != Attr(mups[j].item, MRID)
  }

  /** Each path's meter readings agree with their replicas. */
  ghost predicate ReadingsPaired(s: Store, paths: iset<string>) {
    forall p :: p in paths && Addresses(p) ==> SameMrids(Items(s, MmrList(p)), Items(s, MrList(p)))
  }

  /** A point that does not exist yet has no meter readings. */
  ghost predicate Unborn(s: Store) {
    forall i: nat :: i >= |Items(s, MUP_ROOT)| ==>
                       && Items(s, MeterReadingListHref(MUP_ROOT, i)) == []
                       && Items(s, MeterReadingListHref(UPT_ROOT, i)) == []
  }

  /** What a reading set and its mirror have in common, and no later post changes. */
  function SetContent(r: Resource): Option<(Option<string>, Option<Interval>, Option<int>)> {
    match r
    case MirrorReadingSet(_, _, description, period, version) => Some((description, period, version))
    case ReadingSet(_, _, description, period, version, _) => Some((description, period, version))
    case _ => None
  }

  ghost predicate SameSets(a: Dict, b: Dict) {
    |a| == |b| && forall k :: 0 <= k < |a| ==> SetContent(a[k].item) == SetContent(b[k].item)
  }

  /** Each list of reading sets agrees with the list of their mirrors. */
  ghost predicate SetsPaired(s: Store) {
    forall y: string :: SameSets(Items(s, Sub(Mup(y), "rs")), Items(s, Sub(Upt(y), "rs")))
  }

  ghost predicate Inv(s: Store, paths: iset<string>) {
    WellFormed(s) && RootsPaired(s) && ReadingsPaired(s, paths) && Unborn(s) && SetsPaired(s)
  }

  /* Changes that leave identity alone */

  /** Same objects in the same places: mRID, href and the content of sets are as they were. */
  ghost predicate Alike(a: Dict, b: Dict) {
    && |a| == |b|
    && forall k :: 0 <= k < |a| ==>
                     && a[k].key == b[k].key && ClassOf(a[k].item) == ClassOf(b[k].item)
                     && a[k].item.href == b[k].item.href && Attr(a[k].item, MRID) == Attr(b[k].item, MRID)
                     && SetContent(a[k].item) == SetContent(b[k].item)
  }

  /** The lists of these classes keep their objects. */
  ghost predicate Still(s: Store, s': Store, cs: set<Class>) {
    forall u :: UriClass(u).Some? && UriClass(u).value in cs ==> Alike(Items(s, u), Items(s', u))
  }

  const ROOT_CLASSES: set<Class> := {MirrorUsagePointClass, UsagePointClass}
  const METER_CLASSES: set<Class> := {MirrorMeterReadingClass, MeterReadingClass}
  const SET_CLASSES: set<Class> := {MirrorReadingSetClass, ReadingSetClass}
  const IDENTIFIED: set<Class> := ROOT_CLASSES + METER_CLASSES + SET_CLASSES

  lemma StillRoots(s: Store, s': Store)
    requires RootsPaired(s) && Still(s, s', ROOT_CLASSES)
    ensures RootsPaired(s') && |Items(s', MUP_ROOT)| == |Items(s, MUP_ROOT)|
  {
    RootClasses();
    assert Alike(Items(s, MUP_ROOT), Items(s', MUP_ROOT));
    assert Alike(Items(s, UPT_ROOT), Items(s', UPT_ROOT));
  }

  lemma StillMeters(s: Store, s': Store, paths: iset<string>)
    requires ReadingsPaired(s, paths) && Unborn(s) && (forall p :: p in paths ==> RoutePath(p))
    requires Still(s, s', METER_CLASSES) && |Items(s', MUP_ROOT)| == |Items(s, MUP_ROOT)|
    ensures ReadingsPaired(s', paths) && Unborn(s')
  {
    forall p | p in paths && Addresses(p) ensures SameMrids(Items(s', MmrList(p)), Items(s', MrList(p))) {
      MirrorOfRoute(p);
      assert Alike(Items(s, MmrList(p)), Items(s', MmrList(p)));
      assert Alike(Items(s, MrList(p)), Items(s', MrList(p)));
    }
    forall i: nat | i >= |Items(s', MUP_ROOT)|
      ensures Items(s', MeterReadingListHref(MUP_ROOT, i)) == []
      ensures Items(s', MeterReadingListHref(UPT_ROOT, i)) == []
    {
      CanonicalClasses(i);
      assert Alike(Items(s, MeterReadingListHref(MUP_ROOT, i)), Items(s', MeterReadingListHref(MUP_ROOT, i)));
      assert Alike(Items(s, MeterReadingListHref(UPT_ROOT, i)), Items(s', MeterReadingListHref(UPT_ROOT, i)));
    }
  }

  lemma StillSets(s: Store, s': Store)
    requires SetsPaired(s) && Still(s, s', SET_CLASSES)
    ensures SetsPaired(s')
  {
    forall y: string ensures SameSets(Items(s', Sub(Mup(y), "rs")), Items(s', Sub(Upt(y), "rs"))) {
      SubClasses(y);
      assert SameSets(Items(s, Sub(Mup(y), "rs")), Items(s, Sub(Upt(y), "rs")));
      assert Alike(Items(s, Sub(Mup(y), "rs")), Items(s', Sub(Mup(y), "rs")));
      assert Alike(Items(s, Sub(Upt(y), "rs")), Items(s', Sub(Upt(y), "rs")));
    }
  }

  lemma StillInv(s: Store, s': Store, paths: iset<string>)
    requires Inv(s, paths) && WellFormed(s') && Still(s, s', IDENTIFIED)
    requires forall p :: p in paths ==> RoutePath(p)
    ensures Inv(s', paths)
  {
    StillRoots(s, s');
    StillMeters(s, s', paths);
    StillSets(s, s');
  }

  /** Lists of other classes than the one that grew are untouched. */
  lemma ExtendedStill(s: Store, s': Store, u: string, item: Resource, cs: set<Class>)
    requires Extended(s, s', u, item) && UriClass(u) == Some(ClassOf(item)) && ClassOf(item) !in cs
    ensures Still(s, s', cs)
  {
  }

  lemma StillTransitive(s: Store, s': Store, s'': Store, cs: set<Class>)
    requires Still(s, s', cs) && Still(s', s'', cs)
    ensures Still(s, s'', cs)
  {
    forall u | UriClass(u).Some? && UriClass(u).value in cs ensures Alike(Items(s, u), Items(s'', u)) {
      assert Alike(Items(s, u), Items(s', u));
      assert Alike(Items(s', u), Items(s'', u));
    }
  }

  /** Same lists and well formed, and every identity kept: the relation that readings and links obey. */
  ghost predicate Quiet(s: Store, s': Store) {
    WellFormed(s') && Still(s, s', IDENTIFIED)
  }

  lemma QuietReflexive(s: Store)
    requires WellFormed(s)
    ensures Quiet(s, s)
  {
    hide UriClass;
  }

  lemma AssignQuiet(s: Store, ref: Ref)
    requires WellFormed(s) && ref.slot < |Items(s, ref.uri)|
    requires var old_ := Items(s, ref.uri)[ref.slot].item;
             && ClassOf(ref.item) == ClassOf(old_) && ref.item.href == old_.href
             && Attr(ref.item, MRID) == Attr(old_, MRID) && SetContent(ref.item) == SetContent(old_)
    ensures Quiet(s, Assign(s, ref))
    ensures forall u :: |Items(Assign(s, ref), u)| == |Items(s, u)|
    ensures Items(Assign(s, ref), ref.uri)[ref.slot].item == ref.item
  {
    hide UriClass;
    hide WellFormed;
    var s', d := Assign(s, ref), Items(s, ref.uri);
    var d' := d[ref.slot := Entry(d[ref.slot].key, ref.item)];
    assert ref.uri in s.lists && UriClass(ref.uri).Some? by {
      ListedHasClass(s, ref.uri);
    }
    ListFacts(s, ref.uri);
    assert ListOk(ref.uri, d', UriClass(ref.uri).value);
    hide ListOk;
    assert s'.lists == s.lists[ref.uri := d'];
    assert s'.types == s.types[ref.uri := UriClass(ref.uri).value];
    OneListWellFormed(s, s', ref.uri, d', UriClass(ref.uri).value);
  }

  lemma ListedHasClass(s: Store, u: string)
    requires WellFormed(s) && Items(s, u) != []
    ensures u in s.lists && UriClass(u).Some?
  {
    hide UriClass;
  }

  /** A reading list takes any reading under any key, and nothing else changes. */
  lemma PutReadingQuiet(s: Store, s': Store, u: string, key: int, r: ReadingItem)
    requires WellFormed(s) && UriClass(u) == Some(ReadingClass)
    requires s'.lists == s.lists[u := Put(Items(s, u), key, r)]
    requires s'.types == s.types[u := ReadingClass]
    ensures Quiet(s, s')
    ensures forall v :: v != u ==> Items(s', v) == Items(s, v)
  {
    hide UriClass;
    hide WellFormed;
    var d := Items(s, u);
    ListFacts(s, u);
    assert ListOk(u, Put(d, key, r), ReadingClass);
    hide Put;
    hide ListOk;
    OneListWellFormed(s, s', u, Put(d, key, r), ReadingClass);
  }

  lemma ReadingQuiet(s: Store, u: string, r: ReadingItem)
    requires WellFormed(s) && UriClass(u) == Some(ReadingClass)
    ensures var o := CreateOrUpdateReading(s, u, r);
            && Quiet(s, o.store) && (forall v :: v != u ==> Items(o.store, v) == Items(s, v))
            && (o.result.Raise? ==> o.result.error in {AttributeError, ValueError})
  {
    hide UriClass;
    hide Split;
    hide Quiet;
    QuietReflexive(s);
    var d := Items(s, u);
    ListUriIsNoItem(u);
    var o := CreateOrUpdateReading(s, u, r);
    match FirstWhere(d, LOCAL_ID, r.localId)
    case NoAttribute =>
    case Missing =>
      PutReadingQuiet(s, o.store, u, |d|, WithHref(r, Sub(u, Dec(|d|))));
    case Found(k) =>
      assert u in s.lists && u in s.types;
      match KeyOfHref(d[k].item.href)
      case Raise(_) =>
      case Ok(key) =>
        PutReadingQuiet(s, o.store, u, key, r);
  }

  lemma {:induction false} ReadingsQuiet(s: Store, u: string, readings: seq<ReadingItem>)
    requires WellFormed(s) && UriClass(u) == Some(ReadingClass)
    ensures var o := CreateOrUpdateReadings(s, u, readings);
            && Quiet(s, o.store) && (forall v :: v != u ==> Items(o.store, v) == Items(s, v))
            && (o.result.Raise? ==> o.result.error in {AttributeError, ValueError})
    decreases |readings|
  {
    if readings != [] {
      ReadingQuiet(s, u, readings[0]);
      var first := CreateOrUpdateReading(s, u, readings[0]);
      if first.result.Ok? {
        ReadingsQuiet(first.store, u, readings[1..]);
        StillTransitive(s, first.store, CreateOrUpdateReadings(s, u, readings).store, IDENTIFIED);
      }
    }
  }

  /* Reading sets */

  /** A posted reading set that names a list by its own href is never stored: if the list has its
      mRID, or holds readings, the call raises before anything changes. */
  lemma PostedSetHrefNeverUpdates(s: Store, u: string, item: ReadingSetItem)
    requires WellFormed(s)
    ensures var o := CreateOrUpdateReadingSet(s, u, item);
            || (FindReadingSet(s, item) == Ok(None) && o == CreateReadingSetPair(s, u, item))
            || (o.store == s && o.result.Raise? && o.result.error in {AttributeError, ValueError})
  {
    if FindReadingSet(s, item).Ok? && FindReadingSet(s, item).value.Some? {
      assert item.href.value in s.lists;
      ListUriIsNoItem(item.href.value);
    }
  }

  function BlankSet(item: ReadingSetItem): Resource {
    ReadingSet(None, None, item.description, item.timePeriod, item.version, None)
  }

  /** The mirror and its replica, appended one after the other. */
  lemma ReadingSetPairAppends(s: Store, y: string, item: ReadingSetItem)
    requires WellFormed(s) && '/' !in y
    ensures var u, m := Sub(Upt(y), "rs"), Sub(Mup(y), "rs");
            var s1 := AppendAndIncrementHref(s, m, item).store;
            var mirror, set_ := WithHref(item, Sub(m, Dec(|Items(s, m)|))),
                                WithHref(BlankSet(item), Sub(u, Dec(|Items(s, u)|)));
            var o := CreateReadingSetPair(s, u, item);
            && u != m && o.result == Ok(Ref(u, |Items(s, u)|, set_))
            && Extended(s, s1, m, mirror) && Extended(s1, o.store, u, set_)
            && WellFormed(o.store)
  {
    hide UriClass;
    hide Split;
    hide Replace;
    hide Sub;
    hide Dec;
    hide WellFormed;
    hide AppendAndIncrementHref;
    var u, m := Sub(Upt(y), "rs"), Sub(Mup(y), "rs");
    SubClasses(y);
    MirrorSetListOfUpt(y);
    assert u != m;
    AppendNumberedExtends(s, m, item);
    var s1 := AppendAndIncrementHref(s, m, item).store;
    assert Items(s1, u) == Items(s, u);
    AppendNumberedExtends(s1, u, BlankSet(item));
  }

  lemma InvParts(s: Store, y: string, paths: iset<string>)
    requires Inv(s, paths)
    ensures WellFormed(s) && |Items(s, Sub(Mup(y), "rs"))| == |Items(s, Sub(Upt(y), "rs"))|
  {
  }

  lemma SetsStayPaired(s: Store, s': Store, y: string, mirror: Resource, set_: Resource)
    requires SetsPaired(s) && SetContent(mirror) == SetContent(set_)
    requires var m, n := Items(s, Sub(Mup(y), "rs")), |Items(s, Sub(Mup(y), "rs"))|;
             Items(s', Sub(Mup(y), "rs")) == m + [Entry(n, mirror)]
    requires var u, n := Items(s, Sub(Upt(y), "rs")), |Items(s, Sub(Upt(y), "rs"))|;
             Items(s', Sub(Upt(y), "rs")) == u + [Entry(n, set_)]
    requires forall v :: v != Sub(Mup(y), "rs") && v != Sub(Upt(y), "rs") ==> Items(s', v) == Items(s, v)
    ensures SetsPaired(s')
  {
    hide Items;
    forall z: string ensures SameSets(Items(s', Sub(Mup(z), "rs")), Items(s', Sub(Upt(z), "rs"))) {
      MupSub(z, "rs");
      MupSub(y, "rs");
      assert SameSets(Items(s, Sub(Mup(z), "rs")), Items(s, Sub(Upt(z), "rs")));
      if Sub(z, "rs") == Sub(y, "rs") {
        SubInjective(z, "rs", y, "rs");
      } else {
        assert Sub(Mup(z), "rs")[4..] == Sub(z, "rs") && Sub(Upt(z), "rs")[4..] == Sub(z, "rs");
      }
    }
  }

  lemma SetAppendsKeepInv(s: Store, s1: Store, s2: Store, y: string, mirror: Resource, set_: Resource,
                          paths: iset<string>)
    requires Inv(s, paths) && WellFormed(s2) && forall p :: p in paths ==> RoutePath(p)
    requires ClassOf(mirror) == MirrorReadingSetClass && ClassOf(set_) == ReadingSetClass
    requires SetContent(mirror) == SetContent(set_)
    requires Extended(s, s1, Sub(Mup(y), "rs"), mirror) && Extended(s1, s2, Sub(Upt(y), "rs"), set_)
    ensures Inv(s2, paths) && Still(s, s2, ROOT_CLASSES + METER_CLASSES)
  {
    hide UriClass;
    hide Split;
    hide Sub;
    hide WellFormed;
    hide RootsPaired;
    hide ReadingsPaired;
    hide Unborn;
    hide SetsPaired;
    SubClasses(y);
    var cs := ROOT_CLASSES + METER_CLASSES;
    ExtendedStill(s, s1, Sub(Mup(y), "rs"), mirror, cs);
    ExtendedStill(s1, s2, Sub(Upt(y), "rs"), set_, cs);
    StillTransitive(s, s1, s2, cs);
    StillRoots(s, s2);
    StillMeters(s, s2, paths);
    SetsStayPaired(s, s2, y, mirror, set_);
  }

  /** The pair of lists keeps equal length, and no other list changes. */
  lemma ReadingSetPairInv(s: Store, y: string, item: ReadingSetItem, paths: iset<string>)
    requires Inv(s, paths) && '/' !in y && forall p :: p in paths ==> RoutePath(p)
    ensures var u, m := Sub(Upt(y), "rs"), Sub(Mup(y), "rs");
            var o := CreateReadingSetPair(s, u, item);
            var n := |Items(s, u)|;
            && Inv(o.store, paths) && Still(s, o.store, ROOT_CLASSES + METER_CLASSES)
            && o.result == Ok(Ref(u, n, WithHref(BlankSet(item), Sub(u, Dec(n)))))
            && Items(o.store, u) == Items(s, u) + [Entry(n, o.result.value.item)]
            && Items(o.store, m) == Items(s, m) + [Entry(n, WithHref(item, Sub(m, Dec(n))))]
            && (forall v :: v != u && v != m ==> Items(o.store, v) == Items(s, v))
  {
    hide UriClass;
    hide Split;
    hide Sub;
    hide Inv;
    hide WellFormed;
    hide CreateReadingSetPair;
    hide AppendAndIncrementHref;
    var u, m := Sub(Upt(y), "rs"), Sub(Mup(y), "rs");
    assert WellFormed(s) && |Items(s, m)| == |Items(s, u)| by {
      InvParts(s, y, paths);
    }
    ReadingSetPairAppends(s, y, item);
    var s1 := AppendAndIncrementHref(s, m, item).store;
    var s2 := CreateReadingSetPair(s, u, item).store;
    SetAppendsKeepInv(s, s1, s2, y, WithHref(item, Sub(m, Dec(|Items(s, m)|))),
                      WithHref(BlankSet(item), Sub(u, Dec(|Items(s, u)|))), paths);
  }
}
