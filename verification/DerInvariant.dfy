/** What holds of DER events in every state, and what one turn of the clock does. */
module DerInvariant {
  import opened Wrappers
  import opened Text
  import opened ListStore
  import opened ProgramHrefs
  import opened DerEvents

  /* Places: hold in every run */

  /** Each entry of "/derp" carries the links of some entry that has them in its own place. */
  ghost predicate ProgramsOk(programs: seq<Links>) {
    forall d :: 0 <= d < |programs| ==> Owned(programs, d)
  }

  ghost predicate Owned(programs: seq<Links>, d: nat)
    requires d < |programs|
  {
    exists c: nat :: c < |programs| && programs[d] == LinksOf(c) && programs[c] == LinksOf(c)
  }

  /** Event i is entry number k of the control list of program p, as its href says. */
  ghost predicate Home(s: State, i: nat)
    requires i < |s.events|
  {
    var h := s.events[i].href;
    && ProgramIndex(h).Ok? && EventIndex(h).Ok?
    && var p, k := ProgramIndex(h).value, EventIndex(h).value;
    && 0 <= p < |s.programs| && k >= 0 && h == EventHref(p, k) && s.programs[p] == LinksOf(p)
    && ControlListHref(p) in s.controls && k < |s.controls[ControlListHref(p)]|
    && s.controls[ControlListHref(p)][k] == i
  }

  function ProgramOf(s: State, i: nat): int
    requires i < |s.events|
  {
    match ProgramIndex(s.events[i].href)
    case Ok(p) => p
    case Raise(_) => -1
  }

  /** The position in its control list that the event's href names. */
  function Position(s: State, i: nat): int
    requires i < |s.events|
  {
    match EventIndex(s.events[i].href)
    case Ok(k) => k
    case Raise(_) => -1
  }

  /** Every entry of a control list is an event that says so. */
  ghost predicate Rooted(s: State)
    requires Valid(s)
  {
    forall u, k: nat :: u in s.controls && k < |s.controls[u]| ==> s.events[s.controls[u][k]].href == Sub(u, Dec(k))
  }

  ghost predicate Placed(s: State) {
    && Valid(s) && ProgramsOk(s.programs) && Rooted(s)
    && (forall d :: 0 <= d < |s.programs| ==> s.programs[d].controls in s.controls)
    && (forall i :: 0 <= i < |s.events| ==> Home(s, i))
  }

  /** Only statuses, logs and active lists differ: the places are the same. */
  ghost predicate SamePlaces(s: State, s': State) {
    && s'.programs == s.programs && s'.controls == s.controls && |s'.events| == |s.events|
    && forall i :: 0 <= i < |s.events| ==> s'.events[i].(status := s.events[i].status) == s.events[i]
  }

  lemma SamePlacesPlaced(s: State, s': State)
    requires Placed(s) && Valid(s') && SamePlaces(s, s')
    ensures Placed(s')
  {
    hide Split;
    hide Sub;
    hide Dec;
    assert forall i :: 0 <= i < |s.events| ==> s'.events[i].href == s.events[i].href;
    forall i | 0 <= i < |s'.events| ensures Home(s', i) {
      assert Home(s, i);
    }
  }

  lemma SharePlaces(s: State, i: nat)
    requires Valid(s) && i < |s.events|
    ensures ShareStatus(s, i).Some? ==> SamePlaces(s, ShareStatus(s, i).value.0)
  {
    hide ProgramIndex;
    hide FirstWithMrid;
  }

  lemma HandlersPlaces(s: State, i: nat)
    requires Valid(s) && i < |s.events|
    ensures SamePlaces(s, Started(s, i)) && SamePlaces(s, Ended(s, i))
  {
    hide ProgramIndex;
    hide ShareStatus;
    SharePlaces(s, i);
  }

  lemma TickEventPlaces(s: State, i: nat, t: int)
    requires Valid(s) && i < |s.events|
    ensures SamePlaces(s, TickEvent(s, i, t))
  {
    hide Started;
    hide Ended;
    HandlersPlaces(Mark(s, i, ACTIVE, EventStarted, t), i);
    HandlersPlaces(Mark(s, i, COMPLETE, EventEnded, t), i);
  }

  lemma {:induction false} TickFromPlaces(s: State, i: nat, t: int)
    requires Valid(s)
    ensures SamePlaces(s, TickFrom(s, i, t))
    decreases |s.events| - i
  {
    hide TickEvent;
    if i < |s.events| && s.alive {
      TickEventPlaces(s, i, t);
      TickFromPlaces(TickEvent(s, i, t), i + 1, t);
    }
  }

  lemma HomeAt(s: State, i: nat) returns (p: nat, k: nat)
    requires Placed(s) && i < |s.events|
    ensures ProgramIndex(s.events[i].href) == Ok(p) && ProgramOf(s, i) == p && p < |s.programs|
    ensures s.programs[p] == LinksOf(p) && ControlListHref(p) in s.controls && s.events[i].href == EventHref(p, k)
    ensures k < |s.controls[ControlListHref(p)]| && s.controls[ControlListHref(p)][k] == i && Position(s, i) == k
  {
    hide Split;
    assert Home(s, i);
    p, k := ProgramIndex(s.events[i].href).value, EventIndex(s.events[i].href).value;
  }

  lemma ProgramAt(s: State, d: nat) returns (c: nat)
    requires Placed(s) && d < |s.programs|
    ensures c < |s.programs| && s.programs[d] == LinksOf(c) && s.programs[c] == LinksOf(c)
    ensures ControlListHref(c) in s.controls
  {
    assert Owned(s.programs, d);
    c :| c < |s.programs| && s.programs[d] == LinksOf(c) && s.programs[c] == LinksOf(c);
  }

  /** The href a posted control is given is new, so the event table never ignores it. */
  lemma NextHrefIsNew(s: State, d: nat)
    requires Placed(s) && d < |s.programs|
    ensures var list := s.programs[d].controls; !KnownHref(s, Sub(list, Dec(|s.controls[list]|)))
  {
    hide Split;
    hide ProgramIndex;
    hide EventIndex;
    hide Sub;
    hide Home;
    var c := ProgramAt(s, d);
    var n := |s.controls[ControlListHref(c)]|;
    if i :| 0 <= i < |s.events| && s.events[i].href == EventHref(c, n) {
      var p, k := HomeAt(s, i);
      EventHrefInjective(c, n, p, k);
    }
  }

  /** The successor in which one more control stands at the end of one list. */
  ghost predicate GrownBy(s: State, s': State, list: string) {
    && list in s.controls && s'.programs == s.programs && |s'.events| == |s.events| + 1
    && (forall i :: 0 <= i < |s.events| ==> s'.events[i] == s.events[i])
    && s'.controls == s.controls[list := s.controls[list] + [|s.events|]]
    && s'.events[|s.events|].href == Sub(list, Dec(|s.controls[list]|))
  }

  lemma HomeKept(s: State, s': State, list: string, i: nat)
    requires GrownBy(s, s', list) && i < |s.events| && Home(s, i)
    ensures Home(s', i)
  {
    hide ProgramIndex;
    hide EventIndex;
    hide Sub;
    hide Dec;
  }

  lemma NewestHome(s: State, s': State, c: nat)
    requires GrownBy(s, s', ControlListHref(c)) && c < |s.programs| && s.programs[c] == LinksOf(c)
    ensures Home(s', |s.events|)
  {
    hide Split;
    hide ProgramIndex;
    hide EventIndex;
    hide Sub;
    hide Dec;
    EventParserReads(c, |s.controls[ControlListHref(c)]|);
  }

  lemma GrownPlaced(s: State, s': State, c: nat)
    requires Placed(s) && Valid(s') && c < |s.programs| && s.programs[c] == LinksOf(c)
    requires GrownBy(s, s', ControlListHref(c))
    ensures Placed(s')
  {
    hide Home;
    hide Sub;
    hide Dec;
    hide ControlListHref;
    NewestHome(s, s', c);
    forall i | 0 <= i < |s'.events| ensures Home(s', i) {
      if i < |s.events| {
        HomeKept(s, s', ControlListHref(c), i);
      }
    }
  }

  lemma PlacedValid(s: State)
    requires Placed(s)
    ensures Valid(s)
  {
  }

  lemma AddControlGrows(s: State, list: string, post: ControlPost)
    requires Valid(s) && list in s.controls
    ensures GrownBy(s, AddControl(s, list, post), list)
  {
    hide Sub;
    hide Dec;
  }

  lemma AddControlPlaced(s: State, d: nat, post: ControlPost)
    requires Placed(s) && d < |s.programs|
    ensures Placed(AddControl(s, s.programs[d].controls, post))
  {
    hide Home;
    hide Placed;
    hide AddControl;
    hide GrownBy;
    var c := ProgramAt(s, d);
    assert Valid(s) by {
      PlacedValid(s);
    }
    AddControlGrows(s, ControlListHref(c), post);
    GrownPlaced(s, AddControl(s, ControlListHref(c), post), c);
  }

  lemma StepPlaced(s: State, a: Action)
    requires Placed(s)
    ensures Placed(Step(s, a))
  {
    hide Split;
    hide AddControl;
    hide TickFrom;
    match a
    case Post(d, post) =>
      if d < |s.programs| {
        AddControlPlaced(s, d, post);
      }
    case At(t) =>
      if s.alive {
        TickFromPlaces(s, 0, t);
        SamePlacesPlaced(s, Tick(s, t));
      }
  }

  /* Controls of one mRID */

  /** Two controls of one program with the same mRID. */
  ghost predicate Alike(s: State, i: nat, j: nat)
    requires i < |s.events| && j < |s.events|
  {
    ProgramOf(s, i) == ProgramOf(s, j) && s.events[i].mrid == s.events[j].mrid
  }

  /** The handlers take another control for this one: the first of its program, which a repost of
      the first mRID overlooked. */
  ghost predicate Overlooked(s: State, i: nat)
    requires i < |s.events|
  {
    exists f: nat :: f < |s.events| && Shadowed(s, f, i)
  }

  ghost predicate Shadowed(s: State, f: nat, i: nat)
    requires f < |s.events| && i < |s.events|
  {
    f != i && Alike(s, f, i) && Position(s, f) == 0
  }

  /** Only a first control can have its mRID posted again. */
  ghost predicate FewDoubles(s: State) {
    forall i: nat, j: nat :: i < |s.events| && j < |s.events| && i != j && Alike(s, i, j) ==>
                               Position(s, i) == 0 || Position(s, j) == 0
  }

  lemma PositionsDiffer(s: State, i: nat, j: nat)
    requires Placed(s) && i < |s.events| && j < |s.events| && i != j && ProgramOf(s, i) == ProgramOf(s, j)
    ensures Position(s, i) != Position(s, j)
  {
    hide Split;
    hide Home;
    hide Placed;
    var p, k := HomeAt(s, i);
    var q, l := HomeAt(s, j);
  }

  /** The control the handlers find for an event: its own, or the first one when it was overlooked. */
  lemma ShareTarget(s: State, i: nat) returns (p: nat, c: nat)
    requires Placed(s) && FewDoubles(s) && i < |s.events|
    ensures ProgramOf(s, i) == p && p < |s.programs| && c < |s.events| && Alike(s, c, i)
    ensures c == i <==> !Overlooked(s, i)
    ensures c != i ==> Position(s, c) == 0
    ensures ShareStatus(s, i) == Some((s.(events := s.events[c := s.events[c].(status := s.events[i].status)]),
                                       LinksOf(p)))
  {
    hide Split;
    hide ProgramIndex;
    hide EventIndex;
    hide Home;
    hide FirstWithMrid;
    hide Dec;
    hide Sub;
    var k;
    p, k := HomeAt(s, i);
    var ids := s.controls[ControlListHref(p)];
    var found := FirstWithMrid(s, ids, s.events[i].mrid);
    assert s.events[ids[k]].mrid == s.events[i].mrid;
    var l := found.value;
    c := ids[l];
    assert s.events[c].href == EventHref(p, l);
    EventParserReads(p, l);
    if f: nat :| f < |s.events| && Shadowed(s, f, i) {
      var q, z := HomeAt(s, f);
      assert ids[0] == f;
      assert l == 0;
    }
    if c != i {
      PositionsDiffer(s, c, i);
      assert Shadowed(s, c, i);
    }
  }

  /* Agreement */

  ghost predicate NoDuplicates(items: seq<Snapshot>) {
    forall j, k :: 0 <= j < k < |items| ==> items[j].mrid != items[k].mrid
  }

  ghost predicate ActiveIn(s: State, i: nat, p: int)
    requires Valid(s)
  {
    i < |s.events| && ProgramOf(s, i) == p && StatusOf(s, i).current == Some(ACTIVE)
  }

  ghost predicate HasActive(s: State, p: int, m: Option<string>)
    requires Valid(s)
  {
    exists i: nat :: ActiveIn(s, i, p) && s.events[i].mrid == m
  }

  /** The indexed active list of program p holds, once each, the mRIDs of its active events. */
  ghost predicate AgreesAt(s: State, p: nat)
    requires Valid(s)
  {
    ActiveHref(p) in s.active ==>
      && NoDuplicates(s.active[ActiveHref(p)])
      && forall m :: Listed(s.active[ActiveHref(p)], m) <==> HasActive(s, p, m)
  }

  /** Each event writes to a status object of its own, except that a first control may have come to
      share that of the one that overlooked it; it does so as long as that one is active. */
  ghost predicate StatusesOk(s: State)
    requires Valid(s)
  {
    && |s.statuses| == |s.events|
    && (forall i: nat :: i < |s.events| ==>
                           var b := s.events[i].status;
                           b == i || (Alike(s, b, i) && Position(s, i) == 0))
    && forall f: nat, j: nat :: f < |s.events| && j < |s.events| && Shadowed(s, f, j) ==> Lent(s, f, j)
  }

  ghost predicate Lent(s: State, f: nat, j: nat)
    requires f < |s.events| && j < |s.events| && |s.statuses| == |s.events|
  {
    s.statuses[j].current == Some(ACTIVE) ==> s.events[f].status == j
  }

  /** The active list of the program of event i. */
  function ActiveHref'(s: State, i: nat): string
    requires i < |s.events|
  {
    if ProgramOf(s, i) >= 0 then ActiveHref(ProgramOf(s, i)) else ""
  }

  ghost predicate ActiveIndexed(s: State)
    requires Valid(s)
  {
    forall i: nat :: i < |s.events| && StatusOf(s, i).current == Some(ACTIVE) ==> ActiveHref'(s, i) in s.active
  }

  /** The invariant of every run, whatever is posted: a thread that has died leaves all of it but
      that active events belong to indexed programs. */
  ghost predicate Good(s: State) {
    && Placed(s) && FewDoubles(s) && StatusesOk(s)
    && (s.alive ==> ActiveIndexed(s))
    && forall p: nat :: AgreesAt(s, p)
  }

  lemma GoodParts(s: State)
    requires Good(s)
    ensures Placed(s) && Valid(s) && FewDoubles(s) && StatusesOk(s) && |s.statuses| == |s.events|
  {
  }

  lemma {:induction false} WithoutListed(items: seq<Snapshot>, mrid: Option<string>, m: Option<string>)
    ensures Listed(Without(items, mrid), m) <==> Listed(items, m) && m != mrid
  {
    if items != [] {
      WithoutListed(items[1..], mrid, m);
      var rest := Without(items[1..], mrid);
      ListedSplit(items, m);
      if items[0].mrid != mrid {
        assert Without(items, mrid) == [items[0]] + rest;
        ListedSplit([items[0]] + rest, m);
        assert ([items[0]] + rest)[1..] == rest;
      } else {
        assert Without(items, mrid) == rest;
      }
    }
  }

  lemma ListedSplit(items: seq<Snapshot>, m: Option<string>)
    requires items != []
    ensures Listed(items, m) <==> items[0].mrid == m || Listed(items[1..], m)
  {
    if Listed(items, m) {
      var k :| 0 <= k < |items| && items[k].mrid == m;
      if k > 0 {
        assert items[1..][k - 1].mrid == m;
      }
    }
    if Listed(items[1..], m) {
      var k :| 0 <= k < |items[1..]| && items[1..][k].mrid == m;
      assert items[k + 1].mrid == m;
    }
  }

  lemma {:induction false} WithoutNoDuplicates(items: seq<Snapshot>, mrid: Option<string>)
    requires NoDuplicates(items)
    ensures NoDuplicates(Without(items, mrid))
  {
    if items != [] {
      WithoutNoDuplicates(items[1..], mrid);
      var rest := Without(items[1..], mrid);
      forall k | 0 <= k < |rest| ensures rest[k].mrid != items[0].mrid {
        WithoutListed(items[1..], mrid, rest[k].mrid);
        assert Listed(rest, rest[k].mrid);
        var j :| 0 <= j < |items[1..]| && items[1..][j].mrid == rest[k].mrid;
        assert items[j + 1].mrid == rest[k].mrid;
      }
    }
  }

  /** Changing the status of one event moves only its own mRID in or out of the list of its program. */
  lemma AgreesAfter(s: State, s': State, i: nat, q: nat)
    requires Placed(s) && Valid(s') && SamePlaces(s, s') && i < |s.events| && AgreesAt(s, q)
    requires forall j: nat :: j < |s.events| && !Alike(s, j, i) ==> StatusOf(s', j).current == StatusOf(s, j).current
    requires ActiveHref(q) in s'.active ==> ActiveHref(q) in s.active && NoDuplicates(s'.active[ActiveHref(q)])
    requires ActiveHref(q) in s'.active ==>
               forall m :: Listed(s'.active[ActiveHref(q)], m)
                           <==> if ProgramOf(s, i) == q && m == s.events[i].mrid then HasActive(s', q, m)
                                else Listed(s.active[ActiveHref(q)], m)
    ensures AgreesAt(s', q)
  {
    hide ProgramIndex;
    hide EventIndex;
    hide ActiveHref;
    hide Home;
    if ActiveHref(q) in s'.active {
      forall m ensures Listed(s'.active[ActiveHref(q)], m) <==> HasActive(s', q, m) {
        if !(ProgramOf(s, i) == q && m == s.events[i].mrid) {
          if j: nat :| ActiveIn(s', j, q) && s'.events[j].mrid == m {
            assert !Alike(s, j, i);
            assert ActiveIn(s, j, q) && s.events[j].mrid == m;
          }
          if j: nat :| ActiveIn(s, j, q) && s.events[j].mrid == m {
            assert !Alike(s, j, i);
            assert ActiveIn(s', j, q) && s'.events[j].mrid == m;
          }
        }
      }
    }
  }
}
