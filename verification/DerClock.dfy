/** One turn of the clock keeps the invariant of events, whatever was posted. */
module DerClock {
  import opened Wrappers
  import opened Text
  import opened ListStore
  import opened ProgramHrefs
  import opened DerEvents
  import opened DerInvariant

  /** The event would start at t, but its program has no indexed active list. */
  ghost predicate Stuck(s: State, i: nat, t: int)
    requires i < |s.events|
  {
    InWindow(s.events[i], t) && ActiveHref'(s, i) !in s.active
  }

  lemma OtherProgram(p: nat, q: nat)
    requires p != q
    ensures ActiveHref(p) != ActiveHref(q)
  {
    if ActiveHref(p) == ActiveHref(q) {
      SubInjective(Root(p), "derca", Root(q), "derca");
      DecValue(p);
      DecValue(q);
      SubInjective(DERP_ROOT, Dec(p), DERP_ROOT, Dec(q));
    }
  }

  lemma AppendListed(items: seq<Snapshot>, x: Snapshot)
    requires NoDuplicates(items) && !Listed(items, x.mrid)
    ensures NoDuplicates(items + [x])
    ensures forall m :: Listed(items + [x], m) <==> m == x.mrid || Listed(items, m)
  {
    forall m ensures Listed(items + [x], m) <==> m == x.mrid || Listed(items, m) {
      if Listed(items, m) {
        var k :| 0 <= k < |items| && items[k].mrid == m;
        assert (items + [x])[k].mrid == m;
      }
      assert (items + [x])[|items|] == x;
    }
    assert forall k :: 0 <= k < |items| ==> items[k].mrid != x.mrid;
  }

  /* The statuses */

  /** What a turn of event i does to events and statuses: a write to its status, and the control the
      handlers found comes to share it. */
  ghost predicate Wrote(s: State, s': State, i: nat, c: nat, st: Status)
    requires Valid(s) && StatusesOk(s) && i < |s.events| && c < |s.events|
  {
    && s'.statuses == s.statuses[s.events[i].status := st]
    && s'.events == s.events[c := s.events[c].(status := s.events[i].status)]
    && s'.programs == s.programs && s'.controls == s.controls
  }

  /** The control is the event's own unless it was overlooked. */
  ghost predicate IsTarget(s: State, i: nat, c: nat)
    requires i < |s.events| && c < |s.events|
  {
    && Alike(s, c, i) && (c == i <==> !Overlooked(s, i)) && (c != i ==> Position(s, c) == 0)
  }

  lemma WrotePlaces(s: State, s': State, i: nat, c: nat, st: Status)
    requires Placed(s) && FewDoubles(s) && StatusesOk(s) && i < |s.events| && c < |s.events| && Wrote(s, s', i, c, st)
    ensures Valid(s') && SamePlaces(s, s') && Placed(s') && FewDoubles(s')
    ensures forall j: nat, k: nat :: j < |s.events| && k < |s.events| ==> (Alike(s', j, k) <==> Alike(s, j, k))
    ensures forall j: nat :: j < |s.events| ==> Position(s', j) == Position(s, j) && ProgramOf(s', j) == ProgramOf(s, j)
  {
    hide Home;
    hide ProgramIndex;
    hide EventIndex;
    hide Placed;
    assert Valid(s') && SamePlaces(s, s') by {
      PlacedValid(s);
    }
    SamePlacesPlaced(s, s');
    forall j: nat, k: nat | j < |s.events| && k < |s.events| ensures Alike(s', j, k) <==> Alike(s, j, k) {
    }
    SameDoubles(s, s');
  }

  lemma SameDoubles(s: State, s': State)
    requires SamePlaces(s, s') && FewDoubles(s)
    ensures FewDoubles(s')
  {
    hide ProgramIndex;
    hide EventIndex;
    forall i: nat, j: nat | i < |s'.events| && j < |s'.events| && i != j && Alike(s', i, j)
      ensures Position(s', i) == 0 || Position(s', j) == 0
    {
      assert Alike(s, i, j);
    }
  }

  /** Of two controls of one mRID other than the first, there are not two. */
  lemma OneDouble(s: State, f: nat, i: nat, j: nat)
    requires Placed(s) && FewDoubles(s) && f < |s.events| && i < |s.events| && j < |s.events|
    requires Shadowed(s, f, i) && Alike(s, i, j) && j != f
    ensures i == j
  {
    hide Home;
    hide Placed;
    hide ProgramIndex;
    hide EventIndex;
    PositionsDiffer(s, f, i);
    PositionsDiffer(s, f, j);
  }

  lemma OwnerWrites(s: State, i: nat, c: nat)
    requires Placed(s) && FewDoubles(s) && StatusesOk(s) && i < |s.events| && c < |s.events| && IsTarget(s, i, c)
    ensures c != i ==> s.events[i].status == i && Shadowed(s, c, i)
    ensures s.events[i].status != i ==> c == i && Shadowed(s, i, s.events[i].status)
  {
    hide Home;
    hide ProgramIndex;
    hide EventIndex;
    if c != i {
      PositionsDiffer(s, c, i);
    }
  }

  lemma WroteStatuses(s: State, s': State, i: nat, c: nat, st: Status)
    requires Placed(s) && FewDoubles(s) && StatusesOk(s) && i < |s.events| && c < |s.events| && Wrote(s, s', i, c, st)
    requires IsTarget(s, i, c) && Valid(s') && SamePlaces(s, s')
    ensures StatusesOk(s')
  {
    hide Home;
    hide Placed;
    hide ProgramIndex;
    hide EventIndex;
    PlacedValid(s);
    OwnerWrites(s, i, c);
    WrotePlaces(s, s', i, c, st);
    var b := s.events[i].status;
    forall f: nat, j: nat | f < |s.events| && j < |s.events| && Shadowed(s', f, j) ensures Lent(s', f, j) {
      assert Shadowed(s, f, j) && Lent(s, f, j);
      if f == c && c != i {
        OneDouble(s, c, i, j);
      } else if j == b && f != c {
        if b == i {
          OneFirst(s, f, i, c);
        } else {
          OneFirst(s, f, b, i);
        }
      }
    }
  }

  /** No two controls shadow the same one. */
  lemma OneFirst(s: State, f: nat, i: nat, c: nat)
    requires Placed(s) && f < |s.events| && i < |s.events| && c < |s.events|
    requires Shadowed(s, f, i) && (Shadowed(s, c, i) || (c == i && !Overlooked(s, i)))
    ensures f == c
  {
    hide Home;
    hide Placed;
    hide ProgramIndex;
    hide EventIndex;
    if f != c && Shadowed(s, c, i) {
      PositionsDiffer(s, f, c);
    }
  }

  /** Only controls of the same mRID can notice. */
  lemma WroteElsewhere(s: State, s': State, i: nat, c: nat, st: Status, j: nat)
    requires Placed(s) && FewDoubles(s) && StatusesOk(s) && i < |s.events| && c < |s.events| && Wrote(s, s', i, c, st)
    requires IsTarget(s, i, c) && Valid(s') && SamePlaces(s, s') && j < |s.events| && !Alike(s, j, i)
    ensures StatusOf(s', j) == StatusOf(s, j)
  {
    hide Home;
    hide Placed;
    hide ProgramIndex;
    hide EventIndex;
    PlacedValid(s);
    var b := s.events[j].status;
    assert b == j || Alike(s, b, j);
    assert s.events[i].status == i || Alike(s, s.events[i].status, i);
  }

  /** When an active event stops, no control of its mRID is active any more. */
  lemma WroteStops(s: State, s': State, i: nat, c: nat, st: Status, j: nat)
    requires Placed(s) && FewDoubles(s) && StatusesOk(s) && i < |s.events| && c < |s.events| && Wrote(s, s', i, c, st)
    requires IsTarget(s, i, c) && Valid(s') && SamePlaces(s, s') && j < |s.events| && Alike(s, j, i)
    requires st.current != Some(ACTIVE)
    ensures StatusOf(s', j).current != Some(ACTIVE)
  {
    hide Home;
    hide Placed;
    hide ProgramIndex;
    hide EventIndex;
    PlacedValid(s);
    OwnerWrites(s, i, c);
    if j != i {
      if Overlooked(s, i) {
        if j != c {
          OneDouble(s, c, i, j);
        }
      } else {
        assert !Shadowed(s, j, i);
        assert Shadowed(s, i, j) && Lent(s, i, j);
        PositionsDiffer(s, i, j);
      }
    }
  }

  /* The turn */

  /** What a turn of the loop keeps. */
  ghost predicate TurnKeeps(s: State, s': State) {
    && Good(s') && SamePlaces(s, s') && s'.active.Keys == s.active.Keys
  }

  /** The invariant after a turn, once the list of the event's own program is right. */
  lemma WroteGood(s: State, s': State, i: nat, c: nat, st: Status)
    requires Good(s) && i < |s.events| && c < |s.events| && Wrote(s, s', i, c, st) && IsTarget(s, i, c)
    requires s'.active.Keys == s.active.Keys && (s'.alive ==> s.alive)
    requires s'.alive && st.current == Some(ACTIVE) ==> ActiveHref'(s, i) in s.active
    requires forall q: nat :: ActiveHref(q) in s.active && q != ProgramOf(s, i) ==>
                                s'.active[ActiveHref(q)] == s.active[ActiveHref(q)]
    requires Valid(s') && forall p: nat :: p == ProgramOf(s, i) ==> AgreesAt(s', p)
    ensures TurnKeeps(s, s')
  {
    hide Home;
    hide Placed;
    hide ProgramIndex;
    hide EventIndex;
    hide ActiveHref;
    hide StatusesOk;
    hide AgreesAt;
    hide Wrote;
    hide IsTarget;
    WrotePlaces(s, s', i, c, st);
    WroteStatuses(s, s', i, c, st);
    forall q: nat ensures AgreesAt(s', q) {
      if q != ProgramOf(s, i) {
        WroteAgrees(s, s', i, c, st, q);
      }
    }
    if s'.alive {
      forall j: nat | j < |s'.events| && StatusOf(s', j).current == Some(ACTIVE)
        ensures ActiveHref'(s', j) in s'.active {
        assert ActiveHref'(s', j) == ActiveHref'(s, j);
        if Alike(s, j, i) {
          if st.current != Some(ACTIVE) {
            WroteStops(s, s', i, c, st, j);
          }
        } else {
          WroteElsewhere(s, s', i, c, st, j);
        }
      }
    }
  }

  /** Lists of other programs. */
  lemma WroteAgrees(s: State, s': State, i: nat, c: nat, st: Status, q: nat)
    requires Good(s) && i < |s.events| && c < |s.events| && Wrote(s, s', i, c, st) && IsTarget(s, i, c)
    requires Valid(s') && SamePlaces(s, s') && q != ProgramOf(s, i)
    requires ActiveHref(q) in s'.active ==> ActiveHref(q) in s.active
                                            && s'.active[ActiveHref(q)] == s.active[ActiveHref(q)]
    ensures AgreesAt(s', q)
  {
    hide Home;
    hide ProgramIndex;
    hide EventIndex;
    hide ActiveHref;
    hide Placed;
    hide StatusesOk;
    hide Wrote;
    hide IsTarget;
    PlacedValid(s);
    forall j: nat | j < |s.events| && !Alike(s, j, i) ensures StatusOf(s', j).current == StatusOf(s, j).current {
      WroteElsewhere(s, s', i, c, st, j);
    }
    assert AgreesAt(s, q);
    AgreesAfter(s, s', i, q);
  }

  lemma {:induction false} StartGood(s: State, i: nat, t: int)
    requires Good(s) && s.alive && i < |s.events| && InWindow(s.events[i], t)
    requires StatusOf(s, i).current != Some(ACTIVE)
    ensures TurnKeeps(s, TickEvent(s, i, t)) && (TickEvent(s, i, t).alive <==> !Stuck(s, i, t))
  {
    hide Home;
    hide ProgramIndex;
    hide EventIndex;
    hide ActiveHref;
    hide ControlListHref;
    hide ShareStatus;
    var e := s.events[i];
    var s1 := Mark(s, i, ACTIVE, EventStarted, t);
    assert SamePlaces(s, s1);
    SamePlacesPlaced(s, s1);
    SameDoubles(s, s1);
    var p, c := ShareTarget(s1, i);
    var s' := TickEvent(s, i, t);
    var st := Status(Some(ACTIVE), Some(t));
    TargetSame(s, s1, i, c);
    assert Wrote(s, s', i, c, st);
    WrotePlaces(s, s', i, c, st);
    assert ActiveHref'(s, i) == ActiveHref(p);
    forall q: nat | q != p ensures ActiveHref(q) != ActiveHref(p) {
      OtherProgram(p, q);
    }
    StartedAgrees(s, s', i, c, st, p);
    WroteGood(s, s', i, c, st);
  }

  lemma TargetSame(s: State, s1: State, i: nat, c: nat)
    requires i < |s.events| && c < |s.events| && s1.events == s.events && IsTarget(s1, i, c)
    ensures IsTarget(s, i, c)
  {
    hide ProgramIndex;
    hide EventIndex;
    forall j: nat, k: nat | j < |s.events| && k < |s.events| ensures Shadowed(s1, j, k) <==> Shadowed(s, j, k) {
    }
    assert Overlooked(s1, i) <==> Overlooked(s, i);
  }

  lemma StartedAgrees(s: State, s': State, i: nat, c: nat, st: Status, p: nat)
    requires Good(s) && i < |s.events| && c < |s.events| && Wrote(s, s', i, c, st) && IsTarget(s, i, c)
    requires Valid(s') && SamePlaces(s, s') && ProgramOf(s, i) == p && st.current == Some(ACTIVE)
    requires var m := s.events[i].mrid;
             s'.active == if ActiveHref(p) !in s.active || Listed(s.active[ActiveHref(p)], m) then s.active
             else s.active[ActiveHref(p) := s.active[ActiveHref(p)] + [Snapshot(s.events[i].href, m)]]
    ensures AgreesAt(s', p)
  {
    hide Home;
    hide ProgramIndex;
    hide EventIndex;
    hide ActiveHref;
    hide Placed;
    hide StatusesOk;
    hide IsTarget;
    PlacedValid(s);
    var m := s.events[i].mrid;
    assert AgreesAt(s, p);
    forall j: nat | j < |s.events| && !Alike(s, j, i) ensures StatusOf(s', j).current == StatusOf(s, j).current {
      WroteElsewhere(s, s', i, c, st, j);
    }
    assert StatusOf(s', i) == st;
    assert ActiveIn(s', i, p) && s'.events[i].mrid == m;
    assert HasActive(s', p, m);
    if ActiveHref(p) in s.active && !Listed(s.active[ActiveHref(p)], m) {
      AppendListed(s.active[ActiveHref(p)], Snapshot(s.events[i].href, m));
    }
    AgreesAfter(s, s', i, p);
  }

  lemma EndGood(s: State, i: nat, t: int)
    requires Good(s) && s.alive && i < |s.events| && t > s.events[i].start + s.events[i].duration
    requires StatusOf(s, i).current == Some(ACTIVE) && !InWindow(s.events[i], t)
    ensures TurnKeeps(s, TickEvent(s, i, t)) && TickEvent(s, i, t).alive
  {
    hide Home;
    hide ProgramIndex;
    hide EventIndex;
    hide ActiveHref;
    hide ControlListHref;
    hide ShareStatus;
    var e := s.events[i];
    var s1 := Mark(s, i, COMPLETE, EventEnded, t);
    assert SamePlaces(s, s1);
    SamePlacesPlaced(s, s1);
    SameDoubles(s, s1);
    var p, c := ShareTarget(s1, i);
    var s' := TickEvent(s, i, t);
    var st := Status(Some(COMPLETE), Some(t));
    TargetSame(s, s1, i, c);
    assert ActiveHref'(s, i) == ActiveHref(p);
    assert Wrote(s, s', i, c, st);
    WrotePlaces(s, s', i, c, st);
    forall q: nat | q != p ensures ActiveHref(q) != ActiveHref(p) {
      OtherProgram(p, q);
    }
    EndedAgrees(s, s', i, c, st, p);
    WroteGood(s, s', i, c, st);
  }

  lemma EndedAgrees(s: State, s': State, i: nat, c: nat, st: Status, p: nat)
    requires Good(s) && i < |s.events| && c < |s.events| && Wrote(s, s', i, c, st) && IsTarget(s, i, c)
    requires Valid(s') && SamePlaces(s, s') && ProgramOf(s, i) == p && st.current != Some(ACTIVE)
    requires ActiveHref(p) in s.active
    requires s'.active == s.active[ActiveHref(p) := Without(s.active[ActiveHref(p)], s.events[i].mrid)]
    ensures AgreesAt(s', p)
  {
    hide Home;
    hide ProgramIndex;
    hide EventIndex;
    hide ActiveHref;
    hide Placed;
    hide StatusesOk;
    hide IsTarget;
    hide Wrote;
    PlacedValid(s);
    var m := s.events[i].mrid;
    assert AgreesAt(s, p);
    forall j: nat | j < |s.events| && !Alike(s, j, i) ensures StatusOf(s', j).current == StatusOf(s, j).current {
      WroteElsewhere(s, s', i, c, st, j);
    }
    if j: nat :| ActiveIn(s', j, p) && s'.events[j].mrid == m {
      WroteStops(s, s', i, c, st, j);
    }
    assert !HasActive(s', p, m);
    var list := s.active[ActiveHref(p)];
    WithoutNoDuplicates(list, m);
    forall k ensures Listed(Without(list, m), k) <==> Listed(list, k) && k != m {
      WithoutListed(list, m, k);
    }
    AgreesAfter(s, s', i, p);
  }

  /** A turn without a start or an end writes at most that the event is scheduled. */
  lemma QuietGood(s: State, i: nat, t: int)
    requires Good(s) && s.alive && i < |s.events|
    requires !(InWindow(s.events[i], t) && StatusOf(s, i).current != Some(ACTIVE))
    requires InWindow(s.events[i], t) || !(t > s.events[i].start + s.events[i].duration
                                           && StatusOf(s, i).current == Some(ACTIVE))
    ensures TurnKeeps(s, TickEvent(s, i, t)) && TickEvent(s, i, t).alive
  {
    hide Home;
    hide ProgramIndex;
    hide EventIndex;
    hide ActiveHref;
    hide Placed;
    PlacedValid(s);
    var s' := TickEvent(s, i, t);
    if s' != s {
      var st := Status(Some(SCHEDULED), Some(t));
      assert StatusOf(s, i).current == None;
      assert s'.statuses == s.statuses[s.events[i].status := st];
      assert SamePlaces(s, s');
      SamePlacesPlaced(s, s');
      SameDoubles(s, s');
      ScheduledStatuses(s, s', s.events[i].status, st);
      assert forall j: nat :: j < |s.events| ==>
                                (StatusOf(s', j).current == Some(ACTIVE) <==> StatusOf(s, j).current == Some(ACTIVE));
      forall q: nat ensures AgreesAt(s', q) {
        assert AgreesAt(s, q);
        SameActivity(s, s', q);
      }
    }
  }

  lemma ScheduledStatuses(s: State, s': State, b: nat, st: Status)
    requires Valid(s) && Valid(s') && StatusesOk(s) && b < |s.statuses| && s'.events == s.events
             && st.current == Some(SCHEDULED)
    requires s'.statuses == s.statuses[b := st]
    ensures StatusesOk(s')
  {
    hide ProgramIndex;
    hide EventIndex;
    forall f: nat, j: nat | f < |s.events| && j < |s.events| && Shadowed(s', f, j) ensures Lent(s', f, j) {
      assert Shadowed(s, f, j) && Lent(s, f, j);
    }
  }

  lemma SameActivity(s: State, s': State, q: nat)
    requires Valid(s) && Valid(s') && AgreesAt(s, q) && s'.events == s.events && s'.active == s.active
    requires forall j: nat :: j < |s.events| ==>
                                (StatusOf(s', j).current == Some(ACTIVE) <==> StatusOf(s, j).current == Some(ACTIVE))
    ensures AgreesAt(s', q)
  {
    hide ProgramIndex;
    hide ActiveHref;
    forall m ensures HasActive(s', q, m) <==> HasActive(s, q, m) {
      if j: nat :| ActiveIn(s', j, q) && s'.events[j].mrid == m {
        assert ActiveIn(s, j, q) && s.events[j].mrid == m;
      }
      if j: nat :| ActiveIn(s, j, q) && s.events[j].mrid == m {
        assert ActiveIn(s', j, q) && s'.events[j].mrid == m;
      }
    }
  }

  /** One turn of the loop keeps the invariant, and ends the thread exactly when an event whose
      program has no indexed active list has the time in its window. */
  lemma TickEventGood(s: State, i: nat, t: int)
    requires Good(s) && s.alive && i < |s.events|
    ensures TurnKeeps(s, TickEvent(s, i, t)) && (TickEvent(s, i, t).alive <==> !Stuck(s, i, t))
  {
    hide Home;
    hide ProgramIndex;
    hide EventIndex;
    hide ActiveHref;
    hide TickEvent;
    hide AgreesAt;
    hide TurnKeeps;
    hide Placed;
    assert Valid(s) by {
      PlacedValid(s);
    }
    if InWindow(s.events[i], t) && StatusOf(s, i).current != Some(ACTIVE) {
      StartGood(s, i, t);
    } else if !InWindow(s.events[i], t) && t > s.events[i].start + s.events[i].duration
              && StatusOf(s, i).current == Some(ACTIVE) {
      EndGood(s, i, t);
    } else {
      QuietGood(s, i, t);
    }
  }
}
