/** Events as long as no two share a status: each turn of the clock advances one of them. */
module DerSolo {
  import opened Wrappers
  import opened Text
  import opened ListStore
  import opened ProgramHrefs
  import opened DerEvents
  import opened DerInvariant
  import opened DerClock
  import opened DerTheorems

  /** What a tick makes of the status of one event. */
  function Advance(e: Event, st: Status, t: int): Status {
    if t < e.start && st.current == None then Status(Some(SCHEDULED), Some(t))
    else if InWindow(e, t) then (if st.current == Some(ACTIVE) then st else Status(Some(ACTIVE), Some(t)))
    else if t > e.start + e.duration && st.current == Some(ACTIVE) then Status(Some(COMPLETE), Some(t))
    else st
  }

  /** The signal it sends. */
  function Emits(e: Event, st: Status, t: int): seq<Signal> {
    if t < e.start && st.current == None then [Signal(EventScheduled, e.href, t)]
    else if InWindow(e, t) then (if st.current == Some(ACTIVE) then [] else [Signal(EventStarted, e.href, t)])
    else if t > e.start + e.duration && st.current == Some(ACTIVE) then [Signal(EventEnded, e.href, t)]
    else []
  }

  /* Events with a status of their own */

  ghost predicate OwnStatuses(s: State) {
    |s.statuses| == |s.events| && forall i :: 0 <= i < |s.events| ==> s.events[i].status == i
  }

  /** No event that was overlooked has started: no two events share a status. */
  ghost predicate Solo(s: State) {
    Good(s) && OwnStatuses(s)
  }

  lemma SoloParts(s: State)
    requires Solo(s)
    ensures Good(s) && Placed(s) && Valid(s) && OwnStatuses(s) && |s.statuses| == |s.events|
  {
    hide Good;
    GoodParts(s);
  }

  lemma OverlookedIdle(s: State, i: nat)
    requires Solo(s) && i < |s.events| && Overlooked(s, i)
    ensures s.statuses[i].current != Some(ACTIVE)
  {
    hide ProgramIndex;
    hide EventIndex;
    hide AgreesAt;
    hide Placed;
    var f: nat :| f < |s.events| && Shadowed(s, f, i);
    assert Lent(s, f, i);
  }

  /** Only the status of event i, the log and the content of active lists differ. */
  ghost predicate Turned(s: State, s': State, i: nat, t: int)
    requires |s.statuses| == |s.events| && i < |s.events|
  {
    && s'.programs == s.programs && s'.controls == s.controls && s'.events == s.events
    && s'.statuses == s.statuses[i := Advance(s.events[i], s.statuses[i], t)]
    && s'.log == s.log + Emits(s.events[i], s.statuses[i], t)
    && s'.active.Keys == s.active.Keys
  }

  lemma OwnTarget(s: State, i: nat)
    requires Placed(s) && FewDoubles(s) && i < |s.events| && !Overlooked(s, i)
    ensures ShareStatus(s, i).Some? && ShareStatus(s, i).value.0 == s
  {
    hide Placed;
    hide FewDoubles;
    hide Overlooked;
    hide ShareStatus;
    hide ProgramIndex;
    assert Valid(s) by {
      PlacedValid(s);
    }
    var p, c := ShareTarget(s, i);
    assert s.events[i := s.events[i].(status := s.events[i].status)] == s.events;
  }

  /** One turn for an event that is not about to start overlooked. */
  lemma TickEventTurned(s: State, i: nat, t: int)
    requires Solo(s) && s.alive && i < |s.events| && (Overlooked(s, i) ==> !InWindow(s.events[i], t))
    ensures Turned(s, TickEvent(s, i, t), i, t) && Solo(TickEvent(s, i, t))
    ensures TickEvent(s, i, t).alive <==> !Stuck(s, i, t)
  {
    hide Good;
    hide Overlooked;
    hide ShareStatus;
    hide Stuck;
    hide TurnKeeps;
    SoloParts(s);
    if Overlooked(s, i) {
      OverlookedIdle(s, i);
    }
    assert Good(TickEvent(s, i, t)) && (TickEvent(s, i, t).alive <==> !Stuck(s, i, t)) by {
      TurnIsGood(s, i, t);
    }
    if InWindow(s.events[i], t) && s.statuses[i].current != Some(ACTIVE) {
      MarkedTarget(s, Mark(s, i, ACTIVE, EventStarted, t), i);
    } else if !InWindow(s.events[i], t) && t > s.events[i].start + s.events[i].duration
              && s.statuses[i].current == Some(ACTIVE) {
      MarkedTarget(s, Mark(s, i, COMPLETE, EventEnded, t), i);
    } else {
      assert s.statuses[i := s.statuses[i]] == s.statuses && s.log + [] == s.log;
    }
  }

  lemma TurnIsGood(s: State, i: nat, t: int)
    requires Good(s) && s.alive && i < |s.events|
    ensures Valid(s) && Good(TickEvent(s, i, t)) && (TickEvent(s, i, t).alive <==> !Stuck(s, i, t))
    ensures SamePlaces(s, TickEvent(s, i, t)) && TickEvent(s, i, t).active.Keys == s.active.Keys
  {
    hide Good;
    hide Stuck;
    GoodParts(s);
    TickEventGood(s, i, t);
  }

  /** The handlers leave the events alone. */
  lemma MarkedTarget(s: State, s1: State, i: nat)
    requires Good(s) && Valid(s1) && i < |s.events| && !Overlooked(s, i)
    requires s1.events == s.events && s1.controls == s.controls && s1.programs == s.programs
    ensures ShareStatus(s1, i).Some? && ShareStatus(s1, i).value.0 == s1
  {
    hide Home;
    hide ProgramIndex;
    hide EventIndex;
    hide AgreesAt;
    hide StatusesOk;
    hide ShareStatus;
    GoodParts(s);
    assert SamePlaces(s, s1);
    SamePlacesPlaced(s, s1);
    SameDoubles(s, s1);
    forall f: nat | f < |s.events| ensures Shadowed(s1, f, i) <==> Shadowed(s, f, i) {
    }
    OwnTarget(s1, i);
  }

  /* A tick, as the turns of its events */

  /** The state after the turns of the first k events. */
  function TickSome(s: State, k: nat, t: int): (s': State)
    requires Valid(s) && k <= |s.events|
    ensures Valid(s') && |s'.events| == |s.events|
  {
    if k == 0 then s else TickEvent(TickSome(s, k - 1, t), k - 1, t)
  }

  lemma {:induction false} TickIsSome(s: State, k: nat, t: int)
    requires Valid(s) && k <= |s.events| && forall j: nat :: j < k ==> TickSome(s, j, t).alive
    ensures Tick(s, t) == TickFrom(TickSome(s, k, t), k, t)
  {
    hide TickEvent;
    if k > 0 {
      TickIsSome(s, k - 1, t);
    }
  }

  function EmitsOf(s: State, k: nat, t: int): seq<Signal>
    requires |s.statuses| == |s.events| && k <= |s.events|
  {
    if k == 0 then [] else EmitsOf(s, k - 1, t) + Emits(s.events[k - 1], s.statuses[k - 1], t)
  }

  /** The first k events have advanced, the others rest. */
  ghost predicate Ticked(s: State, s': State, k: nat, t: int)
    requires |s.statuses| == |s.events| && k <= |s.events|
  {
    && s'.programs == s.programs && s'.controls == s.controls && s'.events == s.events
    && s'.active.Keys == s.active.Keys && |s'.statuses| == |s.statuses|
    && (forall j: nat :: j < |s.events| ==>
                           s'.statuses[j] == if j < k then Advance(s.events[j], s.statuses[j], t) else s.statuses[j])
    && s'.log == s.log + EmitsOf(s, k, t)
  }

  /** No event that was overlooked is in its window. */
  ghost predicate ClearTo(s: State, k: nat, t: int)
    requires k <= |s.events|
  {
    forall j: nat :: j < k && Overlooked(s, j) ==> !InWindow(s.events[j], t)
  }

  lemma SameOverlooked(s: State, s': State)
    requires s'.events == s.events
    ensures forall i: nat :: i < |s.events| ==> (Overlooked(s', i) <==> Overlooked(s, i))
  {
    hide ProgramIndex;
    hide EventIndex;
    forall f: nat, i: nat | f < |s.events| && i < |s.events| ensures Shadowed(s', f, i) <==> Shadowed(s, f, i) {
    }
    forall i: nat | i < |s.events| ensures Overlooked(s', i) <==> Overlooked(s, i) {
      if f: nat :| f < |s.events| && Shadowed(s, f, i) {
        assert Shadowed(s', f, i);
      }
      if f: nat :| f < |s.events| && Shadowed(s', f, i) {
        assert Shadowed(s, f, i);
      }
    }
  }

  lemma {:induction false} TickSomeSolo(s: State, k: nat, t: int)
    requires Solo(s) && s.alive && k <= |s.events| && ClearTo(s, k, t)
    requires forall j: nat :: j + 1 < k ==> !Stuck(s, j, t)
    ensures Valid(s) && |s.statuses| == |s.events|
    ensures Solo(TickSome(s, k, t)) && Ticked(s, TickSome(s, k, t), k, t)
    ensures TickSome(s, k, t).alive <==> forall j: nat :: j < k ==> !Stuck(s, j, t)
  {
    hide Solo;
    hide Stuck;
    hide Overlooked;
    hide TickEvent;
    hide Advance;
    hide Emits;
    SoloParts(s);
    if k > 0 {
      TickSomeSolo(s, k - 1, t);
      var s1 := TickSome(s, k - 1, t);
      SameOverlooked(s, s1);
      assert SamePlaces(s, s1);
      StuckUnchanged(s, s1, t);
      SoloParts(s1);
      TickEventTurned(s1, k - 1, t);
      TickedOneMore(s, s1, TickSome(s, k, t), k, t);
    }
  }

  lemma TickedOneMore(s: State, s1: State, s': State, k: nat, t: int)
    requires |s.statuses| == |s.events| && 0 < k <= |s.events|
    requires Ticked(s, s1, k - 1, t) && Turned(s1, s', k - 1, t)
    ensures Ticked(s, s', k, t)
  {
    hide Advance;
    hide Emits;
    var rest, here := EmitsOf(s, k - 1, t), Emits(s.events[k - 1], s.statuses[k - 1], t);
    assert EmitsOf(s, k, t) == rest + here;
    hide EmitsOf;
    assert (s.log + rest) + here == s.log + (rest + here);
  }

  /** An event whose program has no indexed list has the time in its window and comes before i, so
      the loop never reaches i. */
  ghost predicate Blocked(s: State, i: nat, t: int)
    requires i <= |s.events|
  {
    exists j: nat :: j < i && Stuck(s, j, t)
  }

  /** No event that was overlooked starts at t. */
  ghost predicate Clear(s: State, t: int) {
    forall i: nat :: i < |s.events| && Overlooked(s, i) && InWindow(s.events[i], t) ==> Blocked(s, i, t)
  }

  lemma {:induction false} FirstStuck(s: State, t: int, n: nat) returns (k: nat)
    requires n <= |s.events|
    ensures k <= n && (forall j: nat :: j < k ==> !Stuck(s, j, t)) && (k < n ==> Stuck(s, k, t))
    decreases n
  {
    hide Stuck;
    if n == 0 {
      k := 0;
    } else {
      k := FirstStuck(s, t, n - 1);
      if k == n - 1 && !Stuck(s, n - 1, t) {
        k := n;
      }
    }
  }

  /** A tick gives a turn to all events, or to those up to the one that ends the thread. */
  lemma TickSolo(s: State, t: int) returns (k: nat)
    requires Solo(s) && s.alive && Clear(s, t)
    ensures Valid(s) && |s.statuses| == |s.events| && k <= |s.events|
    ensures Solo(Tick(s, t)) && Ticked(s, Tick(s, t), k, t)
    ensures Tick(s, t).alive ==> k == |s.events|
  {
    hide Solo;
    hide Stuck;
    hide Overlooked;
    hide TickEvent;
    SoloParts(s);
    var n := |s.events|;
    var first := FirstStuck(s, t, n);
    k := if first < n then first + 1 else n;
    assert ClearTo(s, k, t) by {
      assert forall j: nat :: j < k ==> !Blocked(s, j, t);
    }
    forall j: nat | j < k ensures TickSome(s, j, t).alive {
      TickSomeSolo(s, j, t);
    }
    TickSomeSolo(s, k, t);
    TickIsSome(s, k, t);
    assert TickFrom(TickSome(s, k, t), k, t) == TickSome(s, k, t);
  }
}
