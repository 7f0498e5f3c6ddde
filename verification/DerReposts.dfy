/** Exactly which reposts of the first control's mRID are harmless: a handler overlooks the match at
    position 0, and once the second event starts, both write to one EventStatus. */
module DerReposts {
  import opened Wrappers
  import opened Text
  import opened ListStore
  import opened ProgramHrefs
  import opened DerEvents
  import opened DerInvariant
  import opened DerClock
  import opened DerTheorems
  import opened DerSolo
  import opened DerLifecycle

  /** The signals sent for each event are those that its status says were sent. */
  ghost predicate AllLegal(s: State)
    requires Valid(s)
  {
    forall i: nat :: i < |s.events| ==> Legal(History(s.log, s.events[i].href), StatusOf(s, i))
  }

  lemma SoundLegal(s: State, now: int)
    requires Sound(s, now)
    ensures Valid(s) && AllLegal(s)
  {
    hide Good;
    hide Legal;
    hide History;
    hide Quiescent;
    hide LogKnown;
    SoloParts(s);
  }

  /* The start of an event that was overlooked */

  lemma FirstShadows(s: State, s': State, list: string)
    requires Placed(s) && Placed(s') && Added(s, s', list)
    requires LastWithMrid(s, s.controls[list], s'.events[|s.events|].mrid) == Some(0)
    ensures |s.controls[list]| > 0 && s.controls[list][0] < |s.events| && Shadowed(s', s.controls[list][0], |s.events|)
  {
    hide Home;
    hide ProgramIndex;
    hide EventIndex;
    hide Split;
    hide Dec;
    hide Sub;
    var n := |s.events|;
    EventsOfList(s, s', list);
    var p := ProgramOf(s', n);
    var c := s.controls[list][0];
    assert s'.controls[list][0] == c;
    assert s'.events[c].href == EventHref(p, 0);
    EventParserReads(p, 0);
  }

  /** It makes the first control share its status, so that one looks active as well. */
  lemma DoubleStarts(s: State, c: nat, n: nat, t: int)
    requires Solo(s) && Valid(s) && s.alive && c < |s.events| && n < |s.events| && Shadowed(s, c, n)
    requires InWindow(s.events[n], t) && s.statuses[n].current != Some(ACTIVE)
    ensures var s' := TickEvent(s, n, t);
            && Good(s') && SamePlaces(s, s') && s'.active.Keys == s.active.Keys && (s'.alive <==> !Stuck(s, n, t))
            && s'.events == s.events[c := s.events[c].(status := n)]
            && s'.statuses == s.statuses[n := Status(Some(ACTIVE), Some(t))]
            && s'.log == s.log + [Signal(EventStarted, s.events[n].href, t)]
  {
    hide Good;
    hide Stuck;
    hide ShareStatus;
    hide ProgramIndex;
    hide EventIndex;
    hide Home;
    SoloParts(s);
    TurnIsGood(s, n, t);
    GoodParts(s);
    var s1 := Mark(s, n, ACTIVE, EventStarted, t);
    assert SamePlaces(s, s1);
    SamePlacesPlaced(s, s1);
    SameDoubles(s, s1);
    var p, c' := ShareTarget(s1, n);
    assert Shadowed(s1, c, n);
    assert Overlooked(s1, n);
    OneFirst(s1, c, n, c');
  }

  /* A tick after every window */

  predicate Late(e: Event, t: int) {
    t > e.start && t > e.start + e.duration
  }

  lemma LateTurn(s: State, i: nat, t: int)
    requires Good(s) && Valid(s) && s.alive && i < |s.events| && Late(s.events[i], t)
    requires Overlooked(s, i) ==> StatusOf(s, i).current != Some(ACTIVE)
    ensures var s' := TickEvent(s, i, t);
            && Good(s') && s'.alive && s'.events == s.events && s'.controls == s.controls && s'.programs == s.programs
            && s'.active.Keys == s.active.Keys
            && (if StatusOf(s, i).current == Some(ACTIVE) then
                  && s'.statuses == s.statuses[s.events[i].status := Status(Some(COMPLETE), Some(t))]
                  && s'.log == s.log + [Signal(EventEnded, s.events[i].href, t)]
                else s' == s)
  {
    hide Good;
    hide ShareStatus;
    hide Overlooked;
    GoodParts(s);
    TurnIsGood(s, i, t);
    if StatusOf(s, i).current == Some(ACTIVE) {
      MarkedTarget(s, Mark(s, i, COMPLETE, EventEnded, t), i);
    }
  }

  /** The shared status, halfway through a late tick: it is complete once the first control had its
      turn, and no signal says so of the other. */
  ghost predicate Halfway(s: State, s': State, c: nat, n: nat, k: nat)
    requires c < |s.events| && n < |s.events| && |s.statuses| == |s.events|
  {
    && Good(s') && s'.alive && s'.events == s.events && s'.active.Keys == s.active.Keys
    && |s'.statuses| == |s.statuses|
    && s'.statuses[n].current == Some(if k <= c then ACTIVE else COMPLETE)
    && (forall j: nat :: j < |s.events| && j != n && Overlooked(s, j) ==> s'.statuses[j].current != Some(ACTIVE))
    && History(s'.log, s.events[n].href) == History(s.log, s.events[n].href)
  }

  /** The first control shares the status of the last event; every other event has its own. */
  ghost predicate SharedBy(s: State, c: nat, n: nat) {
    && |s.statuses| == |s.events| && c < n == |s.events| - 1 && Shadowed(s, c, n) && s.events[c].status == n
    && forall i: nat :: i < |s.events| && i != c ==> s.events[i].status == i
  }

  lemma FirstIsNotOverlooked(s: State, c: nat, n: nat)
    requires Placed(s) && c < |s.events| && n < |s.events| && Shadowed(s, c, n)
    ensures !Overlooked(s, c) && Overlooked(s, n)
  {
    hide Home;
    hide Placed;
    hide ProgramIndex;
    hide EventIndex;
    if f: nat :| f < |s.events| && Shadowed(s, f, c) {
      PositionsDiffer(s, f, c);
    }
  }

  lemma HalfwayTurn(s: State, s1: State, c: nat, n: nat, k: nat, t: int)
    requires Placed(s) && SharedBy(s, c, n) && k < |s.events| && Late(s.events[k], t)
    requires Halfway(s, s1, c, n, k) && Valid(s1)
    ensures Halfway(s, TickEvent(s1, k, t), c, n, k + 1)
  {
    hide Good;
    hide Home;
    hide Placed;
    hide ProgramIndex;
    hide EventIndex;
    hide TickEvent;
    hide Overlooked;
    hide Shadowed;
    hide History;
    hide Late;
    SameOverlooked(s, s1);
    FirstIsNotOverlooked(s, c, n);
    assert StatusOf(s1, k) == s1.statuses[if k == c then n else k];
    LateTurn(s1, k, t);
    var s' := TickEvent(s1, k, t);
    if StatusOf(s1, k).current == Some(ACTIVE) {
      var ended := Signal(EventEnded, s.events[k].href, t);
      assert k != n;
      assert s.events[k].href != s.events[n].href by {
        if s.events[k].href == s.events[n].href {
          HrefsDistinct(s, k, n);
        }
      }
      HistoryConcat(s1.log, [ended], s.events[n].href);
      NoHistory([ended], s.events[n].href);
      assert History(s1.log, s.events[n].href) + [] == History(s1.log, s.events[n].href);
    }
  }

  lemma {:induction false} LateTick(s: State, c: nat, n: nat, k: nat, t: int)
    requires Good(s) && Valid(s) && SharedBy(s, c, n) && s.alive && k <= |s.events|
    requires forall i: nat :: i < |s.events| ==> Late(s.events[i], t)
    requires Halfway(s, s, c, n, 0)
    ensures Halfway(s, TickSome(s, k, t), c, n, k)
  {
    hide Good;
    hide Halfway;
    hide SharedBy;
    hide TickEvent;
    hide Late;
    GoodParts(s);
    if k > 0 {
      LateTick(s, c, n, k - 1, t);
      HalfwayTurn(s, TickSome(s, k - 1, t), c, n, k - 1, t);
    }
  }

  /** A time after everything. */
  function After(events: seq<Event>, t: int): (u: int)
    ensures u >= t && forall i :: 0 <= i < |events| ==> Late(events[i], u)
  {
    if events == [] then t
    else
      var n := |events| - 1;
      var u := After(events[..n], t);
      var e := events[n];
      var v := if u > e.start then u else e.start + 1;
      if v > e.start + e.duration then v else e.start + e.duration + 1
  }

  /** After such a tick the last event is complete but was never signalled as ended. */
  lemma LateTickIllegal(s: State, c: nat, n: nat, t: int)
    requires Good(s) && Valid(s) && SharedBy(s, c, n) && s.alive
    requires forall i: nat :: i < |s.events| ==> Late(s.events[i], t)
    requires Halfway(s, s, c, n, 0) && Kinds(History(s.log, s.events[n].href)) == [EventStarted]
    ensures !AllLegal(Tick(s, t))
  {
    hide Good;
    hide TickEvent;
    hide History;
    hide Late;
    hide Overlooked;
    hide Shadowed;
    forall k: nat | k <= |s.events| ensures Halfway(s, TickSome(s, k, t), c, n, k) {
      LateTick(s, c, n, k, t);
    }
    TickIsSome(s, |s.events|, t);
    var s' := TickSome(s, |s.events|, t);
    assert Tick(s, t) == s';
    assert StatusOf(s', n) == s'.statuses[n];
    assert !Legal(History(s'.log, s'.events[n].href), StatusOf(s', n));
  }

  /* The failing runs */

  /** The first n events of the state after the post have their turns as if alone. */
  lemma OldTurns(s: State, s': State, now: int, list: string, t: int)
    requires Sound(s, now) && s.alive && Added(s, s', list) && Solo(s') && Valid(s') && s'.alive && Placed(s')
    requires now <= t && !Blocked(s, |s.events|, t)
    ensures var n := |s.events|;
            var s1 := TickSome(s', n, t);
            && Solo(s1) && s1.alive && Ticked(s', s1, n, t) && Tick(s', t) == TickEvent(s1, n, t)
  {
    hide Solo;
    hide Stuck;
    hide Overlooked;
    hide Lawful;
    hide LogKnown;
    hide TickEvent;
    SoloParts(s);
    SoloParts(s');
    var n := |s.events|;
    forall j: nat | j < n ensures !Stuck(s', j, t) {
      SameStuck(s, s', j, t);
    }
    forall j: nat | j < n && Overlooked(s', j) ensures !InWindow(s'.events[j], t) {
      OldOverlooked(s, s', list, j);
      assert !Blocked(s, j, t);
    }
    forall j: nat | j <= n ensures TickSome(s', j, t).alive {
      TickSomeSolo(s', j, t);
    }
    TickSomeSolo(s', n, t);
    TickIsSome(s', n, t);
    var s1 := TickSome(s', n, t);
    assert TickFrom(s1, n, t) == TickFrom(TickEvent(s1, n, t), n + 1, t);
  }

  lemma OldOverlooked(s: State, s': State, list: string, j: nat)
    requires Placed(s) && Placed(s') && Added(s, s', list) && j < |s.events| && Overlooked(s', j)
    ensures Overlooked(s, j)
  {
    hide Home;
    hide ProgramIndex;
    hide EventIndex;
    AddedSame(s, s', list);
    var f: nat :| f < |s'.events| && Shadowed(s', f, j);
    if f == |s.events| {
      NewestDoubles(s, s', list, j);
    }
    assert Shadowed(s, f, j);
  }

  /** What the first tick in the window leaves. */
  ghost predicate Doubled(s: State, s2: State, c: nat, n: nat, t: int) {
    && Valid(s2) && Good(s2) && SharedBy(s2, c, n) && s2.statuses[n] == Status(Some(ACTIVE), Some(t))
    && (forall j: nat :: j < n && Overlooked(s2, j) ==> s2.statuses[j].current != Some(ACTIVE))
    && History(s2.log, s2.events[n].href) == [Signal(EventStarted, s2.events[n].href, t)]
    && (!s2.alive ==> exists st: Status :: Legal(History(s2.log, s2.events[c].href), st) && st.current != Some(ACTIVE))
  }

  lemma FirstTickDoubles(s: State, now: int, d: nat, post: ControlPost, t: int) returns (c: nat)
    requires Sound(s, now) && Valid(s) && s.alive && Plain(post) && RepeatsFirst(s, d, post)
    requires now <= t && Holds(post, t) && !Blocked(s, |s.events|, t)
    ensures c < |s.events| && Doubled(s, Tick(PostControl(s, d, post).0, t), c, |s.events|, t)
    ensures PostControl(s, d, post).0.alive
  {
    hide Good;
    hide Lawful;
    hide Quiescent;
    hide LogKnown;
    hide Blocked;
    hide Stuck;
    hide History;
    hide Legal;
    hide Overlooked;
    hide Tick;
    hide TickSome;
    hide PostControl;
    hide LastWithMrid;
    var n := |s.events|;
    var s' := PostControl(s, d, post).0;
    var list := s.programs[d].controls;
    SoloParts(s);
    PostSound(s, d, post, now);
    PostGood(s, d, post);
    RepostAdds(s, d, post);
    SoloParts(s');
    NewestWindow(s, d, post, t);
    FirstShadows(s, s', list);
    c := s.controls[list][0];
    OldTurns(s, s', now, list, t);
    var s1 := TickSome(s', n, t);
    SoloParts(s1);
    TickedLawful(s', s1, now, n, t);
    assert Shadowed(s1, c, n);
    DoubleStarts(s1, c, n, t);
    var s2 := TickEvent(s1, n, t);
    DoubledHistory(s, d, s', s1, s2, t);
    AfterDouble(s1, s2, c, n, t);
  }

  lemma RepostAdds(s: State, d: nat, post: ControlPost)
    requires Valid(s) && RepeatsFirst(s, d, post)
    ensures PostControl(s, d, post).0 != s
    ensures PostControl(s, d, post).0.events[..|s.events|] == s.events
  {
    hide LastWithMrid;
    hide Sub;
    hide Dec;
  }

  lemma DoubledHistory(s: State, d: nat, s': State, s1: State, s2: State, t: int)
    requires Solo(s) && Valid(s) && LogKnown(s) && d < |s.programs| && Added(s, s', s.programs[d].controls)
             && Kept(s, s')
    requires Placed(s') && |s'.statuses| == |s'.events|
    requires Ticked(s', s1, |s.events|, t)
    requires s2.log == s1.log + [Signal(EventStarted, s'.events[|s.events|].href, t)]
    ensures History(s2.log, s'.events[|s.events|].href) == [Signal(EventStarted, s'.events[|s.events|].href, t)]
  {
    hide Good;
    hide Home;
    hide Placed;
    hide Advance;
    hide Emits;
    hide EmitsOf;
    hide LastWithMrid;
    hide Dec;
    hide Sub;
    var n := |s.events|;
    var href := s'.events[n].href;
    var started := Signal(EventStarted, href, t);
    SoloParts(s);
    HistoryOfNew(s, d);
    HistoryOfTick(s', n, t, n);
    HistoryConcat(s'.log, EmitsOf(s', n, t), href);
    HistoryConcat(s1.log, [started], href);
    assert [started][1..] == [] && History([started], href) == [started];
    hide History;
    assert History(s1.log, href) == [] + [];
    assert [] + [started] == [started];
  }

  lemma AfterDouble(s1: State, s2: State, c: nat, n: nat, t: int)
    requires Solo(s1) && Valid(s1) && s1.alive && Lawful(s1, t) && c < n == |s1.events| - 1 && Shadowed(s1, c, n)
    requires Good(s2) && Valid(s2) && SamePlaces(s1, s2) && s2.active.Keys == s1.active.Keys
             && (s2.alive <==> !Stuck(s1, n, t))
    requires s2.events == s1.events[c := s1.events[c].(status := n)]
    requires s2.statuses == s1.statuses[n := Status(Some(ACTIVE), Some(t))]
    requires s2.log == s1.log + [Signal(EventStarted, s1.events[n].href, t)]
    requires History(s2.log, s1.events[n].href) == [Signal(EventStarted, s1.events[n].href, t)]
    ensures Doubled(s1, s2, c, n, t)
  {
    hide Home;
    hide Placed;
    hide ProgramIndex;
    hide EventIndex;
    hide ActiveHref;
    hide AgreesAt;
    hide FewDoubles;
    hide StatusesOk;
    hide History;
    hide Legal;
    SoloParts(s1);
    forall i: nat, j: nat | i < |s1.events| && j < |s1.events| ensures Shadowed(s2, i, j) <==> Shadowed(s1, i, j) {
    }
    forall j: nat | j < n && Overlooked(s2, j) ensures s2.statuses[j].current != Some(ACTIVE) {
      var f: nat :| f < |s2.events| && Shadowed(s2, f, j);
      assert Shadowed(s1, f, j);
      assert Overlooked(s1, j);
      OverlookedIdle(s1, j);
    }
    if !s2.alive {
      var hc := s1.events[c].href;
      assert hc != s1.events[n].href by {
        if hc == s1.events[n].href {
          HrefsDistinct(s1, c, n);
        }
      }
      HistoryConcat(s1.log, [Signal(EventStarted, s1.events[n].href, t)], hc);
      NoHistory([Signal(EventStarted, s1.events[n].href, t)], hc);
      assert History(s1.log, hc) + [] == History(s1.log, hc);
      assert StatusOf(s1, c) == s1.statuses[c];
      assert ActiveHref'(s1, c) == ActiveHref'(s1, n);
      assert s1.statuses[c].current != Some(ACTIVE);
    }
  }

  lemma OneStatusOnly(h: seq<Signal>, st: Status, st': Status)
    requires Legal(h, st) && st.current != Some(ACTIVE) && st'.current == Some(ACTIVE)
    ensures !Legal(h, st')
  {
  }

  lemma DoubledFails(s: State, s2: State, c: nat, n: nat, t: int)
    requires Doubled(s, s2, c, n, t)
    ensures !s2.alive ==> !AllLegal(s2)
    ensures s2.alive ==> !AllLegal(Tick(s2, After(s2.events, t)))
  {
    hide Good;
    hide Overlooked;
    hide Shadowed;
    hide Tick;
    hide Late;
    if !s2.alive {
      var st: Status :| Legal(History(s2.log, s2.events[c].href), st) && st.current != Some(ACTIVE);
      OneStatusOnly(History(s2.log, s2.events[c].href), st, StatusOf(s2, c));
    } else {
      assert Halfway(s2, s2, c, n, 0);
      assert Kinds(History(s2.log, s2.events[n].href)) == [EventStarted];
      LateTickIllegal(s2, c, n, After(s2.events, t));
    }
  }

  /** The tick in the window, or that tick and one after everything. */
  function FailingRun(s: State, t: int): seq<Action>
    requires Valid(s)
  {
    var s2 := Tick(s, t);
    if s2.alive then [At(t), At(After(s2.events, t))] else [At(t)]
  }

  lemma FailingRunIs(s: State, now: int, t: int)
    requires Valid(s) && s.alive && now <= t
    ensures Orderly(s, now, FailingRun(s, t))
    ensures var s2 := Tick(s, t);
            Run(s, FailingRun(s, t)) == if s2.alive then Tick(s2, After(s2.events, t)) else s2
  {
    hide Tick;
    var s2 := Tick(s, t);
    var u := After(s2.events, t);
    assert [At(t), At(u)][1..] == [At(u)] && [At(u)][1..] == [] && [At(t)][1..] == [];
    assert forall x: State :: Valid(x) ==> Run(x, []) == x && Orderly(x, t, []) && Orderly(x, u, []);
    assert Run(s2, [At(u)]) == Step(s2, At(u));
    assert Orderly(s2, t, [At(u)]);
  }

  /** A post keeps events safe if and only if it does not repeat the mRID of its program's first
      control with a window in which the event could still start: after a safe one every orderly
      continuation keeps every history legal, and after any other a continuation of two ticks at
      most does not. */
  lemma RepostSafeIff(s: State, now: int, d: nat, post: ControlPost)
    requires Sound(s, now) && Valid(s) && s.alive && Plain(post)
    ensures var s' := PostControl(s, d, post).0;
            (forall actions :: Orderly(s', now, actions) ==> AllLegal(Run(s', actions)))
            <==> SafeRepost(s, now, d, post)
  {
    hide Sound;
    hide Plain;
    hide PostControl;
    hide Orderly;
    hide AllLegal;
    hide Run;
    hide RepeatsFirst;
    hide Holds;
    hide Blocked;
    var s' := PostControl(s, d, post).0;
    if SafeRepost(s, now, d, post) {
      assert Sound(s', now) by {
        SafePostSound(s, now, d, post);
      }
      forall actions | Orderly(s', now, actions) ensures AllLegal(Run(s', actions)) {
        RunSound(s', now, actions);
        SoundLegal(Run(s', actions), LastTick(now, actions));
      }
    } else {
      var t :| now <= t && Holds(post, t) && !Blocked(s, |s.events|, t);
      var c := FirstTickDoubles(s, now, d, post, t);
      DoubledFails(s, Tick(s', t), c, |s.events|, t);
      FailingRunIs(s', now, t);
      assert !AllLegal(Run(s', FailingRun(s', t)));
    }
  }

  lemma SafePostSound(s: State, now: int, d: nat, post: ControlPost)
    requires Sound(s, now) && Valid(s) && s.alive && Plain(post) && SafeRepost(s, now, d, post)
    ensures Sound(PostControl(s, d, post).0, now)
  {
    hide Solo;
    hide Lawful;
    hide Quiescent;
    hide LogKnown;
    PostSound(s, d, post, now);
  }

  /** Where all programs have indexed lists the condition is on the post and the clock alone: the
      mRID is not that of the first control, or the window is shorter than two seconds, or over. */
  lemma RepostSafeInNumbers(s: State, now: int, d: nat, post: ControlPost)
    requires Valid(s) && AllIndexed(s)
    ensures SafeRepost(s, now, d, post)
       <==> !(RepeatsFirst(s, d, post) && post.duration >= 2 && now < post.start + post.duration)
  {
    hide RepeatsFirst;
    hide Holds;
    hide ActiveHref';
    WindowHoldsIff(post, now);
    forall t ensures !Blocked(s, |s.events|, t) {
    }
  }
}
