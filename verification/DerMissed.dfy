/** Which events a clock can miss. */
module DerMissed {
  import opened Wrappers
  import opened Text
  import opened ListStore
  import opened ProgramHrefs
  import opened DerEvents
  import opened DerInvariant
  import opened DerClock
  import opened DerTheorems
  import opened DerSolo
  import opened DerLifecycle

  /** A clock whose readings never go back and differ by at most g. */
  predicate Paced(ticks: seq<int>, g: int) {
    forall k :: 0 < k < |ticks| ==> ticks[k - 1] <= ticks[k] <= ticks[k - 1] + g
  }

  /** From a reading no later than the start to one past the end. */
  predicate Covers(e: Event, ticks: seq<int>) {
    ticks != [] && ticks[0] <= e.start && ticks[|ticks| - 1] > e.start + e.duration
  }

  lemma {:induction false} ActiveCompletes(e: Event, st: Status, ticks: seq<int>, g: int)
    requires Paced(ticks, g) && ticks != [] && ticks[|ticks| - 1] > e.start + e.duration
    requires ticks[0] > e.start && e.duration >= 0
    requires st.current == Some(ACTIVE) || (st.current == Some(COMPLETE) && ticks[0] > e.start + e.duration)
    ensures AdvanceAll(e, st, ticks).current == Some(COMPLETE)
    decreases |ticks|
  {
    var st' := Advance(e, st, ticks[0]);
    if |ticks| > 1 {
      assert ticks[1..][|ticks| - 2] == ticks[|ticks| - 1];
      PacedTail(ticks, g);
      assert ticks[1] >= ticks[0];
      ActiveCompletes(e, st', ticks[1..], g);
    } else {
      assert AdvanceAll(e, st', ticks[1..]) == st';
    }
  }

  lemma PacedTail(ticks: seq<int>, g: int)
    requires Paced(ticks, g) && ticks != []
    ensures Paced(ticks[1..], g)
  {
    forall k | 0 < k < |ticks[1..]| ensures ticks[1..][k - 1] <= ticks[1..][k] <= ticks[1..][k - 1] + g {
      assert ticks[k] <= ticks[k + 1] <= ticks[k] + g;
    }
  }

  /** No event longer than the pace of the clock is missed. */
  lemma {:induction false} NeverMissed(e: Event, st: Status, ticks: seq<int>, g: int)
    requires Paced(ticks, g) && Covers(e, ticks) && e.duration > g >= 0
    requires st.current == None || st.current == Some(SCHEDULED)
    ensures AdvanceAll(e, st, ticks).current == Some(COMPLETE)
    decreases |ticks|
  {
    var st' := Advance(e, st, ticks[0]);
    assert |ticks| > 1;
    PacedTail(ticks, g);
    assert ticks[0] <= ticks[1] <= ticks[0] + g;
    assert ticks[1..][|ticks| - 2] == ticks[|ticks| - 1];
    if ticks[1] <= e.start {
      NeverMissed(e, st', ticks[1..], g);
    } else {
      assert InWindow(e, ticks[1]);
      var st'' := Advance(e, st', ticks[1]);
      if |ticks| == 2 {
        assert false;
      }
      PacedTail(ticks[1..], g);
      assert ticks[2] >= ticks[1];
      assert ticks[1..][1..] == ticks[2..] && ticks[2..][|ticks| - 3] == ticks[|ticks| - 1];
      ActiveCompletes(e, st'', ticks[2..], g);
      assert AdvanceAll(e, st', ticks[1..]) == AdvanceAll(e, st'', ticks[1..][1..]);
    }
  }

  function Readings(ticks: seq<int>): (actions: seq<Action>)
    ensures |actions| == |ticks| && forall k :: 0 <= k < |ticks| ==> actions[k] == At(ticks[k])
  {
    seq(|ticks|, k requires 0 <= k < |ticks| => At(ticks[k]))
  }

  lemma {:induction false} ReadingsOrderly(s: State, now: int, ticks: seq<int>, g: int)
    requires Valid(s) && Paced(ticks, g) && (ticks != [] ==> now <= ticks[0])
    ensures Orderly(s, now, Readings(ticks)) && Ticks(Readings(ticks)) == ticks
    decreases |ticks|
  {
    hide Step;
    if ticks != [] {
      assert Readings(ticks)[1..] == Readings(ticks[1..]);
      PacedTail(ticks, g);
      ReadingsOrderly(Step(s, At(ticks[0])), ticks[0], ticks[1..], g);
    }
  }

  /** A post to a program of a new server, and what the ticks after it make of the event. */
  function Alone(programs: seq<Links>, indexed: set<nat>, p: nat, post: ControlPost, ticks: seq<int>): State {
    Run(Initial(programs, indexed), [Post(p, post)] + Readings(ticks))
  }

  lemma AloneAdvances(programs: seq<Links>, indexed: set<nat>, p: nat, post: ControlPost, ticks: seq<int>, g: int)
    requires ProgramsOk(programs) && p < |programs| && programs[p] == LinksOf(p) && p in indexed && Fresh(post)
    requires Paced(ticks, g)
    ensures var s := Alone(programs, indexed, p, post, ticks);
            && s.alive && |s.events| == 1 && Valid(s)
            && StatusOf(s, 0) == AdvanceAll(Event(EventHref(p, 0), post.mrid, post.start, post.duration, 0),
                                            FRESH, ticks)
  {
    hide Sound;
    hide Good;
    hide Step;
    hide Advance;
    hide AdvanceAll;
    hide ActiveHref';
    hide EventHref;
    var s0 := Initial(programs, indexed);
    InitialGood(programs, indexed);
    InitialSound(programs, indexed, 0);
    var now := if ticks == [] then 0 else ticks[0];
    InitialSound(programs, indexed, now);
    var s1 := Step(s0, Post(p, post));
    FirstPost(programs, indexed, p, post);
    StepSound(s0, now, Post(p, post));
    var actions := [Post(p, post)] + Readings(ticks);
    assert actions[1..] == Readings(ticks) && actions[0] == Post(p, post);
    ReadingsOrderly(s1, now, ticks, g);
    RunSound(s1, now, Readings(ticks));
    assert s0.programs[p].active in s0.active;
    IndexedRunSurvives(s0, actions);
    var s := Run(s1, Readings(ticks));
    SoundOwn(s, LastTick(now, Readings(ticks)));
    OnlyPost(s1, Readings(ticks));
    assert s.events[0] == s.events[..1][0];
  }

  lemma SoundOwn(s: State, now: int)
    requires Sound(s, now)
    ensures Valid(s) && OwnStatuses(s)
  {
    hide Good;
    SoloParts(s);
  }

  lemma FirstPost(programs: seq<Links>, indexed: set<nat>, p: nat, post: ControlPost)
    requires p < |programs| && programs[p] == LinksOf(p) && Fresh(post)
    ensures var s0 := Initial(programs, indexed);
            var s1 := Step(s0, Post(p, post));
            && SafeRepost(s0, 0, p, post) && (forall now :: SafeRepost(s0, now, p, post))
            && s1.events == [Event(EventHref(p, 0), post.mrid, post.start, post.duration, 0)]
            && s1.statuses == [FRESH] && s1.alive
  {
    hide Sub;
    hide Dec;
    var s0 := Initial(programs, indexed);
    assert s0.programs[p].controls == ControlListHref(p) && s0.controls[ControlListHref(p)] == [];
  }

  lemma {:induction false} OnlyPost(s: State, actions: seq<Action>)
    requires Valid(s) && forall k :: 0 <= k < |actions| ==> actions[k].At?
    ensures |Run(s, actions).events| == |s.events|
    decreases |actions|
  {
    hide Tick;
    if actions != [] {
      OnlyPost(Step(s, actions[0]), actions[1..]);
    }
  }

  /** The ticks of the run start at or before the window and end past it. */
  predicate CoversPost(post: ControlPost, ticks: seq<int>) {
    ticks != [] && ticks[0] <= post.start && ticks[|ticks| - 1] > post.start + post.duration
  }

  ghost predicate Completes(programs: seq<Links>, indexed: set<nat>, p: nat, post: ControlPost, ticks: seq<int>) {
    var s := Alone(programs, indexed, p, post, ticks);
    Valid(s) && s.alive && |s.events| == 1 && StatusOf(s, 0).current == Some(COMPLETE)
  }

  /** The bound is exact: on a new server, whose clock readings never differ by more than g >= 1,
      every control of this duration that the ticks cover goes through to complete if and only if
      the duration is longer than g. */
  lemma NoMissIff(programs: seq<Links>, indexed: set<nat>, p: nat, duration: int, g: int)
    requires ProgramsOk(programs) && p < |programs| && programs[p] == LinksOf(p) && p in indexed && g >= 1
    ensures (forall post: ControlPost, ticks: seq<int> ::
               Fresh(post) && post.duration == duration && Paced(ticks, g) && CoversPost(post, ticks) ==>
                 Completes(programs, indexed, p, post, ticks))
       <==> duration > g
  {
    hide ProgramsOk;
    hide Alone;
    hide Advance;
    hide EventHref;
    if duration > g {
      forall post: ControlPost, ticks: seq<int> |
        Fresh(post) && post.duration == duration && Paced(ticks, g) && CoversPost(post, ticks)
        ensures Completes(programs, indexed, p, post, ticks)
      {
        AloneAdvances(programs, indexed, p, post, ticks, g);
        NeverMissed(Event(EventHref(p, 0), post.mrid, post.start, post.duration, 0), FRESH, ticks, g);
      }
    } else {
      var post := ControlPost(None, 0, duration, None);
      var ticks := [0, g, g + 1];
      assert Paced(ticks, g) && CoversPost(post, ticks) && Fresh(post);
      AloneAdvances(programs, indexed, p, post, ticks, g);
      ShortIsMissed(Event(EventHref(p, 0), None, 0, duration, 0), g);
      assert !Completes(programs, indexed, p, post, ticks);
    }
  }

  lemma ShortIsMissed(e: Event, g: int)
    requires e.start == 0 && e.duration <= g && g >= 1
    ensures AdvanceAll(e, FRESH, [0, g, g + 1]) == FRESH
  {
    assert [0, g, g + 1][1..] == [g, g + 1] && [g, g + 1][1..] == [g + 1] && [g + 1][1..] == [];
    assert Advance(e, FRESH, 0) == FRESH && Advance(e, FRESH, g) == FRESH && Advance(e, FRESH, g + 1) == FRESH;
    assert AdvanceAll(e, FRESH, [g + 1]) == FRESH;
    assert AdvanceAll(e, FRESH, [g, g + 1]) == FRESH;
  }

  /** In any orderly run whose clock keeps its pace and whose thread survives, an event already
      posted and longer than the pace goes through started and ended, whatever else is posted. */
  lemma LongEventsComplete(s: State, now: int, actions: seq<Action>, i: nat, g: int)
    requires Sound(s, now) && Valid(s) && Orderly(s, now, actions) && Run(s, actions).alive
    requires i < |s.events| && (StatusOf(s, i).current == None || StatusOf(s, i).current == Some(SCHEDULED))
    requires Paced(Ticks(actions), g) && Covers(s.events[i], Ticks(actions)) && s.events[i].duration > g >= 0
    ensures var s' := Run(s, actions);
            && i < |s'.events| && StatusOf(s', i).current == Some(COMPLETE)
            && Kinds(History(s'.log, s.events[i].href))
               in {[EventStarted, EventEnded], [EventScheduled, EventStarted, EventEnded]}
  {
    hide Good;
    hide Quiescent;
    hide Orderly;
    hide Run;
    hide Paced;
    hide Covers;
    hide Ticks;
    SoloParts(s);
    RunSound(s, now, actions);
    var s' := Run(s, actions);
    SoloParts(s');
    assert s'.events[i] == s'.events[..|s.events|][i];
    NeverMissed(s.events[i], s.statuses[i], Ticks(actions), g);
  }
}
