/** The life of each event over whole runs: which statuses it goes through, which signals are sent
    for it. */
module DerLifecycle {
  import opened Wrappers
  import opened Text
  import opened ListStore
  import opened ProgramHrefs
  import opened DerEvents
  import opened DerInvariant
  import opened DerClock
  import opened DerTheorems
  import opened DerSolo

  /* Histories */

  /** The signals sent for one href. */
  function History(log: seq<Signal>, href: string): seq<Signal> {
    if log == [] then []
    else (if log[0].href == href then [log[0]] else []) + History(log[1..], href)
  }

  lemma {:induction false} HistoryConcat(a: seq<Signal>, b: seq<Signal>, href: string)
    ensures History(a + b, href) == History(a, href) + History(b, href)
  {
    if a == [] {
      assert a + b == b;
    } else {
      assert (a + b)[1..] == a[1..] + b;
      HistoryConcat(a[1..], b, href);
      var head, x, y := if a[0].href == href then [a[0]] else [], History(a[1..], href), History(b, href);
      assert History(a + b, href) == head + (x + y);
      assert History(a, href) == head + x;
    }
  }

  lemma HistoryAppend(a: seq<Signal>, b: seq<Signal>, href: string)
    ensures History(a, href) == [] ==> History(a + b, href) == History(b, href)
    ensures History(b, href) == [] ==> History(a + b, href) == History(a, href)
  {
    HistoryConcat(a, b, href);
    hide History;
    assert [] + History(b, href) == History(b, href);
    assert History(a, href) + [] == History(a, href);
  }

  function Kinds(h: seq<Signal>): (k: seq<Kind>)
    ensures |k| == |h| && forall i :: 0 <= i < |h| ==> k[i] == h[i].kind
  {
    seq(|h|, i requires 0 <= i < |h| => h[i].kind)
  }

  /** Each kind at most once, in order, and an end only after a start. */
  predicate InOrder(h: seq<Signal>) {
    Kinds(h) in {[], [EventScheduled], [EventStarted], [EventScheduled, EventStarted], [EventStarted, EventEnded],
                 [EventScheduled, EventStarted, EventEnded]}
  }

  function StatusAfter(kind: Kind): int {
    match kind
    case EventScheduled => SCHEDULED
    case EventStarted => ACTIVE
    case EventEnded => COMPLETE
  }

  /** The signals that were sent for an event, and its status: the last of them gave it, at its time;
      and before the first it is not active. */
  ghost predicate Legal(h: seq<Signal>, st: Status) {
    && InOrder(h)
    && (h == [] ==> st.current != Some(ACTIVE))
    && (h != [] ==> var last := h[|h| - 1]; st == Status(Some(StatusAfter(last.kind)), Some(last.time)))
  }

  /** What the status says about the time of the last tick. */
  predicate OnTime(e: Event, st: Status, now: int) {
    && (st.current == Some(ACTIVE) ==> e.start < now)
    && (st.current == Some(COMPLETE) ==> e.start + e.duration < now)
  }

  /** The law of one event: once a signal was sent for it, the clock has set its status. */
  ghost predicate LawAt(e: Event, st: Status, h: seq<Signal>, now: int) {
    Legal(h, st) && (h != [] ==> OnTime(e, st, now))
  }

  lemma AdvanceLegal(e: Event, st: Status, h: seq<Signal>, now: int, t: int)
    requires LawAt(e, st, h, now) && now <= t
    ensures LawAt(e, Advance(e, st, t), h + Emits(e, st, t), t)
  {
    var h' := h + Emits(e, st, t);
    if Emits(e, st, t) == [] {
      assert h' == h;
    } else {
      var signal := Emits(e, st, t)[0];
      assert h'[|h'| - 1] == signal;
      assert Kinds(h') == Kinds(h) + [signal.kind];
      assert h != [] ==> Kinds(h)[|h| - 1] == h[|h| - 1].kind;
      OneMoreKind(Kinds(h), signal.kind);
    }
  }

  /** The signal that may follow those sent. */
  lemma OneMoreKind(ks: seq<Kind>, kind: Kind)
    requires ks in {[], [EventScheduled], [EventStarted], [EventScheduled, EventStarted]}
    requires kind == EventScheduled ==> ks == []
    requires kind == EventStarted ==> ks == [] || ks == [EventScheduled]
    requires kind == EventEnded ==> ks == [EventStarted] || ks == [EventScheduled, EventStarted]
    ensures ks + [kind] in {[EventScheduled], [EventStarted], [EventScheduled, EventStarted],
                            [EventStarted, EventEnded],
                            [EventScheduled, EventStarted, EventEnded]}
  {
    assert [] + [kind] == [kind];
    assert [EventScheduled] + [EventStarted] == [EventScheduled, EventStarted];
    assert [EventStarted] + [EventEnded] == [EventStarted, EventEnded];
    assert [EventScheduled, EventStarted] + [EventEnded] == [EventScheduled, EventStarted, EventEnded];
  }

  /** None, scheduled, active, complete; and any other status. */
  function Rank(st: Status): int {
    if st.current == None then 0
    else if st.current == Some(SCHEDULED) then 1
    else if st.current == Some(ACTIVE) then 2
    else if st.current == Some(COMPLETE) then 3
    else 4
  }

  /** A status only moves up, unless it was posted as one that the clock does not set before a start. */
  lemma AdvanceMovesUp(e: Event, st: Status, h: seq<Signal>, now: int, t: int)
    requires LawAt(e, st, h, now) && now <= t && (h == [] ==> Rank(st) <= 1)
    ensures Rank(st) <= Rank(Advance(e, st, t)) <= 3
    ensures Rank(Advance(e, st, t)) == Rank(st) ==> Advance(e, st, t) == st
  {
  }

  /** Right after a tick, the window decides: inside it the event is active, an active event has not
      outlived it, and one that the clock has completed has. */
  ghost predicate Timely(e: Event, st: Status, h: seq<Signal>, t: int) {
    && (InWindow(e, t) ==> st.current == Some(ACTIVE))
    && (st.current == Some(ACTIVE) ==> e.start < t <= e.start + e.duration)
    && (st.current == Some(COMPLETE) && h != [] ==> t > e.start + e.duration)
    && (t < e.start ==> st.current != None)
  }

  lemma AdvanceTimely(e: Event, st: Status, h: seq<Signal>, now: int, t: int)
    requires LawAt(e, st, h, now) && now <= t
    ensures Timely(e, Advance(e, st, t), h + Emits(e, st, t), t)
  {
  }

  /* All events together */

  ghost predicate Lawful(s: State, now: int)
    requires OwnStatuses(s)
  {
    forall i: nat :: i < |s.events| ==>
                       LawAt(s.events[i], s.statuses[i], History(s.log, s.events[i].href), now)
  }

  lemma HrefsDistinct(s: State, i: nat, j: nat)
    requires Placed(s) && i < |s.events| && j < |s.events| && s.events[i].href == s.events[j].href
    ensures i == j
  {
    hide ProgramIndex;
    hide EventIndex;
    hide Split;
    assert Home(s, i) && Home(s, j);
  }

  lemma EmitsHref(e: Event, st: Status, t: int, href: string)
    ensures History(Emits(e, st, t), href) == if e.href == href then Emits(e, st, t) else []
  {
    assert forall x: Signal :: [x][1..] == [];
  }

  lemma {:induction false} HistoryOfTick(s: State, k: nat, t: int, i: nat)
    requires Placed(s) && |s.statuses| == |s.events| && i < |s.events| && k <= |s.events|
    ensures History(EmitsOf(s, k, t), s.events[i].href) == if i < k then Emits(s.events[i], s.statuses[i], t) else []
  {
    hide Home;
    hide Placed;
    hide Emits;
    hide History;
    if k == 0 {
      NoHistory([], s.events[i].href);
    } else {
      HistoryOfTick(s, k - 1, t, i);
      HistoryOfTurn(s, k, t, i);
    }
  }

  lemma HistoryOfTurn(s: State, k: nat, t: int, i: nat)
    requires Placed(s) && |s.statuses| == |s.events| && i < |s.events| && 0 < k <= |s.events|
    requires History(EmitsOf(s, k - 1, t), s.events[i].href) == if i < k - 1
                                                                then Emits(s.events[i], s.statuses[i], t) else []
    ensures History(EmitsOf(s, k, t), s.events[i].href) == if i < k then Emits(s.events[i], s.statuses[i], t) else []
  {
    hide Home;
    hide Placed;
    hide Emits;
    hide History;
    var href := s.events[i].href;
    var rest, here := EmitsOf(s, k - 1, t), Emits(s.events[k - 1], s.statuses[k - 1], t);
    assert EmitsOf(s, k, t) == rest + here;
    hide EmitsOf;
    HistoryAppend(rest, here, href);
    EmitsHref(s.events[k - 1], s.statuses[k - 1], t, href);
    if k - 1 != i {
      assert s.events[k - 1].href != href by {
        if s.events[k - 1].href == href {
          HrefsDistinct(s, k - 1, i);
        }
      }
    }
  }

  /** What a tick makes of one event: an event that had no turn, because the thread ended, keeps its
      status and its history. */
  ghost predicate LawfulStep(s: State, s': State, i: nat, k: nat, t: int)
    requires |s.statuses| == |s.events| == |s'.statuses| && s'.events == s.events && i < |s.events|
  {
    var e, st, st' := s.events[i], s.statuses[i], s'.statuses[i];
    var h, h' := History(s.log, e.href), History(s'.log, e.href);
    && LawAt(e, st', h', t)
    && ((h == [] ==> Rank(st) <= 1) ==> Rank(st) <= Rank(st'))
    && (i < k ==> st' == Advance(e, st, t) && Timely(e, st', h', t))
    && (h' == [] ==> h == [] && st' == st)
  }

  lemma TickedLawful(s: State, s': State, now: int, k: nat, t: int)
    requires Solo(s) && Lawful(s, now) && now <= t && k <= |s.events| && Ticked(s, s', k, t) && OwnStatuses(s')
    ensures Lawful(s', t)
    ensures forall i: nat :: i < |s.events| ==> LawfulStep(s, s', i, k, t)
  {
    hide Good;
    hide LawfulStep;
    hide LawAt;
    hide Advance;
    hide Emits;
    hide History;
    SoloParts(s);
    forall i: nat | i < |s.events| ensures LawfulStep(s, s', i, k, t) {
      HistoryConcat(s.log, EmitsOf(s, k, t), s.events[i].href);
      HistoryOfTick(s, k, t, i);
      TickedLawfulAt(s, s', now, i, k, t);
    }
    forall i: nat | i < |s.events|
      ensures LawAt(s'.events[i], s'.statuses[i], History(s'.log, s'.events[i].href), t)
    {
      StepIsLawful(s, s', i, k, t);
    }
  }

  lemma StepIsLawful(s: State, s': State, i: nat, k: nat, t: int)
    requires |s.statuses| == |s.events| == |s'.statuses| && s'.events == s.events && i < |s.events|
    requires LawfulStep(s, s', i, k, t)
    ensures LawAt(s'.events[i], s'.statuses[i], History(s'.log, s'.events[i].href), t)
  {
    hide LawAt;
    hide History;
  }

  lemma TickedLawfulAt(s: State, s': State, now: int, i: nat, k: nat, t: int)
    requires |s.statuses| == |s.events| == |s'.statuses| && s'.events == s.events && i < |s.events| && now <= t
    requires LawAt(s.events[i], s.statuses[i], History(s.log, s.events[i].href), now)
    requires s'.statuses[i] == if i < k then Advance(s.events[i], s.statuses[i], t) else s.statuses[i]
    requires var h := History(s.log, s.events[i].href);
             History(s'.log, s.events[i].href) == h + if i < k then Emits(s.events[i], s.statuses[i], t) else []
    ensures LawfulStep(s, s', i, k, t)
  {
    hide Legal;
    hide History;
    hide Rank;
    hide Timely;
    var e, st, h := s.events[i], s.statuses[i], History(s.log, s.events[i].href);
    if i < k {
      AdvanceLegal(e, st, h, now, t);
      AdvanceTimely(e, st, h, now, t);
      if h == [] ==> Rank(st) <= 1 {
        AdvanceMovesUp(e, st, h, now, t);
      }
    } else {
      assert h + [] == h;
      if h != [] {
        OnTimeLater(e, st, now, t);
      }
    }
  }

  /** One tick of a clock that does not go back. */
  lemma TickLawful(s: State, now: int, t: int) returns (k: nat)
    requires Solo(s) && s.alive && Lawful(s, now) && Clear(s, t) && now <= t
    ensures Valid(s) && Solo(Tick(s, t)) && Lawful(Tick(s, t), t)
    ensures Tick(s, t).events == s.events && Tick(s, t).active.Keys == s.active.Keys
    ensures |s.statuses| == |s.events| == |Tick(s, t).statuses|
    ensures k <= |s.events| && (Tick(s, t).alive ==> k == |s.events|)
    ensures forall i: nat :: i < |s.events| ==> LawfulStep(s, Tick(s, t), i, k, t)
  {
    hide Good;
    hide Clear;
    hide Advance;
    hide Lawful;
    hide LawfulStep;
    hide Tick;
    hide Emits;
    SoloParts(s);
    k := TickSolo(s, t);
    var s' := Tick(s, t);
    SoloParts(s');
    TickedLawful(s, s', now, k, t);
  }

  lemma OnTimeLater(e: Event, st: Status, now: int, t: int)
    requires OnTime(e, st, now) && now <= t
    ensures OnTime(e, st, t)
  {
  }

  lemma HistoryOfNew(s: State, d: nat)
    requires Placed(s) && d < |s.programs|
    requires LogKnown(s)
    ensures History(s.log, Sub(s.programs[d].controls, Dec(|s.controls[s.programs[d].controls]|))) == []
  {
    hide Placed;
    hide Sub;
    assert Valid(s) by {
      PlacedValid(s);
    }
    assert s.programs[d].controls in s.controls by {
      var _ := ProgramAt(s, d);
    }
    NextHrefIsNew(s, d);
    NoHistory(s.log, Sub(s.programs[d].controls, Dec(|s.controls[s.programs[d].controls]|)));
  }

  lemma {:induction false} NoHistory(log: seq<Signal>, href: string)
    requires forall k :: 0 <= k < |log| ==> log[k].href != href
    ensures History(log, href) == []
  {
    if log != [] {
      assert forall k :: 0 <= k < |log[1..]| ==> log[1..][k] == log[k + 1];
      NoHistory(log[1..], href);
    }
  }

  /** Every signal was sent for an event that is in the table. */
  ghost predicate LogKnown(s: State) {
    forall k :: 0 <= k < |s.log| ==> KnownHref(s, s.log[k].href)
  }

  lemma {:induction false} EmitsKnown(s: State, k: nat, t: int)
    requires |s.statuses| == |s.events| && k <= |s.events|
    ensures forall j :: 0 <= j < |EmitsOf(s, k, t)| ==> KnownHref(s, EmitsOf(s, k, t)[j].href)
  {
    if k > 0 {
      EmitsKnown(s, k - 1, t);
      var here := Emits(s.events[k - 1], s.statuses[k - 1], t);
      assert forall j :: 0 <= j < |here| ==> here[j].href == s.events[k - 1].href;
    }
  }

  lemma KnownStays(s: State, s': State)
    requires LogKnown(s) && Kept(s, s')
    ensures LogKnown(s')
  {
    forall k | 0 <= k < |s'.log| ensures KnownHref(s', s'.log[k].href) {
      assert KnownHref(s, s.log[k].href);
      var i :| 0 <= i < |s.events| && s.events[i].href == s.log[k].href;
      assert s'.events[i] == s'.events[..|s.events|][i];
    }
  }

  lemma TickKnown(s: State, t: int)
    requires Solo(s) && s.alive && LogKnown(s) && Clear(s, t)
    ensures Valid(s) && LogKnown(Tick(s, t))
  {
    hide Good;
    hide Clear;
    hide Tick;
    hide Emits;
    SoloParts(s);
    var n := TickSolo(s, t);
    EmitsKnown(s, n, t);
    var s' := Tick(s, t);
    forall k | 0 <= k < |s'.log| ensures KnownHref(s', s'.log[k].href) {
      if k < |s.log| {
        assert KnownHref(s, s.log[k].href);
      } else {
        assert s'.log[k] == EmitsOf(s, n, t)[k - |s.log|];
      }
    }
  }

  /* Reposts */

  /** An event that was overlooked can never start any more. */
  ghost predicate Quiescent(s: State, now: int) {
    forall i: nat, t: int :: i < |s.events| && Overlooked(s, i) && now <= t && InWindow(s.events[i], t) ==>
                               Blocked(s, i, t)
  }

  /** The post repeats the mRID of the first control of its program. */
  predicate RepeatsFirst(s: State, d: nat, post: ControlPost)
    requires Valid(s)
  {
    && d < |s.programs| && s.programs[d].controls in s.controls
    && LastWithMrid(s, s.controls[s.programs[d].controls], post.mrid) == Some(0)
  }

  predicate Holds(post: ControlPost, t: int) {
    post.start < t < post.start + post.duration
  }

  /** The clock can read no time in the window of a control that the handler will overlook, or the
      thread ends before it comes to the control. */
  ghost predicate SafeRepost(s: State, now: int, d: nat, post: ControlPost)
    requires Valid(s)
  {
    RepeatsFirst(s, d, post) ==> forall t :: now <= t && Holds(post, t) ==> Blocked(s, |s.events|, t)
  }

  /** In numbers: the window holds a time to come exactly when it is at least two seconds long and
      not over. */
  lemma WindowHoldsIff(post: ControlPost, now: int)
    ensures (exists t :: now <= t && Holds(post, t)) <==> post.duration >= 2 && now < post.start + post.duration
  {
    if post.duration >= 2 && now < post.start + post.duration {
      var t := if now > post.start then now else post.start + 1;
      assert now <= t && Holds(post, t);
    }
  }

  lemma SameStuck(s: State, s': State, j: nat, t: int)
    requires j < |s.events| && j < |s'.events| && s'.events[j] == s.events[j] && s'.active.Keys == s.active.Keys
    ensures Stuck(s', j, t) <==> Stuck(s, j, t)
  {
    hide ProgramIndex;
    hide ActiveHref;
  }

  lemma BlockedStays(s: State, s': State, i: nat, t: int)
    requires i <= |s.events| <= |s'.events| && s'.events[..|s.events|] == s.events && s'.active.Keys == s.active.Keys
    requires Blocked(s, i, t)
    ensures Blocked(s', i, t)
  {
    hide Stuck;
    var j: nat :| j < i && Stuck(s, j, t);
    assert s'.events[j] == s'.events[..|s.events|][j];
    SameStuck(s, s', j, t);
  }

  lemma QuiescentLater(s: State, s': State, now: int, t: int)
    requires Quiescent(s, now) && now <= t && s'.events == s.events && s'.active.Keys == s.active.Keys
    ensures Quiescent(s', t)
  {
    hide Overlooked;
    hide Blocked;
    SameOverlooked(s, s');
    forall i: nat, u: int | i < |s'.events| && Overlooked(s', i) && t <= u && InWindow(s'.events[i], u)
      ensures Blocked(s', i, u)
    {
      BlockedStays(s, s', i, u);
    }
  }

  lemma AddedQuiescent(s: State, s': State, now: int, d: nat, post: ControlPost)
    requires Good(s) && Placed(s') && Quiescent(s, now) && SafeRepost(s, now, d, post) && d < |s.programs|
    requires s' == PostControl(s, d, post).0 && Added(s, s', s.programs[d].controls)
    ensures Quiescent(s', now)
  {
    hide ProgramIndex;
    hide EventIndex;
    hide Home;
    hide Blocked;
    hide AgreesAt;
    hide StatusesOk;
    var n := |s.events|;
    var list := s.programs[d].controls;
    assert s'.events[..n] == s.events;
    AddedSame(s, s', list);
    forall i: nat, t: int | i < |s'.events| && Overlooked(s', i) && now <= t && InWindow(s'.events[i], t)
      ensures Blocked(s', i, t)
    {
      var f: nat :| f < |s'.events| && Shadowed(s', f, i);
      if i < n {
        if f == n {
          NewestDoubles(s, s', list, i);
        }
        assert Shadowed(s, f, i);
        assert Overlooked(s, i) && InWindow(s.events[i], t);
        BlockedStays(s, s', i, t);
      } else {
        NewestRepeats(s, s', list, f);
        NewestWindow(s, d, post, t);
        BlockedStays(s, s', n, t);
      }
    }
  }

  lemma NewestRepeats(s: State, s': State, list: string, f: nat)
    requires Placed(s) && Placed(s') && Added(s, s', list) && f < |s.events| && Alike(s', f, |s.events|)
    ensures LastWithMrid(s, s.controls[list], s'.events[|s.events|].mrid) == Some(0)
  {
    hide Home;
    hide ProgramIndex;
    hide EventIndex;
    hide Split;
    hide Dec;
    hide Sub;
    var p, k := HomeAt(s', f);
    EventsOfList(s, s', list);
    NewestDoubles(s, s', list, f);
    assert s'.controls[list][k] == f;
    LastIsLast(s, s.controls[list], s'.events[|s.events|].mrid, k);
  }

  lemma NewestWindow(s: State, d: nat, post: ControlPost, t: int)
    requires Valid(s) && PostControl(s, d, post).0 != s
    ensures var s' := PostControl(s, d, post).0;
            && |s'.events| == |s.events| + 1 && s'.events[|s.events|].mrid == post.mrid
            && (InWindow(s'.events[|s.events|], t) <==> Holds(post, t))
            && s'.events[|s.events|].start == post.start && s'.events[|s.events|].duration == post.duration
  {
    hide Sub;
    hide Dec;
    hide LastWithMrid;
  }

  /* Runs with a clock that never goes back */

  /** What the server can be sent on a clock that never goes back, but for events that are posted as
      active, and for reposts of a first control that could still start. */
  ghost predicate Orderly(s: State, now: int, actions: seq<Action>)
    requires Valid(s)
    decreases |actions|
  {
    actions != [] ==>
      match actions[0]
      case Post(d, c) => Plain(c) && SafeRepost(s, now, d, c) && Orderly(Step(s, actions[0]), now, actions[1..])
      case At(t) => now <= t && Orderly(Step(s, actions[0]), t, actions[1..])
  }

  function LastTick(now: int, actions: seq<Action>): int
    decreases |actions|
  {
    if actions == [] then now
    else LastTick(if actions[0].At? then actions[0].time else now, actions[1..])
  }

  function Ticks(actions: seq<Action>): seq<int> {
    if actions == [] then []
    else (if actions[0].At? then [actions[0].time] else []) + Ticks(actions[1..])
  }

  function AdvanceAll(e: Event, st: Status, ticks: seq<int>): Status
    decreases |ticks|
  {
    if ticks == [] then st else AdvanceAll(e, Advance(e, st, ticks[0]), ticks[1..])
  }

  ghost predicate Sound(s: State, now: int) {
    Solo(s) && Lawful(s, now) && LogKnown(s) && Quiescent(s, now)
  }

  lemma BlankLegal(st: Status)
    requires st.current != Some(ACTIVE)
    ensures Legal([], st)
  {
  }

  lemma NewestLawful(s: State, s': State, now: int)
    requires Valid(s) && OwnStatuses(s) && Lawful(s, now) && Kept(s, s') && Valid(s') && OwnStatuses(s')
    requires |s'.events| == |s.events| + 1 && History(s.log, s'.events[|s.events|].href) == []
    requires Legal([], s'.statuses[|s.events|])
    ensures Lawful(s', now)
  {
    hide History;
    hide Legal;
    assert forall i :: 0 <= i < |s.events| ==>
                         s'.events[i] == s'.events[..|s.events|][i] && s'.statuses[i] == s'.statuses[..|s.events|][i];
  }

  lemma PostSound(s: State, d: nat, post: ControlPost, now: int)
    requires Sound(s, now) && Plain(post)
    ensures Valid(s) && var s' := PostControl(s, d, post).0;
                     && Solo(s') && Lawful(s', now) && LogKnown(s') && Kept(s, s')
                     && (SafeRepost(s, now, d, post) ==> Quiescent(s', now))
  {
    hide Good;
    hide Lawful;
    hide Legal;
    hide LogKnown;
    hide History;
    hide Quiescent;
    hide SafeRepost;
    hide Placed;
    hide Sub;
    hide Dec;
    hide LastWithMrid;
    SoloParts(s);
    PostGood(s, d, post);
    var s' := PostControl(s, d, post).0;
    GoodParts(s');
    KnownStays(s, s');
    if s' != s {
      HistoryOfNew(s, d);
      BlankLegal(PostedStatus(post));
      assert OwnStatuses(s');
      NewestLawful(s, s', now);
      if SafeRepost(s, now, d, post) {
        AddedQuiescent(s, s', now, d, post);
      }
    }
  }

  lemma ClearFromQuiescent(s: State, now: int, t: int)
    requires Quiescent(s, now) && now <= t
    ensures Clear(s, t)
  {
    hide Overlooked;
    hide Blocked;
  }

  lemma SoundLater(s: State, now: int, t: int)
    requires Sound(s, now) && now <= t
    ensures Sound(s, t)
  {
    hide Good;
    hide Legal;
    hide OnTime;
    hide History;
    hide Quiescent;
    SoloParts(s);
    QuiescentLater(s, s, now, t);
    forall i: nat | i < |s.events|
      ensures LawAt(s.events[i], s.statuses[i], History(s.log, s.events[i].href), t)
    {
      if History(s.log, s.events[i].href) != [] {
        OnTimeLater(s.events[i], s.statuses[i], now, t);
      }
    }
  }

  /** An event for which no signal was sent has the status it had. */
  ghost predicate SilentKeeps(s: State, s': State) {
    && |s.statuses| == |s.events| <= |s'.statuses|
    && forall i: nat :: i < |s.events| && History(s'.log, s.events[i].href) == [] ==>
                          History(s.log, s.events[i].href) == [] && s'.statuses[i] == s.statuses[i]
  }

  lemma StepSound(s: State, now: int, a: Action)
    requires Sound(s, now)
    requires Valid(s) && (a.Post? ==> Plain(a.control) && SafeRepost(s, now, a.program, a.control))
    requires a.At? ==> now <= a.time
    ensures Sound(Step(s, a), if a.At? then a.time else now)
    ensures |s.events| <= |Step(s, a).events| && Step(s, a).events[..|s.events|] == s.events
    ensures Step(s, a).alive ==>
              forall i: nat :: i < |s.events| ==>
                                 Step(s, a).statuses[i] == if a.At?
                                 then Advance(s.events[i], s.statuses[i], a.time) else s.statuses[i]
    ensures SilentKeeps(s, Step(s, a))
  {
    hide Good;
    hide Lawful;
    hide LogKnown;
    hide Quiescent;
    hide SafeRepost;
    hide Advance;
    hide History;
    SoloParts(s);
    match a
    case Post(d, c) =>
      PostSound(s, d, c, now);
      var s' := Step(s, a);
      SoloParts(s');
      assert forall i :: 0 <= i < |s.events| ==> s'.statuses[i] == s'.statuses[..|s.statuses|][i];
    case At(t) =>
      if s.alive {
        ClearFromQuiescent(s, now, t);
        var k := TickLawful(s, now, t);
        TickKnown(s, t);
        QuiescentLater(s, Tick(s, t), now, t);
        SoloParts(Tick(s, t));
        forall i: nat | i < |s.events| && Tick(s, t).alive
          ensures Tick(s, t).statuses[i] == Advance(s.events[i], s.statuses[i], t)
        {
          assert LawfulStep(s, Tick(s, t), i, k, t);
        }
        forall i: nat | i < |s.events| && History(Tick(s, t).log, s.events[i].href) == []
          ensures History(s.log, s.events[i].href) == [] && Tick(s, t).statuses[i] == s.statuses[i]
        {
          assert LawfulStep(s, Tick(s, t), i, k, t);
        }
      } else {
        SoundLater(s, now, t);
      }
  }

  lemma SilentTransitive(s: State, s1: State, s2: State)
    requires SilentKeeps(s, s1) && SilentKeeps(s1, s2)
    requires |s.events| <= |s1.events| && s1.events[..|s.events|] == s.events
    ensures SilentKeeps(s, s2)
  {
    hide History;
    assert forall i: nat :: i < |s.events| ==> s1.events[i] == s1.events[..|s.events|][i];
  }

  /** Over any orderly run every history stays legal; while the thread runs, every event that is
      there at the start has the status that the ticks alone give it. */
  lemma {:induction false} RunSound(s: State, now: int, actions: seq<Action>)
    requires Sound(s, now) && Valid(s) && Orderly(s, now, actions)
    ensures Sound(Run(s, actions), LastTick(now, actions))
    ensures |s.events| <= |Run(s, actions).events| && Run(s, actions).events[..|s.events|] == s.events
    ensures Run(s, actions).alive ==>
              |s.statuses| == |s.events| && |Run(s, actions).statuses| == |Run(s, actions).events|
              && forall i: nat :: i < |s.events| ==>
                                    Run(s, actions).statuses[i]
                                    == AdvanceAll(s.events[i], s.statuses[i], Ticks(actions))
    ensures SilentKeeps(s, Run(s, actions))
    decreases |actions|
  {
    hide Solo;
    hide Lawful;
    hide LogKnown;
    hide Quiescent;
    hide Step;
    hide SafeRepost;
    hide Advance;
    SoloParts(s);
    if actions != [] {
      var s1 := Step(s, actions[0]);
      StepSound(s, now, actions[0]);
      SoloParts(s1);
      RunSound(s1, if actions[0].At? then actions[0].time else now, actions[1..]);
      var s2 := Run(s1, actions[1..]);
      if !s1.alive {
        DeadStays(s1, actions[1..]);
      }
      assert s2.events[..|s.events|] == s2.events[..|s1.events|][..|s.events|];
      SilentTransitive(s, s1, s2);
      if s2.alive {
        forall i: nat | i < |s.events| ensures s2.statuses[i]
                                            == AdvanceAll(s.events[i], s.statuses[i], Ticks(actions)) {
          assert s1.events[i] == s1.events[..|s.events|][i];
          if actions[0].At? {
            assert Ticks(actions)[1..] == Ticks(actions[1..]);
          } else {
            assert Ticks(actions) == Ticks(actions[1..]);
          }
        }
      }
    }
  }

  lemma InitialSound(programs: seq<Links>, indexed: set<nat>, now: int)
    requires ProgramsOk(programs)
    ensures Sound(Initial(programs, indexed), now) && Initial(programs, indexed).alive
  {
    hide Good;
    InitialGood(programs, indexed);
  }

  /* Events posted without a status */

  predicate Fresh(post: ControlPost) {
    PostedStatus(post) == FRESH
  }

  predicate FreshPosts(actions: seq<Action>) {
    forall k :: 0 <= k < |actions| && actions[k].Post? ==> Fresh(actions[k].control)
  }

  /** They have no status before their first signal. */
  ghost predicate Blank(s: State)
    requires OwnStatuses(s)
  {
    forall i: nat :: i < |s.events| && History(s.log, s.events[i].href) == [] ==> s.statuses[i] == FRESH
  }

  lemma StepBlank(s: State, now: int, a: Action)
    requires Sound(s, now) && Valid(s) && Blank(s)
    requires a.Post? ==> Fresh(a.control) && SafeRepost(s, now, a.program, a.control)
    requires a.At? ==> now <= a.time
    ensures Sound(Step(s, a), if a.At? then a.time else now) && Blank(Step(s, a))
  {
    hide Good;
    hide Lawful;
    hide LogKnown;
    hide Quiescent;
    hide SafeRepost;
    hide History;
    hide LastWithMrid;
    SoloParts(s);
    StepSound(s, now, a);
    var s' := Step(s, a);
    SoloParts(s');
    forall i: nat | i < |s'.events| && History(s'.log, s'.events[i].href) == [] ensures s'.statuses[i] == FRESH {
      if i < |s.events| {
        assert s'.events[i] == s'.events[..|s.events|][i];
      } else {
        PostGood(s, a.program, a.control);
      }
    }
  }

  lemma {:induction false} RunBlank(s: State, now: int, actions: seq<Action>)
    requires Sound(s, now) && Valid(s) && Blank(s) && Orderly(s, now, actions) && FreshPosts(actions)
    ensures Sound(Run(s, actions), LastTick(now, actions)) && Blank(Run(s, actions))
    decreases |actions|
  {
    hide Solo;
    hide Lawful;
    hide LogKnown;
    hide Quiescent;
    hide Blank;
    hide Step;
    hide SafeRepost;
    SoloParts(s);
    if actions != [] {
      StepBlank(s, now, actions[0]);
      RunBlank(Step(s, actions[0]), if actions[0].At? then actions[0].time else now, actions[1..]);
    }
  }

  /** Event safety from the start of the server: in the state after any orderly run, whether or not
      the clock thread is still running, each event was signalled scheduled, started and ended at
      most once each, in that order and never ended without a start; its status is the one that
      the last signal set, and its dateTime the time of that signal. Before the first signal an
      event that was posted without a status has none. */
  lemma EventSafety(programs: seq<Links>, indexed: set<nat>, now: int, actions: seq<Action>, i: nat)
    requires ProgramsOk(programs) && Orderly(Initial(programs, indexed), now, actions)
    requires i < |Run(Initial(programs, indexed), actions).events|
    ensures var s := Run(Initial(programs, indexed), actions);
            var e := s.events[i];
            && LawAt(e, StatusOf(s, i), History(s.log, e.href), LastTick(now, actions))
            && (FreshPosts(actions) && History(s.log, e.href) == [] ==> StatusOf(s, i) == FRESH)
  {
    hide Good;
    hide LawAt;
    hide History;
    hide Orderly;
    hide Quiescent;
    hide FreshPosts;
    hide Run;
    var s0 := Initial(programs, indexed);
    InitialSound(programs, indexed, now);
    RunSound(s0, now, actions);
    SoloParts(Run(s0, actions));
    if FreshPosts(actions) {
      RunBlank(s0, now, actions);
    }
  }
}
