/** What happens when the mRID of the first control of a program is posted again: the handler
    overlooks the match at position 0, and two events come to share one EventStatus. */
module DerRepost {
  import opened Wrappers
  import opened Text
  import opened ListStore
  import opened ProgramHrefs
  import opened DerEvents
  import opened DerInvariant
  import opened DerClock
  import opened DerTheorems
  import opened DerSolo
  import opened DerLifecycle

  /** One program with two controls of the same mRID. */
  ghost predicate TwoAlike(s: State, a: ControlPost, b: ControlPost, items: seq<Snapshot>) {
    && Valid(s) && s.alive && s.programs == [LinksOf(0)] && s.controls == map[ControlListHref(0) := [0, 1]]
    && |s.events| == 2 && |s.statuses| == 2 && s.active == map[ActiveHref(0) := items]
    && s.events[0] == Event(EventHref(0, 0), a.mrid, a.start, a.duration, s.events[0].status)
    && s.events[1] == Event(EventHref(0, 1), a.mrid, b.start, b.duration, 1)
  }

  lemma ShareAlike(s: State, a: ControlPost, b: ControlPost, items: seq<Snapshot>, i: nat)
    requires TwoAlike(s, a, b, items) && i < 2
    ensures ShareStatus(s, i) == Some((s.(events := s.events[0 := s.events[0].(status := s.events[i].status)]),
                                       LinksOf(0)))
  {
    hide Split;
    hide ProgramIndex;
    EventParserReads(0, i);
    assert s.controls[ControlListHref(0)] == [0, 1];
  }

  lemma AfterPosts(a: ControlPost, b: ControlPost)
    requires a.mrid == b.mrid && a.status == None && b.status == None
    ensures var s := PostControl(PostControl(Initial([LinksOf(0)], {0}), 0, a).0, 0, b).0;
            && TwoAlike(s, a, b, []) && s.events[0].status == 0 && s.statuses == [FRESH, FRESH] && s.log == []
  {
    hide Split;
    hide Sub;
    hide Dec;
    hide LastWithMrid;
    var s0 := Initial([LinksOf(0)], {0});
    var list := ControlListHref(0);
    InitialOfOne();
    hide Initial;
    FirstAndOnly(s0, [], a.mrid);
    var s1 := PostControl(s0, 0, a).0;
    assert [] + [0] == [0];
    assert s1.controls == map[list := [0]];
    FirstAndOnly(s1, [0], b.mrid);
    var s2 := PostControl(s1, 0, b).0;
    assert [0] + [1] == [0, 1];
    assert s2.controls == map[list := [0, 1]];
  }

  lemma InitialOfOne()
    ensures Initial([LinksOf(0)], {0}) ==
            State([LinksOf(0)], map[ControlListHref(0) := []], [], [], map[ActiveHref(0) := []], [], true)
  {
    hide ControlListHref;
    hide ActiveHref;
    var s0 := Initial([LinksOf(0)], {0});
    assert s0.programs[0].controls == ControlListHref(0);
    assert s0.controls == map[ControlListHref(0) := []];
    assert s0.active == map[ActiveHref(0) := []];
  }

  /** A match in a list of at most one control is at position 0. */
  lemma FirstAndOnly(s: State, ids: seq<nat>, mrid: Option<string>)
    requires |ids| <= 1 && forall j :: 0 <= j < |ids| ==> ids[j] < |s.events|
    ensures LastWithMrid(s, ids, mrid) in {None, Some(0)}
  {
  }

  lemma TickOfTwo(s: State, t: int)
    requires Valid(s) && s.alive && |s.events| == 2
    ensures var s1 := TickEvent(s, 0, t);
            Tick(s, t) == if s1.alive then TickEvent(s1, 1, t) else s1
  {
    hide TickEvent;
    var s1 := TickEvent(s, 0, t);
    if s1.alive {
      var s2 := TickEvent(s1, 1, t);
      assert TickFrom(s2, 2, t) == s2;
      assert TickFrom(s1, 1, t) == TickFrom(s2, 2, t);
    }
    assert TickFrom(s, 0, t) == TickFrom(s1, 1, t);
  }

  /** The first event starts while the second waits. */
  lemma FirstTick(s: State, a: ControlPost, b: ControlPost, t: int)
    requires TwoAlike(s, a, b, []) && s.events[0].status == 0 && s.statuses == [FRESH, FRESH] && s.log == []
    requires a.start < t < a.start + a.duration && t < b.start
    ensures var s' := Tick(s, t);
            && TwoAlike(s', a, b, [Snapshot(EventHref(0, 0), a.mrid)]) && s'.events[0].status == 0
            && s'.statuses == [Status(Some(ACTIVE), Some(t)), Status(Some(SCHEDULED), Some(t))]
            && s'.log == [Signal(EventStarted, EventHref(0, 0), t), Signal(EventScheduled, EventHref(0, 1), t)]
  {
    hide EventHref;
    hide ShareStatus;
    TickOfTwo(s, t);
    var s1 := Mark(s, 0, ACTIVE, EventStarted, t);
    ShareAlike(s1, a, b, [], 0);
    assert s1.events[0 := s1.events[0]] == s1.events;
    assert !Listed([], a.mrid);
    var s2 := TickEvent(s, 0, t);
    assert [] + [Snapshot(EventHref(0, 0), a.mrid)] == [Snapshot(EventHref(0, 0), a.mrid)];
    assert s2.active == map[ActiveHref(0) := [Snapshot(EventHref(0, 0), a.mrid)]];
    assert TwoAlike(s2, a, b, [Snapshot(EventHref(0, 0), a.mrid)]);
  }

  /** The second event starts; from here on both write to its EventStatus. */
  lemma SecondTick(s: State, a: ControlPost, b: ControlPost, item: Snapshot, t0: int, t: int)
    requires TwoAlike(s, a, b, [item]) && item.mrid == a.mrid && s.events[0].status == 0
    requires s.statuses == [Status(Some(ACTIVE), Some(t0)), Status(Some(SCHEDULED), Some(t0))]
    requires a.start < t < a.start + a.duration && b.start < t < b.start + b.duration
    ensures var s' := Tick(s, t);
            && TwoAlike(s', a, b, [item]) && s'.events[0].status == 1
            && s'.statuses[1] == Status(Some(ACTIVE), Some(t))
            && s'.log == s.log + [Signal(EventStarted, EventHref(0, 1), t)]
  {
    hide EventHref;
    hide ShareStatus;
    TickOfTwo(s, t);
    assert TickEvent(s, 0, t) == s;
    var s1 := Mark(s, 1, ACTIVE, EventStarted, t);
    ShareAlike(s1, a, b, [item], 1);
    assert [item][0].mrid == a.mrid && Listed([item], a.mrid);
  }

  /** The end of the first event sets the shared status to complete, so the second starts again. */
  lemma ThirdTick(s: State, a: ControlPost, b: ControlPost, item: Snapshot, t0: int, t: int)
    requires TwoAlike(s, a, b, [item]) && item.mrid == a.mrid && s.events[0].status == 1
    requires s.statuses[1] == Status(Some(ACTIVE), Some(t0))
    requires t > a.start + a.duration && b.start < t < b.start + b.duration && a.start < t
    ensures Tick(s, t).log == s.log + [Signal(EventEnded, EventHref(0, 0), t), Signal(EventStarted, EventHref(0, 1), t)]
  {
    hide EventHref;
    hide ShareStatus;
    TickOfTwo(s, t);
    var s1 := Mark(s, 0, COMPLETE, EventEnded, t);
    ShareAlike(s1, a, b, [item], 0);
    assert s1.events[0 := s1.events[0]] == s1.events;
    assert Without([item], a.mrid) == [] by {
      assert [item][1..] == [];
    }
    var s2 := TickEvent(s, 0, t);
    assert TwoAlike(s2, a, b, []);
    ShareAlike(Mark(s2, 1, ACTIVE, EventStarted, t), a, b, [], 1);
    assert !Listed([], a.mrid);
  }

  /** Whatever the windows, as long as they overlap and the second outlasts the first: the second
      event is signalled as started twice. DerReposts.dfy says which reposts are safe at all. */
  lemma RepostStartsTwice(a: ControlPost, b: ControlPost, t1: int, t2: int, t3: int)
    requires a.mrid == b.mrid && a.status == None && b.status == None
    requires a.start < t1 < b.start < t2 < a.start + a.duration < t3 < b.start + b.duration
    ensures var s := Run(Initial([LinksOf(0)], {0}), [Post(0, a), Post(0, b), At(t1), At(t2), At(t3)]);
            Kinds(History(s.log, EventHref(0, 1))) == [EventScheduled, EventStarted, EventStarted]
  {
    hide EventHref;
    hide Tick;
    hide PostControl;
    var s0 := Initial([LinksOf(0)], {0});
    AfterPosts(a, b);
    var s2 := PostControl(PostControl(s0, 0, a).0, 0, b).0;
    FirstTick(s2, a, b, t1);
    var item := Snapshot(EventHref(0, 0), a.mrid);
    SecondTick(Tick(s2, t1), a, b, item, t1, t2);
    ThirdTick(Tick(Tick(s2, t1), t2), a, b, item, t2, t3);
    var s := Tick(Tick(Tick(s2, t1), t2), t3);
    PostsKeepAlive(s0, a, b);
    RunOfFive(s0, Post(0, a), Post(0, b), At(t1), At(t2), At(t3));
    FiveSignals(t1, t2, t3, s.log);
  }

  lemma PostsKeepAlive(s: State, a: ControlPost, b: ControlPost)
    requires Valid(s) && s.alive
    ensures PostControl(s, 0, a).0.alive && PostControl(PostControl(s, 0, a).0, 0, b).0.alive
  {
  }

  lemma RunOfFive(s: State, a: Action, b: Action, c: Action, d: Action, e: Action)
    requires Valid(s)
    ensures Run(s, [a, b, c, d, e]) == Step(Step(Step(Step(Step(s, a), b), c), d), e)
  {
    hide Step;
    assert [a, b, c, d, e][1..] == [b, c, d, e] && [b, c, d, e][1..] == [c, d, e];
    assert [c, d, e][1..] == [d, e] && [d, e][1..] == [e] && [e][1..] == [];
    var s3 := Step(Step(Step(s, a), b), c);
    assert Run(Step(s3, d), [e]) == Run(Step(Step(s3, d), e), []);
    assert Run(s3, [d, e]) == Run(Step(s3, d), [e]);
    assert Run(Step(Step(s, a), b), [c, d, e]) == Run(s3, [d, e]);
  }

  lemma FiveSignals(t1: int, t2: int, t3: int, log: seq<Signal>)
    requires log == [Signal(EventStarted, EventHref(0, 0), t1), Signal(EventScheduled, EventHref(0, 1), t1)]
                    + [Signal(EventStarted, EventHref(0, 1), t2)]
                    + [Signal(EventEnded, EventHref(0, 0), t3), Signal(EventStarted, EventHref(0, 1), t3)]
    ensures Kinds(History(log, EventHref(0, 1))) == [EventScheduled, EventStarted, EventStarted]
  {
    var p, q := EventHref(0, 0), EventHref(0, 1);
    if p == q {
      EventHrefInjective(0, 0, 0, 1);
    }
    hide EventHref;
    var x1, x2, x3 := Signal(EventStarted, p, t1), Signal(EventScheduled, q, t1), Signal(EventStarted, q, t2);
    var x4, x5 := Signal(EventEnded, p, t3), Signal(EventStarted, q, t3);
    assert log == [x1, x2, x3, x4, x5];
    HistoryConcat([x1, x2], [x3, x4, x5], q);
    assert log == [x1, x2] + [x3, x4, x5];
    HistoryConcat([x3], [x4, x5], q);
    assert [x3] + [x4, x5] == [x3, x4, x5];
    assert [x1, x2][1..] == [x2] && [x2][1..] == [] && [x3][1..] == [] && [x4, x5][1..] == [x5] && [x5][1..] == [];
    assert History([x1, x2], q) == [x2] && History([x3], q) == [x3] && History([x4, x5], q) == [x5];
    assert History(log, q) == [x2, x3, x5];
    assert Kinds([x2, x3, x5]) == [EventScheduled, EventStarted, EventStarted];
  }
}
