/** With which posted statuses the signals of an event stay in order. */
module DerStatuses {
  import opened Wrappers
  import opened Text
  import opened ListStore
  import opened ProgramHrefs
  import opened DerEvents
  import opened DerInvariant
  import opened DerClock
  import opened DerTheorems
  import opened DerSolo
  import opened DerLifecycle
  import opened DerReposts

  /** The signals of every event are in order. */
  ghost predicate AllInOrder(s: State) {
    forall i: nat :: i < |s.events| ==> InOrder(History(s.log, s.events[i].href))
  }

  /** The state with another status under one number. */
  function Restated(s: State, n: nat, st: Status): State
    requires n < |s.statuses|
  {
    s.(statuses := s.statuses[n := st])
  }

  lemma {:induction false} SameFirstMrid(s: State, s': State, ids: seq<nat>, mrid: Option<string>)
    requires s'.events == s.events && forall j :: 0 <= j < |ids| ==> ids[j] < |s.events|
    ensures FirstWithMrid(s', ids, mrid) == FirstWithMrid(s, ids, mrid)
    decreases |ids|
  {
    if ids != [] {
      SameFirstMrid(s, s', ids[1..], mrid);
    }
  }

  lemma ShareIgnores(s: State, i: nat, n: nat, st: Status)
    requires Valid(s) && i < |s.events| && n < |s.statuses|
    ensures Valid(Restated(s, n, st))
    ensures match ShareStatus(s, i)
            case None => ShareStatus(Restated(s, n, st), i) == None
            case Some((s1, links)) => n < |s1.statuses|
                                      && ShareStatus(Restated(s, n, st), i) == Some((Restated(s1, n, st), links))
  {
    hide ProgramIndex;
    hide FirstWithMrid;
    var s' := Restated(s, n, st);
    match ProgramIndex(s.events[i].href)
    case Raise(_) =>
    case Ok(p) =>
      if 0 <= p < |s.programs| && s.programs[p].controls in s.controls {
        SameFirstMrid(s, s', s.controls[s.programs[p].controls], s.events[i].mrid);
      }
  }

  lemma HandlersIgnore(s: State, i: nat, n: nat, st: Status)
    requires Valid(s) && i < |s.events| && n < |s.statuses|
    ensures Valid(Restated(s, n, st)) && n < |Started(s, i).statuses| && n < |Ended(s, i).statuses|
    ensures Started(Restated(s, n, st), i) == Restated(Started(s, i), n, st)
    ensures Ended(Restated(s, n, st), i) == Restated(Ended(s, i), n, st)
  {
    hide ShareStatus;
    hide Without;
    hide Listed;
    ShareIgnores(s, i, n, st);
  }

  lemma WritesCommute(statuses: seq<Status>, n: nat, st: Status, b: nat, c: Status)
    requires n < |statuses| && b < |statuses| && b != n
    ensures statuses[n := st][b := c] == statuses[b := c][n := st]
  {
  }

  /** A turn of an event does not depend on the status of another. */
  lemma TurnIgnores(s: State, i: nat, n: nat, st: Status, t: int)
    requires Valid(s) && i < |s.events| && n < |s.statuses| && s.events[i].status != n
    ensures Valid(Restated(s, n, st)) && n < |TickEvent(s, i, t).statuses|
    ensures TickEvent(Restated(s, n, st), i, t) == Restated(TickEvent(s, i, t), n, st)
  {
    hide Started;
    hide Ended;
    var b := s.events[i].status;
    WritesCommute(s.statuses, n, st, b, Status(Some(SCHEDULED), Some(t)));
    WritesCommute(s.statuses, n, st, b, Status(Some(ACTIVE), Some(t)));
    WritesCommute(s.statuses, n, st, b, Status(Some(COMPLETE), Some(t)));
    HandlersIgnore(Mark(s, i, ACTIVE, EventStarted, t), i, n, st);
    HandlersIgnore(Mark(s, i, COMPLETE, EventEnded, t), i, n, st);
  }

  lemma {:induction false} TurnsIgnore(s: State, k: nat, n: nat, st: Status, t: int)
    requires Solo(s) && s.alive && Valid(s) && k <= n < |s.events| && |s.statuses| == |s.events|
    requires forall i: nat :: i < |s.events| ==> Late(s.events[i], t)
    ensures Solo(TickSome(s, k, t)) && TickSome(s, k, t).alive && Ticked(s, TickSome(s, k, t), k, t)
    ensures Valid(Restated(s, n, st)) && n < |TickSome(s, k, t).statuses|
    ensures TickSome(Restated(s, n, st), k, t) == Restated(TickSome(s, k, t), n, st)
  {
    hide Good;
    hide TickEvent;
    hide Ticked;
    hide Overlooked;
    SoloParts(s);
    LateIsClear(s, t);
    TickSomeSolo(s, k, t);
    SoloParts(TickSome(s, k, t));
    if k > 0 {
      TurnsIgnore(s, k - 1, n, st, t);
      SoloParts(TickSome(s, k - 1, t));
      TurnIgnores(TickSome(s, k - 1, t), k - 1, n, st, t);
    }
  }

  lemma LateIsClear(s: State, t: int)
    requires forall i: nat :: i < |s.events| ==> Late(s.events[i], t)
    ensures forall k: nat :: k <= |s.events| ==> ClearTo(s, k, t)
    ensures forall i: nat :: i < |s.events| ==> !Stuck(s, i, t)
  {
    hide Overlooked;
    hide ActiveHref';
  }

  /** The end that a late tick signals for an event posted as active. */
  lemma ActiveEnds(s: State, n: nat, t: int)
    requires Valid(s) && n == |s.events| - 1 && s.alive && Late(s.events[n], t)
             && StatusOf(s, n).current == Some(ACTIVE)
    ensures TickFrom(s, n, t).log == s.log + [Signal(EventEnded, s.events[n].href, t)]
    ensures TickFrom(s, n, t).events[n].href == s.events[n].href
  {
    hide ProgramIndex;
    hide FirstWithMrid;
  }

  lemma PostedActiveFails(s: State, now: int, d: nat, post: ControlPost)
    requires Sound(s, now) && Valid(s) && s.alive && SafeRepost(s, now, d, post)
    requires PostControl(s, d, post).0 != s && !Plain(post)
    ensures var s' := PostControl(s, d, post).0;
            s'.alive && now <= After(s'.events, now) && !AllInOrder(Tick(s', After(s'.events, now)))
  {
    hide Good;
    hide Lawful;
    hide LogKnown;
    hide Quiescent;
    hide SafeRepost;
    hide History;
    hide Tick;
    hide TickSome;
    hide Late;
    hide PostControl;
    var n := |s.events|;
    var blank := post.(status := None);
    var s' := PostControl(s, d, post).0;
    var x := PostControl(s, d, blank).0;
    StatusOnly(s, d, post);
    PostSound(s, d, blank, now);
    PostGood(s, d, blank);
    SoloParts(s);
    SoloParts(x);
    var t := After(s'.events, now);
    var st := PostedStatus(post);
    assert s' == Restated(x, n, st);
    forall k: nat | k <= n ensures TickSome(s', k, t).alive {
      TurnsIgnore(x, k, n, st, t);
    }
    TurnsIgnore(x, n, n, st, t);
    TickIsSome(s', n, t);
    var s1 := TickSome(s', n, t);
    ActiveEnds(s1, n, t);
    EndedAlone(s, x, d, n, t);
    assert Tick(s', t).log == s1.log + [Signal(EventEnded, x.events[n].href, t)];
  }

  lemma StatusOnly(s: State, d: nat, post: ControlPost)
    requires Valid(s) && PostControl(s, d, post).0 != s
    ensures var s', x := PostControl(s, d, post).0, PostControl(s, d, post.(status := None)).0;
            && x != s && |s'.events| == |s.events| + 1 && |x.statuses| == |s.statuses| + 1
            && x.alive == s.alive && d < |s.programs|
            && s' == Restated(x, |s.statuses|, PostedStatus(post))
  {
    hide LastWithMrid;
    hide Sub;
    hide Dec;
    var s', x := PostControl(s, d, post).0, PostControl(s, d, post.(status := None)).0;
    var m := |s.statuses|;
    assert x.statuses == s.statuses + [FRESH];
    assert s'.statuses == x.statuses[m := PostedStatus(post)];
  }

  lemma EndedAlone(s: State, x: State, d: nat, n: nat, t: int)
    requires Solo(s) && Valid(s) && LogKnown(s) && d < |s.programs| && Added(s, x, s.programs[d].controls)
             && x.log == s.log
    requires n == |s.events| && Placed(x) && |x.statuses| == |x.events|
    requires |TickSome(x, n, t).statuses| == |x.statuses| && Ticked(x, TickSome(x, n, t), n, t)
    ensures var href := x.events[n].href;
            var ended := Signal(EventEnded, href, t);
            !InOrder(History(TickSome(x, n, t).log + [ended], href))
  {
    hide Good;
    hide Home;
    hide Placed;
    hide Advance;
    hide Emits;
    hide EmitsOf;
    hide TickSome;
    hide LastWithMrid;
    hide Dec;
    hide Sub;
    var href := x.events[n].href;
    var ended := Signal(EventEnded, href, t);
    SoloParts(s);
    HistoryOfNew(s, d);
    HistoryOfTick(x, n, t, n);
    HistoryConcat(x.log, EmitsOf(x, n, t), href);
    HistoryConcat(TickSome(x, n, t).log, [ended], href);
    assert [ended][1..] == [] && History([ended], href) == [ended];
    hide History;
    assert History(TickSome(x, n, t).log, href) == [] + [];
    assert [] + [ended] == [ended];
    assert Kinds([ended]) == [EventEnded];
  }

  /** Whatever status a control is posted with, the signals of every event stay in order in all orderly
      continuations, if and only if it is not status 1: a control posted as active is signalled as
      ended without a start. */
  lemma PostedStatusIff(s: State, now: int, d: nat, post: ControlPost)
    requires Sound(s, now) && Valid(s) && s.alive && SafeRepost(s, now, d, post) && PostControl(s, d, post).0 != s
    ensures var s' := PostControl(s, d, post).0;
            (forall actions :: Orderly(s', now, actions) ==> AllInOrder(Run(s', actions))) <==> Plain(post)
  {
    hide Sound;
    hide Plain;
    hide PostControl;
    hide SafeRepost;
    hide AllInOrder;
    hide Orderly;
    hide Run;
    hide Tick;
    var s' := PostControl(s, d, post).0;
    if Plain(post) {
      SafePostSound(s, now, d, post);
      forall actions | Orderly(s', now, actions) ensures AllInOrder(Run(s', actions)) {
        RunSound(s', now, actions);
        LegalInOrder(Run(s', actions), LastTick(now, actions));
      }
    } else {
      PostedActiveFails(s, now, d, post);
      var t := After(s'.events, now);
      OneTick(s', now, t);
      assert Orderly(s', now, [At(t)]) && !AllInOrder(Run(s', [At(t)]));
    }
  }

  lemma OneTick(s: State, now: int, t: int)
    requires Valid(s) && s.alive && now <= t
    ensures Orderly(s, now, [At(t)]) && Run(s, [At(t)]) == Tick(s, t)
  {
    hide Tick;
    assert [At(t)][1..] == [];
    assert Run(Tick(s, t), []) == Tick(s, t) && Orderly(Tick(s, t), t, []);
  }

  lemma LegalInOrder(s: State, now: int)
    requires Sound(s, now)
    ensures AllInOrder(s)
  {
    hide Good;
    hide Quiescent;
    hide LogKnown;
    hide History;
    hide InOrder;
    SoloParts(s);
  }
}
