/** The main results on active lists and on the clock thread, over every run of posts and ticks. */
module DerTheorems {
  import opened Wrappers
  import opened Text
  import opened ListStore
  import opened ProgramHrefs
  import opened DerEvents
  import opened DerInvariant
  import opened DerClock

  /* One tick */

  lemma StuckUnchanged(s: State, s': State, t: int)
    requires SamePlaces(s, s') && s'.active.Keys == s.active.Keys
    ensures forall j: nat :: j < |s.events| ==> (Stuck(s', j, t) <==> Stuck(s, j, t))
  {
    hide ProgramIndex;
    hide ActiveHref;
  }

  lemma {:induction false} TickFromGood(s: State, i: nat, t: int)
    requires Good(s) && s.alive && i <= |s.events|
    ensures TurnKeeps(s, TickFrom(s, i, t))
    ensures TickFrom(s, i, t).alive <==> forall j: nat :: i <= j < |s.events| ==> !Stuck(s, j, t)
    decreases |s.events| - i
  {
    hide Good;
    hide Stuck;
    hide TickEvent;
    GoodParts(s);
    if i < |s.events| {
      TickEventGood(s, i, t);
      var s1 := TickEvent(s, i, t);
      StuckUnchanged(s, s1, t);
      if s1.alive {
        TickFromGood(s1, i + 1, t);
      }
    }
  }

  /** The clock thread survives a tick exactly when no event whose program lacks an indexed active
      list has the time inside its window. */
  lemma ThreadSurvivesIff(s: State, t: int)
    requires Good(s) && s.alive
    ensures Tick(s, t).alive <==> forall i: nat :: i < |s.events| && InWindow(s.events[i], t) ==>
                                                     ActiveHref'(s, i) in s.active
  {
    hide Good;
    hide ProgramIndex;
    hide ActiveHref;
    hide InWindow;
    hide TickFrom;
    GoodParts(s);
    TickFromGood(s, 0, t);
    assert forall i: nat :: i < |s.events| ==>
                              (Stuck(s, i, t) <==> InWindow(s.events[i], t) && ActiveHref'(s, i) !in s.active);
  }

  /* Posts */

  const FRESH := Status(None, None)

  /** The status the control starts with. */
  function PostedStatus(post: ControlPost): Status {
    post.status.GetOr(FRESH)
  }

  /** The post does not claim that its event is active already. */
  predicate Plain(post: ControlPost) {
    PostedStatus(post).current != Some(ACTIVE)
  }

  /** The events of s are still there, with their statuses, and at most one was added. */
  ghost predicate Kept(s: State, s': State) {
    && |s.events| <= |s'.events| && s'.events[..|s.events|] == s.events
    && |s.statuses| <= |s'.statuses| && s'.statuses[..|s.statuses|] == s.statuses
    && s'.programs == s.programs && s'.active == s.active && s'.log == s.log && s'.alive == s.alive
  }

  /** One more control at the end of one list, with a status of its own. */
  ghost predicate Added(s: State, s': State, list: string)
    requires Valid(s)
  {
    && GrownBy(s, s', list) && s'.active == s.active && s'.alive == s.alive
    && |s'.statuses| == |s.statuses| + 1 && s'.statuses[..|s.statuses|] == s.statuses
    && s'.events[|s.events|].status == |s.events|
    && LastWithMrid(s, s.controls[list], s'.events[|s.events|].mrid) in {None, Some(0)}
  }

  lemma AddedSame(s: State, s': State, list: string)
    requires Valid(s) && Added(s, s', list)
    ensures forall i: nat, j: nat :: i < |s.events| && j < |s.events| ==> (Alike(s', i, j) <==> Alike(s, i, j))
    ensures forall i: nat :: i < |s.events| ==> Position(s', i) == Position(s, i) && ProgramOf(s', i) == ProgramOf(s, i)
    ensures forall i: nat, j: nat :: i < |s.events| && j < |s.events| ==> (Shadowed(s', i, j) <==> Shadowed(s, i, j))
  {
    hide ProgramIndex;
    hide EventIndex;
    hide LastWithMrid;
  }

  /** Any other control of the new one's mRID is the first of its program. */
  lemma NewestDoubles(s: State, s': State, list: string, i: nat)
    requires Placed(s) && Placed(s') && Added(s, s', list) && i < |s.events| && Alike(s', i, |s.events|)
    ensures Position(s', i) == 0 && Position(s', |s.events|) != 0
  {
    hide Home;
    hide ProgramIndex;
    hide EventIndex;
    hide Split;
    hide Dec;
    hide Sub;
    var p, k := HomeAt(s', i);
    var q, l := HomeAt(s', |s.events|);
    EventsOfList(s, s', list);
    assert ControlListHref(p) == list;
    assert k < |s.controls[list]|;
    LastIsLast(s, s.controls[list], s'.events[|s.events|].mrid, k);
  }

  lemma EventsOfList(s: State, s': State, list: string)
    requires Placed(s) && Placed(s') && Added(s, s', list)
    ensures var n := |s.events|; ProgramOf(s', n) >= 0 && ControlListHref(ProgramOf(s', n)) == list
    ensures Position(s', |s.events|) == |s.controls[list]|
  {
    hide Home;
    hide ProgramIndex;
    hide EventIndex;
    hide Split;
    hide LastWithMrid;
    var n := |s.events|;
    var q, l := HomeAt(s', n);
    var m := |s.controls[list]|;
  }

  lemma {:induction false} LastIsLast(s: State, ids: seq<nat>, mrid: Option<string>, k: nat)
    requires forall j :: 0 <= j < |ids| ==> ids[j] < |s.events|
    requires k < |ids| && s.events[ids[k]].mrid == mrid
    ensures LastWithMrid(s, ids, mrid).Some? && LastWithMrid(s, ids, mrid).value >= k
    decreases |ids|
  {
    var n := |ids| - 1;
    if s.events[ids[n]].mrid != mrid {
      LastIsLast(s, ids[..n], mrid, k);
    }
  }

  lemma AddedDoubles(s: State, s': State, list: string)
    requires Good(s) && Placed(s') && Added(s, s', list) && s'.statuses[|s.statuses|].current != Some(ACTIVE)
    ensures FewDoubles(s') && StatusesOk(s')
  {
    hide Home;
    hide ProgramIndex;
    hide EventIndex;
    hide LastWithMrid;
    hide AgreesAt;
    var n := |s.events|;
    AddedSame(s, s', list);
    forall i: nat, j: nat | i < |s'.events| && j < |s'.events| && i != j && Alike(s', i, j)
      ensures Position(s', i) == 0 || Position(s', j) == 0
    {
      if j == n {
        NewestDoubles(s, s', list, i);
      } else if i == n {
        NewestDoubles(s, s', list, j);
      } else {
        assert Alike(s, i, j);
      }
    }
    forall f: nat, j: nat | f < |s'.events| && j < |s'.events| && Shadowed(s', f, j) ensures Lent(s', f, j) {
      if f < n && j < n {
        assert Shadowed(s, f, j) && Lent(s, f, j);
      } else if f == n {
        NewestDoubles(s, s', list, j);
      }
    }
    forall i: nat | i < |s'.events|
      ensures s'.events[i].status == i || (Alike(s', s'.events[i].status, i) && Position(s', i) == 0)
    {
      if i < n {
        assert s.events[i].status == i || Alike(s, s.events[i].status, i);
      }
    }
  }

  lemma AddedAgrees(s: State, s': State, list: string, p: nat)
    requires Good(s) && Valid(s') && Added(s, s', list) && AgreesAt(s, p)
    requires s'.statuses[|s.statuses|].current != Some(ACTIVE)
    ensures AgreesAt(s', p)
  {
    hide Home;
    hide ProgramIndex;
    hide EventIndex;
    hide ActiveHref;
    hide LastWithMrid;
    GoodParts(s);
    AddedSame(s, s', list);
    AddedActivity(s, s', list);
    forall m ensures HasActive(s', p, m) <==> HasActive(s, p, m) {
      if j: nat :| ActiveIn(s', j, p) && s'.events[j].mrid == m {
        assert ActiveIn(s, j, p) && s.events[j].mrid == m;
      }
      if j: nat :| ActiveIn(s, j, p) && s.events[j].mrid == m {
        assert ActiveIn(s', j, p) && s'.events[j].mrid == m;
      }
    }
  }

  lemma AddedActivity(s: State, s': State, list: string)
    requires Valid(s) && |s.statuses| == |s.events| && Valid(s') && Added(s, s', list)
    ensures forall i: nat :: i < |s.events| ==> StatusOf(s', i) == StatusOf(s, i)
    ensures StatusOf(s', |s.events|) == s'.statuses[|s.statuses|]
  {
    hide LastWithMrid;
    forall i: nat | i < |s.events| ensures StatusOf(s', i) == StatusOf(s, i) {
      assert s'.statuses[s.events[i].status] == s'.statuses[..|s.statuses|][s.events[i].status];
    }
  }

  /** A post of a control that does not claim to be active, whatever its mRID and window. */
  lemma PostGood(s: State, d: nat, post: ControlPost)
    requires Good(s) && Plain(post)
    ensures var s' := PostControl(s, d, post).0;
            && Good(s') && Kept(s, s')
            && (s' != s ==>
                  && d < |s.programs| && Added(s, s', s.programs[d].controls) && Placed(s')
                  && s'.statuses[|s.events|] == PostedStatus(post))
  {
    hide Home;
    hide ProgramIndex;
    hide EventIndex;
    hide ActiveHref;
    hide Sub;
    hide Dec;
    hide AgreesAt;
    hide StatusesOk;
    hide FewDoubles;
    hide LastWithMrid;
    hide ProgramsOk;
    GoodParts(s);
    var s' := PostControl(s, d, post).0;
    if s' != s {
      var list := s.programs[d].controls;
      AddControlPlaced(s, d, post);
      AddControlGrows(s, list, post);
      assert Added(s, s', list);
      AddedDoubles(s, s', list);
      AddedActivity(s, s', list);
      forall p: nat ensures AgreesAt(s', p) {
        AddedAgrees(s, s', list, p);
      }
    }
  }

  /** A new control of an indexed program keeps agreement if and only if it does not claim to be
      active, or its mRID is in the active list already. */
  lemma PostAgreesIff(s: State, d: nat, post: ControlPost)
    requires Good(s) && PostControl(s, d, post).0 != s
    ensures var s' := PostControl(s, d, post).0;
            && d < |s.programs| && Valid(s') && ProgramOf(s', |s.events|) >= 0
            && var p := ProgramOf(s', |s.events|);
            ControlListHref(p) == s.programs[d].controls
            && (ActiveHref(p) in s.active ==>
                  (AgreesAt(s', p) <==> Plain(post) || Listed(s.active[ActiveHref(p)], post.mrid)))
  {
    hide Home;
    hide ProgramIndex;
    hide EventIndex;
    hide ActiveHref;
    hide Sub;
    hide Dec;
    hide StatusesOk;
    hide FewDoubles;
    hide LastWithMrid;
    hide ProgramsOk;
    GoodParts(s);
    var s' := PostControl(s, d, post).0;
    var list := s.programs[d].controls;
    var n := |s.events|;
    AddControlPlaced(s, d, post);
    AddControlGrows(s, list, post);
    assert Added(s, s', list);
    EventsOfList(s, s', list);
    AddedSame(s, s', list);
    AddedActivity(s, s', list);
    var p := ProgramOf(s', n);
    assert AgreesAt(s, p);
    NewestActivity(s, s', p, post.mrid);
    if !Plain(post) {
      assert ActiveIn(s', n, p) && s'.events[n].mrid == post.mrid;
      assert HasActive(s', p, post.mrid);
    }
  }

  lemma NewestActivity(s: State, s': State, p: nat, m: Option<string>)
    requires Valid(s) && Valid(s') && |s'.events| == |s.events| + 1
    requires forall i: nat :: i < |s.events| ==>
                                StatusOf(s', i) == StatusOf(s, i) && ProgramOf(s', i) == ProgramOf(s, i)
                                && s'.events[i].mrid == s.events[i].mrid
    requires s'.events[|s.events|].mrid == m && ProgramOf(s', |s.events|) == p
    ensures forall k :: HasActive(s', p, k)
                        <==> HasActive(s, p, k) || (k == m && StatusOf(s', |s.events|).current == Some(ACTIVE))
  {
    hide ProgramIndex;
    var n := |s.events|;
    forall k
      ensures HasActive(s', p, k) <==> HasActive(s, p, k) || (k == m && StatusOf(s', n).current == Some(ACTIVE))
    {
      if j: nat :| ActiveIn(s', j, p) && s'.events[j].mrid == k {
        if j < n {
          assert ActiveIn(s, j, p) && s.events[j].mrid == k;
        }
      }
      if j: nat :| ActiveIn(s, j, p) && s.events[j].mrid == k {
        assert ActiveIn(s', j, p) && s'.events[j].mrid == k;
      }
      if k == m && StatusOf(s', n).current == Some(ACTIVE) {
        assert ActiveIn(s', n, p);
      }
    }
  }

  /* Runs */

  /** No post claims that its event is active. */
  predicate PlainPosts(actions: seq<Action>) {
    forall k :: 0 <= k < |actions| && actions[k].Post? ==> Plain(actions[k].control)
  }

  lemma StepGood(s: State, a: Action)
    requires Good(s) && (a.Post? ==> Plain(a.control))
    ensures Good(Step(s, a)) && Step(s, a).active.Keys == s.active.Keys && Step(s, a).programs == s.programs
    ensures s.alive && a.Post? ==> Step(s, a).alive
    ensures !s.alive ==> !Step(s, a).alive && Step(s, a).active == s.active && Step(s, a).log == s.log
  {
    hide Good;
    GoodParts(s);
    match a
    case Post(d, c) =>
      PostGood(s, d, c);
    case At(t) =>
      if s.alive {
        TickFromGood(s, 0, t);
      }
  }

  /** Once the thread has died, no signal is sent and no active list changes. */
  lemma {:induction false} DeadStays(s: State, actions: seq<Action>)
    requires Valid(s) && !s.alive
    ensures !Run(s, actions).alive && Run(s, actions).log == s.log && Run(s, actions).active == s.active
    decreases |actions|
  {
    hide LastWithMrid;
    if actions != [] {
      DeadStays(Step(s, actions[0]), actions[1..]);
    }
  }

  lemma {:induction false} RunGood(s: State, actions: seq<Action>)
    requires Good(s) && PlainPosts(actions)
    ensures Good(Run(s, actions)) && Run(s, actions).active.Keys == s.active.Keys
    ensures Run(s, actions).programs == s.programs
    decreases |actions|
  {
    hide Good;
    hide Step;
    GoodParts(s);
    if actions != [] {
      StepGood(s, actions[0]);
      RunGood(Step(s, actions[0]), actions[1..]);
    }
  }

  lemma InitialGood(programs: seq<Links>, indexed: set<nat>)
    requires ProgramsOk(programs)
    ensures Good(Initial(programs, indexed)) && Initial(programs, indexed).alive
    ensures forall p :: p in indexed ==> ActiveHref(p) in Initial(programs, indexed).active
    ensures Initial(programs, indexed).events == [] && Initial(programs, indexed).log == []
  {
    hide ActiveHref;
    hide ProgramsOk;
    var s := Initial(programs, indexed);
    forall p: nat ensures AgreesAt(s, p) {
      assert forall m :: !Listed([], m) && !HasActive(s, p, m);
    }
  }

  /** In every state that ticks and posts of controls can reach, in any order, at any times, with any
      mRIDs and any status but 1, and whether or not the clock thread is still running: the active list
      of each indexed program holds, once each, exactly the mRIDs of its events with status 1. */
  lemma ActiveListsAgree(programs: seq<Links>, indexed: set<nat>, actions: seq<Action>, p: nat)
    requires ProgramsOk(programs) && p in indexed && PlainPosts(actions)
    ensures var s := Run(Initial(programs, indexed), actions);
            && ActiveHref(p) in s.active && NoDuplicates(s.active[ActiveHref(p)])
            && forall m :: Listed(s.active[ActiveHref(p)], m)
                           <==> exists i: nat :: i < |s.events| && ProgramOf(s, i) == p && s.events[i].mrid == m
                                                 && StatusOf(s, i).current == Some(ACTIVE)
  {
    hide Home;
    hide ProgramIndex;
    hide EventIndex;
    hide ActiveHref;
    hide ProgramsOk;
    hide FewDoubles;
    hide StatusesOk;
    hide Run;
    var s0 := Initial(programs, indexed);
    InitialGood(programs, indexed);
    RunGood(s0, actions);
    var s := Run(s0, actions);
    assert AgreesAt(s, p);
    forall m ensures HasActive(s, p, m)
                <==> exists i: nat :: i < |s.events| && ProgramOf(s, i) == p && s.events[i].mrid == m
                                      && StatusOf(s, i).current == Some(ACTIVE)
    {
      if HasActive(s, p, m) {
        var i: nat :| ActiveIn(s, i, p) && s.events[i].mrid == m;
      }
      if i: nat :| i < |s.events| && ProgramOf(s, i) == p && s.events[i].mrid == m
                   && StatusOf(s, i).current == Some(ACTIVE) {
        assert ActiveIn(s, i, p);
      }
    }
  }

  /* The clock thread */

  /** The time of a tick falls in the window of an event that is in the table by then and whose
      program has no indexed active list. */
  ghost predicate FatalAt(s: State, actions: seq<Action>, n: nat)
    requires Valid(s) && n < |actions|
  {
    var before := Run(s, actions[..n]);
    actions[n].At? && exists i: nat :: i < |before.events| && Stuck(before, i, actions[n].time)
  }

  lemma {:induction false} RunSplit(s: State, a: seq<Action>, b: seq<Action>)
    requires Valid(s)
    ensures Run(s, a + b) == Run(Run(s, a), b)
    decreases |a|
  {
    hide Step;
    if a == [] {
      assert a + b == b;
    } else {
      assert (a + b)[1..] == a[1..] + b;
      RunSplit(Step(s, a[0]), a[1..], b);
    }
  }

  /** The clock thread survives a run exactly when no tick of it is fatal. */
  lemma {:induction false} RunSurvivesIff(s: State, actions: seq<Action>)
    requires Good(s) && s.alive && PlainPosts(actions)
    ensures Run(s, actions).alive <==> forall n: nat :: n < |actions| ==> !FatalAt(s, actions, n)
    decreases |actions|
  {
    hide Good;
    hide Step;
    hide Stuck;
    GoodParts(s);
    if actions != [] {
      var n := |actions| - 1;
      var front, last := actions[..n], actions[n];
      assert actions == front + [last];
      RunSplit(s, front, [last]);
      RunSurvivesIff(s, front);
      assert forall k: nat :: k < n ==> front[..k] == actions[..k];
      assert forall k: nat :: k < n ==> (FatalAt(s, front, k) <==> FatalAt(s, actions, k));
      var before := Run(s, front);
      RunGood(s, front);
      RunOne(before, last);
      assert FatalAt(s, actions, n) <==> last.At? && exists i: nat :: i < |before.events|
                                                                      && Stuck(before, i, last.time);
      if before.alive {
        LastSurvivesIff(before, last);
        assert Run(s, actions).alive <==> !FatalAt(s, actions, n);
      } else {
        DeadStays(before, [last]);
        var k: nat :| k < n && FatalAt(s, front, k);
        assert FatalAt(s, actions, k);
      }
    }
  }

  lemma RunOne(s: State, a: Action)
    requires Valid(s)
    ensures Run(s, [a]) == Step(s, a)
  {
    assert [a][1..] == [];
  }

  lemma LastSurvivesIff(s: State, a: Action)
    requires Good(s) && s.alive && (a.Post? ==> Plain(a.control))
    ensures Step(s, a).alive <==> !(a.At? && exists i: nat :: i < |s.events| && Stuck(s, i, a.time))
  {
    hide Good;
    hide Stuck;
    GoodParts(s);
    StepGood(s, a);
    if a.At? {
      TickFromGood(s, 0, a.time);
    }
  }

  /** Posts to programs with an indexed list never end the clock thread. */
  ghost predicate ToIndexed(s: State, actions: seq<Action>) {
    forall k :: 0 <= k < |actions| && actions[k].Post? && actions[k].program < |s.programs| ==>
                  s.programs[actions[k].program].active in s.active
  }

  ghost predicate AllIndexed(s: State) {
    forall i :: 0 <= i < |s.events| ==> ActiveHref'(s, i) in s.active
  }

  lemma NewestIndexed(s: State, s': State, c: nat)
    requires GrownBy(s, s', ControlListHref(c)) && ActiveHref(c) in s.active && s'.active == s.active && AllIndexed(s)
    ensures AllIndexed(s')
  {
    hide Split;
    hide ProgramIndex;
    hide ActiveHref;
    hide Dec;
    hide Sub;
    EventParserReads(c, |s.controls[ControlListHref(c)]|);
    forall i | 0 <= i < |s'.events| ensures ActiveHref'(s', i) in s'.active {
      if i < |s.events| {
        assert s'.events[i] == s.events[i];
        assert ActiveHref'(s, i) in s.active;
      }
    }
  }

  lemma PostIndexed(s: State, d: nat, post: ControlPost)
    requires Placed(s) && AllIndexed(s) && (d < |s.programs| ==> s.programs[d].active in s.active)
    ensures AllIndexed(PostControl(s, d, post).0)
  {
    hide Placed;
    hide AddControl;
    hide GrownBy;
    hide AllIndexed;
    hide ActiveHref;
    hide ControlListHref;
    assert Valid(s) by {
      PlacedValid(s);
    }
    var s' := PostControl(s, d, post).0;
    if d < |s.programs| && s' != s {
      var c := ProgramAt(s, d);
      AddControlGrows(s, ControlListHref(c), post);
      assert s'.active == s.active by {
        AddControlActive(s, ControlListHref(c), post);
      }
      NewestIndexed(s, s', c);
    }
  }

  lemma AddControlActive(s: State, list: string, post: ControlPost)
    requires Valid(s) && list in s.controls
    ensures AddControl(s, list, post).active == s.active
  {
  }

  lemma {:induction false} IndexedRunSurvives(s: State, actions: seq<Action>)
    requires Good(s) && s.alive && AllIndexed(s) && PlainPosts(actions) && ToIndexed(s, actions)
    ensures Run(s, actions).alive && AllIndexed(Run(s, actions))
    decreases |actions|
  {
    hide Good;
    hide ActiveHref';
    hide Step;
    GoodParts(s);
    if actions != [] {
      var s1 := Step(s, actions[0]);
      StepGood(s, actions[0]);
      StepIndexed(s, actions[0]);
      assert ToIndexed(s1, actions[1..]) by {
        forall k | 0 <= k < |actions[1..]| && actions[1..][k].Post? && actions[1..][k].program < |s1.programs|
          ensures s1.programs[actions[1..][k].program].active in s1.active
        {
          assert actions[1..][k] == actions[k + 1];
        }
      }
      IndexedRunSurvives(s1, actions[1..]);
    }
  }

  lemma StepIndexed(s: State, a: Action)
    requires Good(s) && s.alive && AllIndexed(s) && (a.Post? ==> Plain(a.control))
    requires a.Post? && a.program < |s.programs| ==> s.programs[a.program].active in s.active
    ensures Step(s, a).alive && AllIndexed(Step(s, a))
  {
    hide Good;
    hide ActiveHref';
    GoodParts(s);
    match a
    case Post(d, c) =>
      PostGood(s, d, c);
      PostIndexed(s, d, c);
    case At(t) =>
      TickFromGood(s, 0, t);
      SameIndexed(s, Tick(s, t));
  }

  lemma SameIndexed(s: State, s': State)
    requires AllIndexed(s) && SamePlaces(s, s') && s'.active.Keys == s.active.Keys
    ensures AllIndexed(s')
  {
    hide ProgramIndex;
    hide ActiveHref;
    forall i | 0 <= i < |s'.events| ensures ActiveHref'(s', i) in s'.active {
      assert ActiveHref'(s', i) == ActiveHref'(s, i);
    }
  }
}
