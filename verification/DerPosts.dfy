/** What a post of a control is answered, what stands in the lists that clients read, and what one turn of
    the clock writes. */
module DerPosts {
  import opened Wrappers
  import opened Text
  import opened ListStore
  import opened ProgramHrefs
  import opened DerEvents
  import opened DerInvariant

  /* The links */

  /** The lists of program p, part by part. */
  lemma LinksAreParts(p: nat)
    ensures LinksOf(p) == Links(Join(["/derp", Dec(p), "derca"]), Join(["/derp", Dec(p), "derc"]))
    ensures ParseProgram(LinksOf(p).active) == Ok(ProgramRef("/derp", p, ActiveDERControlListLink, -1))
    ensures ParseProgram(LinksOf(p).controls) == Ok(ProgramRef("/derp", p, DERControlListLink, -1))
  {
    hide Split;
    hide Sub;
    DecValue(p);
    SplitJoin(["/derp", Dec(p), "derca"]);
    SplitJoin(["/derp", Dec(p), "derc"]);
    JoinSnoc(["/derp"], Dec(p));
    JoinSnoc(["/derp", Dec(p)], "derca");
    JoinSnoc(["/derp", Dec(p)], "derc");
    assert ["/derp"] + [Dec(p)] == ["/derp", Dec(p)];
    assert ["/derp", Dec(p)] + ["derca"] == ["/derp", Dec(p), "derca"];
    assert ["/derp", Dec(p)] + ["derc"] == ["/derp", Dec(p), "derc"];
  }

  /* The answer to a post */

  /** The new event stands last in the table and last in this list, with what was posted; all the rest is as
      it was. */
  ghost predicate EventAdded(s: State, s': State, list: string, post: ControlPost, href: string)
    requires Valid(s)
  {
    var n := |s.events|;
    && list in s.controls && s'.controls == s.controls[list := s.controls[list] + [n]]
    && href == list + "_" + Dec(|s.controls[list]|)
    && |s'.events| == n + 1 && s'.events[..n] == s.events
    && s'.events[n].href == href && s'.events[n].mrid == post.mrid
    && s'.events[n].start == post.start && s'.events[n].duration == post.duration
    && s'.events[n].status == |s.statuses|
    && |s'.statuses| == |s.statuses| + 1 && s'.statuses[..|s.statuses|] == s.statuses
    && s'.statuses[|s.statuses|] == (if post.status.Some? then post.status.value else Status(None, None))
    && s'.programs == s.programs && s'.active == s.active && s'.log == s.log && s'.alive == s.alive
  }

  /** The last control of the list with this mRID stands at position k. */
  ghost predicate LastAt(s: State, ids: seq<nat>, mrid: Option<string>, k: nat) {
    && (forall j :: 0 <= j < |ids| ==> ids[j] < |s.events|)
    && k < |ids| && s.events[ids[k]].mrid == mrid
    && forall j :: k < j < |ids| ==> s.events[ids[j]].mrid != mrid
  }

  lemma {:induction false} LastIsAt(s: State, ids: seq<nat>, mrid: Option<string>)
    requires forall j :: 0 <= j < |ids| ==> ids[j] < |s.events|
    ensures var k := LastWithMrid(s, ids, mrid);
            && (k.Some? ==> LastAt(s, ids, mrid, k.value))
            && (k.None? ==> forall l: nat :: !LastAt(s, ids, mrid, l))
    decreases |ids|
  {
    if ids != [] {
      LastIsAt(s, ids[..|ids| - 1], mrid);
    }
  }

  /** What the reply says of the list it was posted to. */
  ghost predicate ReplyOf(s: State, s': State, reply: Reply, list: string, post: ControlPost)
    requires Valid(s) && list in s.controls
  {
    match reply
    case Created(h) =>
      && EventAdded(s, s', list, post, h)
      && forall k: nat :: LastAt(s, s.controls[list], post.mrid, k) ==> k == 0
    case Unchanged(h) =>
      && s' == s
      && exists k: nat :: k > 0 && LastAt(s, s.controls[list], post.mrid, k) && h == s.events[s.controls[list][k]].href
    case Failed(_) => false
  }

  /** In every state in which events are where their hrefs say: a control posted to program d is answered as
      created if and only if an event was added, and the answer is then the href of that event, the last
      of its list; as unchanged if the last control of its mRID stands past position 0, with the href of that
      one, and nothing has changed; and it fails, without a trace, if and only if there is no such program. */
  lemma PostedReply(s: State, d: nat, post: ControlPost)
    requires Placed(s)
    ensures var (s', reply) := PostControl(s, d, post);
            && (reply.Created? <==> |s'.events| > |s.events|)
            && (d >= |s.programs| ==> s' == s && reply == Failed(NotFoundError))
            && (d < |s.programs| ==>
                  var list := s.programs[d].controls;
                  && list in s.controls && ReplyOf(s, s', reply, list, post)
                  && (reply.Created? ==> !KnownHref(s, reply.href) && KnownHref(s', reply.href)))
  {
    hide Home;
    hide LastWithMrid;
    hide LastAt;
    hide Dec;
    if d < |s.programs| {
      var list := s.programs[d].controls;
      LastIsAt(s, s.controls[list], post.mrid);
      NextHrefIsNew(s, d);
      var s' := PostControl(s, d, post).0;
      assert s' != s ==> s'.events[|s.events|].href == Sub(list, Dec(|s.controls[list]|));
      FirstUnique(s, s.controls[list], post.mrid);
    }
  }

  lemma FirstUnique(s: State, ids: seq<nat>, mrid: Option<string>)
    ensures forall k: nat, l: nat :: LastAt(s, ids, mrid, k) && LastAt(s, ids, mrid, l) ==> k == l
  {
  }

  /* The copies in the active lists */

  /** The copy is that of event i of program p. */
  predicate CopyOf(s: State, i: nat, p: int, x: Snapshot) {
    i < |s.events| && ProgramOf(s, i) == p && x == Snapshot(s.events[i].href, s.events[i].mrid)
  }

  ghost predicate Copied(s: State, p: int, x: Snapshot) {
    exists i: nat :: CopyOf(s, i, p, x)
  }

  /** Every entry of the active list of a program is the copy of an event of that program. */
  ghost predicate ActiveCopied(s: State) {
    forall p: nat, x :: ActiveHref(p) in s.active && x in s.active[ActiveHref(p)] ==> Copied(s, p, x)
  }

  lemma ActiveHrefInjective(p: nat, q: nat)
    requires ActiveHref(p) == ActiveHref(q)
    ensures p == q
  {
    hide ParseProgram;
    LinksAreParts(p);
    LinksAreParts(q);
  }

  lemma {:induction false} WithoutFrom(items: seq<Snapshot>, mrid: Option<string>, x: Snapshot)
    requires x in Without(items, mrid)
    ensures x in items
  {
    if items[0] != x {
      WithoutFrom(items[1..], mrid, x);
    }
  }

  /** One active list changes, to copies of events of its program, while events stay in their places. */
  lemma OneListCopied(s: State, s': State, c: nat)
    requires ActiveCopied(s) && SamePlaces(s, s')
    requires s'.active.Keys == s.active.Keys
    requires forall u :: u in s.active && u != ActiveHref(c) ==> s'.active[u] == s.active[u]
    requires ActiveHref(c) in s.active ==>
               forall x :: x in s'.active[ActiveHref(c)] ==> x in s.active[ActiveHref(c)] || Copied(s, c, x)
    ensures ActiveCopied(s')
  {
    hide ProgramIndex;
    hide ActiveHref;
    forall p: nat, x | ActiveHref(p) in s'.active && x in s'.active[ActiveHref(p)] ensures Copied(s', p, x) {
      if ActiveHref(p) == ActiveHref(c) {
        ActiveHrefInjective(p, c);
      }
      assert Copied(s, p, x);
      var i: nat :| CopyOf(s, i, p, x);
      assert s'.events[i].href == s.events[i].href && s'.events[i].mrid == s.events[i].mrid;
      assert CopyOf(s', i, p, x);
    }
  }

  lemma SharedLinks(s: State, i: nat) returns (p: nat)
    requires Placed(s) && i < |s.events|
    ensures ProgramOf(s, i) == p
    ensures ShareStatus(s, i).Some? ==> && ShareStatus(s, i).value.1 == LinksOf(p)
                                        && ShareStatus(s, i).value.0.active == s.active
  {
    hide Home;
    hide FirstWithMrid;
    var k;
    p, k := HomeAt(s, i);
  }

  lemma HandlersCopied(s: State, i: nat)
    requires Placed(s) && ActiveCopied(s) && i < |s.events|
    ensures ActiveCopied(Started(s, i)) && ActiveCopied(Ended(s, i))
  {
    hide Home;
    hide ProgramIndex;
    hide ShareStatus;
    hide ActiveHref;
    hide Without;
    hide Placed;
    hide SamePlaces;
    hide ActiveCopied;
    PlacedValid(s);
    HandlersPlaces(s, i);
    var p := SharedLinks(s, i);
    var e := s.events[i];
    assert CopyOf(s, i, p, Snapshot(e.href, e.mrid));
    OneListCopied(s, Started(s, i), p);
    if ActiveHref(p) in s.active {
      forall x | x in Without(s.active[ActiveHref(p)], e.mrid) ensures x in s.active[ActiveHref(p)] {
        WithoutFrom(s.active[ActiveHref(p)], e.mrid, x);
      }
    }
    OneListCopied(s, Ended(s, i), p);
  }

  lemma MarkCopied(s: State, i: nat, current: int, kind: Kind, t: int)
    requires Placed(s) && ActiveCopied(s) && i < |s.events|
    ensures Placed(Mark(s, i, current, kind, t)) && ActiveCopied(Mark(s, i, current, kind, t))
  {
    hide ActiveHref;
    hide Home;
    var s' := Mark(s, i, current, kind, t);
    SamePlacesPlaced(s, s');
    OneListCopied(s, s', 0);
  }

  lemma TickEventCopied(s: State, i: nat, t: int)
    requires Placed(s) && ActiveCopied(s) && i < |s.events|
    ensures Placed(TickEvent(s, i, t)) && ActiveCopied(TickEvent(s, i, t))
  {
    hide Placed;
    hide Started;
    hide Ended;
    hide Mark;
    hide ActiveCopied;
    PlacedValid(s);
    TickEventPlaces(s, i, t);
    SamePlacesPlaced(s, TickEvent(s, i, t));
    MarkCopied(s, i, SCHEDULED, EventScheduled, t);
    MarkCopied(s, i, ACTIVE, EventStarted, t);
    MarkCopied(s, i, COMPLETE, EventEnded, t);
    HandlersCopied(Mark(s, i, ACTIVE, EventStarted, t), i);
    HandlersCopied(Mark(s, i, COMPLETE, EventEnded, t), i);
  }

  lemma {:induction false} TickFromCopied(s: State, i: nat, t: int)
    requires Placed(s) && ActiveCopied(s)
    ensures Placed(TickFrom(s, i, t)) && ActiveCopied(TickFrom(s, i, t))
    decreases |s.events| - i
  {
    hide Placed;
    hide TickEvent;
    hide ActiveCopied;
    PlacedValid(s);
    if i < |s.events| && s.alive {
      TickEventCopied(s, i, t);
      TickFromCopied(TickEvent(s, i, t), i + 1, t);
    }
  }

  lemma PostCopied(s: State, d: nat, post: ControlPost)
    requires Placed(s) && ActiveCopied(s)
    ensures ActiveCopied(PostControl(s, d, post).0)
  {
    hide Home;
    hide ProgramIndex;
    hide ActiveHref;
    hide KnownHref;
    hide LastAt;
    PostedReply(s, d, post);
    var s' := PostControl(s, d, post).0;
    forall p: nat, x | ActiveHref(p) in s'.active && x in s'.active[ActiveHref(p)] ensures Copied(s', p, x) {
      assert Copied(s, p, x);
      var i: nat :| CopyOf(s, i, p, x);
      assert s'.events[i] == s.events[i];
      assert CopyOf(s', i, p, x);
    }
  }

  lemma {:induction false} RunCopied(s: State, actions: seq<Action>)
    requires Placed(s) && ActiveCopied(s)
    ensures Placed(Run(s, actions)) && ActiveCopied(Run(s, actions))
    decreases |actions|
  {
    hide Placed;
    hide PostControl;
    hide TickFrom;
    hide ActiveCopied;
    PlacedValid(s);
    if actions != [] {
      var s1 := Step(s, actions[0]);
      StepPlaced(s, actions[0]);
      match actions[0] {
        case Post(d, post) => PostCopied(s, d, post);
        case At(t) =>
          if s.alive {
            TickFromCopied(s, 0, t);
          }
      }
      RunCopied(s1, actions[1..]);
    }
  }

  /** In every run, whatever is posted and whether or not the clock thread survives, a client that follows an
      entry of an active list finds an event of that program with the mRID of the entry, in the program's
      control list at the place its href names. */
  lemma ActiveEntriesLeadBack(programs: seq<Links>, indexed: set<nat>, actions: seq<Action>, p: nat, x: Snapshot)
    requires ProgramsOk(programs)
    requires var s := Run(Initial(programs, indexed), actions);
             ActiveHref(p) in s.active && x in s.active[ActiveHref(p)]
    ensures var s := Run(Initial(programs, indexed), actions);
            && ControlListHref(p) in s.controls
            && exists k: nat :: k < |s.controls[ControlListHref(p)]| && x.href == EventHref(p, k)
                                && s.controls[ControlListHref(p)][k] < |s.events|
                                && s.events[s.controls[ControlListHref(p)][k]].href == x.href
                                && s.events[s.controls[ControlListHref(p)][k]].mrid == x.mrid
  {
    hide Home;
    hide ProgramIndex;
    hide EventIndex;
    hide ActiveHref;
    hide Run;
    var s0 := Initial(programs, indexed);
    RunCopied(s0, actions);
    var s := Run(s0, actions);
    assert Copied(s, p, x);
    var i: nat :| CopyOf(s, i, p, x);
    var q, k := HomeAt(s, i);
  }

  /* One turn of the clock, in numbers */

  /** Position k holds the first control of the list with this mRID. */
  ghost predicate FirstOf(s: State, ids: seq<nat>, mrid: Option<string>, k: nat) {
    && (forall j :: 0 <= j < |ids| ==> ids[j] < |s.events|)
    && k < |ids| && s.events[ids[k]].mrid == mrid
    && forall j :: 0 <= j < k ==> s.events[ids[j]].mrid != mrid
  }

  /** Both handlers leave the first control of the event's mRID with the event's status object, and no other
      event changed, also when an exception ends the thread right after. */
  lemma HandlersShare(s: State, i: nat, p: nat, k: nat)
    requires Placed(s) && i < |s.events| && ProgramOf(s, i) == p && ControlListHref(p) in s.controls
    requires FirstOf(s, s.controls[ControlListHref(p)], s.events[i].mrid, k)
    ensures var c := s.controls[ControlListHref(p)][k];
            && Started(s, i).events == s.events[c := s.events[c].(status := s.events[i].status)]
            && Ended(s, i).events == s.events[c := s.events[c].(status := s.events[i].status)]
  {
    hide Split;
    hide Home;
    hide EventIndex;
    var q, l := HomeAt(s, i);
    var ids := s.controls[ControlListHref(p)];
    var found := FirstWithMrid(s, ids, s.events[i].mrid);
    hide FirstWithMrid;
    assert found == Some(k);
  }

  /** The handlers write no status object, and leave the event the one it had. */
  lemma HandlersKeepStatus(s: State, i: nat)
    requires Valid(s) && i < |s.events|
    ensures StatusOf(Started(s, i), i) == StatusOf(s, i) == StatusOf(Ended(s, i), i)
  {
    hide ProgramIndex;
    hide FirstWithMrid;
    hide Without;
    hide Listed;
  }

  /** The status of the event whose turn it is: 0 before its start if it had none, 1 inside its window, 5 once
      past it if it was 1; and the time of the change as its dateTime. */
  lemma TurnInNumbers(s: State, i: nat, t: int)
    requires Valid(s) && i < |s.events|
    ensures var s', e, old_ := TickEvent(s, i, t), s.events[i], StatusOf(s, i);
            StatusOf(s', i) ==
            if t < e.start && old_.current == None then Status(Some(0), Some(t))
            else if e.start < t < e.start + e.duration && old_.current != Some(1) then Status(Some(1), Some(t))
            else if t > e.start + e.duration && old_.current == Some(1) then Status(Some(5), Some(t))
            else old_
  {
    hide Started;
    hide Ended;
    HandlersKeepStatus(Mark(s, i, ACTIVE, EventStarted, t), i);
    HandlersKeepStatus(Mark(s, i, COMPLETE, EventEnded, t), i);
  }
}
