/** The clock loop, its handlers and the posting of controls as methods on the state they update,
    each proved to do what DerEvents says. */
module DerServer {
  import opened Wrappers
  import opened Text
  import opened ListStore
  import opened ProgramHrefs
  import opened DerEvents

  lemma Regroup(a: seq<Snapshot>, b: seq<Snapshot>, c: seq<Snapshot>)
    ensures (a + b) + c == a + (b + c)
  {
  }

  lemma {:induction false} WithoutConcat(a: seq<Snapshot>, b: seq<Snapshot>, mrid: Option<string>)
    ensures Without(a + b, mrid) == Without(a, mrid) + Without(b, mrid)
  {
    if a == [] {
      assert a + b == b;
    } else {
      assert (a + b)[1..] == a[1..] + b;
      WithoutConcat(a[1..], b, mrid);
      var head := if a[0].mrid == mrid then [] else [a[0]];
      assert Without(a + b, mrid) == head + Without((a + b)[1..], mrid);
      assert Without(a, mrid) == head + Without(a[1..], mrid);
      hide Without;
      Regroup(head, Without(a[1..], mrid), Without(b, mrid));
    }
  }

  lemma {:induction false} WithoutAbsent(items: seq<Snapshot>, mrid: Option<string>)
    requires forall k :: 0 <= k < |items| ==> items[k].mrid != mrid
    ensures Without(items, mrid) == items
  {
    if items != [] {
      assert forall k :: 0 <= k < |items[1..]| ==> items[1..][k] == items[k + 1];
      WithoutAbsent(items[1..], mrid);
    }
  }

  /** Highest first, exactly the positions below n that hold the mRID. */
  ghost predicate Matches(remove: seq<nat>, items: seq<Snapshot>, n: nat, mrid: Option<string>)
    requires n <= |items|
  {
    && (forall j :: 0 <= j < |remove| ==> remove[j] < n && items[remove[j]].mrid == mrid)
    && (forall j, k :: 0 <= j < k < |remove| ==> remove[j] > remove[k])
    && forall k: nat :: k < n && items[k].mrid == mrid ==> k in remove
  }

  /** Position m is where the last pop took place. */
  ghost predicate Popped(remove: seq<nat>, items: seq<Snapshot>, j: nat, m: nat)
    requires j <= |remove|
  {
    m == if j == 0 then |items| else remove[j - 1]
  }

  /** Between two collected positions nothing matches; nor below the last. */
  lemma GapUnmatched(remove: seq<nat>, items: seq<Snapshot>, j: nat, m: nat, mrid: Option<string>)
    requires Matches(remove, items, |items|, mrid) && j <= |remove| && Popped(remove, items, j, m)
    ensures j < |remove| ==> remove[j] < m
    ensures forall i :: (if j < |remove| then remove[j] else -1) < i < m && i < |items| ==> items[i].mrid != mrid
  {
  }

  /** One pop, seen from the whole list. */
  lemma PopStep(items: seq<Snapshot>, x: nat, m: nat, mrid: Option<string>)
    requires x < m <= |items| && items[x].mrid == mrid
    requires forall i :: x < i < m ==> items[i].mrid != mrid
    ensures var left := items[..m] + Without(items[m..], mrid);
            left[..x] + left[x + 1..] == items[..x] + Without(items[x..], mrid)
  {
    var gap := items[x + 1..m];
    assert items[x..] == [items[x]] + (gap + items[m..]);
    assert items[x..][1..] == gap + items[m..];
    WithoutConcat(gap, items[m..], mrid);
    WithoutAbsent(gap, mrid);
    assert Without(items[x..], mrid) == gap + Without(items[m..], mrid);
    var left := items[..m] + Without(items[m..], mrid);
    assert left[..x] == items[..x] && left[x + 1..] == gap + Without(items[m..], mrid);
  }

  /** The first loop of the ended handler collects positions, the highest first. */
  method CollectPositions(items: seq<Snapshot>, mrid: Option<string>) returns (remove: seq<nat>)
    ensures Matches(remove, items, |items|, mrid)
  {
    remove := [];
    var k := 0;
    while k < |items|
      invariant 0 <= k <= |items|
      invariant Matches(remove, items, k, mrid)
    {
      if items[k].mrid == mrid {
        remove := [k] + remove;
      }
      k := k + 1;
    }
  }

  /** The second pops them one by one, which leaves the items of other events in their order. */
  method RemoveAll(items: seq<Snapshot>, mrid: Option<string>) returns (left: seq<Snapshot>)
    ensures left == Without(items, mrid)
  {
    hide Without;
    hide Matches;
    var remove := CollectPositions(items, mrid);
    left := items;
    var j := 0;
    ghost var m := |items|;
    assert left == items[..m] + Without(items[m..], mrid) by {
      WithoutAbsent(items[m..], mrid);
    }
    while j < |remove|
      invariant 0 <= j <= |remove| && m <= |items| && Popped(remove, items, j, m)
      invariant left == items[..m] + Without(items[m..], mrid)
    {
      var x := remove[j];
      GapUnmatched(remove, items, j, m, mrid);
      assert items[x].mrid == mrid by {
        MatchAt(remove, items, j, mrid);
      }
      PopStep(items, x, m, mrid);
      left := left[..x] + left[x + 1..];
      m := x;
      j := j + 1;
    }
    GapUnmatched(remove, items, j, m, mrid);
    assert items == items[..m] + items[m..];
    WithoutConcat(items[..m], items[m..], mrid);
    WithoutAbsent(items[..m], mrid);
  }

  lemma MatchAt(remove: seq<nat>, items: seq<Snapshot>, j: nat, mrid: Option<string>)
    requires Matches(remove, items, |items|, mrid) && j < |remove|
    ensures remove[j] < |items| && items[remove[j]].mrid == mrid
  {
  }

  class EventServer {
    var programs: seq<Links>
    var controls: map<string, seq<nat>>
    var events: seq<Event>
    var statuses: seq<Status>
    var active: map<string, seq<Snapshot>>
    var log: seq<Signal>
    var alive: bool

    function Model(): State
      reads this
    {
      State(programs, controls, events, statuses, active, log, alive)
    }

    constructor (programs: seq<Links>, indexed: set<nat>)
      ensures Model() == Initial(programs, indexed) && Valid(Model())
    {
      this.programs, controls := programs, map d | 0 <= d < |programs| :: programs[d].controls := [];
      events, statuses, log, alive := [], [], [], true;
      active := map p | p in indexed :: ActiveHref(p) := [];
    }

    /** `_admin_derp_derc` for a DERControl, with `add_event`. */
    method PostControl(d: nat, post: ControlPost) returns (reply: Reply)
      requires Valid(Model())
      modifies this
      ensures (Model(), reply) == DerEvents.PostControl(old(Model()), d, post)
    {
      if d >= |programs| {
        return Failed(NotFoundError);
      }
      var list := programs[d].controls;
      if list !in controls {
        return Failed(KeyError);
      }
      var ids := controls[list];
      var foundAt: Option<nat> := None;
      var k := 0;
      while k < |ids|
        invariant 0 <= k <= |ids|
        invariant foundAt == LastWithMrid(Model(), ids[..k], post.mrid)
      {
        assert ids[..k + 1][..k] == ids[..k];
        if events[ids[k]].mrid == post.mrid {
          foundAt := Some(k);
        }
        k := k + 1;
      }
      assert ids[..k] == ids;
      if foundAt.None? || foundAt.value == 0 {
        var href := Sub(list, Dec(|ids|));
        controls := controls[list := ids + [|events|]];
        events := events + [Event(href, post.mrid, post.start, post.duration, |statuses|)];
        statuses := statuses + [post.status.GetOr(Status(None, None))];
        return Created(href);
      }
      return Unchanged(events[ids[foundAt.value]].href);
    }

    /** The first steps of both handlers; false when one of them raises. */
    method ShareStatus(i: nat) returns (ok: bool, links: Links)
      requires Valid(Model()) && i < |events|
      modifies this`events
      ensures ok ==> DerEvents.ShareStatus(old(Model()), i) == Some((Model(), links))
      ensures !ok ==> DerEvents.ShareStatus(old(Model()), i) == None && Model() == old(Model())
    {
      links := Links("", "");
      var index := ProgramIndex(events[i].href);
      if index.Raise? || !(0 <= index.value < |programs|) || programs[index.value].controls !in controls {
        return false, links;
      }
      links := programs[index.value];
      var ids := controls[links.controls];
      var k := 0;
      while k < |ids| && events[ids[k]].mrid != events[i].mrid
        invariant 0 <= k <= |ids|
        invariant var rest := FirstWithMrid(Model(), ids[k..], events[i].mrid);
                  FirstWithMrid(Model(), ids, events[i].mrid) == (if rest.None? then None else Some(rest.value + k))
      {
        assert ids[k..][1..] == ids[k + 1..];
        k := k + 1;
      }
      if k == |ids| {
        return false, links;
      }
      var c := ids[k];
      events := events[c := events[c].(status := events[i].status)];
      return true, links;
    }

    /** update_active_der_event_started */
    method Started(i: nat)
      requires Valid(Model()) && i < |events|
      modifies this
      ensures Model() == DerEvents.Started(old(Model()), i)
    {
      var e := events[i];
      var shared, links := ShareStatus(i);
      if !shared || links.active !in active {
        alive := false;
        return;
      }
      var list := active[links.active];
      var listed := false;
      var k := 0;
      while k < |list| && !listed
        invariant 0 <= k <= |list|
        invariant listed <==> exists j :: 0 <= j < k && list[j].mrid == e.mrid
      {
        listed := list[k].mrid == e.mrid;
        k := k + 1;
      }
      if !listed {
        active := active[links.active := list + [Snapshot(e.href, e.mrid)]];
      }
    }

    /** update_active_der_event_ended */
    method Ended(i: nat)
      requires Valid(Model()) && i < |events|
      modifies this
      ensures Model() == DerEvents.Ended(old(Model()), i)
    {
      var mrid := events[i].mrid;
      var shared, links := ShareStatus(i);
      if !shared || links.active !in active {
        alive := false;
        return;
      }
      var left := RemoveAll(active[links.active], mrid);
      active := active[links.active := left];
    }

    /** The writes to an EventStatus, and the signal. */
    method Mark(i: nat, current: int, kind: Kind, t: int)
      requires Valid(Model()) && i < |events|
      modifies this`statuses, this`log
      ensures Model() == DerEvents.Mark(old(Model()), i, current, kind, t)
    {
      statuses := statuses[events[i].status := Status(Some(current), Some(t))];
      log := log + [Signal(kind, events[i].href, t)];
    }

    /** One round of `_TimeAdapter.run`. */
    method ClockTick(t: int)
      requires Valid(Model())
      modifies this
      ensures Model() == Tick(old(Model()), t)
    {
      var i := 0;
      while i < |events| && alive
        invariant Valid(Model()) && |events| == |old(events)| && 0 <= i <= |events|
        invariant TickFrom(old(Model()), 0, t) == TickFrom(Model(), i, t)
      {
        var e := events[i];
        var current := statuses[e.status].current;
        if t < e.start && current == None {
          Mark(i, SCHEDULED, EventScheduled, t);
        } else if e.start < t && t < e.start + e.duration {
          if current != Some(ACTIVE) {
            Mark(i, ACTIVE, EventStarted, t);
            Started(i);
          }
        } else if t > e.start + e.duration && current == Some(ACTIVE) {
          Mark(i, COMPLETE, EventEnded, t);
          Ended(i);
        }
        i := i + 1;
      }
    }
  }
}
