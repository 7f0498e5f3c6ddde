/** The life of DER control events: posting a control, the clock loop of _TimeAdapter.run, and the
    handlers that keep the active-control list of each program. */
module DerEvents {
  import opened Wrappers
  import opened Text
  import opened ListStore
  import opened ProgramHrefs

  /** The fields of EventStatus that the server writes. */
  datatype Status = Status(current: Option<int>, dateTime: Option<int>)

  const SCHEDULED := 0
  const ACTIVE := 1
  const COMPLETE := 5

  /** A DERControl kept by the server. Its EventStatus is an object of its own, which the handlers
      may share between controls, so it is named by its number. */
  datatype Event = Event(href: string, mrid: Option<string>, start: int, duration: int, status: nat)

  /** The links of a DERProgram that the handlers follow. */
  datatype Links = Links(active: string, controls: string)

  function LinksOf(program: nat): Links {
    Links(ActiveHref(program), ControlListHref(program))
  }

  /** A pickled copy in an active-control list. */
  datatype Snapshot = Snapshot(href: string, mrid: Option<string>)

  datatype Kind = EventScheduled | EventStarted | EventEnded

  datatype Signal = Signal(kind: Kind, href: string, time: int)

  datatype State = State(
    programs: seq<Links>,                  // the list "/derp"
    controls: map<string, seq<nat>>,       // the control lists, as numbers of events
    events: seq<Event>,                    // _TimeAdapter.events, in insertion order
    statuses: seq<Status>,                 // the EventStatus objects
    active: map<string, seq<Snapshot>>,    // the active-control lists in the href cache
    log: seq<Signal>,                      // the signals sent
    alive: bool)                           // an exception in a handler ends the clock thread

  /** Every number names something. */
  predicate Valid(s: State) {
    && (forall i :: 0 <= i < |s.events| ==> s.events[i].status < |s.statuses|)
    && (forall u, k :: u in s.controls && 0 <= k < |s.controls[u]| ==> s.controls[u][k] < |s.events|)
  }

  function StatusOf(s: State, i: nat): Status
    requires Valid(s) && i < |s.events|
  {
    s.statuses[s.events[i].status]
  }

  /* Posting a control */

  datatype ControlPost = ControlPost(mrid: Option<string>, start: int, duration: int, status: Option<Status>)

  /** The last control with this mRID: the loop of the handler does not stop at the first. */
  function LastWithMrid(s: State, ids: seq<nat>, mrid: Option<string>): (k: Option<nat>)
    requires forall j :: 0 <= j < |ids| ==> ids[j] < |s.events|
    ensures k.Some? ==> k.value < |ids| && s.events[ids[k.value]].mrid == mrid
    ensures k.None? ==> forall j :: 0 <= j < |ids| ==> s.events[ids[j]].mrid != mrid
  {
    if ids == [] then None
    else
      var n := |ids| - 1;
      if s.events[ids[n]].mrid == mrid then Some(n) else LastWithMrid(s, ids[..n], mrid)
  }

  function AddControl(s: State, list: string, post: ControlPost): (s': State)
    requires Valid(s) && list in s.controls
    ensures Valid(s')
  {
    var n := |s.events|;
    var e := Event(Sub(list, Dec(|s.controls[list]|)), post.mrid, post.start, post.duration, |s.statuses|);
    s.(controls := s.controls[list := s.controls[list] + [n]],
    events := s.events + [e],
    statuses := s.statuses + [post.status.GetOr(Status(None, None))])
  }

  /** Whether the table of events has this href already; if so `add_event` ignores the control. */
  predicate KnownHref(s: State, href: string) {
    exists i :: 0 <= i < |s.events| && s.events[i].href == href
  }

  datatype Reply = Created(href: string) | Unchanged(href: string) | Failed(error: Exn)

  /** A match at position 0 counts as none; one further on replaces an entry of a temporary list
      and registers an href that the clock already knows. */
  function PostControl(s: State, d: nat, post: ControlPost): (r: (State, Reply))
    requires Valid(s)
    ensures Valid(r.0)
  {
    if d >= |s.programs| then (s, Failed(NotFoundError))
    else
      var list := s.programs[d].controls;
      if list !in s.controls then (s, Failed(KeyError))
      else
        var found := LastWithMrid(s, s.controls[list], post.mrid);
        if found.None? || found.value == 0 then
          (AddControl(s, list, post), Created(Sub(list, Dec(|s.controls[list]|))))
        else (s, Unchanged(s.events[s.controls[list][found.value]].href))
  }

  /* The handlers */

  /** `next(filter(...))`: the first control with this mRID; None stands for StopIteration. */
  function FirstWithMrid(s: State, ids: seq<nat>, mrid: Option<string>): (k: Option<nat>)
    requires forall j :: 0 <= j < |ids| ==> ids[j] < |s.events|
    ensures k.Some? ==> k.value < |ids| && s.events[ids[k.value]].mrid == mrid
                        && forall j :: 0 <= j < k.value ==> s.events[ids[j]].mrid != mrid
    ensures k.None? ==> forall j :: 0 <= j < |ids| ==> s.events[ids[j]].mrid != mrid
  {
    if ids == [] then None
    else if s.events[ids[0]].mrid == mrid then Some(0)
    else match FirstWithMrid(s, ids[1..], mrid)
         case None => None
         case Some(k) => Some(k + 1)
  }

  /** What both handlers start with: the program of the event, and its control, which then shares
      the EventStatus object of the event. None stands for any of the exceptions on the way. */
  function ShareStatus(s: State, i: nat): (r: Option<(State, Links)>)
    requires Valid(s) && i < |s.events|
    ensures r.Some? ==> Valid(r.value.0) && |r.value.0.events| == |s.events|
  {
    var e := s.events[i];
    match ProgramIndex(e.href)
    case Raise(_) => None
    case Ok(p) =>
      if !(0 <= p < |s.programs|) || s.programs[p].controls !in s.controls then None
      else
        var ids := s.controls[s.programs[p].controls];
        match FirstWithMrid(s, ids, e.mrid)
        case None => None
        case Some(k) =>
          var c := ids[k];
          Some((s.(events := s.events[c := s.events[c].(status := e.status)]), s.programs[p]))
  }

  predicate Listed(items: seq<Snapshot>, mrid: Option<string>) {
    exists k :: 0 <= k < |items| && items[k].mrid == mrid
  }

  function Without(items: seq<Snapshot>, mrid: Option<string>): seq<Snapshot> {
    if items == [] then []
    else (if items[0].mrid == mrid then [] else [items[0]]) + Without(items[1..], mrid)
  }

  /** update_active_der_event_started; an exception ends the thread. */
  function Started(s: State, i: nat): (s': State)
    requires Valid(s) && i < |s.events|
    ensures Valid(s') && |s'.events| == |s.events|
  {
    var e := s.events[i];
    match ShareStatus(s, i)
    case None => s.(alive := false)
    case Some((s1, links)) =>
      if links.active !in s1.active then s1.(alive := false)
      else if Listed(s1.active[links.active], e.mrid) then s1
      else s1.(active := s1.active[links.active := s1.active[links.active] + [Snapshot(e.href, e.mrid)]])
  }

  /** update_active_der_event_ended, for an event whose status is no longer 1. */
  function Ended(s: State, i: nat): (s': State)
    requires Valid(s) && i < |s.events|
    ensures Valid(s') && |s'.events| == |s.events|
  {
    match ShareStatus(s, i)
    case None => s.(alive := false)
    case Some((s1, links)) =>
      if links.active !in s1.active then s1.(alive := false)
      else s1.(active := s1.active[links.active := Without(s1.active[links.active], s.events[i].mrid)])
  }

  /* The clock */

  /** Writes the status and sends the signal. */
  function Mark(s: State, i: nat, current: int, kind: Kind, t: int): (s': State)
    requires Valid(s) && i < |s.events|
    ensures Valid(s') && s'.events == s.events
  {
    s.(statuses := s.statuses[s.events[i].status := Status(Some(current), Some(t))],
    log := s.log + [Signal(kind, s.events[i].href, t)])
  }

  predicate InWindow(e: Event, t: int) {
    e.start < t < e.start + e.duration
  }

  /** One turn of the loop over the events. */
  function TickEvent(s: State, i: nat, t: int): (s': State)
    requires Valid(s) && i < |s.events|
    ensures Valid(s') && |s'.events| == |s.events|
  {
    var e := s.events[i];
    var current := StatusOf(s, i).current;
    if t < e.start && current == None then Mark(s, i, SCHEDULED, EventScheduled, t)
    else if InWindow(e, t) then
      if current == Some(ACTIVE) then s
      else Started(Mark(s, i, ACTIVE, EventStarted, t), i)
    else if t > e.start + e.duration && current == Some(ACTIVE) then
      Ended(Mark(s, i, COMPLETE, EventEnded, t), i)
    else s
  }

  /** The loop, from event i on; an exception leaves it. */
  function TickFrom(s: State, i: nat, t: int): (s': State)
    requires Valid(s)
    ensures Valid(s') && |s'.events| == |s.events|
    decreases |s.events| - i
  {
    if i >= |s.events| || !s.alive then s else TickFrom(TickEvent(s, i, t), i + 1, t)
  }

  function Tick(s: State, t: int): (s': State)
    requires Valid(s)
    ensures Valid(s') && |s'.events| == |s.events|
  {
    TickFrom(s, 0, t)
  }

  /* Runs */

  datatype Action = Post(program: nat, control: ControlPost) | At(time: int)

  /** After the clock thread has died there are no more turns. A post still appends its control to the
      list, but the loop flag stays up and the post is never answered. */
  function Step(s: State, a: Action): (s': State)
    requires Valid(s)
    ensures Valid(s')
  {
    match a
    case Post(d, c) => PostControl(s, d, c).0
    case At(t) => if s.alive then Tick(s, t) else s
  }

  function Run(s: State, actions: seq<Action>): (s': State)
    requires Valid(s)
    ensures Valid(s')
    decreases |actions|
  {
    if actions == [] then s else Run(Step(s, actions[0]), actions[1..])
  }

  /** What initialisation leaves: programs, their empty control lists, and the indexed active lists. */
  function Initial(programs: seq<Links>, indexed: set<nat>): (s: State)
    ensures Valid(s)
  {
    State(programs,
          map d | 0 <= d < |programs| :: programs[d].controls := [],
          [], [],
          map p | p in indexed :: ActiveHref(p) := [],
          [], true)
  }
}
