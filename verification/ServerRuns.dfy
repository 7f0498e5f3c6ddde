/** DER events on a server set up from a configuration. */
module ServerRuns {
  import opened Wrappers
  import opened ListStore
  import opened ProgramHrefs
  import opened DerEvents
  import opened DerInvariant
  import opened DerTheorems
  import opened DerSolo
  import opened DerLifecycle
  import opened DerReposts
  import opened Initialise

  /** The numbers of the programs the configuration lists. */
  predicate Configured(c: Config, p: nat) {
    var base := if c.defaultProgram.Some? then 1 else 0;
    base <= p < base + c.programs
  }

  lemma {:induction false} AddProgramsIndexed(k: nat, o: Setup)
    ensures forall p: nat :: p in AddPrograms(k, o).indexed <==> p in o.indexed || |o.owners| <= p < |o.owners| + k
    decreases k
  {
    if k > 0 {
      var n := |o.owners|;
      AddProgramsIndexed(k - 1, o.(owners := o.owners + [n], indexed := o.indexed + {n}));
    }
  }

  lemma {:induction false} AddDersKeepsIndexed(c: Config, fsas: seq<Assignment>, k: nat, o: Setup)
    ensures AddDers(c, fsas, k, o).indexed == o.indexed
    decreases k
  {
    if k > 0 && o.Completes() {
      var (o', fsas') := AddDer(c, fsas, o);
      AddDersKeepsIndexed(c, fsas', k - 1, o');
    }
  }

  lemma {:induction false} AddDevicesKeepsIndexed(c: Config, ds: seq<DeviceConfig>, o: Setup)
    ensures AddDevices(c, ds, o).indexed == o.indexed
    decreases |ds|
  {
    if ds != [] && o.Completes() {
      AddDersKeepsIndexed(c, Unlinked(ds[0].fsas), ds[0].ders, o);
      AddDevicesKeepsIndexed(c, ds[1..], AddDevice(c, ds[0], o));
    }
  }

  /** Only the programs the configuration lists get an indexed active list: neither its default
      program nor the programs made for DERs. */
  lemma IndexedAreConfigured(c: Config)
    ensures forall p: nat :: p in Initialised(c).indexed <==> Configured(c, p)
  {
    AddProgramsIndexed(c.programs, Start(c));
    AddDevicesKeepsIndexed(c, c.devices, AddPrograms(c.programs, Start(c)));
  }

  /** The state the clock thread starts in. */
  function Server(c: Config): (s: State)
    ensures Valid(s)
  {
    var o := Initialised(c);
    Initial(LinksOfOwners(o.owners), o.indexed)
  }

  /** Controls are posted to configured programs only. */
  predicate ToConfigured(c: Config, actions: seq<Action>) {
    forall k :: 0 <= k < |actions| && actions[k].Post? ==> Configured(c, actions[k].program)
  }

  lemma ServerIndexes(c: Config, actions: seq<Action>)
    requires PlainPosts(actions) && ToConfigured(c, actions)
    ensures ProgramsOk(Server(c).programs) && Good(Server(c)) && Server(c).alive
    ensures forall p: nat :: Configured(c, p) ==> p in Initialised(c).indexed
    ensures Run(Server(c), actions).alive && AllIndexed(Run(Server(c), actions))
  {
    hide PlainPosts;
    hide ProgramsOk;
    hide Good;
    hide Run;
    hide ActiveHref;
    hide ControlListHref;
    hide ProgramIndex;
    var o := Initialised(c);
    var programs := LinksOfOwners(o.owners);
    InitialisationSound(c);
    IndexedAreConfigured(c);
    InitialGood(programs, o.indexed);
    var s0 := Server(c);
    assert ToIndexed(s0, actions) by {
      forall k | 0 <= k < |actions| && actions[k].Post? && actions[k].program < |s0.programs|
        ensures s0.programs[actions[k].program].active in s0.active
      {
        var d := actions[k].program;
        assert d in o.indexed && o.owners[d] == d && s0.programs[d] == LinksOf(d);
        assert ActiveHref(d) in s0.active;
      }
    }
    IndexedRunSurvives(s0, actions);
  }

  /** On a server set up from any configuration, posts of controls without a status to the configured
      programs, in any order with ticks at any times, never end the clock thread, and the active list
      of each configured program is always exactly the set of its events with status 1. */
  lemma ConfiguredProgramsAgree(c: Config, actions: seq<Action>, p: nat)
    requires PlainPosts(actions) && ToConfigured(c, actions) && Configured(c, p)
    ensures var s := Run(Server(c), actions);
            && s.alive && ActiveHref(p) in s.active && NoDuplicates(s.active[ActiveHref(p)])
            && forall m :: Listed(s.active[ActiveHref(p)], m)
                           <==> exists i: nat :: i < |s.events| && ProgramOf(s, i) == p && s.events[i].mrid == m
                                                 && StatusOf(s, i).current == Some(ACTIVE)
  {
    hide PlainPosts;
    hide ProgramsOk;
    hide Good;
    hide Run;
    hide ActiveHref;
    hide ProgramIndex;
    ServerIndexes(c, actions);
    var o := Initialised(c);
    ActiveListsAgree(LinksOfOwners(o.owners), o.indexed, actions, p);
  }

  lemma {:induction false} OrderlyIsPlain(s: State, now: int, actions: seq<Action>)
    requires Valid(s) && Orderly(s, now, actions)
    ensures PlainPosts(actions)
    decreases |actions|
  {
    hide Step;
    hide SafeRepost;
    hide Plain;
    if actions != [] {
      OrderlyIsPlain(Step(s, actions[0]), if actions[0].At? then actions[0].time else now, actions[1..]);
      assert forall k :: 1 <= k < |actions| ==> actions[k] == actions[1..][k - 1];
    }
  }

  /** On such a server, after any orderly run, the next post of a control keeps events safe, whatever
      orderly run follows, if and only if it does not repeat the mRID of the first control of its
      program, or its window is shorter than two seconds, or over. */
  lemma ConfiguredRepostIff(c: Config, now: int, actions: seq<Action>, d: nat, post: ControlPost)
    requires Orderly(Server(c), now, actions) && ToConfigured(c, actions) && Plain(post)
    ensures var s, t := Run(Server(c), actions), LastTick(now, actions);
            var s' := PostControl(s, d, post).0;
            (forall more :: Orderly(s', t, more) ==> AllLegal(Run(s', more)))
            <==> !(RepeatsFirst(s, d, post) && post.duration >= 2 && t < post.start + post.duration)
  {
    hide PlainPosts;
    hide ProgramsOk;
    hide Good;
    hide Sound;
    hide Orderly;
    hide AllLegal;
    hide RepeatsFirst;
    hide SafeRepost;
    hide AllIndexed;
    hide ActiveHref;
    hide ProgramIndex;
    OrderlyIsPlain(Server(c), now, actions);
    ServerIndexes(c, actions);
    InitialisationSound(c);
    var o := Initialised(c);
    InitialSound(LinksOfOwners(o.owners), o.indexed, now);
    RunSound(Server(c), now, actions);
    var s, t := Run(Server(c), actions), LastTick(now, actions);
    RepostSafeIff(s, t, d, post);
    RepostSafeInNumbers(s, t, d, post);
  }
}
