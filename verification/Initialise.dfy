/** The program and device loops of initialize_2030_5: which configurations it gets through, that
    every program can be found under its own href, and how DERs are numbered. */
module Initialise {
  import opened Wrappers
  import opened Text
  import opened ListStore
  import opened ProgramHrefs
  import opened DerEvents
  import opened DerInvariant

  const DER_ROOT := "/der"

  /** `known`: the end device is stored already, so only its identifiers are refreshed. */
  datatype DeviceConfig = DeviceConfig(known: bool, ders: nat, fsas: nat)

  /** The default program's primacy may be left out; `defaultControl` says whether there is one. */
  datatype Config = Config(
    defaultProgram: Option<Option<int>>,
    defaultControl: bool,
    programs: nat,
    devices: seq<DeviceConfig>,
    includeDefaultDer: bool)

  function DerHref(n: nat): string {
    Sub(DER_ROOT, Dec(n))
  }

  /* Function set assignments of one device */

  /** A program as a list of an assignment holds it. */
  datatype Linked = Linked(program: nat, primacy: Option<int>)

  /** A function set assignment, by its list of programs if it is linked to one. */
  type Assignment = Option<seq<Linked>>

  /** `get_list` raises when the device has no assignment; otherwise the first one gets the program. */
  function LinkFirst(fsas: seq<Assignment>, l: Linked): Result<seq<Assignment>> {
    if fsas == [] then Raise(KeyError) else Ok(fsas[0 := Some(fsas[0].GetOr([]) + [l])])
  }

  /** The inner loop: the first program it meets is kept, and every primacy is compared. */
  function ScanPrograms(ps: seq<Linked>, current: Option<nat>): Result<Option<nat>>
    decreases |ps|
  {
    if ps == [] then Ok(current)
    else if ps[0].primacy.None? then Raise(TypeError)
    else ScanPrograms(ps[1..], if current.None? then Some(ps[0].program) else current)
  }

  /** The outer loop: an assignment without a program list has no link to take an href from. */
  function ScanAssignments(fsas: seq<Assignment>, current: Option<nat>): Result<Option<nat>>
    decreases |fsas|
  {
    if fsas == [] then Ok(current)
    else if fsas[0].None? then Raise(AttributeError)
    else
      var next :- ScanPrograms(fsas[0].value, current);
      ScanAssignments(fsas[1..], next)
  }

  /** The program that a DER is linked to. */
  function CurrentProgram(fsas: seq<Assignment>): Result<nat> {
    var current :- ScanAssignments(fsas, None);
    match current
    case None => Raise(AttributeError)
    case Some(p) => Ok(p)
  }

  function Unlinked(n: nat): (fsas: seq<Assignment>)
    ensures |fsas| == n && forall k :: 0 <= k < n ==> fsas[k].None?
  {
    seq(n, _ => None)
  }

  /* What initialisation computes */

  /** Entry d of "/derp" is the program numbered owners[d]; `ders` are the hrefs given to DERs, `current`
      the programs they are linked to, and `globalCount` the counter they are numbered from. */
  datatype Setup = Setup(owners: seq<nat>, indexed: set<nat>, ders: seq<string>, current: seq<nat>, globalCount: nat,
                         raised: Option<Exn>)
  {
    predicate Completes() { raised.None? }
  }

  /** A DER of a device takes the next number and gets a program of its own, a copy of the default one,
      which is appended twice; then it is linked to the first program of its device's assignments. */
  function AddDer(c: Config, fsas: seq<Assignment>, o: Setup): (Setup, seq<Assignment>) {
    var n := |o.owners|;
    var o1 := o.(ders := o.ders + [DerHref(o.globalCount)], globalCount := o.globalCount + 1);
    if c.defaultProgram.None? || !c.defaultControl then (o1.(raised := Some(AttributeError)), fsas)
    else
      var o2 := o1.(owners := o.owners + [n, n]);
      match LinkFirst(fsas, Linked(n, c.defaultProgram.value))
      case Raise(e) => (o2.(raised := Some(e)), fsas)
      case Ok(fsas') =>
        match CurrentProgram(fsas')
        case Raise(e) => (o2.(raised := Some(e)), fsas')
        case Ok(p) => (o2.(current := o2.current + [p]), fsas')
  }

  function AddDers(c: Config, fsas: seq<Assignment>, k: nat, o: Setup): Setup
    decreases k
  {
    if k == 0 || !o.Completes() then o
    else
      var (o', fsas') := AddDer(c, fsas, o);
      AddDers(c, fsas', k - 1, o')
  }

  function AddDevice(c: Config, d: DeviceConfig, o: Setup): Setup {
    if d.known then o
    else if d.ders > 0 then AddDers(c, Unlinked(d.fsas), d.ders, o)
    else if c.includeDefaultDer then
      if c.defaultProgram.None? then o.(raised := Some(ConfigurationError))
      else o.(ders := o.ders + [DerHref(o.globalCount)], current := o.current + [0], globalCount := o.globalCount + 1)
    else o
  }

  function AddDevices(c: Config, ds: seq<DeviceConfig>, o: Setup): Setup
    decreases |ds|
  {
    if ds == [] || !o.Completes() then o else AddDevices(c, ds[1..], AddDevice(c, ds[0], o))
  }

  /** Programs of the configuration are numbered as they come, and only they get an indexed list. */
  function AddPrograms(k: nat, o: Setup): Setup
    decreases k
  {
    if k == 0 then o
    else
      var n := |o.owners|;
      AddPrograms(k - 1, o.(owners := o.owners + [n], indexed := o.indexed + {n}))
  }

  function Start(c: Config): Setup {
    Setup(if c.defaultProgram.Some? then [0] else [], {}, [], [], 0, None)
  }

  function Initialised(c: Config): Setup {
    AddDevices(c, c.devices, AddPrograms(c.programs, Start(c)))
  }

  /* Its properties */

  ghost predicate OwnersOk(owners: seq<nat>) {
    forall d :: 0 <= d < |owners| ==> owners[d] <= d && owners[owners[d]] == owners[d]
  }

  /** The ders are numbered from 0 without a gap or a repeat. */
  ghost predicate Numbered(ders: seq<string>) {
    forall k :: 0 <= k < |ders| ==> ders[k] == DerHref(k)
  }

  ghost predicate SoundSetup(o: Setup) {
    && OwnersOk(o.owners) && Numbered(o.ders) && o.globalCount == |o.ders|
    && (forall p :: p in o.indexed ==> p < |o.owners| && o.owners[p] == p)
    && (o.Completes() ==> |o.current| == |o.ders|)
    && forall k :: 0 <= k < |o.current| ==> o.current[k] < |o.owners| && o.owners[o.current[k]] == o.current[k]
  }

  lemma {:induction false} AddProgramsSound(k: nat, o: Setup)
    requires SoundSetup(o)
    ensures var o' := AddPrograms(k, o);
            SoundSetup(o') && o'.raised == o.raised && o'.ders == o.ders && o'.globalCount == o.globalCount
    ensures |AddPrograms(k, o).owners| >= |o.owners| && AddPrograms(k, o).owners[..|o.owners|] == o.owners
    decreases k
  {
    hide DerHref;
    if k > 0 {
      var n := |o.owners|;
      var o' := o.(owners := o.owners + [n], indexed := o.indexed + {n});
      AddProgramsSound(k - 1, o');
      var o'' := AddPrograms(k, o);
      assert o''.owners[..n] == o''.owners[..n + 1][..n];
    }
  }

  /* Linking the DERs of one device */

  /** The assignments after some DERs: the first holds their programs, the first of them ahead. */
  ghost predicate LinkedTo(fsas: seq<Assignment>, n: nat, first: Option<nat>, primacy: Option<int>) {
    && |fsas| == n && (forall k :: 0 < k < n ==> fsas[k].None?)
    && (n > 0 ==> match first
                  case None => fsas[0].None?
                  case Some(p) =>
                    && fsas[0].Some? && fsas[0].value != [] && fsas[0].value[0].program == p
                    && forall k :: 0 <= k < |fsas[0].value| ==> fsas[0].value[k].primacy == primacy)
  }

  lemma {:induction false} ScanProgramsIs(ps: seq<Linked>, current: Option<nat>, primacy: Option<int>)
    requires forall k :: 0 <= k < |ps| ==> ps[k].primacy == primacy
    ensures ScanPrograms(ps, current) ==
            if ps == [] then Ok(current)
            else if primacy.None? then Raise(TypeError)
            else Ok(if current.None? then Some(ps[0].program) else current)
    decreases |ps|
  {
    if ps != [] && primacy.Some? {
      ScanProgramsIs(ps[1..], if current.None? then Some(ps[0].program) else current, primacy);
    }
  }

  /** Linking one DER more: the loops come through exactly when the device has one assignment and the
      program a primacy, and then find the program of its first DER. */
  lemma LinkOne(fsas: seq<Assignment>, n: nat, first: Option<nat>, l: Linked)
    requires LinkedTo(fsas, n, first, l.primacy)
    ensures if n > 0 then LinkFirst(fsas, l).Ok? else LinkFirst(fsas, l) == Raise(KeyError)
    ensures n > 0 ==>
              var fsas' := LinkFirst(fsas, l).value;
              && LinkedTo(fsas', n, Some(first.GetOr(l.program)), l.primacy)
              && CurrentProgram(fsas') ==
                 if l.primacy.None? then Raise(TypeError)
                 else if n > 1 then Raise(AttributeError)
                 else Ok(first.GetOr(l.program))
  {
    if n > 0 {
      var fsas' := LinkFirst(fsas, l).value;
      var ps := fsas'[0].value;
      assert forall k :: 0 <= k < |ps| ==> ps[k].primacy == l.primacy;
      ScanProgramsIs(ps, None, l.primacy);
      if l.primacy.Some? {
        assert ScanAssignments(fsas', None) == ScanAssignments(fsas'[1..], Some(ps[0].program));
        if n > 1 {
          assert fsas'[1..][0] == fsas'[1] == fsas[1];
        } else {
          assert fsas'[1..] == [];
        }
        assert ps[0].program == first.GetOr(l.program);
      }
    }
  }

  /** The exception that ends the loop over the DERs of a device with n assignments, if any. */
  function DerError(c: Config, n: nat): Option<Exn> {
    if c.defaultProgram.None? || !c.defaultControl then Some(AttributeError)
    else if n == 0 then Some(KeyError)
    else if c.defaultProgram.value.None? then Some(TypeError)
    else if n > 1 then Some(AttributeError)
    else None
  }

  lemma AddDerSound(c: Config, fsas: seq<Assignment>, n: nat, first: Option<nat>, o: Setup)
    requires SoundSetup(o) && o.Completes()
    requires c.defaultProgram.Some? ==> LinkedTo(fsas, n, first, c.defaultProgram.value)
    requires first.Some? ==> first.value < |o.owners| && o.owners[first.value] == first.value
    ensures var (o', fsas') := AddDer(c, fsas, o);
            var m := |o.owners|;
            && SoundSetup(o') && |o'.ders| == |o.ders| + 1
            && o'.raised == DerError(c, n)
            && (o'.Completes() ==>
                  && LinkedTo(fsas', n, Some(first.GetOr(m)), c.defaultProgram.value)
                  && o'.current == o.current + [first.GetOr(m)] && o'.owners == o.owners + [m, m])
  {
    hide DerHref;
    hide LinkedTo;
    hide CurrentProgram;
    hide LinkFirst;
    if c.defaultProgram.Some? && c.defaultControl {
      LinkOne(fsas, n, first, Linked(|o.owners|, c.defaultProgram.value));
    }
    var (o', fsas') := AddDer(c, fsas, o);
    forall i | 0 <= i < |o'.owners| ensures o'.owners[i] <= i && o'.owners[o'.owners[i]] == o'.owners[i] {
    }
    forall k | 0 <= k < |o'.current| ensures o'.current[k] < |o'.owners| && o'.owners[o'.current[k]] == o'.current[k] {
    }
  }

  /** The DERs of a device come through exactly when there are none, or a default program with a primacy
      and a default control, and one assignment on the device; all of them are then linked to the
      program that was made for the first. */
  lemma {:induction false} AddDersSound(c: Config, fsas: seq<Assignment>, n: nat, first: Option<nat>, k: nat, o: Setup)
    requires SoundSetup(o) && o.Completes()
    requires c.defaultProgram.Some? ==> LinkedTo(fsas, n, first, c.defaultProgram.value)
    requires first.Some? ==> first.value < |o.owners| && o.owners[first.value] == first.value
    ensures var o' := AddDers(c, fsas, k, o);
            && SoundSetup(o')
            && (o'.Completes() <==>
                k == 0 || (c.defaultProgram.Some? && c.defaultControl && n == 1 && c.defaultProgram.value.Some?))
            && o'.raised == (if k == 0 then None else DerError(c, n))
            && (o'.Completes() ==>
                  && |o'.ders| == |o.ders| + k && |o'.owners| == |o.owners| + 2 * k
                  && o'.current == o.current + seq(k, _ => first.GetOr(|o.owners|)))
    decreases k
  {
    hide SoundSetup;
    hide LinkedTo;
    hide AddDer;
    hide DerHref;
    if k == 0 {
      assert o.current + seq(0, _ => first.GetOr(|o.owners|)) == o.current;
    } else {
      AddDerSound(c, fsas, n, first, o);
      var (o', fsas') := AddDer(c, fsas, o);
      if o'.Completes() {
        var p := first.GetOr(|o.owners|);
        OwnerStays(o, o', p);
        AddDersSound(c, fsas', n, Some(p), k - 1, o');
        assert [p] + seq(k - 1, _ => p) == seq(k, _ => p);
      }
    }
  }

  lemma OwnerStays(o: Setup, o': Setup, p: nat)
    requires o'.owners == o.owners + [|o.owners|, |o.owners|]
    requires p == |o.owners| || (p < |o.owners| && o.owners[p] == p)
    ensures p < |o'.owners| && o'.owners[p] == p
  {
  }

  /** The exception that a device ends initialisation with, if any. */
  function DeviceError(c: Config, d: DeviceConfig): Option<Exn> {
    if d.known then None
    else if d.ders > 0 then DerError(c, d.fsas)
    else if c.includeDefaultDer && c.defaultProgram.None? then Some(ConfigurationError)
    else None
  }

  /** The programs that the DERs of these devices are linked to, when the next program made gets number n:
      those of one device to the program made for the first of them, and a DER that is only made
      because of the default to the default program. */
  function LinkedPrograms(c: Config, ds: seq<DeviceConfig>, n: nat): seq<nat>
    decreases |ds|
  {
    if ds == [] then []
    else if ds[0].known then LinkedPrograms(c, ds[1..], n)
    else if ds[0].ders > 0 then seq(ds[0].ders, _ => n) + LinkedPrograms(c, ds[1..], n + 2 * ds[0].ders)
    else if c.includeDefaultDer then [0] + LinkedPrograms(c, ds[1..], n)
    else LinkedPrograms(c, ds[1..], n)
  }

  /** What a configuration must have for a device, and the DERs it then brings. */
  predicate DeviceCompletes(c: Config, d: DeviceConfig) {
    d.known
    || if d.ders > 0 then c.defaultProgram.Some? && c.defaultControl && c.defaultProgram.value.Some? && d.fsas == 1
    else c.includeDefaultDer ==> c.defaultProgram.Some?
  }

  function DersOf(c: Config, d: DeviceConfig): nat {
    if d.known then 0 else if d.ders > 0 then d.ders else if c.includeDefaultDer then 1 else 0
  }

  function TotalDers(c: Config, ds: seq<DeviceConfig>): nat {
    if ds == [] then 0 else DersOf(c, ds[0]) + TotalDers(c, ds[1..])
  }

  /** A default program stands first. */
  ghost predicate DefaultFirst(c: Config, o: Setup) {
    c.defaultProgram.Some? ==> |o.owners| > 0 && o.owners[0] == 0
  }

  lemma AddDeviceSound(c: Config, d: DeviceConfig, o: Setup)
    requires SoundSetup(o) && o.Completes() && DefaultFirst(c, o)
    ensures SoundSetup(AddDevice(c, d, o)) && DefaultFirst(c, AddDevice(c, d, o))
    ensures AddDevice(c, d, o).Completes() <==> DeviceCompletes(c, d)
    ensures AddDevice(c, d, o).raised == DeviceError(c, d)
    ensures AddDevice(c, d, o).Completes() ==>
              var o' := AddDevice(c, d, o);
              && |o'.ders| == |o.ders| + DersOf(c, d)
              && o'.current == o.current + LinkedPrograms(c, [d], |o.owners|)
              && |o'.owners| == |o.owners| + if d.known then 0 else 2 * d.ders
  {
    hide DerHref;
    hide AddDers;
    AddDersSound(c, Unlinked(d.fsas), d.fsas, None, d.ders, o);
    LinkedProgramsOfOne(c, d, |o.owners|);
    OwnersGrow(c, Unlinked(d.fsas), d.ders, o);
  }

  lemma LinkedProgramsOfOne(c: Config, d: DeviceConfig, n: nat)
    ensures LinkedPrograms(c, [d], n)
         == if d.known then [] else if d.ders > 0 then seq(d.ders, _ => n) else if c.includeDefaultDer then [0] else []
  {
    assert [d][1..] == [];
    assert seq(d.ders, _ => n) + [] == seq(d.ders, _ => n);
  }

  lemma {:induction false} OwnersGrow(c: Config, fsas: seq<Assignment>, k: nat, o: Setup)
    ensures var o' := AddDers(c, fsas, k, o);
            |o'.owners| >= |o.owners| && o'.owners[..|o.owners|] == o.owners
    decreases k
  {
    hide CurrentProgram;
    hide LinkFirst;
    hide DerHref;
    if k > 0 && o.Completes() {
      var (o', fsas') := AddDer(c, fsas, o);
      OwnersGrow(c, fsas', k - 1, o');
      var o'' := AddDers(c, fsas, k, o);
      assert o'.owners[..|o.owners|] == o.owners;
      assert o''.owners[..|o.owners|] == o''.owners[..|o'.owners|][..|o.owners|];
    }
  }

  /** The exception of the first device that has one. */
  function FirstError(c: Config, ds: seq<DeviceConfig>): (e: Option<Exn>)
    ensures e.None? <==> forall k :: 0 <= k < |ds| ==> DeviceError(c, ds[k]).None?
    ensures e.Some? ==> exists k :: 0 <= k < |ds| && e == DeviceError(c, ds[k])
                                    && forall j :: 0 <= j < k ==> DeviceError(c, ds[j]).None?
  {
    if ds == [] then None
    else
      assert forall k :: 1 <= k < |ds| ==> ds[k] == ds[1..][k - 1];
      assert forall k :: 0 <= k < |ds| - 1 ==> ds[1..][k] == ds[k + 1];
      if DeviceError(c, ds[0]).Some? then DeviceError(c, ds[0]) else FirstError(c, ds[1..])
  }

  lemma {:induction false} AddDevicesSound(c: Config, ds: seq<DeviceConfig>, o: Setup)
    requires SoundSetup(o) && o.Completes() && DefaultFirst(c, o)
    ensures SoundSetup(AddDevices(c, ds, o))
    ensures AddDevices(c, ds, o).Completes() <==> forall k :: 0 <= k < |ds| ==> DeviceCompletes(c, ds[k])
    ensures AddDevices(c, ds, o).Completes() ==> |AddDevices(c, ds, o).ders| == |o.ders| + TotalDers(c, ds)
    ensures AddDevices(c, ds, o).Completes() ==>
              AddDevices(c, ds, o).current == o.current + LinkedPrograms(c, ds, |o.owners|)
    ensures AddDevices(c, ds, o).raised == FirstError(c, ds)
    decreases |ds|
  {
    hide AddDevice;
    hide DeviceCompletes;
    hide DersOf;
    hide DefaultFirst;
    hide SoundSetup;
    if ds != [] {
      AddDeviceSound(c, ds[0], o);
      var o' := AddDevice(c, ds[0], o);
      if o'.Completes() {
        AddDevicesSound(c, ds[1..], o');
        assert forall k :: 1 <= k < |ds| ==> ds[k] == ds[1..][k - 1];
      }
    }
  }

  /** The links of the entries of "/derp". */
  function LinksOfOwners(owners: seq<nat>): (ls: seq<Links>)
    ensures |ls| == |owners| && forall d :: 0 <= d < |owners| ==> ls[d] == LinksOf(owners[d])
  {
    seq(|owners|, d requires 0 <= d < |owners| => LinksOf(owners[d]))
  }

  /** Initialisation gets through a configuration exactly when each device has what DeviceCompletes
      asks for. Whether or not it does, the href of every entry of "/derp" names an entry that is the
      same program, and the DERs of all devices are numbered 0, 1, 2, ... in order; and every DER
      that was linked is linked to a program under that program's own number. */
  lemma InitialisationSound(c: Config)
    ensures var o := Initialised(c);
            && (o.Completes() <==> forall k :: 0 <= k < |c.devices| ==> DeviceCompletes(c, c.devices[k]))
            && (o.Completes() ==> |o.ders| == |o.current| == TotalDers(c, c.devices))
            && o.raised == FirstError(c, c.devices)
            && (o.Completes() ==>
                  var n := c.programs + if c.defaultProgram.Some? then 1 else 0;
                  o.current == LinkedPrograms(c, c.devices, n))
            && (forall k :: 0 <= k < |o.ders| ==> Split(o.ders[k]) == ["/der", Dec(k)])
            && (forall j, k :: 0 <= j < k < |o.ders| ==> o.ders[j] != o.ders[k])
            && o.globalCount == |o.ders| && OwnersOk(o.owners)
            && ProgramsOk(LinksOfOwners(o.owners))
            && (forall p :: p in o.indexed ==> p < |o.owners| && o.owners[p] == p)
            && forall k :: 0 <= k < |o.current| ==> o.current[k] < |o.owners| && o.owners[o.current[k]] == o.current[k]
  {
    hide DeviceCompletes;
    hide DerHref;
    hide Split;
    AddProgramsSound(c.programs, Start(c));
    AddProgramsOwners(c.programs, Start(c));
    var o1 := AddPrograms(c.programs, Start(c));
    assert c.defaultProgram.Some? ==> o1.owners[0] == o1.owners[..1][0];
    AddDevicesSound(c, c.devices, o1);
    var o := Initialised(c);
    OwnersGivePrograms(o.owners);
    NumberedParts(o.ders);
  }

  lemma {:induction false} AddProgramsOwners(k: nat, o: Setup)
    ensures |AddPrograms(k, o).owners| == |o.owners| + k && AddPrograms(k, o).current == o.current
    decreases k
  {
    if k > 0 {
      var n := |o.owners|;
      AddProgramsOwners(k - 1, o.(owners := o.owners + [n], indexed := o.indexed + {n}));
    }
  }

  lemma NumberedParts(ders: seq<string>)
    requires Numbered(ders)
    ensures forall k :: 0 <= k < |ders| ==> Split(ders[k]) == ["/der", Dec(k)]
    ensures forall j, k :: 0 <= j < k < |ders| ==> ders[j] != ders[k]
  {
    hide Sub;
    forall k: nat ensures Split(DerHref(k)) == ["/der", Dec(k)] {
      DecValue(k);
      SplitSepFree(DER_ROOT);
      SplitSub(DER_ROOT, Dec(k));
    }
    hide Split;
    hide DerHref;
    forall j, k | 0 <= j < k < |ders| ensures ders[j] != ders[k] {
      if ders[j] == ders[k] {
        assert ["/der", Dec(j)][1] == ["/der", Dec(k)][1];
        DecInjective(j, k);
      }
    }
  }

  lemma OwnersGivePrograms(owners: seq<nat>)
    requires OwnersOk(owners)
    ensures ProgramsOk(LinksOfOwners(owners))
  {
    var programs := LinksOfOwners(owners);
    forall d | 0 <= d < |programs| ensures Owned(programs, d) {
      var c := owners[d];
      assert c < |programs| && programs[d] == LinksOf(c) && programs[c] == LinksOf(c);
    }
  }

  /* The loops themselves */

  class DERProgram {
    var href: string
    var links: Links

    constructor (href: string, links: Links)
      ensures this.href == href && this.links == links
    {
      this.href, this.links := href, links;
    }

    /** DERProgramHref.fill_hrefs */
    method FillHrefs(program: nat)
      modifies this
      ensures href == Root(program) && links == LinksOf(program)
    {
      href, links := Root(program), LinksOf(program);
    }
  }

  class Initialiser {
    var derp: seq<DERProgram>    // the list "/derp"
    var indexed: set<nat>
    var ders: seq<string>
    var current: seq<nat>        // the programs the DERs are linked to
    var derGlobalCount: nat

    ghost var owners: seq<nat>

    /** Entries with the same owner are one object, and each object has the links of its owner. */
    ghost predicate Valid()
      reads this, derp
    {
      && |owners| == |derp| && OwnersOk(owners)
      && (forall d :: 0 <= d < |derp| ==> derp[d] == derp[owners[d]])
      && (forall d :: 0 <= d < |derp| ==> derp[d].href == Root(owners[d]) && derp[d].links == LinksOf(owners[d]))
    }

    /** The default program of the configuration is appended before its hrefs are filled. */
    method AddDefaultProgram()
      requires Valid() && derp == []
      modifies this
      ensures Valid() && owners == [0] && |derp| == 1 && fresh(derp[0])
      ensures indexed == old(indexed) && ders == old(ders) && current == old(current)
      ensures derGlobalCount == old(derGlobalCount)
    {
      var program := new DERProgram("", Links("", ""));
      derp := derp + [program];
      program.FillHrefs(0);
      owners := [0];
    }

    method AddProgram()
      requires Valid()
      modifies this
      ensures Valid() && owners == old(owners) + [|old(owners)|] && derp[..|old(derp)|] == old(derp)
      ensures |derp| == |old(derp)| + 1 && fresh(derp[|old(derp)|])
      ensures indexed == old(indexed) + {|old(owners)|} && ders == old(ders) && current == old(current)
      ensures derGlobalCount == old(derGlobalCount)
    {
      var n := |derp|;
      var program := new DERProgram("", Links("", ""));
      program.FillHrefs(n);
      derp := derp + [program];
      indexed := indexed + {n};
      owners := owners + [n];
    }

    /** create_der_program_and_control: a copy of the default program is appended, its hrefs are
        filled, and it is appended again. */
    method CreateDerProgram(template: DERProgram) returns (program: DERProgram)
      requires Valid() && template in derp
      modifies this
      ensures Valid() && owners == old(owners) + [|old(owners)|, |old(owners)|]
      ensures derp == old(derp) + [program, program] && fresh(program)
      ensures indexed == old(indexed) && ders == old(ders) && current == old(current)
      ensures derGlobalCount == old(derGlobalCount)
    {
      var n := |derp|;
      program := new DERProgram(template.href, template.links);
      derp := derp + [program];
      program.FillHrefs(n);
      derp := derp + [program];
      owners := owners + [n, n];
    }

    /** The two loops over the programs of the assignments. */
    method FindCurrent(fsas: seq<Assignment>) returns (r: Result<nat>)
      ensures r == CurrentProgram(fsas)
    {
      var current: Option<nat> := None;
      var i := 0;
      while i < |fsas|
        invariant 0 <= i <= |fsas|
        invariant ScanAssignments(fsas, None) == ScanAssignments(fsas[i..], current)
      {
        if fsas[i].None? {
          return Raise(AttributeError);
        }
        var ps := fsas[i].value;
        ghost var before := current;
        var k := 0;
        while k < |ps|
          invariant 0 <= k <= |ps|
          invariant ScanPrograms(ps, before) == ScanPrograms(ps[k..], current)
        {
          assert ps[k..][0] == ps[k] && ps[k..][1..] == ps[k + 1..];
          if ps[k].primacy.None? {
            return Raise(TypeError);
          }
          if current.None? {
            current := Some(ps[k].program);
          }
          k := k + 1;
        }
        assert fsas[i..][0] == fsas[i] && fsas[i..][1..] == fsas[i + 1..];
        i := i + 1;
      }
      match current {
        case None => return Raise(AttributeError);
        case Some(p) => return Ok(p);
      }
    }

    /** What the loops have set up so far, and how they ended. */
    ghost function Model(raised: Option<Exn>): Setup
      reads this
    {
      Setup(owners, indexed, ders, current, derGlobalCount, raised)
    }

    /** One DER of a device, with the exception that ends the loop, if any. */
    method AddDerOf(c: Config, fsas: seq<Assignment>) returns (raised: Option<Exn>, linked: seq<Assignment>)
      requires Valid() && (c.defaultProgram.Some? ==> |derp| > 0)
      modifies this
      ensures Valid() && |derp| >= |old(derp)|
      ensures (Model(raised), linked) == AddDer(c, fsas, old(Model(None)))
    {
      hide CurrentProgram;
      linked := fsas;
      ders := ders + [DerHref(derGlobalCount)];
      derGlobalCount := derGlobalCount + 1;
      if c.defaultProgram.None? || !c.defaultControl {
        return Some(AttributeError), linked;
      }
      var n := |derp|;
      var program := CreateDerProgram(derp[0]);
      if linked == [] {
        return Some(KeyError), linked;
      }
      linked := linked[0 := Some(linked[0].GetOr([]) + [Linked(n, c.defaultProgram.value)])];
      var found := FindCurrent(linked);
      match found {
        case Raise(e) =>
          return Some(e), linked;
        case Ok(p) =>
          current := current + [p];
          return None, linked;
      }
    }

    /** The DERs of one device, with its assignments, which start without programs. */
    method AddDersOf(c: Config, device: DeviceConfig) returns (raised: Option<Exn>)
      requires Valid() && (c.defaultProgram.Some? ==> |derp| > 0)
      modifies this
      ensures Valid() && |derp| >= |old(derp)|
      ensures Model(raised) == AddDers(c, Unlinked(device.fsas), device.ders, old(Model(None)))
    {
      hide AddDer;
      hide OwnersOk;
      var fsas: seq<Assignment> := [];
      var i := 0;
      while i < device.fsas
        invariant 0 <= i <= device.fsas && fsas == Unlinked(i)
      {
        fsas := fsas + [None];
        i := i + 1;
      }
      var k := 0;
      while k < device.ders
        invariant 0 <= k <= device.ders && Valid() && |derp| >= |old(derp)|
        invariant AddDers(c, Unlinked(device.fsas), device.ders, old(Model(None)))
               == AddDers(c, fsas, device.ders - k, Model(None))
      {
        raised, fsas := AddDerOf(c, fsas);
        if raised.Some? {
          return;
        }
        k := k + 1;
      }
      return None;
    }

    method AddDeviceOf(c: Config, device: DeviceConfig) returns (raised: Option<Exn>)
      requires Valid() && (c.defaultProgram.Some? ==> |derp| > 0)
      modifies this
      ensures Valid() && |derp| >= |old(derp)|
      ensures Model(raised) == AddDevice(c, device, old(Model(None)))
    {
      if device.known {
        return None;
      } else if device.ders > 0 {
        raised := AddDersOf(c, device);
      } else if c.includeDefaultDer {
        if c.defaultProgram.None? {
          return Some(ConfigurationError);
        }
        ders := ders + [DerHref(derGlobalCount)];
        derGlobalCount := derGlobalCount + 1;
        current := current + [0];
        return None;
      } else {
        return None;
      }
    }

    /** The loops of initialize_2030_5, with the exception that ends them, if any. */
    method Initialize(c: Config) returns (raised: Option<Exn>)
      requires derp == [] && owners == [] && indexed == {} && ders == [] && current == []
      modifies this
      ensures Valid() && Model(raised) == Initialised(c)
    {
      hide AddDevice;
      derGlobalCount := 0;
      if c.defaultProgram.Some? {
        AddDefaultProgram();
      }
      var i := 0;
      while i < c.programs
        invariant 0 <= i <= c.programs && Valid() && (c.defaultProgram.Some? ==> |derp| > 0)
        invariant AddPrograms(c.programs, Start(c)) == AddPrograms(c.programs - i, Model(None))
      {
        AddProgram();
        i := i + 1;
      }
      i := 0;
      while i < |c.devices|
        invariant 0 <= i <= |c.devices| && Valid() && (c.defaultProgram.Some? ==> |derp| > 0)
        invariant Initialised(c) == AddDevices(c, c.devices[i..], Model(None))
      {
        assert c.devices[i..][0] == c.devices[i] && c.devices[i..][1..] == c.devices[i + 1..];
        raised := AddDeviceOf(c, c.devices[i]);
        if raised.Some? {
          return;
        }
        i := i + 1;
      }
      return None;
    }
  }
}
