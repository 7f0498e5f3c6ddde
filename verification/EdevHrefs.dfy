/** The hrefs of end devices and their sub-resources: EdevHref. */
module EdevHrefs {
  import opened Wrappers
  import opened Text
  import opened ListStore
  import opened ProgramHrefs

  const EDEV_ROOT := "/edev"

  datatype DeviceSub =
    | NoDeviceSub | Registration | DeviceStatus | PowerStatus | FunctionSetAssignments | LogEventList
    | DeviceInformation | Der

  datatype DerSub = NoDerSub | Capability | Settings | Status | Availability | CurrentProgram

  /** The value of an enumeration member; the empty members have the integer -1, which is no text. */
  function DeviceTag(s: DeviceSub): string
    requires !s.NoDeviceSub?
  {
    match s
    case Registration => "rg"
    case DeviceStatus => "dstat"
    case PowerStatus => "ps"
    case FunctionSetAssignments => "fsa"
    case LogEventList => "lel"
    case DeviceInformation => "di"
    case Der => "der"
  }

  function DerTag(s: DerSub): string
    requires !s.NoDerSub?
  {
    match s
    case Capability => "dercap"
    case Settings => "derg"
    case Status => "ders"
    case Availability => "dera"
    case CurrentProgram => "derp"
  }

  /** `EDevSubType(text)` */
  function DeviceSubOf(tag: string): Result<DeviceSub> {
    if tag == "rg" then Ok(Registration)
    else if tag == "dstat" then Ok(DeviceStatus)
    else if tag == "ps" then Ok(PowerStatus)
    else if tag == "fsa" then Ok(FunctionSetAssignments)
    else if tag == "lel" then Ok(LogEventList)
    else if tag == "di" then Ok(DeviceInformation)
    else if tag == "der" then Ok(Der)
    else Raise(ValueError)
  }

  /** `DERSubType(text)` */
  function DerSubOf(tag: string): Result<DerSub> {
    if tag == "dercap" then Ok(Capability)
    else if tag == "derg" then Ok(Settings)
    else if tag == "ders" then Ok(Status)
    else if tag == "dera" then Ok(Availability)
    else if tag == "derp" then Ok(CurrentProgram)
    else Raise(ValueError)
  }

  datatype EdevHref = EdevHref(index: int, sub: DeviceSub, subindex: int, derSub: DerSub)

  /** The parts that `__str__` appends, each only when its field is set. */
  function Parts(h: EdevHref): seq<string> {
    [EDEV_ROOT]
    + (if h.index != NO_INDEX then [StrInt(h.index)] else [])
    + (if !h.sub.NoDeviceSub? then [DeviceTag(h.sub)] else [])
    + (if h.subindex != NO_INDEX then [StrInt(h.subindex)] else [])
    + (if !h.derSub.NoDerSub? then [DerTag(h.derSub)] else [])
  }

  /** `EdevHref.__str__`, field by field. */
  method Str(h: EdevHref) returns (value: string)
    ensures value == Join(Parts(h))
  {
    value := EDEV_ROOT;
    ghost var parts := [EDEV_ROOT];
    if h.index != NO_INDEX {
      JoinSnoc(parts, StrInt(h.index));
      value, parts := Sub(value, StrInt(h.index)), parts + [StrInt(h.index)];
    }
    if !h.sub.NoDeviceSub? {
      JoinSnoc(parts, DeviceTag(h.sub));
      value, parts := Sub(value, DeviceTag(h.sub)), parts + [DeviceTag(h.sub)];
    }
    if h.subindex != NO_INDEX {
      JoinSnoc(parts, StrInt(h.subindex));
      value, parts := Sub(value, StrInt(h.subindex)), parts + [StrInt(h.subindex)];
    }
    if !h.derSub.NoDerSub? {
      JoinSnoc(parts, DerTag(h.derSub));
      value, parts := Sub(value, DerTag(h.derSub)), parts + [DerTag(h.derSub)];
    }
    assert parts == Parts(h);
  }

  /** `EdevHref.parse`: the first part may stand with or without its slash. */
  function Parse(path: string): Result<EdevHref> {
    ParseParts(Split(path))
  }

  function ParseParts(parts: seq<string>): Result<EdevHref>
    requires parts != []
  {
    if parts[0] != "edev" && (parts[0] == "" || parts[0][1..] != "edev") then Raise(ValueError)
    else if |parts| == 1 then Ok(EdevHref(NO_INDEX, NoDeviceSub, NO_INDEX, NoDerSub))
    else if |parts| > 5 then Raise(ValueError)
    else
      var index :- IntPart(parts[1]);
      if |parts| == 2 then Ok(EdevHref(index, NoDeviceSub, NO_INDEX, NoDerSub))
      else
        var sub :- DeviceSubOf(parts[2]);
        if |parts| == 3 then Ok(EdevHref(index, sub, NO_INDEX, NoDerSub))
        else
          var subindex :- IntPart(parts[3]);
          if |parts| == 4 then Ok(EdevHref(index, sub, subindex, NoDerSub))
          else
            var derSub :- DerSubOf(parts[4]);
            Ok(EdevHref(index, sub, subindex, derSub))
  }

  /** No field is set unless every field to its left is. */
  predicate PrefixFilled(h: EdevHref) {
    && (h.index == NO_INDEX ==> h.sub.NoDeviceSub?)
    && (h.sub.NoDeviceSub? ==> h.subindex == NO_INDEX)
    && (h.subindex == NO_INDEX ==> h.derSub.NoDerSub?)
  }

  lemma PartsSepFree(h: EdevHref)
    ensures forall k :: 0 <= k < |Parts(h)| ==> SepFree(Parts(h)[k])
  {
    StrIntValue(h.index);
    StrIntValue(h.subindex);
  }

  lemma TagsAreNoIntegers(h: EdevHref)
    ensures !h.sub.NoDeviceSub? ==> PyInt(DeviceTag(h.sub)).None? && DeviceSubOf(DeviceTag(h.sub)) == Ok(h.sub)
    ensures !h.derSub.NoDerSub? ==> PyInt(DerTag(h.derSub)).None? && DerSubOf(DerTag(h.derSub)) == Ok(h.derSub)
                                    && DeviceSubOf(DerTag(h.derSub)).Raise?
    ensures DeviceSubOf(StrInt(h.subindex)).Raise?
  {
    if !h.sub.NoDeviceSub? {
      assert DeviceTag(h.sub)[0] in {'r', 'd', 'p', 'f', 'l'};
    }
    if !h.derSub.NoDerSub? {
      assert DerTag(h.derSub)[0] == 'd';
    }
    assert StrInt(h.subindex)[0] == '-' || '0' <= StrInt(h.subindex)[0] <= '9';
  }

  /** Parsing what was printed returns the same fields exactly when they are filled from the left. */
  lemma EdevRoundTrip(h: EdevHref)
    ensures Parse(Join(Parts(h))) == Ok(h) <==> PrefixFilled(h)
  {
    hide Split;
    hide PyInt;
    hide StrInt;
    hide DeviceSubOf;
    hide DerSubOf;
    hide DeviceTag;
    hide DerTag;
    PartsSepFree(h);
    SplitJoin(Parts(h));
    StrIntValue(h.index);
    StrIntValue(h.subindex);
    TagsAreNoIntegers(h);
    assert "/edev"[1..] == "edev";
  }

  lemma TagOfSub(tag: string)
    ensures DeviceSubOf(tag).Ok? ==> !DeviceSubOf(tag).value.NoDeviceSub? && DeviceTag(DeviceSubOf(tag).value) == tag
    ensures DerSubOf(tag).Ok? ==> !DerSubOf(tag).value.NoDerSub? && DerTag(DerSubOf(tag).value) == tag
  {
  }

  /** An integer part as the printer writes it; -1 is the mark of an absent index and is left out. */
  predicate PrintedInt(part: string) {
    CanonicalInt(part) && part != "-1"
  }

  /** Printing what was parsed returns the same text exactly when the path starts with "/edev" and
      its integers are written as the printer writes them. */
  lemma EdevPrintParsed(path: string)
    requires Parse(path).Ok?
    ensures Join(Parts(Parse(path).value)) == path
       <==> var parts := Split(path);
            && parts[0] == EDEV_ROOT
            && (|parts| > 1 ==> PrintedInt(parts[1]))
            && (|parts| > 3 ==> PrintedInt(parts[3]))
  {
    hide Split;
    hide PyInt;
    hide StrInt;
    hide CanonicalInt;
    hide DeviceSubOf;
    hide DerSubOf;
    hide DeviceTag;
    hide DerTag;
    var parts := Split(path);
    var h := Parse(path).value;
    JoinSplit(path);
    PartsSepFree(h);
    SplitJoin(Parts(h));
    assert Join(Parts(h)) == path <==> Parts(h) == parts;
    if |parts| > 1 {
      StrIntOfCanonical(parts[1]);
      MinusOne(parts[1]);
    }
    if |parts| > 2 {
      TagOfSub(parts[2]);
    }
    if |parts| > 3 {
      StrIntOfCanonical(parts[3]);
      MinusOne(parts[3]);
    }
    if |parts| > 4 {
      TagOfSub(parts[4]);
    }
    PartsOfParsed(parts, h);
  }

  lemma MinusOne(part: string)
    requires PyInt(part).Some?
    ensures CanonicalInt(part) && PyInt(part).value == -1 ==> part == "-1"
    ensures part == "-1" ==> PyInt(part).value == -1
  {
    StrIntOfCanonical(part);
    assert Dec(1) == "1" && StrInt(-1) == "-1";
    StrIntValue(-1);
  }

  /** The printed parts against the parsed ones. */
  lemma PartsOfParsed(parts: seq<string>, h: EdevHref)
    requires parts != [] && ParseParts(parts) == Ok(h)
    requires |parts| > 1 ==> (StrInt(h.index) == parts[1] <==> CanonicalInt(parts[1]))
    requires |parts| > 1 ==> (CanonicalInt(parts[1]) && h.index == -1 ==> parts[1] == "-1")
    requires |parts| > 1 ==> (parts[1] == "-1" ==> h.index == -1)
    requires |parts| > 3 ==> (StrInt(h.subindex) == parts[3] <==> CanonicalInt(parts[3]))
    requires |parts| > 3 ==> (CanonicalInt(parts[3]) && h.subindex == -1 ==> parts[3] == "-1")
    requires |parts| > 3 ==> (parts[3] == "-1" ==> h.subindex == -1)
    requires |parts| > 2 ==> !h.sub.NoDeviceSub? && DeviceTag(h.sub) == parts[2]
    requires |parts| > 4 ==> !h.derSub.NoDerSub? && DerTag(h.derSub) == parts[4]
    ensures Parts(h) == parts
       <==> && parts[0] == EDEV_ROOT
            && (|parts| > 1 ==> PrintedInt(parts[1]))
            && (|parts| > 3 ==> PrintedInt(parts[3]))
  {
    hide PyInt;
    hide StrInt;
    hide CanonicalInt;
    hide DeviceSubOf;
    hide DerSubOf;
    hide DeviceTag;
    hide DerTag;
    var n := |Parts(h)|;
    assert Parts(h)[0] == EDEV_ROOT;
    if |parts| > 1 && h.index == NO_INDEX {
      assert n < |parts|;
    } else if |parts| > 1 {
      assert Parts(h)[1] == StrInt(h.index);
      if |parts| > 3 && h.subindex == NO_INDEX {
        assert n < |parts|;
      } else if |parts| > 3 {
        assert Parts(h)[3] == StrInt(h.subindex);
      }
    }
  }

  /* The texts themselves */

  /** What each path of device i, and of its DER j, stands for. */
  predicate Names(tag: string, sub: DeviceSub) {
    (tag, sub) in {("rg", Registration), ("dstat", DeviceStatus), ("ps", PowerStatus), ("fsa", FunctionSetAssignments),
                   ("lel", LogEventList), ("di", DeviceInformation), ("der", Der)}
  }

  predicate NamesDer(tag: string, sub: DerSub) {
    (tag, sub) in {("dercap", Capability), ("derg", Settings), ("ders", Status), ("dera", Availability),
                   ("derp", CurrentProgram)}
  }

  /** A text is read as a sub-resource of a device, or of a DER, if and only if it is that one's name. */
  lemma EdevPathsRead(i: nat, j: nat, tag: string)
    requires SepFree(tag)
    ensures Parse(Join(["/edev", Dec(i)])) == Ok(EdevHref(i, NoDeviceSub, -1, NoDerSub))
    ensures forall sub :: Parse(Join(["/edev", Dec(i), tag])) == Ok(EdevHref(i, sub, -1, NoDerSub)) <==> Names(tag, sub)
    ensures forall sub :: Parse(Join(["/edev", Dec(i), "der", Dec(j), tag])) == Ok(EdevHref(i, Der, j, sub))
                          <==> NamesDer(tag, sub)
    ensures forall sub :: Names(tag, sub) ==>
                            Parse(Join(["/edev", Dec(i), tag, Dec(j)])) == Ok(EdevHref(i, sub, j, NoDerSub))
  {
    hide Split;
    hide Join;
    hide PyInt;
    DecValue(i);
    DecValue(j);
    SplitJoin(["/edev", Dec(i)]);
    SplitJoin(["/edev", Dec(i), tag]);
    SplitJoin(["/edev", Dec(i), tag, Dec(j)]);
    SplitJoin(["/edev", Dec(i), "der", Dec(j), tag]);
    assert "/edev"[1..] == "edev";
  }

  /** The slash may be missing; another first part is refused, and so is a text that names nothing. */
  lemma EdevPathsRefused(first: string, i: nat, tag: string)
    requires SepFree(first) && SepFree(tag)
    ensures first == "edev" ==>
              Parse(Join([first, Dec(i), tag])) == Parse(Join(["/edev", Dec(i), tag]))
    ensures (first == "" || (first != "edev" && first[1..] != "edev")) ==>
              Parse(Join([first, Dec(i), tag])) == Raise(ValueError)
    ensures (forall sub :: !Names(tag, sub)) ==> Parse(Join(["/edev", Dec(i), tag])) == Raise(ValueError)
  {
    hide Split;
    hide Join;
    hide PyInt;
    DecValue(i);
    SplitJoin([first, Dec(i), tag]);
    SplitJoin(["/edev", Dec(i), tag]);
    assert "/edev"[1..] == "edev";
    if forall sub :: !Names(tag, sub) {
      assert DeviceSubOf(tag).Ok? ==> Names(tag, DeviceSubOf(tag).value);
    }
  }
}
