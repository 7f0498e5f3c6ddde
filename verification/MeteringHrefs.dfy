/** The href language of the usage-point and mirror-usage-point trees: the builders of
    UsagePointHref, the accessors of ParsedUsagePointHref, and that they are inverse. */
module MeteringHrefs {
  import opened Wrappers
  import opened Text

  const MUP_ROOT := "/mup"
  const UPT_ROOT := "/upt"

  /** Everything UsagePointHref can address below its root. */
  datatype Place =
    | UsagePoint(upt: nat)
    | MeterReadingList(upt: nat)
    | MeterReading(upt: nat, mr: nat)
    | ReadingType(upt: nat, mr: nat)
    | ReadingSetList(upt: nat, mr: nat)
    | ReadingSet(upt: nat, mr: nat, rs: nat)
    | SetReadingList(upt: nat, mr: nat, rs: nat)
    | SetReading(upt: nat, mr: nat, rs: nat, r: nat)
    | ReadingList(upt: nat, mr: nat)
    | Reading(upt: nat, mr: nat, r: nat)

  /** The builder methods of UsagePointHref, each on top of the one it calls. */
  function Href(root: string, p: Place): string
    decreases match p
              case UsagePoint(_) => 0
              case MeterReadingList(_) => 1
              case MeterReading(_, _) => 2
              case ReadingType(_, _) => 3
              case ReadingSetList(_, _) => 3
              case ReadingSet(_, _, _) => 4
              case SetReadingList(_, _, _) => 5
              case SetReading(_, _, _, _) => 6
              case ReadingList(_, _) => 3
              case Reading(_, _, _) => 4
  {
    match p
    case UsagePoint(i) => Join([root, Dec(i)])
    case MeterReadingList(i) => Join([root, Dec(i), "mr"])
    case MeterReading(i, j) => Join([Href(root, MeterReadingList(i)), Dec(j)])
    case ReadingType(i, j) => Join([Href(root, MeterReading(i, j)), "rt"])
    case ReadingSetList(i, j) => Join([Href(root, MeterReading(i, j)), "rs"])
    case ReadingSet(i, j, k) => Join([Href(root, ReadingSetList(i, j)), Dec(k)])
    case SetReadingList(i, j, k) => Join([Href(root, ReadingSet(i, j, k)), "r"])
    case SetReading(i, j, k, l) => Join([Href(root, SetReadingList(i, j, k)), Dec(l)])
    case ReadingList(i, j) => Join([Href(root, MeterReading(i, j)), "r"])
    case Reading(i, j, k) => Join([Href(root, ReadingList(i, j)), Dec(k)])
  }

  /** An integer property of ParsedUsagePointHref: only IndexError is caught, a ValueError escapes. */
  datatype Access = Index(value: int) | Absent | NotAnInteger

  function IntAt(path: string, k: nat): Access {
    var parts := Split(path);
    if k >= |parts| then Absent
    else match PyInt(parts[k])
         case Some(v) => Index(v)
         case None => NotAnInteger
  }

  predicate PartIs(path: string, k: nat, tag: string) {
    k < |Split(path)| && Split(path)[k] == tag
  }

  function LastList(path: string): string {
    var parts := Split(path);
    if IsNumeral(Last(parts)) then Join(parts[..|parts| - 1]) else path
  }

  function UsagePointIndex(path: string): Access {
    IntAt(path, 1)
  }

  predicate HasMeterReadingList(path: string) {
    PartIs(path, 2, "mr")
  }

  function MeterReadingIndex(path: string): Access {
    IntAt(path, 3)
  }

  predicate HasReadingType(path: string) {
    PartIs(path, 4, "rt")
  }

  predicate HasReadingSetList(path: string) {
    PartIs(path, 4, "rs")
  }

  function ReadingSetIndex(path: string): Access {
    if PartIs(path, 4, "rs") then IntAt(path, 5) else Absent
  }

  predicate HasReadingSetReadingList(path: string) {
    PartIs(path, 6, "r")
  }

  function ReadingSetReadingIndex(path: string): Access {
    if PartIs(path, 6, "r") then IntAt(path, 7) else Absent
  }

  predicate HasReadingList(path: string) {
    PartIs(path, 4, "r") || PartIs(path, 6, "r")
  }

  function ReadingIndex(path: string): Access {
    if PartIs(path, 4, "r") then IntAt(path, 5)
    else if PartIs(path, 6, "r") then IntAt(path, 7)
    else Absent
  }

  /** The parts below the root, read off the place. */
  function Tail(p: Place): seq<string> {
    match p
    case UsagePoint(i) => [Dec(i)]
    case MeterReadingList(i) => [Dec(i), "mr"]
    case MeterReading(i, j) => [Dec(i), "mr", Dec(j)]
    case ReadingType(i, j) => [Dec(i), "mr", Dec(j), "rt"]
    case ReadingSetList(i, j) => [Dec(i), "mr", Dec(j), "rs"]
    case ReadingSet(i, j, k) => [Dec(i), "mr", Dec(j), "rs", Dec(k)]
    case SetReadingList(i, j, k) => [Dec(i), "mr", Dec(j), "rs", Dec(k), "r"]
    case SetReading(i, j, k, l) => [Dec(i), "mr", Dec(j), "rs", Dec(k), "r", Dec(l)]
    case ReadingList(i, j) => [Dec(i), "mr", Dec(j), "r"]
    case Reading(i, j, k) => [Dec(i), "mr", Dec(j), "r", Dec(k)]
  }

  predicate IsItem(p: Place) {
    p.UsagePoint? || p.MeterReading? || p.ReadingSet? || p.SetReading? || p.Reading?
  }

  /** The href of the list an item is kept in. */
  function Enclosing(root: string, p: Place): string
    requires IsItem(p)
  {
    match p
    case UsagePoint(_) => root
    case MeterReading(i, _) => Href(root, MeterReadingList(i))
    case ReadingSet(i, j, _) => Href(root, ReadingSetList(i, j))
    case SetReading(i, j, k, _) => Href(root, SetReadingList(i, j, k))
    case Reading(i, j, _) => Href(root, ReadingList(i, j))
  }

  /** The place one part up, and the part that leads down from it. */
  function Parent(p: Place): Place
    requires !p.UsagePoint?
  {
    match p
    case MeterReadingList(i) => UsagePoint(i)
    case MeterReading(i, _) => MeterReadingList(i)
    case ReadingType(i, j) => MeterReading(i, j)
    case ReadingSetList(i, j) => MeterReading(i, j)
    case ReadingSet(i, j, _) => ReadingSetList(i, j)
    case SetReadingList(i, j, k) => ReadingSet(i, j, k)
    case SetReading(i, j, k, _) => SetReadingList(i, j, k)
    case ReadingList(i, j) => MeterReading(i, j)
    case Reading(i, j, _) => ReadingList(i, j)
  }

  lemma JoinIsSub(base: string, part: string)
    ensures Join([base, part]) == Sub(base, part)
  {
    assert [base, part][1..] == [part];
  }

  lemma HrefOverParent(root: string, p: Place)
    requires !p.UsagePoint?
    ensures Href(root, p) == Sub(Href(root, Parent(p)), Last(Tail(p)))
    ensures Tail(p) == Tail(Parent(p)) + [Last(Tail(p))]
  {
    if p.MeterReadingList? {
      assert [root, Dec(p.upt), "mr"][1..] == [Dec(p.upt), "mr"];
      JoinIsSub(root, Dec(p.upt));
      JoinIsSub(Dec(p.upt), "mr");
    } else {
      JoinIsSub(Href(root, Parent(p)), Last(Tail(p)));
    }
  }

  lemma TailSepFree(p: Place)
    ensures forall k :: 0 <= k < |Tail(p)| ==> SepFree(Tail(p)[k])
  {
    forall n: nat ensures SepFree(Dec(n)) {
      NumeralSepFree(Dec(n));
    }
  }

  lemma {:induction false} SplitHref(root: string, p: Place)
    requires SepFree(root)
    ensures Split(Href(root, p)) == [root] + Tail(p)
    decreases |Tail(p)|
  {
    TailSepFree(p);
    if p.UsagePoint? {
      SplitSepFree(root);
      JoinIsSub(root, Dec(p.upt));
      SplitSub(root, Dec(p.upt));
    } else {
      HrefOverParent(root, p);
      SplitHref(root, Parent(p));
      SplitSub(Href(root, Parent(p)), Last(Tail(p)));
    }
  }

  /** Round trip, accessor by accessor: what was built is what is read, and the properties that
      do not apply answer None or False rather than raising. */
  lemma ParserReadsBuilder(root: string, p: Place)
    requires SepFree(root)
    ensures var h := Href(root, p);
            && UsagePointIndex(h) == Index(p.upt)
            && HasMeterReadingList(h) == !p.UsagePoint?
            && MeterReadingIndex(h) == (if p.UsagePoint? || p.MeterReadingList? then Absent else Index(p.mr))
            && HasReadingType(h) == p.ReadingType?
            && HasReadingSetList(h) == (p.ReadingSetList? || p.ReadingSet? || p.SetReadingList? || p.SetReading?)
            && ReadingSetIndex(h) ==
               (if p.ReadingSet? || p.SetReadingList? || p.SetReading? then Index(p.rs) else Absent)
            && HasReadingSetReadingList(h) == (p.SetReadingList? || p.SetReading?)
            && ReadingSetReadingIndex(h) == (if p.SetReading? then Index(p.r) else Absent)
            && HasReadingList(h) == (p.ReadingList? || p.Reading? || p.SetReadingList? || p.SetReading?)
            && ReadingIndex(h) == (if p.SetReading? || p.Reading? then Index(p.r) else Absent)
  {
    SplitHref(root, p);
    DecValue(p.upt);
    if !p.UsagePoint? && !p.MeterReadingList? {
      DecValue(p.mr);
    }
    if p.ReadingSet? || p.SetReadingList? || p.SetReading? {
      DecValue(p.rs);
    }
    if p.SetReading? || p.Reading? {
      DecValue(p.r);
    }
  }

  /** `last_list` of an item is the list that holds it; of a list, the list itself. */
  lemma LastListEncloses(root: string, p: Place)
    requires SepFree(root)
    ensures LastList(Href(root, p)) == if IsItem(p) then Enclosing(root, p) else Href(root, p)
  {
    SplitHref(root, p);
    var parts := Split(Href(root, p));
    assert Last(parts) == Last(Tail(p));
    if IsItem(p) {
      assert parts[..|parts| - 1] == Split(Enclosing(root, p)) by {
        match p
        case UsagePoint(_) => SplitSepFree(root);
        case MeterReading(i, _) => SplitHref(root, MeterReadingList(i));
        case ReadingSet(i, j, _) => SplitHref(root, ReadingSetList(i, j));
        case SetReading(i, j, k, _) => SplitHref(root, SetReadingList(i, j, k));
        case Reading(i, j, _) => SplitHref(root, ReadingList(i, j));
      }
      JoinSplit(Enclosing(root, p));
    } else {
      assert !IsNumeral(Last(Tail(p))) by {
        assert Last(Tail(p)) in {"mr", "rt", "rs", "r"};
        assert Last(Tail(p))[0] in {'m', 'r'};
      }
    }
  }

  /** Two builders of different kind or with different indices never give the same string. */
  lemma HrefInjective(root: string, p: Place, root': string, p': Place)
    requires SepFree(root) && SepFree(root')
    requires Href(root, p) == Href(root', p')
    ensures root == root' && p == p'
  {
    ParserReadsBuilder(root, p);
    ParserReadsBuilder(root', p');
    SplitHref(root, p);
    SplitHref(root', p');
    assert ([root] + Tail(p))[0] == ([root'] + Tail(p'))[0];
    assert |Tail(p)| == |Tail(p')|;
  }

  /** Of any path with more than one part, `last_list` is what stands before a last part of digits, and the
      path itself if the last part is anything else, a signed number included. */
  lemma LastListIs(path: string)
    requires |Split(path)| > 1
    ensures var last := Last(Split(path));
            if last != "" && forall k :: 0 <= k < |last| ==> '0' <= last[k] <= '9'
            then path == LastList(path) + "_" + last else LastList(path) == path
  {
    var parts := Split(path);
    var n := |parts| - 1;
    JoinSplit(path);
    JoinSnoc(parts[..n], parts[n]);
    assert parts[..n] + [parts[n]] == parts;
  }
}
