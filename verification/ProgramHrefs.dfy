/** The hrefs of DER programs and of the events in their control lists. */
module ProgramHrefs {
  import opened Wrappers
  import opened Text
  import opened ListStore

  const DERP_ROOT := "/derp"
  const RSPS_ROOT := "/rsps"
  const NO_INDEX := -1

  datatype SubType =
    | NoLink | ActiveDERControlListLink | DefaultDERControlLink | DERControlListLink | DERCurveListLink
    | DERControlReplyTo | DERControl

  /** The tag of a link that has one. */
  function Tag(sub: SubType): Option<string> {
    match sub
    case ActiveDERControlListLink => Some("derca")
    case DefaultDERControlLink => Some("dderc")
    case DERControlListLink => Some("derc")
    case DERCurveListLink => Some("dc")
    case _ => None
  }

  /** `der_program_href`: None where the function falls off its end. */
  function ProgramHref(index: int, sub: SubType, subindex: int): Option<string> {
    if index == NO_INDEX then Some(DERP_ROOT)
    else if sub.NoLink? then Some(Join([DERP_ROOT, StrInt(index)]))
    else if sub.DERControlReplyTo? then Some(RSPS_ROOT)
    else match Tag(sub)
         case None => None
         case Some(tag) =>
           if subindex == NO_INDEX then Some(Join([DERP_ROOT, StrInt(index), tag]))
           else Some(Join([DERP_ROOT, StrInt(index), tag, StrInt(subindex)]))
  }

  datatype ProgramRef = ProgramRef(root: string, index: int, sub: SubType, subindex: int)

  function IntPart(s: string): Result<int> {
    match PyInt(s)
    case None => Raise(ValueError)
    case Some(i) => Ok(i)
  }

  /** The `mapped` dictionary of the parser, which knows three links. */
  function SubOf(tag: string): Result<SubType> {
    if tag == "derc" then Ok(DERControlListLink)
    else if tag == "derca" then Ok(ActiveDERControlListLink)
    else if tag == "dderc" then Ok(DefaultDERControlLink)
    else Raise(KeyError)
  }

  /** `DERProgramHrefOld.parse` */
  function ParseProgram(href: string): Result<ProgramRef> {
    var parts := Split(href);
    if |parts| == 1 then Ok(ProgramRef(parts[0], NO_INDEX, NoLink, NO_INDEX))
    else
      var index :- IntPart(parts[1]);
      if |parts| == 2 then Ok(ProgramRef(parts[0], index, NoLink, NO_INDEX))
      else
        var sub :- SubOf(parts[2]);
        if |parts| == 4 then
          var subindex :- IntPart(parts[3]);
          Ok(ProgramRef(parts[0], index, sub, subindex))
        else Ok(ProgramRef(parts[0], index, sub, NO_INDEX))
  }

  lemma SplitProgramHref(index: int, tag: string, subindex: int)
    requires SepFree(tag)
    ensures Split(Join([DERP_ROOT, StrInt(index)])) == [DERP_ROOT, StrInt(index)]
    ensures Split(Join([DERP_ROOT, StrInt(index), tag])) == [DERP_ROOT, StrInt(index), tag]
    ensures Split(Join([DERP_ROOT, StrInt(index), tag, StrInt(subindex)]))
         == [DERP_ROOT, StrInt(index), tag, StrInt(subindex)]
  {
    StrIntValue(index);
    StrIntValue(subindex);
    SplitJoin([DERP_ROOT, StrInt(index)]);
    SplitJoin([DERP_ROOT, StrInt(index), tag]);
    SplitJoin([DERP_ROOT, StrInt(index), tag, StrInt(subindex)]);
  }

  /** The parts of the href that is printed for each link of a program. */
  function LinkParts(index: int, sub: SubType): seq<string> {
    match sub
    case NoLink => ["/derp", StrInt(index)]
    case ActiveDERControlListLink => ["/derp", StrInt(index), "derca"]
    case DefaultDERControlLink => ["/derp", StrInt(index), "dderc"]
    case DERControlListLink => ["/derp", StrInt(index), "derc"]
    case DERCurveListLink => ["/derp", StrInt(index), "dc"]
    case DERControlReplyTo => ["/rsps"]
    case DERControl => []
  }

  /** What is printed splits into them, with the number of an entry last if there is one. */
  lemma ProgramHrefParts(index: int, sub: SubType, k: int)
    requires index != -1
    ensures var h := ProgramHref(index, sub, k);
            && (h.None? <==> sub.DERControl?)
            && (h.Some? ==>
                  Split(h.value) == LinkParts(index, sub)
                  + if k == -1 || sub in {NoLink, DERControlReplyTo} then [] else [StrInt(k)])
    ensures ProgramHref(-1, sub, k) == Some("/derp")
  {
    hide Split;
    hide Join;
    hide StrInt;
    SplitSepFree("/rsps");
    SplitProgramHref(index, Tag(sub).GetOr(""), k);
  }

  /** The parser returns what the builder was given exactly when the fields are filled from the
      left and the link is one that the parser knows; a curve list, in particular, is not. */
  lemma ProgramHrefRoundTrip(index: int, sub: SubType, subindex: int)
    ensures (ProgramHref(index, sub, subindex).Some?
             && ParseProgram(ProgramHref(index, sub, subindex).value)
                == Ok(ProgramRef(DERP_ROOT, index, sub, subindex)))
       <==> && (index == NO_INDEX ==> sub.NoLink?)
            && (sub.NoLink? ==> subindex == NO_INDEX)
            && sub in {NoLink, ActiveDERControlListLink, DefaultDERControlLink, DERControlListLink}
  {
    hide Split;
    hide Join;
    hide StrInt;
    hide PyInt;
    StrIntValue(index);
    StrIntValue(subindex);
    SplitSepFree(DERP_ROOT);
    SplitSepFree(RSPS_ROOT);
    SplitProgramHref(index, Tag(sub).GetOr(""), subindex);
  }

  /** What the parser reads of any text: the link by its name, an entry's number only from a text of four
      parts, and an unknown name raises KeyError before that number is looked at. */
  lemma ProgramPathRead(href: string)
    ensures var parts, r := Split(href), ParseProgram(href);
            var n := |parts|;
            && (r == Raise(ValueError) <==>
                || (n > 1 && PyInt(parts[1]).None?)
                || (n == 4 && parts[2] in {"derc", "derca", "dderc"} && PyInt(parts[3]).None?))
            && (r == Raise(KeyError) <==>
                n > 2 && PyInt(parts[1]).Some? && parts[2] !in {"derc", "derca", "dderc"})
            && (r.Raise? ==> r.error in {ValueError, KeyError})
            && (r.Ok? ==>
                  && r.value.root == parts[0]
                  && r.value.index == (if n > 1 then PyInt(parts[1]).value else -1)
                  && Tag(r.value.sub) == (if n > 2 then Some(parts[2]) else None)
                  && r.value.subindex == (if n == 4 then PyInt(parts[3]).value else -1))
  {
    hide Split;
    hide PyInt;
  }

  /* Links of one program, and the events of its control list */

  function Root(program: nat): string {
    Sub(DERP_ROOT, Dec(program))
  }

  function ActiveHref(program: nat): string {
    Sub(Root(program), "derca")
  }

  function ControlListHref(program: nat): string {
    Sub(Root(program), "derc")
  }

  /** The href a posted control is given. */
  function EventHref(program: nat, k: nat): string {
    Sub(ControlListHref(program), Dec(k))
  }

  /** HrefEventParser.program_index: `at` answers an integer, the text, or None past the end. */
  function ProgramIndex(href: string): Result<int> {
    if |Split(href)| < 2 then Raise(TypeError) else IntPart(Split(href)[1])
  }

  function EventIndex(href: string): Result<int> {
    IntPart(Last(Split(href)))
  }

  function EventsHref(href: string): string {
    Join(Split(href)[..|Split(href)| - 1])
  }

  lemma SplitEventHref(program: nat, k: nat)
    ensures Split(EventHref(program, k)) == [DERP_ROOT, Dec(program), "derc", Dec(k)]
    ensures Split(ControlListHref(program)) == [DERP_ROOT, Dec(program), "derc"]
  {
    DecValue(program);
    DecValue(k);
    SplitSepFree(DERP_ROOT);
    SplitSub(DERP_ROOT, Dec(program));
    SplitSub(Root(program), "derc");
    SplitSub(ControlListHref(program), Dec(k));
  }

  /** From any event href the parser recovers the program, the event's number and its list. */
  lemma EventParserReads(program: nat, k: nat)
    ensures ProgramIndex(EventHref(program, k)) == Ok(program)
    ensures EventIndex(EventHref(program, k)) == Ok(k)
    ensures EventsHref(EventHref(program, k)) == ControlListHref(program)
  {
    hide Split;
    SplitEventHref(program, k);
    DecValue(program);
    DecValue(k);
    JoinSplit(ControlListHref(program));
    assert [DERP_ROOT, Dec(program), "derc", Dec(k)][..3] == [DERP_ROOT, Dec(program), "derc"];
  }

  lemma EventHrefInjective(p: nat, k: nat, p': nat, k': nat)
    requires EventHref(p, k) == EventHref(p', k')
    ensures p == p' && k == k'
  {
    EventParserReads(p, k);
    EventParserReads(p', k');
  }
}
