/** The string operations that every href of the server is built from and read with:
    splitting and joining at the separator, decimal numerals, and textual replacement. */
module Text {
  import opened Wrappers

  // ieee_2030_5/hrefs.py: SEP
  const SEP := '_'

  predicate SepFree(s: string) {
    SEP !in s
  }

  /** `s.split(SEP)`: never empty, and the empty string yields one empty part. */
  function Split(s: string): (parts: seq<string>)
    ensures |parts| >= 1
    ensures forall k :: 0 <= k < |parts| ==> SepFree(parts[k])
  {
    if s == "" then
      [""]
    else
      var rest := Split(s[1..]);
      if s[0] == SEP then [""] + rest else [[s[0]] + rest[0]] + rest[1..]
  }

  /** `SEP.join(parts)`. */
  function Join(parts: seq<string>): string {
    if parts == [] then ""
    else if |parts| == 1 then parts[0]
    else parts[0] + [SEP] + Join(parts[1..])
  }

  /** `SEP.join([base, part])`, the step every href builder takes. */
  function Sub(base: string, part: string): string {
    base + [SEP] + part
  }

  function Last(parts: seq<string>): string
    requires parts != []
  {
    parts[|parts| - 1]
  }

  lemma {:induction false} SplitSepFree(s: string)
    requires SepFree(s)
    ensures Split(s) == [s]
  {
    if s != "" {
      SplitSepFree(s[1..]);
      assert [s[0]] + s[1..] == s;
    }
  }

  lemma {:induction false} SplitSub(base: string, part: string)
    requires SepFree(part)
    ensures Split(Sub(base, part)) == Split(base) + [part]
  {
    var s := Sub(base, part);
    if base == "" {
      SplitSepFree(part);
      assert s[1..] == part;
    } else {
      SplitSub(base[1..], part);
      assert s[1..] == Sub(base[1..], part);
    }
  }

  lemma {:induction false} JoinSplit(s: string)
    ensures Join(Split(s)) == s
  {
    if s != "" {
      JoinSplit(s[1..]);
      var rest := Split(s[1..]);
      var parts := Split(s);
      if s[0] == SEP {
        assert parts[1..] == rest;
        assert parts[0] + [SEP] + Join(rest) == s;
      } else {
        assert parts[1..] == rest[1..];
        assert Join(parts) == [s[0]] + Join(rest);
      }
    }
  }

  lemma {:induction false} JoinSnoc(parts: seq<string>, part: string)
    requires parts != []
    ensures Join(parts + [part]) == Sub(Join(parts), part)
  {
    var all := parts + [part];
    if |parts| == 1 {
      assert all[1..] == [part];
    } else {
      JoinSnoc(parts[1..], part);
      assert all[1..] == parts[1..] + [part];
    }
  }

  lemma {:induction false} SplitJoin(parts: seq<string>)
    requires parts != [] && forall k :: 0 <= k < |parts| ==> SepFree(parts[k])
    ensures Split(Join(parts)) == parts
  {
    var n := |parts| - 1;
    if n == 0 {
      SplitSepFree(parts[0]);
    } else {
      var front := parts[..n];
      assert front + [parts[n]] == parts;
      SplitJoin(front);
      JoinSnoc(front, parts[n]);
      SplitSub(Join(front), parts[n]);
    }
  }

  /** The last part and what precedes it determine each other: hrefs built by `Sub` never collide. */
  lemma SubInjective(base: string, part: string, base': string, part': string)
    requires SepFree(part) && SepFree(part')
    requires Sub(base, part) == Sub(base', part')
    ensures base == base' && part == part'
  {
    SplitSub(base, part);
    SplitSub(base', part');
    assert Split(base) + [part] == Split(base') + [part'];
    assert (Split(base) + [part])[|Split(base)|] == part;
    assert Split(base) == (Split(base) + [part])[..|Split(base)|];
    assert Split(base') == (Split(base') + [part'])[..|Split(base')|];
    JoinSplit(base);
    JoinSplit(base');
  }

  /* Decimal numerals */

  function DigitChar(d: nat): char
    requires d < 10
  {
    ('0' as int + d) as char
  }

  function DigitValue(c: char): nat
    requires '0' <= c <= '9'
  {
    c as int - '0' as int
  }

  predicate AllDigits(s: string) {
    forall k :: 0 <= k < |s| ==> '0' <= s[k] <= '9'
  }

  /** `s.isnumeric()` on the characters an href may hold. */
  predicate IsNumeral(s: string) {
    s != "" && AllDigits(s)
  }

  /** `str(n)`. */
  function Dec(n: nat): (s: string)
    ensures IsNumeral(s)
  {
    if n < 10 then [DigitChar(n)] else Dec(n / 10) + [DigitChar(n % 10)]
  }

  function NumeralValue(s: string): nat
    requires AllDigits(s)
  {
    if s == "" then 0 else NumeralValue(s[..|s| - 1]) * 10 + DigitValue(s[|s| - 1])
  }

  /** `int(s)`: None stands for the ValueError. */
  function PyInt(s: string): Option<int> {
    if IsNumeral(s) then Some(NumeralValue(s) as int)
    else if s != "" && s[0] == '-' && IsNumeral(s[1..]) then Some(-(NumeralValue(s[1..]) as int))
    else if s != "" && s[0] == '+' && IsNumeral(s[1..]) then Some(NumeralValue(s[1..]) as int)
    else None
  }

  lemma {:induction false} LeadingZero(s: string)
    requires AllDigits(s)
    ensures NumeralValue("0" + s) == NumeralValue(s)
  {
    var t := "0" + s;
    if s == "" {
      assert t[..0] == "";
    } else {
      LeadingZero(s[..|s| - 1]);
      assert t[..|t| - 1] == "0" + s[..|s| - 1] && t[|t| - 1] == s[|s| - 1];
    }
  }

  /** Integers are read from digits with or without a sign, and from nothing else; leading zeros do not count,
      nor does a plus. */
  lemma PyIntReads(s: string)
    ensures PyInt(s).Some? <==> IsNumeral(s) || (s != "" && (s[0] == '+' || s[0] == '-') && IsNumeral(s[1..]))
    ensures IsNumeral(s) ==>
              && PyInt("0" + s) == PyInt("+" + s) == PyInt(s)
              && PyInt("-" + s) == Some(-PyInt(s).value)
  {
    if IsNumeral(s) {
      LeadingZero(s);
      assert ("+" + s)[1..] == s && ("-" + s)[1..] == s;
      assert !IsNumeral("+" + s) by {
        assert ("+" + s)[0] == '+';
      }
      assert !IsNumeral("-" + s) by {
        assert ("-" + s)[0] == '-';
      }
      assert IsNumeral("0" + s);
    }
  }

  lemma NumeralSepFree(s: string)
    requires AllDigits(s)
    ensures SepFree(s)
  {
  }

  lemma {:induction false} DecValue(n: nat)
    ensures NumeralValue(Dec(n)) == n
    ensures SepFree(Dec(n)) && PyInt(Dec(n)) == Some(n)
  {
    NumeralSepFree(Dec(n));
    if n >= 10 {
      DecValue(n / 10);
      var s := Dec(n);
      assert s[..|s| - 1] == Dec(n / 10);
    } else {
      var s := Dec(n);
      assert s[..|s| - 1] == "";
    }
  }

  /** The digits are the usual ones, the most significant first. */
  lemma DecDigits(n: nat, d: nat)
    requires d < 10
    ensures Dec(10 * n + d) == (if n == 0 then "" else Dec(n)) + ["0123456789"[d]]
  {
    assert (10 * n + d) / 10 == n && (10 * n + d) % 10 == d;
    assert DigitChar(d) == "0123456789"[d];
  }

  lemma DecInjective(n: nat, m: nat)
    requires Dec(n) == Dec(m)
    ensures n == m
  {
    DecValue(n);
    DecValue(m);
  }

  /** A numeral as `str` writes it: no leading zero unless it is zero itself. */
  predicate CanonicalNumeral(s: string) {
    IsNumeral(s) && (|s| > 1 ==> s[0] != '0')
  }

  lemma {:induction false} CanonicalPositive(s: string)
    requires IsNumeral(s) && s[0] != '0'
    ensures NumeralValue(s) > 0
  {
    var n := |s| - 1;
    if n == 0 {
      assert s[..0] == "";
    } else {
      CanonicalPositive(s[..n]);
    }
  }

  /** On canonical numerals `str(int(s))` is `s`; `Dec` only writes canonical ones. */
  lemma {:induction false} DecOfCanonical(s: string)
    requires CanonicalNumeral(s)
    ensures Dec(NumeralValue(s)) == s
  {
    var n := |s| - 1;
    if n == 0 {
      assert s[..0] == "";
      assert NumeralValue(s) == DigitValue(s[0]);
    } else {
      var front := s[..n];
      CanonicalPositive(front);
      DecOfCanonical(front);
      assert NumeralValue(s) / 10 == NumeralValue(front);
      assert front + [s[n]] == s;
    }
  }

  lemma {:induction false} DecCanonical(n: nat)
    ensures CanonicalNumeral(Dec(n)) && (n > 0 ==> Dec(n)[0] != '0')
  {
    if n >= 10 {
      DecCanonical(n / 10);
    }
  }

  /** `str(i)` of any integer. */
  function StrInt(i: int): string {
    if i < 0 then "-" + Dec(-i) else Dec(i)
  }

  lemma StrIntValue(i: int)
    ensures SepFree(StrInt(i)) && PyInt(StrInt(i)) == Some(i)
  {
    DecValue(if i < 0 then -i else i);
    if i < 0 {
      assert StrInt(i)[1..] == Dec(-i);
      assert !IsNumeral(StrInt(i)) by {
        assert StrInt(i)[0] == '-';
      }
    }
  }

  /** An integer as `str` writes it: no plus sign, no leading zero, no negative zero. */
  predicate CanonicalInt(s: string) {
    CanonicalNumeral(s) || (s != "" && s[0] == '-' && CanonicalNumeral(s[1..]) && s[1] != '0')
  }

  /** `str(int(s))` is `s` exactly for those. */
  lemma StrIntOfCanonical(s: string)
    requires PyInt(s).Some?
    ensures StrInt(PyInt(s).value) == s <==> CanonicalInt(s)
  {
    var i := PyInt(s).value;
    if CanonicalNumeral(s) {
      DecOfCanonical(s);
    } else if CanonicalInt(s) {
      DecOfCanonical(s[1..]);
      CanonicalPositive(s[1..]);
      assert s == "-" + s[1..];
    }
    if StrInt(i) == s {
      DecCanonical(if i < 0 then -i else i);
      if i < 0 {
        assert s[1..] == Dec(-i);
      }
    }
  }

  /* Replacement */

  predicate StartsWith(s: string, p: string) {
    p <= s
  }

  /** `s.replace(target, with)`: every occurrence, left to right, without overlap. */
  function Replace(s: string, target: string, with: string): string
    requires target != ""
    decreases |s|
  {
    if s == "" then ""
    else if StartsWith(s, target) then with + Replace(s[|target|..], target, with)
    else [s[0]] + Replace(s[1..], target, with)
  }

  /** `target in s`. */
  predicate Occurs(target: string, s: string)
    requires target != ""
  {
    s != "" && (StartsWith(s, target) || Occurs(target, s[1..]))
  }

  lemma {:induction false} ReplaceAbsent(s: string, target: string, with: string)
    requires target != "" && !Occurs(target, s)
    ensures Replace(s, target, with) == s
  {
    if s != "" {
      ReplaceAbsent(s[1..], target, with);
    }
  }

  /** A replacement that leaves no trace of one of its characters made no replacement at all. */
  lemma {:induction false} ReplaceUntouched(s: string, target: string, with: string, mark: char)
    requires target != "" && mark in with && mark !in Replace(s, target, with)
    ensures Replace(s, target, with) == s
  {
    if s != "" {
      ReplaceUntouched(s[1..], target, with, mark);
    }
  }

  /** No occurrence of a separator-free text straddles a separator. */
  lemma {:induction false} ReplaceSub(base: string, part: string, target: string, with: string)
    requires target != "" && SepFree(target)
    ensures Replace(Sub(base, part), target, with) == Sub(Replace(base, target, with), Replace(part, target, with))
    decreases |base|
  {
    var s := Sub(base, part);
    if base == "" {
      assert s[0] == SEP && s[1..] == part;
      assert target[0] in target;
    } else {
      assert s[|base|] == SEP && s[..|base|] == base;
      assert StartsWith(s, target) <==> StartsWith(base, target);
      if StartsWith(s, target) {
        assert s[|target|..] == Sub(base[|target|..], part);
        ReplaceSub(base[|target|..], part, target, with);
      } else {
        assert s[1..] == Sub(base[1..], part);
        ReplaceSub(base[1..], part, target, with);
      }
    }
  }

  /** Replacement introduces no character that neither text has. */
  lemma {:induction false} ReplaceKeepsOut(s: string, target: string, with: string, c: char)
    requires target != "" && c !in s && c !in with
    ensures c !in Replace(s, target, with)
    decreases |s|
  {
    if s != "" {
      if StartsWith(s, target) {
        ReplaceKeepsOut(s[|target|..], target, with, c);
      } else {
        ReplaceKeepsOut(s[1..], target, with, c);
      }
    }
  }

  /** A text that starts with a character found nowhere else is replaced at the head only. */
  lemma ReplaceHead(rest: string, target: string, with: string)
    requires target != "" && target[0] !in rest
    ensures Replace(target + rest, target, with) == with + rest
  {
    assert (target + rest)[|target|..] == rest;
    AbsentWithoutHead(rest, target);
    ReplaceAbsent(rest, target, with);
  }

  lemma {:induction false} AbsentWithoutHead(s: string, target: string)
    requires target != "" && target[0] !in s
    ensures !Occurs(target, s)
  {
    if s != "" {
      AbsentWithoutHead(s[1..], target);
    }
  }
}
