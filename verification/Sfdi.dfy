/** Device identifiers: the LFDI as a truncated fingerprint and the SFDI with its check digit
    (sections 6.3.3 and 6.3.4 of IEEE 2030.5-2018). */
module Sfdi {
  import opened Wrappers
  import opened Text
  import opened ListStore

  /* The long form */

  /** `lfdi_from_fingerprint`: the first 40 characters that are not colons. */
  function LfdiOf(fingerprint: string): string {
    var fp := Replace(fingerprint, ":", "");
    if |fp| <= 40 then fp else fp[..40]
  }

  function WithoutColons(s: string): string {
    if s == "" then "" else (if s[0] == ':' then "" else [s[0]]) + WithoutColons(s[1..])
  }

  lemma {:induction false} ReplaceColons(s: string)
    ensures Replace(s, ":", "") == WithoutColons(s)
  {
    if s != "" {
      ReplaceColons(s[1..]);
      assert StartsWith(s, ":") <==> s[0] == ':';
    }
  }

  /** Wherever colons stand in a fingerprint, the identifier is the same. */
  lemma LfdiIgnoresColons(f: string, f': string)
    requires WithoutColons(f) == WithoutColons(f')
    ensures LfdiOf(f) == LfdiOf(f')
  {
    ReplaceColons(f);
    ReplaceColons(f');
  }

  /** It is what the colon-free text begins with: 40 characters of it, or all if there are no more. */
  lemma LfdiIsPrefix(f: string)
    ensures LfdiOf(f) <= WithoutColons(f)
    ensures |LfdiOf(f)| == if |WithoutColons(f)| < 40 then |WithoutColons(f)| else 40
    ensures ':' !in LfdiOf(f)
  {
    ReplaceColons(f);
    NoColons(f);
  }

  lemma {:induction false} NoColons(s: string)
    ensures ':' !in WithoutColons(s)
  {
    if s != "" {
      NoColons(s[1..]);
    }
  }

  /* The short form */

  function HexDigit(c: char): Option<nat> {
    if '0' <= c <= '9' then Some(c as int - '0' as int)
    else if 'a' <= c <= 'f' then Some(c as int - 'a' as int + 10)
    else if 'A' <= c <= 'F' then Some(c as int - 'A' as int + 10)
    else None
  }

  /** `int(s, 16)` */
  function HexValue(s: string): Option<nat> {
    if s == "" then Some(0)
    else
      var n := |s| - 1;
      match (HexValue(s[..n]), HexDigit(s[n]))
      case (Some(v), Some(d)) => Some(16 * v + d)
      case _ => None
  }

  function Pow16(n: nat): nat {
    if n == 0 then 1 else 16 * Pow16(n - 1)
  }

  lemma {:induction false} HexBound(s: string)
    ensures HexValue(s).Some? ==> HexValue(s).value < Pow16(|s|)
  {
    if s != "" {
      HexBound(s[..|s| - 1]);
    }
  }

  function HexChar(d: nat): char
    requires d < 16
  {
    match d
    case 0 => '0'
    case 1 => '1'
    case 2 => '2'
    case 3 => '3'
    case 4 => '4'
    case 5 => '5'
    case 6 => '6'
    case 7 => '7'
    case 8 => '8'
    case 9 => '9'
    case 10 => 'a'
    case 11 => 'b'
    case 12 => 'c'
    case 13 => 'd'
    case 14 => 'e'
    case 15 => 'f'
  }

  /** The hexadecimal printer, with leading zeros up to a width. */
  function HexPrint(n: nat, width: nat): string {
    if width == 0 then "" else HexPrint(n / 16, width - 1) + [HexChar(n % 16)]
  }

  predicate IsHex(c: char) {
    '0' <= c <= '9' || 'a' <= c <= 'f' || 'A' <= c <= 'F'
  }

  /** The printed digit, which may be read in upper case too. */
  predicate ReadsAs(c: char, printed: char) {
    c == printed || ('a' <= printed <= 'f' && c as int - 'A' as int == printed as int - 'a' as int)
  }

  lemma HexDigitIs(c: char)
    ensures HexDigit(c).Some? <==> IsHex(c)
    ensures HexDigit(c).Some? ==> HexDigit(c).value < 16 && ReadsAs(c, HexChar(HexDigit(c).value))
  {
  }

  lemma HexCharIs(d: nat)
    requires d < 16
    ensures HexDigit(HexChar(d)) == Some(d)
  {
  }

  /** The conversion reads back what the printer writes, */
  lemma {:induction false} HexReadsPrinted(n: nat, width: nat)
    requires n < Pow16(width)
    ensures HexValue(HexPrint(n, width)) == Some(n) && |HexPrint(n, width)| == width
  {
    if width > 0 {
      HexReadsPrinted(n / 16, width - 1);
      HexCharIs(n % 16);
      hide HexChar;
      hide HexDigit;
      assert HexPrint(n, width)[..width - 1] == HexPrint(n / 16, width - 1);
    }
  }

  /** and the printer writes what it read, but for the case of letters; only a text with some other character
      is refused. */
  lemma {:induction false} PrintsHexRead(s: string)
    ensures HexValue(s).Some? <==> forall k :: 0 <= k < |s| ==> IsHex(s[k])
    ensures HexValue(s).Some? ==>
              var printed := HexPrint(HexValue(s).value, |s|);
              |printed| == |s| && forall k :: 0 <= k < |s| ==> ReadsAs(s[k], printed[k])
  {
    if s != "" {
      var n := |s| - 1;
      PrintsHexRead(s[..n]);
      HexDigitIs(s[n]);
      hide ReadsAs;
      hide HexDigit;
      hide HexChar;
      hide IsHex;
      if HexValue(s).Some? {
        var v, d := HexValue(s[..n]).value, HexDigit(s[n]).value;
        assert (16 * v + d) / 16 == v && (16 * v + d) % 16 == d;
        assert forall k :: 0 <= k < n ==> s[k] == s[..n][k];
      }
    }
  }

  lemma ThirtySixBits()
    ensures Pow16(9) == 0x10_0000_0000
  {
    assert Pow16(3) == 4096 && Pow16(6) == 4096 * Pow16(3);
  }

  function DigitSum(s: string): nat
    requires AllDigits(s)
  {
    if s == "" then 0 else DigitSum(s[..|s| - 1]) + DigitValue(s[|s| - 1])
  }

  /** A number whose decimal digits sum to a multiple of ten. */
  predicate Checks(n: nat) {
    DigitSum(Dec(n)) % 10 == 0
  }

  /** The check digit that completes a prefix. */
  function CheckDigit(prefix: nat): (c: nat)
    ensures c < 10 && (DigitSum(Dec(prefix)) + c) % 10 == 0
  {
    (10 - DigitSum(Dec(prefix)) % 10) % 10
  }

  function SfdiOfPrefix(prefix: nat): nat {
    10 * prefix + CheckDigit(prefix)
  }

  /** The digits of a number are those of its tenth, and its last. */
  lemma DigitSumSnoc(n: nat)
    ensures DigitSum(Dec(n)) == DigitSum(Dec(n / 10)) + n % 10
  {
    var s := Dec(n);
    if n < 10 {
      assert s[..0] == "" && Dec(0)[..0] == "";
      assert DigitSum(Dec(0)) == 0;
    } else {
      assert s[..|s| - 1] == Dec(n / 10);
    }
  }

  lemma UniqueDigit(sum: nat, c: nat, d: nat)
    requires c < 10 && d < 10 && (sum + c) % 10 == 0
    ensures (sum + d) % 10 == 0 <==> c == d
  {
  }

  /** A number checks exactly when it is the identifier made from all its digits but the last. */
  lemma ChecksIffSfdi(n: nat)
    ensures Checks(n) <==> n == SfdiOfPrefix(n / 10)
  {
    hide Dec;
    hide DigitSum;
    hide CheckDigit;
    DigitSumSnoc(n);
    var p := n / 10;
    UniqueDigit(DigitSum(Dec(p)), CheckDigit(p), n % 10);
    assert n == 10 * p + n % 10;
  }

  /** The identifier of a prefix checks, keeps the prefix, and no two prefixes share one. */
  lemma SfdiOfPrefixProperties(prefix: nat, other: nat)
    ensures Checks(SfdiOfPrefix(prefix)) && SfdiOfPrefix(prefix) / 10 == prefix
    ensures SfdiOfPrefix(prefix) == SfdiOfPrefix(other) ==> prefix == other
  {
    ChecksIffSfdi(SfdiOfPrefix(prefix));
  }

  /** Appending the check digit to the numeral of the prefix, as the code does. */
  lemma AppendedDigit(prefix: nat, c: nat)
    requires c < 10
    ensures AllDigits(Dec(prefix) + Dec(c)) && NumeralValue(Dec(prefix) + Dec(c)) == 10 * prefix + c
  {
    DecValue(prefix);
    var s := Dec(prefix) + Dec(c);
    assert s[..|s| - 1] == Dec(prefix) && s[|s| - 1] == DigitChar(c);
  }

  lemma {:induction false} DigitSumUpdate(s: string, k: nat, c: char)
    requires AllDigits(s) && k < |s| && '0' <= c <= '9'
    ensures AllDigits(s[k := c]) && DigitSum(s[k := c]) == DigitSum(s) - DigitValue(s[k]) + DigitValue(c)
  {
    var n := |s| - 1;
    if k < n {
      DigitSumUpdate(s[..n], k, c);
      assert s[k := c][..n] == s[..n][k := c];
    } else {
      assert s[k := c][..n] == s[..n];
    }
  }

  /** Changing any one digit of a numeral that checks is noticed. */
  lemma OneDigitChanged(s: string, k: nat, c: char)
    requires AllDigits(s) && DigitSum(s) % 10 == 0 && k < |s| && '0' <= c <= '9' && c != s[k]
    ensures AllDigits(s[k := c]) && DigitSum(s[k := c]) % 10 != 0
  {
    DigitSumUpdate(s, k, c);
    var delta := DigitValue(c) - DigitValue(s[k]);
    assert delta != 0 && -10 < delta < 10;
  }

  /** Exchanging two digits never is: a plain sum has no weights. */
  lemma ExchangeUnnoticed(s: string, j: nat, k: nat)
    requires AllDigits(s) && j < |s| && k < |s|
    ensures AllDigits(s[j := s[k]][k := s[j]]) && DigitSum(s[j := s[k]][k := s[j]]) == DigitSum(s)
  {
    DigitSumUpdate(s, j, s[k]);
    DigitSumUpdate(s[j := s[k]], k, s[j]);
  }

  /** The limit set by the schema for sFDI. */
  const MAX_SFDI: nat := 281474976710655

  /** `sfdi_from_lfdi`. A wrong length fails the assertion; a character that is no hex digit is the
      ValueError of the conversion. */
  method SfdiFromLfdi(lfdi: string) returns (r: Result<nat>)
    ensures |lfdi| != 40 ==> r == Raise(InstanceAssertion)
    ensures |lfdi| == 40 ==>
              match HexValue(lfdi[..9])
              case None => r == Raise(ValueError)
              case Some(prefix) =>
                && r == Ok(SfdiOfPrefix(prefix)) && Checks(r.value) && r.value / 10 == prefix
                && prefix < 0x10_0000_0000 && r.value <= 687194767359 < MAX_SFDI
  {
    hide Dec;
    hide DigitSum;
    hide CheckDigit;
    hide HexValue;
    hide Pow16;
    hide NumeralValue;
    if |lfdi| != 40 {
      return Raise(InstanceAssertion);
    }
    var hex := HexValue(lfdi[..9]);
    if hex.None? {
      return Raise(ValueError);
    }
    HexBound(lfdi[..9]);
    ThirtySixBits();
    var hexStr := Dec(hex.value);
    var fullSum := DigitSum(hexStr);
    ghost var target := CheckDigit(hex.value);
    var checkBit := 0;
    while (fullSum + checkBit) % 10 != 0
      invariant 0 <= checkBit <= target
      decreases target - checkBit
    {
      checkBit := checkBit + 1;
    }
    UniqueDigit(fullSum, target, checkBit);
    AppendedDigit(hex.value, checkBit);
    SfdiOfPrefixProperties(hex.value, 0);
    return Ok(NumeralValue(hexStr + Dec(checkBit)));
  }

  /* Looking a device up */

  /** A certificate file: its name, and the LFDI of its certificate unless the file has gone. */
  datatype Certificate = Certificate(stem: string, lfdi: Option<string>)

  /** A certificate the search gets past: its file has gone, or its LFDI is well formed. */
  predicate Readable(c: Certificate) {
    c.lfdi.Some? ==> |c.lfdi.value| == 40 && HexValue(c.lfdi.value[..9]).Some?
  }

  predicate HasSfdi(c: Certificate, sfdi: nat) {
    c.lfdi.Some? && Readable(c) && SfdiOfPrefix(HexValue(c.lfdi.value[..9]).value) == sfdi
  }

  /** The search comes to certificate k, having read those before it in vain. */
  ghost predicate Reaches(certificates: seq<Certificate>, k: nat, sfdi: nat)
    requires k <= |certificates|
  {
    forall j :: 0 <= j < k ==> Readable(certificates[j]) && !HasSfdi(certificates[j], sfdi)
  }

  /** `find_device_id_from_sfdi`: the first device with the identifier, and none only if none has
      it; only the missing file is caught. */
  method FindDevice(certificates: seq<Certificate>, sfdi: nat) returns (r: Result<Option<string>>)
    ensures r.Raise? ==> exists k :: 0 <= k < |certificates| && Reaches(certificates, k, sfdi)
                                     && !Readable(certificates[k])
    ensures r.Raise? ==> r.error in {InstanceAssertion, ValueError}
    ensures r.Ok? && r.value.Some? ==>
              exists k :: 0 <= k < |certificates| && Reaches(certificates, k, sfdi)
                          && HasSfdi(certificates[k], sfdi) && r.value.value == certificates[k].stem
    ensures r == Ok(None) <==> Reaches(certificates, |certificates|, sfdi)
  {
    hide SfdiOfPrefix;
    hide HexValue;
    var k := 0;
    while k < |certificates|
      invariant 0 <= k <= |certificates|
      invariant Reaches(certificates, k, sfdi)
    {
      if certificates[k].lfdi.Some? {
        var own := SfdiFromLfdi(certificates[k].lfdi.value);
        if own.Raise? {
          return Raise(own.error);
        }
        if own.value == sfdi {
          return Ok(Some(certificates[k].stem));
        }
      }
      k := k + 1;
    }
    return Ok(None);
  }
}
