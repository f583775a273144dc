/** The decimal reader used for frequencies and offsets: a string such as
    `146.520` becomes an integer count of thousandths (`146520`). The integer
    part is read like `strtol` reads a digit string; up to three characters
    after a `.` add hundreds, tens and units. */
module Decimal {

  predicate IsDigit(ch: char) {
    '0' <= ch <= '9'
  }

  predicate AllDigits(s: string) {
    forall i :: 0 <= i < |s| ==> IsDigit(s[i])
  }

  function DigitValue(ch: char): nat
    requires IsDigit(ch)
  {
    (ch as int) - ('0' as int)
  }

  /** The value of a digit string, most significant digit first. */
  function Value(s: string): nat
    requires AllDigits(s)
  {
    if |s| == 0 then 0 else Value(s[..|s| - 1]) * 10 + DigitValue(s[|s| - 1])
  }

  /** Length of the run of digits at the start of `s`: where `strtol`
      stops reading. */
  function DigitRun(s: string): (n: nat)
    ensures n <= |s|
    ensures AllDigits(s[..n])
    ensures n < |s| ==> !IsDigit(s[n])
  {
    if |s| == 0 || !IsDigit(s[0]) then 0
    else
      var n := 1 + DigitRun(s[1..]);
      assert s[..n] == [s[0]] + s[1..][..n - 1];
      n
  }

  /** `strtol(s, NULL, 10)` for a string that does not start with white
      space or a sign: the value of its leading digits, 0 when there are
      none. */
  function LeadingValue(s: string): nat {
    Value(s[..DigitRun(s)])
  }

  /** Weight of the i-th character after the decimal point. */
  const Weights: seq<nat> := [100, 10, 1]

  /** The fraction loop as the source writes it: up to three characters,
      stopping only at the end of the string; each adds its weight times its
      distance from `'0'`, digit or not. */
  function FractionAsWritten(p: string, i: nat): int
    decreases 3 - i
  {
    if i >= 3 || i >= |p| then 0
    else Weights[i] * ((p[i] as int) - ('0' as int)) + FractionAsWritten(p, i + 1)
  }

  /** The fraction loop with the digit test it evidently intends: it also
      stops at the first character that is not a digit. */
  function Fraction(p: string, i: nat): (v: nat)
    decreases 3 - i
  {
    if i >= 3 || i >= |p| || !IsDigit(p[i]) then 0
    else Weights[i] * DigitValue(p[i]) + Fraction(p, i + 1)
  }

  /** The characters after the `.` that follows the leading digits, if any. */
  predicate HasFraction(s: string) {
    DigitRun(s) < |s| && s[DigitRun(s)] == '.'
  }

  function FractionPart(s: string): string
    requires HasFraction(s)
  {
    s[DigitRun(s) + 1..]
  }

  /** The source's reader: thousandths of the decimal number in `s`. */
  function ThousandthsAsWritten(s: string): int {
    LeadingValue(s) * 1000 + (if HasFraction(s) then FractionAsWritten(FractionPart(s), 0) else 0)
  }

  /** The reader the rest of the model uses. */
  function Thousandths(s: string): nat {
    LeadingValue(s) * 1000 + (if HasFraction(s) then Fraction(FractionPart(s), 0) else 0)
  }

  // ---------------------------------------------------------------------
  // Lemmas

  /** Scale of a fraction of `k` digits in thousandths. */
  function Scale(k: nat): nat
    requires k <= 3
  {
    [1000, 100, 10, 1][k]
  }

  lemma DigitRunOfDigits(ip: string, rest: string)
    requires AllDigits(ip)
    requires |rest| == 0 || !IsDigit(rest[0])
    ensures DigitRun(ip + rest) == |ip|
    ensures (ip + rest)[..|ip|] == ip
  {
    if |ip| > 0 {
      assert (ip + rest)[1..] == ip[1..] + rest;
      DigitRunOfDigits(ip[1..], rest);
    }
  }

  /** Reading a fraction of at most three digits gives the digits' value at
      their scale. */
  lemma FractionOfDigits(fp: string)
    requires AllDigits(fp) && |fp| <= 3
    ensures Fraction(fp, 0) == Value(fp) * Scale(|fp|)
  {
    if |fp| == 3 {
      assert fp[..2][..1] == fp[..1];
    } else if |fp| == 2 {
      assert fp[..1][..0] == fp[..0];
    }
  }

  /** Characters past the third after the point are never read. */
  lemma FractionIgnoresTail(fp: string, tail: string)
    requires |fp| == 3
    ensures Fraction(fp + tail, 0) == Fraction(fp, 0)
  {
    var s := fp + tail;
    assert s[0] == fp[0] && s[1] == fp[1] && s[2] == fp[2];
  }

  /** `I.abc` reads as `I * 1000 + abc` with missing fraction digits taken
      as zero: the value of the decimal number `I.abc` in thousandths. */
  lemma {:induction false} ThousandthsOfDecimal(ip: string, fp: string)
    requires AllDigits(ip) && AllDigits(fp) && |fp| <= 3
    ensures Thousandths(ip + "." + fp) == Value(ip) * 1000 + Value(fp) * Scale(|fp|)
  {
    var s := ip + "." + fp;
    assert s == ip + ("." + fp);
    DigitRunOfDigits(ip, "." + fp);
    assert HasFraction(s);
    assert FractionPart(s) == fp;
    FractionOfDigits(fp);
  }

  /** A string of digits alone reads as that many whole units. */
  lemma {:induction false} ThousandthsOfInteger(ip: string)
    requires AllDigits(ip)
    ensures Thousandths(ip) == Value(ip) * 1000
  {
    DigitRunOfDigits(ip, "");
    assert ip + "" == ip;
  }

  /** Digits beyond the third after the point are cut off, not rounded. */
  lemma {:induction false} ThousandthsTruncates(ip: string, fp: string, tail: string)
    requires AllDigits(ip) && AllDigits(fp) && |fp| == 3
    ensures Thousandths(ip + "." + fp + tail) == Value(ip) * 1000 + Value(fp)
  {
    var s := ip + "." + fp + tail;
    var rest := "." + fp + tail;
    assert s == ip + rest;
    assert rest[0] == '.';
    DigitRunOfDigits(ip, rest);
    assert FractionPart(s) == rest[1..] == fp + tail;
    FractionIgnoresTail(fp, tail);
    FractionOfDigits(fp);
  }

  /** When the characters the fraction loop reads are digits, the source's
      reader and the corrected one agree. */
  lemma {:induction false} AsWrittenAgreesOnDigits(s: string)
    requires HasFraction(s) ==>
      forall i :: 0 <= i < 3 && i < |FractionPart(s)| ==> IsDigit(FractionPart(s)[i])
    ensures ThousandthsAsWritten(s) == Thousandths(s)
  {
    if HasFraction(s) {
      var p := FractionPart(s);
      FractionsAgree(p, 2);
      FractionsAgree(p, 1);
      FractionsAgree(p, 0);
    }
  }

  lemma FractionsAgree(p: string, i: nat)
    requires i < 3
    requires forall j :: i <= j < 3 && j < |p| ==> IsDigit(p[j])
    requires i + 1 < 3 ==> FractionAsWritten(p, i + 1) == Fraction(p, i + 1)
    ensures FractionAsWritten(p, i) == Fraction(p, i)
  {
  }

  /** The source's reader misreads a fraction followed by white space:
      `146.52 ` comes out as 146504 (the space adds `' ' - '0'`, that is -16),
      where the corrected reader gives 146520. */
  lemma TrailingSpaceMisread()
    ensures ThousandthsAsWritten("146.52 ") == 146504
    ensures Thousandths("146.52 ") == 146520
  {
    var s := "146.52 ";
    assert DigitRun(s) == 3 by {
      DigitRunOfDigits("146", ".52 ");
      assert s == "146" + ".52 ";
    }
    assert s[..3] == "146";
    ValueOf146();
    assert FractionPart(s) == "52 ";
  }

  /** Missing fraction digits count as zeros: `146.52` and `146.520` read
      the same. */
  lemma {:induction false} MissingDigitsAreZero(ip: string, fp: string)
    requires AllDigits(ip) && AllDigits(fp) && |fp| <= 2
    ensures Thousandths(ip + "." + fp) == Thousandths(ip + "." + fp + "0")
  {
    var fp0 := fp + "0";
    assert AllDigits(fp0) by {
      assert forall i :: 0 <= i < |fp| ==> fp0[i] == fp[i];
    }
    assert fp0[..|fp|] == fp;
    assert Value(fp0) == Value(fp) * 10;
    ScaleShifts(Value(fp), |fp|);
    ThousandthsOfDecimal(ip, fp);
    ThousandthsOfDecimal(ip, fp0);
    assert ip + "." + fp0 == ip + "." + fp + "0";
  }

  /** One more digit after the point is worth a tenth as much. */
  lemma ScaleShifts(v: nat, k: nat)
    requires k < 3
    ensures v * 10 * Scale(k + 1) == v * Scale(k)
  {
    assert Scale(k) == 10 * Scale(k + 1);
  }

  /** The frequency of `Parser.RepeaterDefaultOffset` and
      `Importer.EndToEndSimplexChannel`: `146.520` is 146520 kHz. */
  lemma SimplexFrequency()
    ensures Thousandths("146.520") == 146520
  {
    ValueOf146();
    ValueOf520();
    ThousandthsOfDecimal("146", "520");
    assert "146" + "." + "520" == "146.520";
  }

  lemma ValueOf520()
    ensures Value("520") == 520
  {
    assert "520"[..2] == "52";
    assert "52"[..1] == "5";
    assert "5"[..0] == "";
  }

  lemma ValueOf146()
    ensures Value("146") == 146
  {
    assert "146"[..2] == "14";
    assert "14"[..1] == "1";
    assert "1"[..0] == "";
  }
}
