/**
 * `formatTime` (script.js lines 130-134): whole seconds shown as `M:SS`.
 *
 * The source computes `Math.floor(seconds / 60)` and `seconds % 60` on a
 * JavaScript number. For integers, the first is Dafny's `/` by a positive
 * divisor; the second truncates toward zero, so it is written out in
 * `JsRemainder`. Numbers are printed in decimal without leading zeros, and
 * the seconds are left-padded with '0' to two characters.
 */
module TimeFormat {
  import opened Wrappers

  predicate IsDigit(c: char)
  {
    '0' <= c <= '9'
  }

  predicate AllDigits(s: string)
  {
    forall i :: 0 <= i < |s| ==> IsDigit(s[i])
  }

  function DigitChar(d: nat): (c: char)
    requires d < 10
    ensures IsDigit(c) && (c as int) - ('0' as int) == d
  {
    ('0' as int + d) as char
  }

  /** The value of a string of decimal digits. */
  function DigitsValue(s: string): nat
    requires AllDigits(s)
  {
    if s == [] then 0
    else 10 * DigitsValue(s[..|s| - 1]) + ((s[|s| - 1] as int) - ('0' as int))
  }

  /** `n.toString()` for a non-negative integer: its decimal digits, no leading zero. */
  function NatToString(n: nat): (s: string)
    ensures 1 <= |s| && AllDigits(s)
    ensures n < 10 <==> |s| == 1
    ensures |s| > 1 ==> s[0] != '0'
    decreases n
  {
    if n < 10 then [DigitChar(n)]
    else NatToString(n / 10) + [DigitChar(n % 10)]
  }

  /** `i.toString()` for any integer. */
  function IntToString(i: int): string
  {
    if i < 0 then "-" + NatToString(-i) else NatToString(i)
  }

  /** JavaScript's `a % b`: the remainder takes the sign of `a`. */
  function JsRemainder(a: int, b: int): (r: int)
    requires b > 0
    ensures a >= 0 ==> 0 <= r < b && r == a % b
    ensures a < 0 ==> -b < r <= 0
    ensures a < 0 ==> -r == (-a) % b
  {
    if a >= 0 then a % b else -((-a) % b)
  }

  /** `s.padStart(2, '0')`. */
  function PadStart2(s: string): (r: string)
    ensures |s| >= 2 ==> r == s
    ensures |s| < 2 ==> |r| == 2 && r[2 - |s|..] == s && forall i :: 0 <= i < 2 - |s| ==> r[i] == '0'
  {
    if |s| == 0 then "00"
    else if |s| == 1 then "0" + s
    else s
  }

  function FormatTime(seconds: int): string
  {
    IntToString(seconds / 60) + ":" + PadStart2(IntToString(JsRemainder(seconds, 60)))
  }

  /**
   * Reads an `M:SS` text back: minutes as plain digits, a colon, then two
   * digits worth less than 60.
   */
  function ParseTime(s: string): Option<nat>
  {
    if |s| >= 4 && s[|s| - 3] == ':' && AllDigits(s[..|s| - 3]) && AllDigits(s[|s| - 2..])
       && DigitsValue(s[|s| - 2..]) < 60
    then Some(DigitsValue(s[..|s| - 3]) * 60 + DigitsValue(s[|s| - 2..]))
    else None
  }

  /** Printing a natural number and reading the digits back gives the number. */
  lemma {:induction false} DigitsValueOfNatToString(n: nat)
    ensures DigitsValue(NatToString(n)) == n
    decreases n
  {
    var s := NatToString(n);
    if n >= 10 {
      DigitsValueOfNatToString(n / 10);
      assert s[..|s| - 1] == NatToString(n / 10);
    }
  }

  /** Seconds below 60, printed and padded, are exactly two digits worth the seconds. */
  lemma SecondsDigits(secs: nat)
    requires secs < 60
    ensures var ss := PadStart2(NatToString(secs));
            |ss| == 2 && AllDigits(ss) && DigitsValue(ss) == secs
  {
    var s := NatToString(secs);
    DigitsValueOfNatToString(secs);
    if secs < 10 {
      var ss := PadStart2(s);
      assert ss == ['0'] + s;
      assert ss[..1] == ['0'];
      assert DigitsValue(['0']) == 0;
    } else {
      assert |NatToString(secs / 10)| == 1;
    }
  }

  /** The three parts of `a + ":" + b` with a two-character `b` can be found from the end. */
  lemma SplitAtColon(a: string, b: string)
    requires |b| == 2
    ensures var r := a + ":" + b;
            |r| == |a| + 3 && r[|r| - 3] == ':' && r[..|r| - 3] == a && r[|r| - 2..] == b
  {
  }

  /**
   * For a non-negative number of seconds the text is the minutes, a colon
   * and exactly two second digits; the seconds are below 60 and
   * `mins * 60 + secs == seconds`.
   */
  lemma FormatTimeShape(seconds: nat)
    ensures var r := FormatTime(seconds);
            |r| >= 4 && r[|r| - 3] == ':' &&
            r[..|r| - 3] == NatToString(seconds / 60) &&
            AllDigits(r[..|r| - 3]) && DigitsValue(r[..|r| - 3]) == seconds / 60 &&
            AllDigits(r[|r| - 2..]) &&
            DigitsValue(r[|r| - 2..]) == seconds % 60 < 60 &&
            (seconds / 60) * 60 + DigitsValue(r[|r| - 2..]) == seconds
  {
    var mins := NatToString(seconds / 60);
    var ss := PadStart2(NatToString(seconds % 60));
    assert FormatTime(seconds) == mins + ":" + ss;
    SecondsDigits(seconds % 60);
    SplitAtColon(mins, ss);
    DigitsValueOfNatToString(seconds / 60);
  }

  /** A string made of a digit prefix, ':' and two digits worth less than 60 reads back as their time. */
  lemma ParseTimeOfParts(r: string, mins: nat, secs: nat)
    requires |r| >= 4 && r[|r| - 3] == ':'
    requires AllDigits(r[..|r| - 3]) && DigitsValue(r[..|r| - 3]) == mins
    requires AllDigits(r[|r| - 2..]) && DigitsValue(r[|r| - 2..]) == secs < 60
    ensures ParseTime(r) == Some(mins * 60 + secs)
  {
  }

  /** `ParseTime` undoes `FormatTime` on every non-negative number of seconds. */
  lemma FormatTimeRoundTrip(seconds: nat)
    ensures ParseTime(FormatTime(seconds)) == Some(seconds)
  {
    FormatTimeShape(seconds);
    ParseTimeOfParts(FormatTime(seconds), seconds / 60, seconds % 60);
  }

  /**
   * A negative count (the clock stepped back) is printed with a floored
   * minute and a truncated second that do not add back up to it.
   */
  lemma FormatTimeNegative()
    ensures FormatTime(-5) == "-1:-5"
    ensures ParseTime(FormatTime(-5)) == None
  {
    assert -5 / 60 == -1;
    assert NatToString(1) == "1";
    assert NatToString(5) == "5";
  }
}
