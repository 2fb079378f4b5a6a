/** The `MM:SS` rendering of a number of seconds (`formatTime`), together with
    a reader for the rendered text that serves as its inverse. */
module Clock {
  import opened Wrappers

  predicate IsDigit(c: char) {
    '0' <= c <= '9'
  }

  predicate AllDigits(d: string) {
    forall i :: 0 <= i < |d| ==> IsDigit(d[i])
  }

  function DigitChar(d: nat): (c: char)
    requires d < 10
    ensures IsDigit(c)
  {
    ('0' as int + d) as char
  }

  function DigitValue(c: char): (v: nat)
    requires IsDigit(c)
    ensures v < 10
  {
    c as int - '0' as int
  }

  /** Decimal rendering of a natural number: no sign and no leading zero.
      This is what `Number.prototype.toString` gives for integers below
      10^21; from there on JavaScript switches to exponent form. */
  function Digits(n: nat): (r: string)
    ensures |r| >= 1 && AllDigits(r)
    ensures |r| == 1 <==> n < 10
    ensures |r| <= 2 <==> n < 100
    decreases n
  {
    if n < 10 then [DigitChar(n)] else Digits(n / 10) + [DigitChar(n % 10)]
  }

  /** `toString` of an integer: a minus sign in front of the digits of a
      negative number. */
  function IntToString(n: int): (r: string)
    ensures n >= 0 ==> AllDigits(r)
    ensures n < 0 ==> |r| >= 2 && r[0] == '-'
  {
    if n < 0 then "-" + Digits(-n) else Digits(n)
  }

  /** `padStart(2, '0')`: left-pads with zeros up to two characters and leaves
      longer strings alone. */
  function PadStart2(s: string): (r: string)
    ensures |s| >= 2 ==> r == s
    ensures |s| < 2 ==> |r| == 2 && r[2 - |s|..] == s
    ensures forall i :: 0 <= i < 2 - |s| ==> r[i] == '0'
  {
    if |s| == 0 then "00" else if |s| == 1 then "0" + s else s
  }

  /** JavaScript's `%`, which truncates toward zero: the remainder takes the
      sign of the dividend. */
  function JsRem60(a: int): (r: int)
    ensures -60 < r < 60
    ensures a >= 0 ==> 0 <= r && a == (a / 60) * 60 + r
    ensures a < 0 ==> r <= 0
  {
    if a >= 0 then a % 60 else -((-a) % 60)
  }

  /** `formatTime`: minutes from `Math.floor(seconds / 60)` and seconds from
      `seconds % 60`, each padded to two characters, joined by a colon.
      Dafny's `/` by the positive constant 60 is already the floor. For any
      non-negative input the seconds field is exactly two digits denoting a
      value in 0..59, and the field before the colon is all digits. */
  function FormatTime(seconds: int): (r: string)
    ensures seconds >= 0 ==>
      && |r| >= 5
      && r[|r| - 3] == ':'
      && AllDigits(r[..|r| - 3])
      && AllDigits(r[|r| - 2..])
      && ParseDigits(r[|r| - 2..]) == seconds % 60 < 60
  {
    var minutes := seconds / 60;
    var remaining := JsRem60(seconds);
    var mm := PadStart2(IntToString(minutes));
    var ss := PadStart2(IntToString(remaining));
    SecondsField(seconds);
    JoinFields(mm, ss);
    mm + ":" + ss
  }

  /** For a non-negative count the padded seconds field is two digits that
      denote `seconds % 60`. */
  lemma SecondsField(seconds: int)
    ensures seconds >= 0 ==>
      var ss := PadStart2(IntToString(JsRem60(seconds)));
      |ss| == 2 && AllDigits(ss) && ParseDigits(ss) == seconds % 60
  {
    if seconds >= 0 {
      var remaining := JsRem60(seconds);
      assert remaining == seconds % 60 && IntToString(remaining) == Digits(remaining);
      PadDigitsValue(remaining);
    }
  }

  /** Where the two fields sit in `mm:ss` once the seconds field has two
      characters. */
  lemma JoinFields(mm: string, ss: string)
    ensures |mm| >= 2 && |ss| == 2 ==>
      var r := mm + ":" + ss;
      |r| >= 5 && r[|r| - 3] == ':' && r[..|r| - 3] == mm && r[|r| - 2..] == ss
  {
  }

  /** The value of a string of decimal digits, leading zeros allowed. */
  function ParseDigits(d: string): nat
    requires AllDigits(d)
  {
    if d == [] then 0 else ParseDigits(d[..|d| - 1]) * 10 + DigitValue(d[|d| - 1])
  }

  /** Reads back a rendered time: digits, a colon, two digits. */
  function ParseTime(t: string): (r: Option<nat>)
    ensures r.Some? ==> |t| >= 4 && t[|t| - 3] == ':'
  {
    if |t| >= 4 && t[|t| - 3] == ':' && AllDigits(t[..|t| - 3]) && AllDigits(t[|t| - 2..]) then
      Some(ParseDigits(t[..|t| - 3]) * 60 + ParseDigits(t[|t| - 2..]))
    else
      None
  }

  lemma {:induction false} ParseDigitsOfDigits(n: nat)
    ensures ParseDigits(Digits(n)) == n
    decreases n
  {
    if n >= 10 {
      var d := Digits(n);
      assert d[..|d| - 1] == Digits(n / 10);
      ParseDigitsOfDigits(n / 10);
    }
  }

  lemma {:induction false} ParseDigitsLeadingZero(d: string)
    requires AllDigits(d)
    ensures AllDigits("0" + d) && ParseDigits("0" + d) == ParseDigits(d)
    decreases |d|
  {
    var z := "0" + d;
    if d != [] {
      assert z[..|z| - 1] == "0" + d[..|d| - 1];
      ParseDigitsLeadingZero(d[..|d| - 1]);
    }
  }

  lemma PadDigitsValue(n: nat)
    ensures AllDigits(PadStart2(Digits(n)))
    ensures ParseDigits(PadStart2(Digits(n))) == n
  {
    ParseDigitsOfDigits(n);
    var d := Digits(n);
    if |d| == 1 {
      ParseDigitsLeadingZero(d);
    }
  }

  /** Reading a rendered time back yields the number of seconds rendered, for
      every non-negative integer. The page's numbers are doubles, which agree
      with this only for safe integers, below 2^53. */
  lemma FormatTimeRoundTrip(seconds: int)
    requires seconds >= 0
    ensures ParseTime(FormatTime(seconds)) == Some(seconds)
  {
    MinutesField(seconds);
    PadDigitsValue(seconds / 60);
  }

  /** For a non-negative count the text before the colon is the padded
      decimal minutes. */
  lemma MinutesField(seconds: int)
    requires seconds >= 0
    ensures var r := FormatTime(seconds);
      |r| >= 3 && r[..|r| - 3] == PadStart2(Digits(seconds / 60))
  {
    SecondsField(seconds);
    JoinFields(PadStart2(IntToString(seconds / 60)), PadStart2(IntToString(JsRem60(seconds))));
  }

  /** The minutes field is the decimal minutes padded to two characters and
      never longer: it has exactly as many characters as the minutes have
      digits, or two when they have one. So the rendering is exactly five
      characters (`MM:SS`) precisely for the inputs below 100 minutes. */
  lemma FormatTimeLength(seconds: int)
    requires seconds >= 0
    ensures |FormatTime(seconds)| - 3 == if |Digits(seconds / 60)| < 2 then 2 else |Digits(seconds / 60)|
    ensures |FormatTime(seconds)| == 5 <==> seconds < 6000
  {
    var d := Digits(seconds / 60);
    assert |FormatTime(seconds)| == |PadStart2(d)| + 3;
    assert |PadStart2(d)| == 2 <==> |d| <= 2;
  }
}
