/** ASS time stamps: rounding to centiseconds, formatting, and reading back. */
module AssTime {
  import opened Rounding

  function Digit(n: nat): char
    requires n < 10
  {
    "0123456789"[n]
  }

  function DigitValue(c: char): nat {
    if '0' <= c <= '9' then (c as int) - ('0' as int) else 0
  }

  function Decimal(n: nat): (s: string)
    ensures s != []
  {
    if n < 10 then [Digit(n)] else Decimal(n / 10) + [Digit(n % 10)]
  }

  /** Two digits with a leading zero. */
  function Two(n: nat): string
    requires n < 100
  {
    [Digit(n / 10), Digit(n % 10)]
  }

  function Number(s: string): nat {
    if s == [] then 0 else Number(s[..|s| - 1]) * 10 + DigitValue(s[|s| - 1])
  }

  /** `H:MM:SS.cc`. */
  function FormatCentiseconds(n: nat): string {
    var seconds := n / 100;
    Decimal(seconds / 3600) + ":" + Two(seconds / 60 % 60) + ":" + Two(seconds % 60) + "." + Two(n % 100)
  }

  /** Reads a time stamp: the hours, then two digits each of minutes, seconds and centiseconds. */
  function ParseTime(s: string): nat
    requires |s| >= 9
  {
    var k := |s| - 9;
    Number(s[..k]) * 360000 + Number(s[k + 1..k + 3]) * 6000 + Number(s[k + 4..k + 6]) * 100 + Number(s[k + 7..])
  }

  function Centiseconds(seconds: real): (n: nat)
    ensures seconds >= 0.0 ==> -0.5 <= n as real - seconds * 100.0 <= 0.5
  {
    var clamped := if seconds < 0.0 then 0.0 else seconds;
    RoundIsNearest(clamped * 100.0);
    RoundIsMonotone(0.0, clamped * 100.0);
    RoundHalfEven(clamped * 100.0)
  }

  function FormatTime(seconds: real): string { FormatCentiseconds(Centiseconds(seconds)) }

  lemma DigitReads(n: nat)
    requires n < 10
    ensures DigitValue(Digit(n)) == n
  {
  }

  lemma {:induction false} DecimalReads(n: nat)
    ensures Number(Decimal(n)) == n
  {
    if n < 10 {
      DigitReads(n);
      assert Decimal(n)[..0] == [];
    } else {
      DecimalReads(n / 10);
      DigitReads(n % 10);
      assert Decimal(n)[..|Decimal(n)| - 1] == Decimal(n / 10);
    }
  }

  lemma TwoReads(n: nat)
    requires n < 100
    ensures Number(Two(n)) == n
  {
    DigitReads(n / 10);
    DigitReads(n % 10);
    assert Two(n)[..1] == [Digit(n / 10)] && [Digit(n / 10)][..0] == [];
    assert Number([Digit(n / 10)]) == n / 10;
  }

  lemma ClockParts(n: nat)
    ensures var seconds := n / 100;
      n == seconds / 3600 * 360000 + seconds / 60 % 60 * 6000 + seconds % 60 * 100 + n % 100
  {
    var seconds := n / 100;
    var minutes := seconds / 60;
    assert seconds == minutes * 60 + seconds % 60;
    assert minutes == minutes / 60 * 60 + minutes % 60;
    assert minutes / 60 == seconds / 3600;
  }

  /** A formatted time reads back as itself. */
  lemma FormatParses(n: nat)
    ensures |FormatCentiseconds(n)| >= 9 && ParseTime(FormatCentiseconds(n)) == n
  {
    var s := FormatCentiseconds(n);
    var seconds := n / 100;
    var hours := Decimal(seconds / 3600);
    var k := |hours|;
    assert |s| == k + 9;
    assert s[..k] == hours && s[k + 1..k + 3] == Two(seconds / 60 % 60);
    assert s[k + 4..k + 6] == Two(seconds % 60) && s[k + 7..] == Two(n % 100);
    DecimalReads(seconds / 3600);
    TwoReads(seconds / 60 % 60);
    TwoReads(seconds % 60);
    TwoReads(n % 100);
    ClockParts(n);
  }

  /** Later times never format as earlier ones. */
  lemma CentisecondsMonotone(a: real, b: real)
    requires a <= b
    ensures Centiseconds(a) <= Centiseconds(b)
  {
    var x, y := if a < 0.0 then 0.0 else a, if b < 0.0 then 0.0 else b;
    RoundIsMonotone(x * 100.0, y * 100.0);
  }

  /** Times more than a centisecond apart stay apart. */
  lemma CentisecondsSeparate(a: real, b: real)
    requires 0.0 <= a && a + 0.01 < b
    ensures Centiseconds(a) < Centiseconds(b)
  {
    RoundSeparates(a * 100.0, b * 100.0);
  }
}
