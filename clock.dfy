// The "HH:MM:SS" rendering shared by the student screens: hours, minutes
// and seconds, each `toString().padStart(2, '0')`, joined with colons.

module Clock {
  import opened Strings

  /** `n.toString().padStart(2, '0')`. */
  function Pad(n: nat): string {
    PadStart2(NatToString(n))
  }

  /** The three fields of a number of seconds. */
  function ClockFields(seconds: nat): seq<string> {
    [Pad(seconds / 3600), Pad(seconds % 3600 / 60), Pad(seconds % 60)]
  }

  function FormatClock(seconds: nat): string {
    Join(ClockFields(seconds), ":")
  }

  /** A padded number is at least two digits, exactly two below one hundred,
      and reads back as the number. */
  lemma PadReadsBack(n: nat)
    ensures IsDigits(Pad(n)) && |Pad(n)| >= 2
    ensures |Pad(n)| == 2 <==> n < 100
    ensures DecimalValue(Pad(n)) == n
  {
    if n < 100 {
      PadStart2Value(n);
      if n < 10 {
        PadOneDigit(n);
      }
    } else {
      DecimalRoundTrip(n);
      NatToStringLength(n);
      NatToStringLength(n / 10);
    }
  }

  /** Splitting the rendering at the colons gives back the three fields. */
  lemma ClockSplits(seconds: nat)
    ensures Split(FormatClock(seconds), ':') == ClockFields(seconds)
  {
    var f := ClockFields(seconds);
    forall i | 0 <= i < 3 ensures ':' !in f[i] {
      PadReadsBack([seconds / 3600, seconds % 3600 / 60, seconds % 60][i]);
    }
    assert ":" == [':'];
    SplitJoin(f, ':');
  }

  /** The rendering reads back as the number of seconds: three colon-separated
      digit fields h, m, s with 3600h + 60m + s equal to the input, m and s
      two digits below sixty, h at least two digits. */
  lemma ClockReadsBack(seconds: nat)
    ensures var f := Split(FormatClock(seconds), ':');
      |f| == 3 && IsDigits(f[0]) && IsDigits(f[1]) && IsDigits(f[2])
      && |f[0]| >= 2 && |f[1]| == 2 && |f[2]| == 2
      && DecimalValue(f[1]) < 60 && DecimalValue(f[2]) < 60
      && 3600 * DecimalValue(f[0]) + 60 * DecimalValue(f[1]) + DecimalValue(f[2]) == seconds
  {
    ClockSplits(seconds);
    var h, m, s := seconds / 3600, seconds % 3600 / 60, seconds % 60;
    PadReadsBack(h);
    PadReadsBack(m);
    PadReadsBack(s);
    ClockArithmetic(seconds);
  }

  lemma ClockArithmetic(seconds: nat)
    ensures seconds % 3600 / 60 < 60 && seconds % 60 < 60
    ensures 3600 * (seconds / 3600) + 60 * (seconds % 3600 / 60) + seconds % 60 == seconds
  {
    var r := seconds % 3600;
    assert r % 60 == seconds % 60 by {
      assert seconds == 3600 * (seconds / 3600) + r;
      assert seconds == 60 * (60 * (seconds / 3600) + r / 60) + r % 60;
    }
  }

  /** Zero seconds render as "00:00:00". */
  lemma ClockZero()
    ensures FormatClock(0) == "00:00:00"
  {
    var zero := Pad(0);
    assert zero == "00";
    assert ClockFields(0) == [zero, zero, zero];
    assert [zero, zero, zero][1..] == [zero, zero];
    assert [zero, zero][1..] == [zero];
    assert Join([zero], ":") == zero;
    assert Join([zero, zero], ":") == zero + ":" + zero;
  }
}
