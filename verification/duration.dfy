/** The display form of a playlist's total length: whole minutes, a colon and
    two digits of leftover seconds, as `M:SS`. */
module Duration {
  import opened Text

  const MsPerMinute: nat := 60000
  const MsPerSecond: nat := 1000

  /** The seconds field: the number itself when above nine, otherwise the
      number after a "0". */
  function SecondsField(sec: nat): (f: string)
    requires sec < 60
    ensures |f| == 2 && AllDigits(f) && DigitsValue(f) == sec
    ensures f[0] == '0' <==> sec < 10
  {
    if sec > 9 then
      NatToString(sec)
    else
      var f := "0" + NatToString(sec);
      assert f[..1] == "0";
      f
  }

  /** The total length `ms` of a playlist as `M:SS`: the minutes unpadded,
      the leftover whole seconds in two digits. */
  function FormatLength(ms: nat): (r: string)
    ensures |r| >= 4 && r[|r| - 3] == ':'
    ensures AllDigits(r[..|r| - 3]) && DigitsValue(r[..|r| - 3]) == ms / MsPerMinute
    ensures |r| > 4 ==> r[0] != '0'
    ensures AllDigits(r[|r| - 2..]) && DigitsValue(r[|r| - 2..]) == (ms % MsPerMinute) / MsPerSecond
    ensures r[|r| - 2] <= '5'
  {
    var minutes := NatToString(ms / MsPerMinute);
    var seconds := SecondsField((ms % MsPerMinute) / MsPerSecond);
    var r := minutes + ":" + seconds;
    assert r[..|r| - 3] == minutes;
    assert r[|r| - 2..] == seconds;
    assert DigitsValue(seconds) == 10 * DigitsValue(seconds[..1]) + (seconds[1] as int - '0' as int);
    r
  }

  /** Whole minutes and leftover whole seconds together are the whole seconds
      of the length. */
  lemma WholeSeconds(ms: nat)
    ensures ms / MsPerSecond == 60 * (ms / MsPerMinute) + (ms % MsPerMinute) / MsPerSecond
  {
    var m, rest := ms / 60000, ms % 60000;
    assert ms == 60000 * m + rest;
    var s, sub := rest / 1000, rest % 1000;
    assert rest == 1000 * s + sub;
    assert ms == 1000 * (60 * m + s) + sub;
  }

  /** Two lengths print the same exactly when they have the same number of
      whole seconds. */
  lemma {:induction false} FormatLengthInjective(a: nat, b: nat)
    ensures FormatLength(a) == FormatLength(b) <==> a / MsPerSecond == b / MsPerSecond
  {
    if a / MsPerSecond == b / MsPerSecond {
      SameWholeSeconds(a, b);
      assert NatToString(a / MsPerMinute) == NatToString(b / MsPerMinute);
    }
    if FormatLength(a) == FormatLength(b) {
      SameTextSameSeconds(a, b);
    }
  }

  /** The printed length determines the number of whole seconds. */
  lemma SameTextSameSeconds(a: nat, b: nat)
    requires FormatLength(a) == FormatLength(b)
    ensures a / MsPerSecond == b / MsPerSecond
  {
    var r := FormatLength(a);
    PrintedFields(a, r);
    PrintedFields(b, r);
    SameFieldsSameSeconds(a, b);
  }

  /** `r` reads as `M:SS` for the length `ms`: digits for the whole minutes,
      a colon, two digits for the leftover whole seconds. */
  ghost predicate ShowsLength(r: string, ms: nat) {
    && |r| >= 4 && r[|r| - 3] == ':'
    && AllDigits(r[..|r| - 3]) && DigitsValue(r[..|r| - 3]) == ms / MsPerMinute
    && AllDigits(r[|r| - 2..]) && DigitsValue(r[|r| - 2..]) == (ms % MsPerMinute) / MsPerSecond
  }

  /** The minutes and the seconds field read back from a printed length. */
  lemma PrintedFields(ms: nat, r: string)
    requires r == FormatLength(ms)
    ensures ShowsLength(r, ms)
  {
  }

  /** Equal minutes and equal leftover seconds give equal whole seconds. */
  lemma SameFieldsSameSeconds(a: nat, b: nat)
    requires a / MsPerMinute == b / MsPerMinute
    requires (a % MsPerMinute) / MsPerSecond == (b % MsPerMinute) / MsPerSecond
    ensures a / MsPerSecond == b / MsPerSecond
  {
    WholeSeconds(a);
    WholeSeconds(b);
  }

  /** Equal whole seconds give equal minutes and equal leftover seconds. */
  lemma SameWholeSeconds(a: nat, b: nat)
    requires a / MsPerSecond == b / MsPerSecond
    ensures a / MsPerMinute == b / MsPerMinute
    ensures (a % MsPerMinute) / MsPerSecond == (b % MsPerMinute) / MsPerSecond
  {
    WholeSeconds(a);
    WholeSeconds(b);
    var t := a / MsPerSecond;
    assert t == 60 * (a / MsPerMinute) + (a % MsPerMinute) / MsPerSecond;
    assert t == 60 * (b / MsPerMinute) + (b % MsPerMinute) / MsPerSecond;
  }

  /** Three lengths and how they print. */
  lemma FormatLengthExamples()
    ensures FormatLength(0) == "0:00"
    ensures FormatLength(600000) == "10:00"
    ensures FormatLength(185000) == "3:05"
  {
  }
}
