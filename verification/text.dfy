/** The string operations the aggregation uses, with Python's meaning:
    decimal digits and `str(n)`, `sep.join(xs)`, `s.split(sep)` and
    `s.split(sep, 1)`. Strings are sequences of characters. */
module Text {
  import opened Wrappers

  /** An ASCII decimal digit. */
  predicate IsDigit(c: char) {
    '0' <= c <= '9'
  }

  predicate AllDigits(s: string) {
    forall i :: 0 <= i < |s| ==> IsDigit(s[i])
  }

  /** The number a string of decimal digits denotes. */
  function DigitsValue(s: string): nat
    requires AllDigits(s)
  {
    if |s| == 0 then 0
    else 10 * DigitsValue(s[..|s| - 1]) + (s[|s| - 1] as int - '0' as int)
  }

  /** The digit character for `d`. */
  function DigitChar(d: nat): (c: char)
    requires d < 10
    ensures IsDigit(c) && c as int - '0' as int == d
  {
    (d + '0' as int) as char
  }

  /** Python's `str(n)` for a non-negative integer: decimal digits that denote
      `n`, with no leading zero except for zero itself. */
  function NatToString(n: nat): (s: string)
    ensures 1 <= |s| && AllDigits(s) && DigitsValue(s) == n
    ensures |s| == 1 <==> n < 10
    ensures |s| <= 2 <==> n < 100
    ensures s[0] == '0' <==> n == 0
  {
    if n < 10 then
      [DigitChar(n)]
    else
      var prefix := NatToString(n / 10);
      var s := prefix + [DigitChar(n % 10)];
      assert s[..|s| - 1] == prefix;
      s
  }

  /** Python's `sep.join(xs)`. */
  function Join(xs: seq<string>, sep: string): string {
    if |xs| == 0 then ""
    else if |xs| == 1 then xs[0]
    else xs[0] + sep + Join(xs[1..], sep)
  }

  /** `sep` occurs in `s` starting at position `q`. */
  predicate OccursAt(s: string, sep: string, q: nat) {
    q + |sep| <= |s| && s[q..q + |sep|] == sep
  }

  /** The leftmost occurrence of `sep` in `s` at or after position `from`, as
      Python's `s.find(sep, from)` finds it. */
  function FindFrom(s: string, sep: string, from: nat): (r: Option<nat>)
    ensures r.Some? ==> from <= r.value && OccursAt(s, sep, r.value)
    ensures r.Some? ==> forall q :: from <= q < r.value ==> !OccursAt(s, sep, q)
    ensures r.None? ==> forall q :: from <= q ==> !OccursAt(s, sep, q)
    decreases |s| - from
  {
    if from + |sep| > |s| then None
    else if s[from..from + |sep|] == sep then Some(from)
    else FindFrom(s, sep, from + 1)
  }

  /** Python's `s.split(sep, 1)`: the text before the first `sep` and the text
      after it, or `s` alone when `sep` does not occur. */
  function SplitOnce(s: string, sep: string): (parts: seq<string>)
    requires |sep| > 0
    ensures 1 <= |parts| <= 2
    ensures |parts| == 1 <==> forall q :: !OccursAt(s, sep, q)
    ensures |parts| == 1 ==> parts[0] == s
    ensures |parts| == 2 ==> parts[0] + sep + parts[1] == s
    ensures |parts| == 2 ==> forall q: nat :: q < |parts[0]| ==> !OccursAt(s, sep, q)
  {
    match FindFrom(s, sep, 0)
    case None => [s]
    case Some(p) =>
      assert s == s[..p] + sep + s[p + |sep|..];
      [s[..p], s[p + |sep|..]]
  }

  /** Python's `s.split(sep)`: the pieces between the occurrences of `sep`,
      found left to right. */
  function Split(s: string, sep: string): (parts: seq<string>)
    requires |sep| > 0
    ensures |parts| >= 1
    decreases |s|
  {
    match FindFrom(s, sep, 0)
    case None => [s]
    case Some(p) => [s[..p]] + Split(s[p + |sep|..], sep)
  }

  /** A string with no space splits at its first space into a part without
      spaces and the rest. */
  lemma SplitOnceAtSpace(s: string)
    ensures |SplitOnce(s, " ")| == 2 <==> ' ' in s
    ensures |SplitOnce(s, " ")| == 2 ==> ' ' !in SplitOnce(s, " ")[0]
  {
    var parts := SplitOnce(s, " ");
    forall q: nat | q < |s|
      ensures OccursAt(s, " ", q) <==> s[q] == ' '
    {
      assert OccursAt(s, " ", q) ==> s[q..q + 1][0] == ' ';
      if s[q] == ' ' {
        assert s[q..q + 1] == " ";
      }
    }
    if ' ' in s {
      var q :| 0 <= q < |s| && s[q] == ' ';
      assert OccursAt(s, " ", q);
    } else {
      forall q: nat ensures !OccursAt(s, " ", q) {
        if q < |s| {
          assert s[q] != ' ';
        }
      }
    }
    if |parts| == 2 {
      forall i | 0 <= i < |parts[0]| ensures parts[0][i] != ' ' {
        assert parts[0][i] == s[i];
        assert !OccursAt(s, " ", i);
      }
    }
  }

  /** Splitting a date without spaces, a space and a title at the first
      space gives the date and the title back. */
  lemma SplitOnceOfJoined(date: string, title: string)
    requires ' ' !in date
    ensures SplitOnce(date + " " + title, " ") == [date, title]
  {
    var s := date + " " + title;
    forall q: nat ensures !OccursAt(date, " ", q) {
      if q + 1 <= |date| {
        assert date[q..q + 1][0] == date[q];
      }
    }
    LeftmostAtJoint(date, " ", title);
    assert s[..|date|] == date;
    assert s[|date| + 1..] == title;
  }

  /** With a separator whose first character does not recur in it, no
      occurrence of the separator starts inside a first element that does not
      contain it: the leftmost occurrence in `x + sep + rest` is the joint. */
  lemma LeftmostAtJoint(x: string, sep: string, rest: string)
    requires |sep| > 0 && sep[0] !in sep[1..]
    requires forall q :: !OccursAt(x, sep, q)
    ensures FindFrom(x + sep + rest, sep, 0) == Some(|x|)
  {
    var s := x + sep + rest;
    assert s[|x|..|x| + |sep|] == sep;
    assert OccursAt(s, sep, |x|);
    forall q: nat | q < |x| ensures !OccursAt(s, sep, q) {
      if q + |sep| <= |x| {
        assert s[q..q + |sep|] == x[q..q + |sep|];
        assert !OccursAt(x, sep, q);
      } else {
        var d := |x| - q;
        assert s[q + d] == sep[0];
        assert sep[1..][d - 1] == sep[d];
        assert q + |sep| > |s| || s[q..q + |sep|][d] != sep[d];
      }
    }
  }

  /** Splitting a joined list at the separator gives the list back, when no
      element contains the separator and the separator's first character does
      not recur in it (true of ", "). */
  lemma {:induction false} SplitJoin(xs: seq<string>, sep: string)
    requires |xs| >= 1 && |sep| > 0 && sep[0] !in sep[1..]
    requires forall i, q :: 0 <= i < |xs| ==> !OccursAt(xs[i], sep, q)
    ensures Split(Join(xs, sep), sep) == xs
  {
    if |xs| == 1 {
      assert forall q :: !OccursAt(xs[0], sep, q);
      assert FindFrom(xs[0], sep, 0).None?;
    } else {
      var rest := Join(xs[1..], sep);
      var s := xs[0] + sep + rest;
      assert forall q :: !OccursAt(xs[0], sep, q);
      LeftmostAtJoint(xs[0], sep, rest);
      assert s[..|xs[0]|] == xs[0];
      assert s[|xs[0]| + |sep|..] == rest;
      forall i, q | 0 <= i < |xs[1..]| ensures !OccursAt(xs[1..][i], sep, q) {
        assert xs[1..][i] == xs[i + 1];
      }
      SplitJoin(xs[1..], sep);
      assert xs == [xs[0]] + xs[1..];
    }
  }
}
