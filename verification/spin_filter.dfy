/** Which playlists take part in the aggregation: those whose name begins with
    a date, one or more decimal digits followed by a slash ("1/15 Winter Mix").
    The source tests this with a regular expression matched at the start of
    the name. */
module SpinFilter {
  import opened Text

  /** The length of the run of digits at the start of `s`. */
  function LeadingDigits(s: string): (n: nat)
    ensures n <= |s| && AllDigits(s[..n])
    ensures n < |s| ==> !IsDigit(s[n])
  {
    if |s| == 0 || !IsDigit(s[0]) then 0
    else
      var n := 1 + LeadingDigits(s[1..]);
      assert s[..n] == [s[0]] + s[1..][..n - 1];
      n
  }

  /** The name starts with a date: its leading digits, at least one, are
      followed by a slash. */
  predicate IsSpinName(name: string) {
    var n := LeadingDigits(name);
    0 < n < |name| && name[n] == '/'
  }

  /** The filter accepts exactly the names that have some non-empty digit
      prefix followed by a slash, the names the pattern `\d+/` matches at the
      start. */
  lemma SpinNameIffDatePrefix(name: string)
    ensures IsSpinName(name) <==>
      exists k :: 0 < k < |name| && AllDigits(name[..k]) && name[k] == '/'
  {
    var n := LeadingDigits(name);
    if k :| 0 < k < |name| && AllDigits(name[..k]) && name[k] == '/' {
      if n < k {
        assert name[..k][n] == name[n];
      } else if k < n {
        assert name[..n][k] == name[k];
      }
    }
  }

  /** Examples of names the filter admits and rejects. */
  lemma SpinNameExamples()
    ensures IsSpinName("1/15 Winter Mix")
    ensures IsSpinName("12/3")
    ensures !IsSpinName("Winter Mix")
    ensures !IsSpinName("/15 Mix")
    ensures !IsSpinName("2024 Mix")
  {
    assert LeadingDigits("1/15 Winter Mix") == 1;
    assert LeadingDigits("12/3") == 2;
  }

  /** The names of the run examples: three dated, one not. */
  lemma RunNameExamples()
    ensures IsSpinName("3/1 Road Trip") && IsSpinName("3/8 Chill") && IsSpinName("3/8")
    ensures !IsSpinName("Favorites")
  {
    assert LeadingDigits("3/1 Road Trip") == 1;
    assert LeadingDigits("3/8 Chill") == 1;
    assert LeadingDigits("3/8") == 1;
  }
}
