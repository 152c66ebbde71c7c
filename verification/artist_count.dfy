/** The artist tallies: every (track, artist) pairing adds one occurrence of
    the artist's name; the names are counted, and read back with their counts
    in the order each name first occurred. */
module ArtistCount {
  import opened Seqs

  /** A row of the artists table: a name and its number of occurrences. */
  datatype ArtistRecord = ArtistRecord(name: string, count: nat)

  /** Each of `names` with its number of occurrences in `flat`. */
  function Tally(flat: seq<string>, names: seq<string>): (out: seq<ArtistRecord>)
    ensures |out| == |names|
  {
    if |names| == 0 then []
    else
      var last := names[|names| - 1];
      Tally(flat, names[..|names| - 1]) + [ArtistRecord(last, multiset(flat)[last])]
  }

  /** The counter of the flat artist list, read back as (name, count) pairs in
      key order. */
  function ArtistTallies(flat: seq<string>): seq<ArtistRecord> {
    Tally(flat, Unique(flat))
  }

  /** The names of the records, in order. */
  function Names(out: seq<ArtistRecord>): (names: seq<string>)
    ensures |names| == |out|
    ensures forall i :: 0 <= i < |out| ==> names[i] == out[i].name
  {
    seq(|out|, i requires 0 <= i < |out| => out[i].name)
  }

  /** The sum of the records' counts. */
  function TotalCount(out: seq<ArtistRecord>): nat {
    if |out| == 0 then 0 else TotalCount(out[..|out| - 1]) + out[|out| - 1].count
  }

  /** `Tally` keeps the names in order and gives each its occurrences. */
  lemma TallyEntries(flat: seq<string>, names: seq<string>)
    ensures Names(Tally(flat, names)) == names
    ensures forall i :: 0 <= i < |names| ==> Tally(flat, names)[i].count == multiset(flat)[names[i]]
    ensures TotalCount(Tally(flat, names)) == CountSum(flat, names)
  {
    TallyNamesAndCounts(flat, names);
    TallyTotal(flat, names);
  }

  /** Each entry of `Tally` is a name of `names`, in order, with its
      occurrences. */
  lemma {:induction false} TallyNamesAndCounts(flat: seq<string>, names: seq<string>)
    ensures forall i :: 0 <= i < |names| ==>
      Tally(flat, names)[i] == ArtistRecord(names[i], multiset(flat)[names[i]])
  {
    if |names| > 0 {
      var init := names[..|names| - 1];
      TallyNamesAndCounts(flat, init);
      var out := Tally(flat, names);
      assert out == Tally(flat, init) + [ArtistRecord(names[|names| - 1], multiset(flat)[names[|names| - 1]])];
    }
  }

  /** The counts of `Tally` add up to the occurrences of its names. */
  lemma {:induction false} TallyTotal(flat: seq<string>, names: seq<string>)
    ensures TotalCount(Tally(flat, names)) == CountSum(flat, names)
  {
    if |names| > 0 {
      var init := names[..|names| - 1];
      TallyTotal(flat, init);
      var out := Tally(flat, names);
      assert out[..|out| - 1] == Tally(flat, init);
    }
  }

  /** The artist records list every name of the flat list exactly once, in the
      order of first occurrence, each with its number of occurrences; the
      counts add up to the number of (track, artist) pairings. */
  lemma ArtistTalliesSpec(flat: seq<string>)
    ensures var names := Names(ArtistTallies(flat));
      && Distinct(names)
      && (forall a :: a in names <==> a in flat)
      && (forall i, j :: 0 <= i < j < |names| ==>
            names[i] in flat && names[j] in flat && FirstIndex(flat, names[i]) < FirstIndex(flat, names[j]))
    ensures forall r :: r in ArtistTallies(flat) ==> r.count == multiset(flat)[r.name] && r.count > 0
    ensures TotalCount(ArtistTallies(flat)) == |flat|
  {
    var out := ArtistTallies(flat);
    TallyEntries(flat, Unique(flat));
    UniqueKeepsFirstOccurrenceOrder(flat);
    CountSumUnique(flat);
    forall r | r in out ensures r.count == multiset(flat)[r.name] && r.count > 0 {
      var i :| 0 <= i < |out| && out[i] == r;
      assert Names(out)[i] == r.name;
      assert r.name in Unique(flat);
    }
  }

  /** A track with artists A and B in two playlists counts twice for each. */
  lemma TwoPlaylistsExample()
    ensures ArtistTallies(["A", "B", "A", "B"]) == [ArtistRecord("A", 2), ArtistRecord("B", 2)]
  {
    var flat := ["A", "B", "A", "B"];
    var u := ["A", "B"];
    UniqueOfTwoRepeated("A", "B");
    assert multiset(flat) == multiset{"A", "A", "B", "B"};
    TallyEntries(flat, u);
    var out := ArtistTallies(flat);
    assert Names(out) == u;
    assert out[0] == ArtistRecord("A", 2);
    assert out[1] == ArtistRecord("B", 2);
  }

  /** A name occurring twice is one row with count 2. */
  lemma TwiceTallied(x: string)
    ensures ArtistTallies([x, x]) == [ArtistRecord(x, 2)]
  {
    UniqueOfConstant([x, x], x);
    assert [x][..0] == [];
  }

  lemma UniqueOfTwoRepeated(a: string, b: string)
    requires a != b
    ensures Unique([a, b, a, b]) == [a, b]
  {
    var flat := [a, b, a, b];
    assert flat[..3] == [a, b, a] && [a, b, a][..2] == [a, b] && [a, b][..1] == [a] && [a][..0] == [];
    assert Unique([a]) == [a];
    assert Unique([a, b]) == [a, b];
    assert Unique([a, b, a]) == [a, b];
  }
}
