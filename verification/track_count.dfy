/** The per-track records and the pass that gives them their counts.

    Every occurrence of a track first becomes a record with count 1. A counter
    of the records' ids is taken; then, for each distinct id in the order it
    first occurs, every record is visited: a record with that id takes the
    id's tally as its count, and a record whose id is still null takes its own
    name as id. Finally equal records are merged, comparing all four fields. */
module TrackCount {
  import opened Wrappers
  import opened Seqs

  /** A row of the tracks table: the id (null when the service has none), the
      title, the comma-joined artists and the number of occurrences. */
  datatype TrackRecord = TrackRecord(trackId: Option<string>, name: string, artist: string, count: nat)

  /** The ids of the records, in order. */
  function Ids(recs: seq<TrackRecord>): (ids: seq<Option<string>>)
    ensures |ids| == |recs|
    ensures forall j :: 0 <= j < |recs| ==> ids[j] == recs[j].trackId
  {
    seq(|recs|, j requires 0 <= j < |recs| => recs[j].trackId)
  }

  /** One record visited for the key `key`, whose tally is `tally`. */
  function Visit(r: TrackRecord, key: Option<string>, tally: nat): TrackRecord {
    if r.trackId == key then r.(count := tally)
    else if r.trackId == None then r.(trackId := Some(r.name))
    else r
  }

  /** The inner loop: every record visited, in order, for one key. */
  function Sweep(recs: seq<TrackRecord>, key: Option<string>, tally: nat): (out: seq<TrackRecord>)
    ensures |out| == |recs|
  {
    seq(|recs|, j requires 0 <= j < |recs| => Visit(recs[j], key, tally))
  }

  /** The outer loop: one sweep per key, in the order of `keys`, each key
      taking its tally from the counter `tallies`. */
  function Walk(recs: seq<TrackRecord>, keys: seq<Option<string>>, tallies: multiset<Option<string>>): seq<TrackRecord>
    decreases |keys|
  {
    if |keys| == 0 then recs
    else Walk(Sweep(recs, keys[0], tallies[keys[0]]), keys[1..], tallies)
  }

  /** The counter's keys: the distinct ids in the order they first occur. */
  function Keys(recs: seq<TrackRecord>): seq<Option<string>> {
    Unique(Ids(recs))
  }

  /** The counting pass over the provisional records. */
  function CountPass(recs: seq<TrackRecord>): seq<TrackRecord> {
    Walk(recs, Keys(recs), multiset(Ids(recs)))
  }

  /** The merge of equal records, keeping the first of each. */
  function Dedup(recs: seq<TrackRecord>): seq<TrackRecord> {
    Unique(recs)
  }

  /** The track records the aggregation emits for its provisional records. */
  function TrackRecords(provisional: seq<TrackRecord>): seq<TrackRecord> {
    Dedup(CountPass(provisional))
  }

  // ---------------------------------------------------------------------
  // What the walk does to a single record.

  /** The record `r` after the visits for every key of `keys` in turn. */
  function Settle(r: TrackRecord, keys: seq<Option<string>>, tallies: multiset<Option<string>>): TrackRecord
    decreases |keys|
  {
    if |keys| == 0 then r
    else Settle(Visit(r, keys[0], tallies[keys[0]]), keys[1..], tallies)
  }

  /** The walk treats every record on its own. */
  lemma {:induction false} WalkIsPointwise(recs: seq<TrackRecord>, keys: seq<Option<string>>, tallies: multiset<Option<string>>)
    ensures |Walk(recs, keys, tallies)| == |recs|
    ensures forall j :: 0 <= j < |recs| ==> Walk(recs, keys, tallies)[j] == Settle(recs[j], keys, tallies)
    decreases |keys|
  {
    if |keys| > 0 {
      var swept := Sweep(recs, keys[0], tallies[keys[0]]);
      WalkIsPointwise(swept, keys[1..], tallies);
    }
  }

  /** The first non-null id of `ids`, or null when there is none. */
  function FirstKnown(ids: seq<Option<string>>): (k: Option<string>)
    ensures k.Some? ==> k in ids
    ensures k.None? <==> forall i :: 0 <= i < |ids| ==> ids[i].None?
  {
    if |ids| == 0 then None
    else
      var init := ids[..|ids| - 1];
      assert ids == init + [ids[|ids| - 1]];
      var k := FirstKnown(init);
      if k.Some? then k else ids[|ids| - 1]
  }

  /** Reading `FirstKnown` from the front. */
  lemma {:induction false} FirstKnownCons(x: Option<string>, ids: seq<Option<string>>)
    ensures FirstKnown([x] + ids) == if x.Some? then x else FirstKnown(ids)
    decreases |ids|
  {
    if |ids| > 0 {
      var init := ids[..|ids| - 1];
      assert ([x] + ids)[..|ids|] == [x] + init;
      FirstKnownCons(x, init);
    } else {
      assert FirstKnown([x]) == x by {
        assert [x][..0] == [];
      }
    }
  }

  /** Taking the distinct ids keeps the first non-null one. */
  lemma {:induction false} FirstKnownOfUnique(ids: seq<Option<string>>)
    ensures FirstKnown(Unique(ids)) == FirstKnown(ids)
  {
    if |ids| > 0 {
      var init, last := ids[..|ids| - 1], ids[|ids| - 1];
      assert ids == init + [last];
      var u' := Unique(init);
      FirstKnownOfUnique(init);
      if last !in u' {
        assert (u' + [last])[..|u'|] == u';
      } else if FirstKnown(init).None? {
        assert last in init;
      }
    }
  }

  /** A record whose id is not a key is left alone. */
  lemma {:induction false} SettleUntouched(r: TrackRecord, keys: seq<Option<string>>, tallies: multiset<Option<string>>)
    requires r.trackId.Some? && r.trackId !in keys
    ensures Settle(r, keys, tallies) == r
    decreases |keys|
  {
    if |keys| > 0 {
      SettleUntouched(r, keys[1..], tallies);
    }
  }

  /** A record with a non-null id that is a key keeps its id and takes that
      key's tally. */
  lemma {:induction false} SettleKnown(r: TrackRecord, keys: seq<Option<string>>, tallies: multiset<Option<string>>)
    requires r.trackId.Some? && Distinct(keys) && r.trackId in keys
    ensures Settle(r, keys, tallies) == r.(count := tallies[r.trackId])
    decreases |keys|
  {
    if keys[0] == r.trackId {
      assert r.trackId !in keys[1..];
      SettleUntouched(r.(count := tallies[r.trackId]), keys[1..], tallies);
    } else {
      SettleKnown(r, keys[1..], tallies);
    }
  }

  /** A record with a null id, walked by keys that start with a non-null one:
      it is renamed by that first key and afterwards counted only under its
      name, if that name is a later key. */
  lemma SettleRenamed(r: TrackRecord, keys: seq<Option<string>>, tallies: multiset<Option<string>>)
    requires r.trackId.None? && Distinct(keys) && |keys| > 0 && keys[0].Some?
    ensures Settle(r, keys, tallies) ==
      TrackRecord(Some(r.name), r.name, r.artist,
        if Some(r.name) in keys[1..] then tallies[Some(r.name)] else r.count)
  {
    var renamed := r.(trackId := Some(r.name));
    assert Visit(r, keys[0], tallies[keys[0]]) == renamed;
    if Some(r.name) in keys[1..] {
      SettleKnown(renamed, keys[1..], tallies);
    } else {
      SettleUntouched(renamed, keys[1..], tallies);
    }
  }

  /** A record with a null id, when some key is non-null, ends named after
      itself; it is counted under its name if that name is a key other than
      the first non-null one, otherwise under null if null was the first key,
      and otherwise keeps its count. */
  lemma SettleNull(r: TrackRecord, keys: seq<Option<string>>, tallies: multiset<Option<string>>)
    requires r.trackId.None? && Distinct(keys) && |keys| > 0 && FirstKnown(keys).Some?
    ensures Settle(r, keys, tallies) ==
      TrackRecord(Some(r.name), r.name, r.artist,
        if Some(r.name) in keys && Some(r.name) != FirstKnown(keys) then tallies[Some(r.name)]
        else if keys[0].None? then tallies[None]
        else r.count)
  {
    FirstKnownCons(keys[0], keys[1..]);
    assert keys == [keys[0]] + keys[1..];
    if keys[0].Some? {
      SettleRenamed(r, keys, tallies);
    } else {
      var counted := r.(count := tallies[None]);
      var rest := keys[1..];
      assert Visit(r, keys[0], tallies[keys[0]]) == counted;
      assert None !in rest;
      assert |rest| > 0 && rest[0].Some?;
      FirstKnownCons(rest[0], rest[1..]);
      assert rest == [rest[0]] + rest[1..];
      SettleRenamed(counted, rest, tallies);
    }
  }

  // ---------------------------------------------------------------------
  // The counting pass, record by record.

  /** A record that came with an id keeps it and ends with the number of
      provisional records that carry that id. */
  lemma CountPassKnownId(recs: seq<TrackRecord>, j: nat)
    requires j < |recs| && recs[j].trackId.Some?
    ensures |CountPass(recs)| == |recs|
    ensures CountPass(recs)[j] == recs[j].(count := multiset(Ids(recs))[recs[j].trackId])
  {
    var ids := Ids(recs);
    WalkIsPointwise(recs, Keys(recs), multiset(ids));
    assert ids[j] in ids;
    SettleKnown(recs[j], Keys(recs), multiset(ids));
  }

  /** A record that came without an id, when some record has one, ends with its
      name as id. Its count is the tally of that name when the name is also a
      non-null id other than the first one; otherwise it is the number of
      null-id records when the very first record had a null id; otherwise it
      keeps its count. */
  lemma CountPassNullId(recs: seq<TrackRecord>, j: nat)
    requires j < |recs| && recs[j].trackId.None?
    requires exists i :: 0 <= i < |recs| && recs[i].trackId.Some?
    ensures |CountPass(recs)| == |recs|
    ensures var r := recs[j]; var ids := Ids(recs);
      CountPass(recs)[j] ==
        TrackRecord(Some(r.name), r.name, r.artist,
          if Some(r.name) in ids && Some(r.name) != FirstKnown(ids) then multiset(ids)[Some(r.name)]
          else if recs[0].trackId.None? then multiset(ids)[None]
          else r.count)
  {
    var ids := Ids(recs);
    var keys := Keys(recs);
    WalkIsPointwise(recs, keys, multiset(ids));
    UniqueHead(ids);
    FirstKnownOfUnique(ids);
    SettleNull(recs[j], keys, multiset(ids));
  }

  /** When no record has an id, nothing is renamed and every record is counted
      under null: its count is the number of records. */
  lemma CountPassAllNull(recs: seq<TrackRecord>, j: nat)
    requires j < |recs|
    requires forall i :: 0 <= i < |recs| ==> recs[i].trackId.None?
    ensures |CountPass(recs)| == |recs|
    ensures CountPass(recs)[j] == recs[j].(count := |recs|)
  {
    var ids := Ids(recs);
    var keys := Keys(recs);
    WalkIsPointwise(recs, keys, multiset(ids));
    UniqueOfConstant(ids, None);
  }

  /** Once some record has an id, the pass leaves no record with a null id. */
  lemma CountPassLeavesNoNullId(recs: seq<TrackRecord>)
    requires exists i :: 0 <= i < |recs| && recs[i].trackId.Some?
    ensures |CountPass(recs)| == |recs|
    ensures forall j :: 0 <= j < |recs| ==> CountPass(recs)[j].trackId.Some?
  {
    WalkIsPointwise(recs, Keys(recs), multiset(Ids(recs)));
    forall j | 0 <= j < |recs| ensures CountPass(recs)[j].trackId.Some? {
      if recs[j].trackId.Some? {
        CountPassKnownId(recs, j);
      } else {
        CountPassNullId(recs, j);
      }
    }
  }

  /** The pass changes only ids and counts: names and artists stay. */
  lemma CountPassKeepsNamesAndArtists(recs: seq<TrackRecord>)
    ensures |CountPass(recs)| == |recs|
    ensures forall j :: 0 <= j < |recs| ==>
      CountPass(recs)[j].name == recs[j].name && CountPass(recs)[j].artist == recs[j].artist
  {
    WalkIsPointwise(recs, Keys(recs), multiset(Ids(recs)));
    forall j | 0 <= j < |recs|
      ensures Settle(recs[j], Keys(recs), multiset(Ids(recs))).name == recs[j].name
      ensures Settle(recs[j], Keys(recs), multiset(Ids(recs))).artist == recs[j].artist
    {
      SettleKeepsNameAndArtist(recs[j], Keys(recs), multiset(Ids(recs)));
    }
  }

  lemma {:induction false} SettleKeepsNameAndArtist(r: TrackRecord, keys: seq<Option<string>>, tallies: multiset<Option<string>>)
    ensures Settle(r, keys, tallies).name == r.name
    ensures Settle(r, keys, tallies).artist == r.artist
    decreases |keys|
  {
    if |keys| > 0 {
      SettleKeepsNameAndArtist(Visit(r, keys[0], tallies[keys[0]]), keys[1..], tallies);
    }
  }

  // ---------------------------------------------------------------------
  // The emitted records.

  /** The emitted records are the records after the pass, each exactly once,
      in the order of their first occurrence. */
  lemma TrackRecordsAreDistinctPassRecords(provisional: seq<TrackRecord>)
    ensures Distinct(TrackRecords(provisional))
    ensures forall t :: t in TrackRecords(provisional) <==> t in CountPass(provisional)
    ensures forall i, j :: 0 <= i < j < |TrackRecords(provisional)| ==>
      var out, passed := TrackRecords(provisional), CountPass(provisional);
      out[i] in passed && out[j] in passed &&
      FirstIndex(passed, out[i]) < FirstIndex(passed, out[j])
  {
    UniqueKeepsFirstOccurrenceOrder(CountPass(provisional));
  }

  /** The occurrences of a track with id `k` whose records agree on name and
      artist collapse to a single emitted record whose count is the number of
      occurrences of `k`. */
  lemma IdenticalOccurrencesCollapse(provisional: seq<TrackRecord>, j: nat)
    requires j < |provisional| && provisional[j].trackId.Some?
    ensures var v := provisional[j].(count := multiset(Ids(provisional))[provisional[j].trackId]);
      var out := TrackRecords(provisional);
      && (exists i :: 0 <= i < |out| && out[i] == v)
      && (forall i, i' :: 0 <= i < |out| && 0 <= i' < |out| && out[i] == v && out[i'] == v ==> i == i')
  {
    var v := provisional[j].(count := multiset(Ids(provisional))[provisional[j].trackId]);
    CountPassKnownId(provisional, j);
    assert v in CountPass(provisional);
    var out := TrackRecords(provisional);
    assert v in out;
  }

  // ---------------------------------------------------------------------
  // Worked examples of the pass, including the two quirks of merging by
  // full-record equality.

  /** Three occurrences, "T1" twice and "T2" once, give counts 2 and 1. */
  lemma TwoIdsExample()
    ensures TrackRecords([
      TrackRecord(Some("T1"), "Song A", "X", 1),
      TrackRecord(Some("T2"), "Song B", "Y", 1),
      TrackRecord(Some("T1"), "Song A", "X", 1)])
      == [TrackRecord(Some("T1"), "Song A", "X", 2), TrackRecord(Some("T2"), "Song B", "Y", 1)]
  {
    var recs := [
      TrackRecord(Some("T1"), "Song A", "X", 1),
      TrackRecord(Some("T2"), "Song B", "Y", 1),
      TrackRecord(Some("T1"), "Song A", "X", 1)];
    var ids := Ids(recs);
    assert ids == [Some("T1"), Some("T2"), Some("T1")];
    assert multiset(ids)[Some("T1")] == 2;
    assert multiset(ids)[Some("T2")] == 1;
    CountPassKnownId(recs, 0);
    CountPassKnownId(recs, 1);
    CountPassKnownId(recs, 2);
    var a, b := TrackRecord(Some("T1"), "Song A", "X", 2), TrackRecord(Some("T2"), "Song B", "Y", 1);
    var passed := CountPass(recs);
    assert passed == [a, b, a];
    assert passed[..2] == [a, b] && passed[..2][..1] == [a] && [a][..0] == [];
    assert Unique([a, b]) == [a, b];
  }

  /** Two distinct records followed by a repeat of the first merge to the two. */
  lemma UniqueOfThree(a: TrackRecord, b: TrackRecord)
    requires a != b
    ensures Unique([a, b, a]) == [a, b]
    ensures Unique([a, b, b]) == [a, b]
  {
    assert [a, b, a][..2] == [a, b] && [a, b, b][..2] == [a, b];
    assert [a, b][..1] == [a] && [a][..0] == [];
    assert Unique([a]) == [a];
    assert Unique([a, b]) == [a, b];
  }

  /** A track without an id that does not come first is renamed by the first
      key and never counted: its two occurrences merge into one record with
      count 1. */
  lemma NullIdUndercountExample()
    ensures TrackRecords([
      TrackRecord(Some("t"), "Song", "X", 1),
      TrackRecord(None, "Local", "Y", 1),
      TrackRecord(None, "Local", "Y", 1)])
      == [TrackRecord(Some("t"), "Song", "X", 1), TrackRecord(Some("Local"), "Local", "Y", 1)]
  {
    var recs := [
      TrackRecord(Some("t"), "Song", "X", 1),
      TrackRecord(None, "Local", "Y", 1),
      TrackRecord(None, "Local", "Y", 1)];
    var ids := Ids(recs);
    assert ids == [Some("t"), None, None];
    assert multiset(ids)[Some("t")] == 1;
    assert Some("Local") !in ids;
    CountPassKnownId(recs, 0);
    CountPassNullId(recs, 1);
    CountPassNullId(recs, 2);
    var a, b := TrackRecord(Some("t"), "Song", "X", 1), TrackRecord(Some("Local"), "Local", "Y", 1);
    assert CountPass(recs) == [a, b, b];
    UniqueOfThree(a, b);
  }

  /** When the very first track has no id, the tracks without an id are
      counted together before they are renamed. */
  lemma NullIdFirstExample()
    ensures TrackRecords([
      TrackRecord(None, "Local", "Y", 1),
      TrackRecord(Some("t"), "Song", "X", 1),
      TrackRecord(None, "Local", "Y", 1)])
      == [TrackRecord(Some("Local"), "Local", "Y", 2), TrackRecord(Some("t"), "Song", "X", 1)]
  {
    var a, b := TrackRecord(Some("Local"), "Local", "Y", 2), TrackRecord(Some("t"), "Song", "X", 1);
    NullIdFirstPass(TrackRecord(None, "Local", "Y", 1), TrackRecord(Some("t"), "Song", "X", 1));
    UniqueOfThree(a, b);
  }

  /** The counting pass of the occurrences above: both id-less occurrences
      are counted together under the first key and then renamed. */
  lemma NullIdFirstPass(n: TrackRecord, k: TrackRecord)
    requires n == TrackRecord(None, "Local", "Y", 1) && k == TrackRecord(Some("t"), "Song", "X", 1)
    ensures var a := TrackRecord(Some("Local"), "Local", "Y", 2); CountPass([n, k, n]) == [a, k, a]
  {
    var recs := [n, k, n];
    var ids := Ids(recs);
    assert ids == [None, Some("t"), None];
    assert multiset(ids)[Some("t")] == 1 && multiset(ids)[None] == 2;
    assert Some("Local") !in ids;
    CountPassNullId(recs, 0);
    CountPassKnownId(recs, 1);
    CountPassNullId(recs, 2);
  }

  /** Records are merged only when all four fields agree: two occurrences of
      one id under different titles stay two records, each with the id's
      full count. */
  lemma SameIdTwoTitlesExample()
    ensures TrackRecords([
      TrackRecord(Some("t1"), "Song", "X", 1),
      TrackRecord(Some("t1"), "Song (Live)", "X", 1)])
      == [TrackRecord(Some("t1"), "Song", "X", 2), TrackRecord(Some("t1"), "Song (Live)", "X", 2)]
  {
    var recs := [
      TrackRecord(Some("t1"), "Song", "X", 1),
      TrackRecord(Some("t1"), "Song (Live)", "X", 1)];
    var ids := Ids(recs);
    assert ids == [Some("t1"), Some("t1")];
    assert multiset(ids)[Some("t1")] == 2;
    CountPassKnownId(recs, 0);
    CountPassKnownId(recs, 1);
    var a, b := TrackRecord(Some("t1"), "Song", "X", 2), TrackRecord(Some("t1"), "Song (Live)", "X", 2);
    assert CountPass(recs) == [a, b];
    assert [a, b][..1] == [a] && [a][..0] == [];
    assert Unique([a]) == [a];
  }
}
