/** The aggregation run: from the playlists fetched from the streaming service
    to the rows of the three tables (playlists, tracks, artists).

    The run walks the playlists in order and keeps those whose name starts
    with a date. For each it splits the name at its first space into date and
    title (a name without a space aborts the whole run), sums the tracks'
    durations and prints the sum as `M:SS`, and joins the track names with
    ", ". Every track occurrence becomes a provisional track record with count
    1 and every (track, artist) pairing adds the artist's name to a flat list.
    The track records then go through the counting pass and the merge of equal
    records; the artist names are tallied. */
module Aggregator {
  import opened Wrappers
  import opened Seqs
  import opened Text
  import opened Duration
  import opened SpinFilter
  import opened TrackCount
  import opened ArtistCount

  /** A track as the service returns it: an id that may be null, a title, a
      duration in milliseconds and the names of its artists in order. */
  datatype RawTrack = RawTrack(id: Option<string>, name: string, durationMs: nat, artists: seq<string>)

  /** A playlist as the service returns it, its tracks already fetched. */
  datatype RawPlaylist = RawPlaylist(name: string, uri: string, tracks: seq<RawTrack>)

  /** A row of the playlists table: the playlist's uri, its title, its date,
      its length as `M:SS` and its track titles joined by ", ". */
  datatype PlaylistRecord = PlaylistRecord(spotifyId: string, name: string, date: string, length: string, tracks: string)

  /** The failure of a run: a date-prefixed playlist name with no space, which
      has no title to split off. */
  datatype FormatError = MissingTitle(playlistName: string)

  /** What the walk over the playlists accumulates: the playlist rows, the
      provisional track records and the flat list of artist names. */
  datatype Collected = Collected(playlists: seq<PlaylistRecord>, tracks: seq<TrackRecord>, artists: seq<string>)

  /** The rows of the three tables that one run produces. */
  datatype Aggregation = Aggregation(playlists: seq<PlaylistRecord>, tracks: seq<TrackRecord>, artists: seq<ArtistRecord>)

  /** The separator of the joined track titles and artist names. */
  const Separator: string := ", "

  /** The sum of the tracks' durations. */
  function TotalMs(ts: seq<RawTrack>): nat {
    if |ts| == 0 then 0 else TotalMs(ts[..|ts| - 1]) + ts[|ts| - 1].durationMs
  }

  /** The tracks' titles, in order. */
  function TrackNames(ts: seq<RawTrack>): (names: seq<string>)
    ensures |names| == |ts|
    ensures forall j :: 0 <= j < |ts| ==> names[j] == ts[j].name
  {
    seq(|ts|, j requires 0 <= j < |ts| => ts[j].name)
  }

  /** The tracks' ids, in order. */
  function TrackIds(ts: seq<RawTrack>): (ids: seq<Option<string>>)
    ensures |ids| == |ts|
    ensures forall j :: 0 <= j < |ts| ==> ids[j] == ts[j].id
  {
    seq(|ts|, j requires 0 <= j < |ts| => ts[j].id)
  }

  /** The number of (track, artist) pairings. */
  function Pairings(ts: seq<RawTrack>): nat {
    if |ts| == 0 then 0 else Pairings(ts[..|ts| - 1]) + |ts[|ts| - 1].artists|
  }

  /** The flat list of artist names: each track's artists in order, the
      tracks in order. */
  function ArtistsOf(ts: seq<RawTrack>): seq<string> {
    if |ts| == 0 then [] else ArtistsOf(ts[..|ts| - 1]) + ts[|ts| - 1].artists
  }

  /** The provisional record of one track occurrence. */
  function ProvisionalRecord(t: RawTrack): TrackRecord {
    TrackRecord(t.id, t.name, Join(t.artists, Separator), 1)
  }

  /** The provisional records of the tracks, in order. */
  function ProvisionalRecords(ts: seq<RawTrack>): (recs: seq<TrackRecord>)
    ensures |recs| == |ts|
    ensures forall j :: 0 <= j < |ts| ==> recs[j] == ProvisionalRecord(ts[j])
  {
    seq(|ts|, j requires 0 <= j < |ts| => ProvisionalRecord(ts[j]))
  }

  /** The playlist row of a date-prefixed playlist, or the failure its name
      causes when it has no space. */
  function SummarizePlaylist(p: RawPlaylist): (r: Result<PlaylistRecord, FormatError>)
    ensures r.Err? <==> ' ' !in p.name
    ensures r.Err? ==> r.error == MissingTitle(p.name)
    ensures r.Ok? ==> r.value.date + " " + r.value.name == p.name && ' ' !in r.value.date
    ensures r.Ok? ==> r.value.spotifyId == p.uri
  {
    var components := SplitOnce(p.name, " ");
    SplitOnceAtSpace(p.name);
    if |components| < 2 then
      Err(MissingTitle(p.name))
    else
      Ok(PlaylistRecord(p.uri, components[1], components[0],
        FormatLength(TotalMs(p.tracks)), Join(TrackNames(p.tracks), Separator)))
  }

  /** One playlist taken into the walk: skipped unless its name starts with
      a date, otherwise summarized, its tracks and artist pairings appended. */
  function Absorb(c: Collected, p: RawPlaylist): Result<Collected, FormatError> {
    if !IsSpinName(p.name) then
      Ok(c)
    else
      var record :- SummarizePlaylist(p);
      Ok(Collected(c.playlists + [record], c.tracks + ProvisionalRecords(p.tracks), c.artists + ArtistsOf(p.tracks)))
  }

  /** The walk over the fetched playlists, in order; the first date-prefixed
      name without a space aborts it. */
  function Collect(ps: seq<RawPlaylist>): Result<Collected, FormatError> {
    if |ps| == 0 then
      Ok(Collected([], [], []))
    else
      var c :- Collect(ps[..|ps| - 1]);
      Absorb(c, ps[|ps| - 1])
  }

  /** One aggregation run. */
  function Aggregate(ps: seq<RawPlaylist>): Result<Aggregation, FormatError> {
    var c :- Collect(ps);
    Ok(Aggregation(c.playlists, TrackRecords(c.tracks), ArtistTallies(c.artists)))
  }

  // ---------------------------------------------------------------------
  // The filter.

  /** The playlists whose name starts with a date, in order. */
  function SpinOnly(ps: seq<RawPlaylist>): seq<RawPlaylist> {
    if |ps| == 0 then []
    else
      var p := ps[|ps| - 1];
      SpinOnly(ps[..|ps| - 1]) + (if IsSpinName(p.name) then [p] else [])
  }

  /** The tracks of the playlists, playlist after playlist. */
  function AllTracks(ps: seq<RawPlaylist>): seq<RawTrack> {
    if |ps| == 0 then [] else AllTracks(ps[..|ps| - 1]) + ps[|ps| - 1].tracks
  }

  /** A date-prefixed playlist whose name has no space to split at. */
  predicate Malformed(p: RawPlaylist) {
    IsSpinName(p.name) && ' ' !in p.name
  }

  /** The filter keeps exactly the date-prefixed playlists. */
  lemma {:induction false} SpinOnlyKeepsDatePrefixed(ps: seq<RawPlaylist>)
    ensures forall p :: p in SpinOnly(ps) <==> p in ps && IsSpinName(p.name)
  {
    if |ps| > 0 {
      var init := ps[..|ps| - 1];
      assert ps == init + [ps[|ps| - 1]];
      SpinOnlyKeepsDatePrefixed(init);
    }
  }

  /** One step of the walk: the last playlist absorbed into the walk over the
      ones before it. */
  lemma CollectStep(ps: seq<RawPlaylist>)
    requires |ps| > 0
    ensures Collect(ps) == match Collect(ps[..|ps| - 1])
      case Err(e) => Err(e)
      case Ok(c) => Absorb(c, ps[|ps| - 1])
  {
  }

  /** Playlists that are not date-prefixed contribute nothing: the walk over
      all playlists is the walk over the date-prefixed ones. */
  lemma {:induction false} CollectIgnoresOtherPlaylists(ps: seq<RawPlaylist>)
    ensures Collect(ps) == Collect(SpinOnly(ps))
  {
    if |ps| > 0 {
      var init, p := ps[..|ps| - 1], ps[|ps| - 1];
      CollectIgnoresOtherPlaylists(init);
      CollectStep(ps);
      var sp := SpinOnly(init);
      if IsSpinName(p.name) {
        var ext := sp + [p];
        assert SpinOnly(ps) == ext;
        assert ext[..|ext| - 1] == sp && ext[|ext| - 1] == p;
        CollectStep(ext);
      } else {
        assert SpinOnly(ps) == sp;
      }
    }
  }

  /** The walk fails exactly when some date-prefixed name has no space, and
      then it reports the first such name. */
  lemma {:induction false} CollectFailure(ps: seq<RawPlaylist>)
    ensures Collect(ps).Err? <==> exists i :: 0 <= i < |ps| && Malformed(ps[i])
    ensures Collect(ps).Err? ==>
      exists i :: 0 <= i < |ps| && Malformed(ps[i]) && Collect(ps).error == MissingTitle(ps[i].name) &&
        forall k :: 0 <= k < i ==> !Malformed(ps[k])
  {
    if |ps| > 0 {
      var init, p := ps[..|ps| - 1], ps[|ps| - 1];
      CollectFailure(init);
      assert forall k :: 0 <= k < |init| ==> init[k] == ps[k];
      forall i | 0 <= i < |ps| && Malformed(ps[i])
        ensures (exists k :: 0 <= k < |init| && Malformed(init[k])) || Malformed(p)
      {
        if i < |init| {
          assert Malformed(init[i]);
        }
      }
      if Collect(init).Err? {
        var i :| 0 <= i < |init| && Malformed(init[i]) && Collect(init).error == MissingTitle(init[i].name)
          && forall k :: 0 <= k < i ==> !Malformed(init[k]);
        assert Malformed(ps[i]);
      } else if Malformed(p) {
        assert Malformed(ps[|ps| - 1]);
      }
    }
  }

  /** The tracks of consecutive runs of playlists add up. */
  lemma ProvisionalRecordsAppend(a: seq<RawTrack>, b: seq<RawTrack>)
    ensures ProvisionalRecords(a + b) == ProvisionalRecords(a) + ProvisionalRecords(b)
  {
  }

  lemma {:induction false} ArtistsOfAppend(a: seq<RawTrack>, b: seq<RawTrack>)
    ensures ArtistsOf(a + b) == ArtistsOf(a) + ArtistsOf(b)
    decreases |b|
  {
    if |b| > 0 {
      var init := b[..|b| - 1];
      assert (a + b)[..|a + b| - 1] == a + init;
      assert (a + b)[|a + b| - 1] == b[|b| - 1];
      ArtistsOfAppend(a, init);
    } else {
      assert a + b == a;
    }
  }

  /** A successful walk holds one playlist row per date-prefixed playlist, in
      order. */
  lemma {:induction false} CollectPlaylistRows(ps: seq<RawPlaylist>)
    requires Collect(ps).Ok?
    ensures var c, sp := Collect(ps).value, SpinOnly(ps);
      && |c.playlists| == |sp|
      && (forall i :: 0 <= i < |sp| ==> SummarizePlaylist(sp[i]) == Ok(c.playlists[i]))
  {
    if |ps| > 0 {
      var init, p := ps[..|ps| - 1], ps[|ps| - 1];
      CollectStep(ps);
      assert Collect(init).Ok?;
      CollectPlaylistRows(init);
      var c0, c := Collect(init).value, Collect(ps).value;
      var sp := SpinOnly(init);
      if IsSpinName(p.name) {
        var record := SummarizePlaylist(p).value;
        assert c.playlists == c0.playlists + [record];
        var ext := sp + [p];
        assert SpinOnly(ps) == ext;
        forall i | 0 <= i < |ext| ensures SummarizePlaylist(ext[i]) == Ok(c.playlists[i]) {
          if i < |sp| {
            assert ext[i] == sp[i] && c.playlists[i] == c0.playlists[i];
          }
        }
      } else {
        assert c == c0;
        assert SpinOnly(ps) == sp;
      }
    }
  }

  /** A successful walk holds one provisional record per track of the
      date-prefixed playlists, and their artist pairings, in order. */
  lemma {:induction false} CollectTrackRecords(ps: seq<RawPlaylist>)
    requires Collect(ps).Ok?
    ensures var c, sp := Collect(ps).value, SpinOnly(ps);
      && c.tracks == ProvisionalRecords(AllTracks(sp))
      && c.artists == ArtistsOf(AllTracks(sp))
  {
    if |ps| > 0 {
      var init, p := ps[..|ps| - 1], ps[|ps| - 1];
      CollectStep(ps);
      assert Collect(init).Ok?;
      CollectTrackRecords(init);
      var c0, c := Collect(init).value, Collect(ps).value;
      var sp := SpinOnly(init);
      if IsSpinName(p.name) {
        assert c.tracks == c0.tracks + ProvisionalRecords(p.tracks);
        assert c.artists == c0.artists + ArtistsOf(p.tracks);
        var ext := sp + [p];
        assert SpinOnly(ps) == ext;
        assert ext[..|ext| - 1] == sp && ext[|ext| - 1] == p;
        assert AllTracks(ext) == AllTracks(sp) + p.tracks;
        ProvisionalRecordsAppend(AllTracks(sp), p.tracks);
        ArtistsOfAppend(AllTracks(sp), p.tracks);
      } else {
        assert c == c0;
        assert SpinOnly(ps) == sp;
      }
    }
  }

  /** The flat artist list has one entry per (track, artist) pairing, and holds
      exactly the names of the tracks' artists. */
  lemma ArtistsOfPairings(ts: seq<RawTrack>)
    ensures |ArtistsOf(ts)| == Pairings(ts)
    ensures forall a :: a in ArtistsOf(ts) <==> exists j :: 0 <= j < |ts| && a in ts[j].artists
  {
    ArtistsOfLength(ts);
    ArtistsOfMembers(ts);
  }

  /** One entry per (track, artist) pairing. */
  lemma {:induction false} ArtistsOfLength(ts: seq<RawTrack>)
    ensures |ArtistsOf(ts)| == Pairings(ts)
  {
    if |ts| > 0 {
      ArtistsOfLength(ts[..|ts| - 1]);
    }
  }

  /** The flat list holds exactly the tracks' artists. */
  lemma {:induction false} ArtistsOfMembers(ts: seq<RawTrack>)
    ensures forall a :: a in ArtistsOf(ts) <==> exists j :: 0 <= j < |ts| && a in ts[j].artists
  {
    if |ts| > 0 {
      var init, last := ts[..|ts| - 1], ts[|ts| - 1];
      ArtistsOfMembers(init);
      forall a ensures a in ArtistsOf(ts) <==> exists j :: 0 <= j < |ts| && a in ts[j].artists {
        assert a in ArtistsOf(ts) <==> a in ArtistsOf(init) || a in last.artists;
        if a in ArtistsOf(init) {
          var j :| 0 <= j < |init| && a in init[j].artists;
          assert init[j] == ts[j];
        }
        if exists j :: 0 <= j < |ts| && a in ts[j].artists {
          var j :| 0 <= j < |ts| && a in ts[j].artists;
          if j < |init| {
            assert init[j] == ts[j];
          }
        }
      }
    }
  }

  /** The provisional records carry the tracks' ids. */
  lemma ProvisionalIds(ts: seq<RawTrack>)
    ensures Ids(ProvisionalRecords(ts)) == TrackIds(ts)
  {
  }

  // ---------------------------------------------------------------------
  // The run as a whole.

  /** Only date-prefixed playlists matter to a run. */
  lemma AggregateIgnoresOtherPlaylists(ps: seq<RawPlaylist>)
    ensures Aggregate(ps) == Aggregate(SpinOnly(ps))
  {
    CollectIgnoresOtherPlaylists(ps);
  }

  /** A run fails exactly when some date-prefixed name has no space, and then
      it reports the first such name. */
  lemma AggregateFailure(ps: seq<RawPlaylist>)
    ensures Aggregate(ps).Err? <==> exists i :: 0 <= i < |ps| && Malformed(ps[i])
    ensures Aggregate(ps).Err? ==>
      exists i :: 0 <= i < |ps| && Malformed(ps[i]) && Aggregate(ps).error == MissingTitle(ps[i].name) &&
        forall k :: 0 <= k < i ==> !Malformed(ps[k])
  {
    CollectFailure(ps);
  }

  /** The playlist rows of a successful run: one per date-prefixed playlist,
      in order, holding its uri, the name split at its first space into a date
      without spaces and a title, and a length that reads back as the minutes
      and leftover seconds of the tracks' total duration. */
  lemma AggregatePlaylists(ps: seq<RawPlaylist>)
    requires Aggregate(ps).Ok?
    ensures var out, sp := Aggregate(ps).value.playlists, SpinOnly(ps);
      |out| == |sp| && forall i :: 0 <= i < |sp| ==> PlaylistRowFits(sp[i], out[i])
  {
    AggregateParts(ps);
    CollectPlaylistRows(ps);
    var out, sp := Aggregate(ps).value.playlists, SpinOnly(ps);
    forall i | 0 <= i < |sp| ensures PlaylistRowFits(sp[i], out[i]) {
      PlaylistRow(sp[i]);
    }
  }

  /** The row `r` holds the uri of `p`, its name split at the first space into
      a date without spaces and a title, a length that reads back as the
      minutes and leftover seconds of the tracks' total duration, and the
      track titles joined by ", ". */
  ghost predicate PlaylistRowFits(p: RawPlaylist, r: PlaylistRecord) {
    && r.spotifyId == p.uri
    && r.date + " " + r.name == p.name && ' ' !in r.date
    && ShowsLength(r.length, TotalMs(p.tracks))
    && r.tracks == Join(TrackNames(p.tracks), Separator)
  }

  /** The row of a playlist whose name splits fits it. */
  lemma PlaylistRow(p: RawPlaylist)
    requires SummarizePlaylist(p).Ok?
    ensures PlaylistRowFits(p, SummarizePlaylist(p).value)
  {
    SummarizeFields(p);
    PrintedFields(TotalMs(p.tracks), SummarizePlaylist(p).value.length);
  }

  /** The length and track list of a playlist row. */
  lemma SummarizeFields(p: RawPlaylist)
    requires SummarizePlaylist(p).Ok?
    ensures SummarizePlaylist(p).value.length == FormatLength(TotalMs(p.tracks))
    ensures SummarizePlaylist(p).value.tracks == Join(TrackNames(p.tracks), Separator)
  {
  }

  /** A successful run holds the walk's playlist rows, the merged track
      records and the artist tallies. */
  lemma AggregateParts(ps: seq<RawPlaylist>)
    requires Aggregate(ps).Ok?
    ensures Collect(ps).Ok?
    ensures var c := Collect(ps).value;
      Aggregate(ps).value == Aggregation(c.playlists, TrackRecords(c.tracks), ArtistTallies(c.artists))
  {
  }

  /** A playlist's joined track titles split back into the titles, when it has
      tracks and no title contains ", ". */
  lemma PlaylistTracksSplitBack(p: RawPlaylist)
    requires SummarizePlaylist(p).Ok? && |p.tracks| > 0
    requires forall j, q :: 0 <= j < |p.tracks| ==> !OccursAt(p.tracks[j].name, Separator, q)
    ensures Split(SummarizePlaylist(p).value.tracks, Separator) == TrackNames(p.tracks)
  {
    SummarizeFields(p);
    TitlesSplitBack(p.tracks);
  }

  /** Track titles without ", " joined by ", " split back into the titles. */
  lemma TitlesSplitBack(ts: seq<RawTrack>)
    requires |ts| > 0
    requires forall j, q :: 0 <= j < |ts| ==> !OccursAt(ts[j].name, Separator, q)
    ensures Split(Join(TrackNames(ts), Separator), Separator) == TrackNames(ts)
  {
    assert Separator[0] !in Separator[1..];
    SplitJoin(TrackNames(ts), Separator);
  }

  /** A track occurrence with an id ends as exactly one emitted track record:
      its id, title and joined artists, counted by the number of occurrences
      of its id across the date-prefixed playlists. */
  lemma AggregateTrackCounts(ps: seq<RawPlaylist>, j: nat)
    requires Aggregate(ps).Ok?
    requires j < |AllTracks(SpinOnly(ps))| && AllTracks(SpinOnly(ps))[j].id.Some?
    ensures var ts := AllTracks(SpinOnly(ps)); var t := ts[j];
      var v := TrackRecord(t.id, t.name, Join(t.artists, Separator), multiset(TrackIds(ts))[t.id]);
      var out := Aggregate(ps).value.tracks;
      && (exists i :: 0 <= i < |out| && out[i] == v)
      && (forall i, i' :: 0 <= i < |out| && 0 <= i' < |out| && out[i] == v && out[i'] == v ==> i == i')
  {
    var ts := AllTracks(SpinOnly(ps));
    CollectTrackRecords(ps);
    ProvisionalIds(ts);
    IdenticalOccurrencesCollapse(ProvisionalRecords(ts), j);
  }

  /** Once some track of the date-prefixed playlists has an id, no emitted
      track record has a null id. */
  lemma AggregateNoNullIds(ps: seq<RawPlaylist>)
    requires Aggregate(ps).Ok?
    requires exists j :: 0 <= j < |AllTracks(SpinOnly(ps))| && AllTracks(SpinOnly(ps))[j].id.Some?
    ensures forall r :: r in Aggregate(ps).value.tracks ==> r.trackId.Some?
  {
    var ts := AllTracks(SpinOnly(ps));
    CollectTrackRecords(ps);
    AggregateParts(ps);
    var recs := ProvisionalRecords(ts);
    var j :| 0 <= j < |ts| && ts[j].id.Some?;
    assert recs[j].trackId.Some?;
    CountPassLeavesNoNullId(recs);
    forall r | r in Aggregate(ps).value.tracks ensures r.trackId.Some? {
      assert r in CountPass(recs);
    }
  }

  /** The artist rows of a successful run: every artist of the date-prefixed
      playlists' tracks exactly once, in order of first occurrence, counted by
      its pairings; the counts add up to the number of pairings. */
  lemma AggregateArtists(ps: seq<RawPlaylist>)
    requires Aggregate(ps).Ok?
    ensures var ts := AllTracks(SpinOnly(ps)); var flat := ArtistsOf(ts);
      var out := Aggregate(ps).value.artists; var names := Names(out);
      && Distinct(names)
      && (forall a :: a in names <==> exists j :: 0 <= j < |ts| && a in ts[j].artists)
      && (forall i, j :: 0 <= i < j < |names| ==>
            names[i] in flat && names[j] in flat && FirstIndex(flat, names[i]) < FirstIndex(flat, names[j]))
      && (forall r :: r in out ==> r.count == multiset(flat)[r.name])
      && TotalCount(out) == Pairings(ts)
  {
    var ts := AllTracks(SpinOnly(ps));
    AggregateParts(ps);
    CollectTrackRecords(ps);
    ArtistRows(ts, Aggregate(ps).value.artists);
  }

  /** The tallies of the tracks' flat artist list, as `AggregateArtists`
      states them. */
  lemma ArtistRows(ts: seq<RawTrack>, out: seq<ArtistRecord>)
    requires out == ArtistTallies(ArtistsOf(ts))
    ensures var flat := ArtistsOf(ts); var names := Names(out);
      && Distinct(names)
      && (forall a :: a in names <==> exists j :: 0 <= j < |ts| && a in ts[j].artists)
      && (forall i, j :: 0 <= i < j < |names| ==>
            names[i] in flat && names[j] in flat && FirstIndex(flat, names[i]) < FirstIndex(flat, names[j]))
      && (forall r :: r in out ==> r.count == multiset(flat)[r.name])
      && TotalCount(out) == Pairings(ts)
  {
    ArtistTalliesSpec(ArtistsOf(ts));
    ArtistsOfPairings(ts);
  }

  /** A date-prefixed playlist whose name splits into the row `r` adds that
      row, its provisional track records and its artist pairings. */
  lemma AbsorbSpin(c: Collected, p: RawPlaylist, r: PlaylistRecord)
    requires IsSpinName(p.name) && SummarizePlaylist(p) == Ok(r)
    ensures Absorb(c, p) == Ok(Collected(c.playlists + [r],
      c.tracks + ProvisionalRecords(p.tracks), c.artists + ArtistsOf(p.tracks)))
  {
  }

  // ---------------------------------------------------------------------
  // Examples.

  /** Two date-prefixed playlists sharing one track, and a third playlist
      without a date: two playlist rows, one track counted twice, its artist
      counted twice. */
  lemma TwoPlaylistsRunExample(t: RawTrack, a: RawPlaylist, f: RawPlaylist, b: RawPlaylist)
    requires t == RawTrack(Some("t1"), "Song", 185000, ["X"])
    requires a == RawPlaylist("3/1 Road Trip", "u1", [t])
    requires f == RawPlaylist("Favorites", "u0", [t])
    requires b == RawPlaylist("3/8 Chill", "u2", [t])
    ensures Aggregate([a, f, b]) == Ok(Aggregation(
      [PlaylistRecord("u1", "Road Trip", "3/1", "3:05", "Song"),
       PlaylistRecord("u2", "Chill", "3/8", "3:05", "Song")],
      [TrackRecord(Some("t1"), "Song", "X", 2)],
      [ArtistRecord("X", 2)]))
  {
    RunNameExamples();
    ExampleFilter(a, f, b);
    ExampleRows(t, a, b);
    SameTrackRun(t, a, f, b,
      PlaylistRecord("u1", "Road Trip", "3/1", "3:05", "Song"),
      PlaylistRecord("u2", "Chill", "3/8", "3:05", "Song"));
    assert ProvisionalRecord(t).(count := 2) == TrackRecord(Some("t1"), "Song", "X", 2);
  }

  /** The rows of the two dated playlists of the run example. */
  lemma ExampleRows(t: RawTrack, a: RawPlaylist, b: RawPlaylist)
    requires t == RawTrack(Some("t1"), "Song", 185000, ["X"])
    requires a == RawPlaylist("3/1 Road Trip", "u1", [t])
    requires b == RawPlaylist("3/8 Chill", "u2", [t])
    ensures SummarizePlaylist(a) == Ok(PlaylistRecord("u1", "Road Trip", "3/1", "3:05", "Song"))
    ensures SummarizePlaylist(b) == Ok(PlaylistRecord("u2", "Chill", "3/8", "3:05", "Song"))
  {
    assert a.name == "3/1" + " " + "Road Trip";
    assert b.name == "3/8" + " " + "Chill";
    ExampleSummary(t, a, "3/1", "Road Trip");
    ExampleSummary(t, b, "3/8", "Chill");
  }

  /** The row of a playlist holding one 185000 ms track "Song". */
  lemma ExampleSummary(t: RawTrack, p: RawPlaylist, date: string, title: string)
    requires t == RawTrack(Some("t1"), "Song", 185000, ["X"])
    requires p.tracks == [t] && p.name == date + " " + title && ' ' !in date
    ensures SummarizePlaylist(p) == Ok(PlaylistRecord(p.uri, title, date, "3:05", "Song"))
  {
    SplitOnceOfJoined(date, title);
    assert TotalMs([t]) == 185000;
    assert Join(TrackNames([t]), Separator) == "Song";
    FormatLengthExamples();
  }

  /** The filter drops a playlist without a date between two dated ones. */
  lemma ExampleFilter(a: RawPlaylist, f: RawPlaylist, b: RawPlaylist)
    requires IsSpinName(a.name) && !IsSpinName(f.name) && IsSpinName(b.name)
    ensures SpinOnly([a, f, b]) == [a, b]
  {
    var s1, s2, s3 := [a], [a, f], [a, f, b];
    assert s1[..0] == [] && s2[..1] == s1 && s3[..2] == s2;
    assert SpinOnly(s1) == SpinOnly([]) + [a];
    assert SpinOnly(s2) == SpinOnly(s1);
    assert SpinOnly(s3) == SpinOnly(s2) + [b];
  }

  /** A run over two date-prefixed playlists, with rows `ra` and `rb`, that
      hold the same single track with one artist, around a playlist the
      filter drops. */
  lemma SameTrackRun(t: RawTrack, a: RawPlaylist, f: RawPlaylist, b: RawPlaylist, ra: PlaylistRecord, rb: PlaylistRecord)
    requires t.id.Some? && |t.artists| == 1
    requires a.tracks == [t] && b.tracks == [t]
    requires SpinOnly([a, f, b]) == [a, b] && IsSpinName(a.name) && IsSpinName(b.name)
    requires SummarizePlaylist(a) == Ok(ra) && SummarizePlaylist(b) == Ok(rb)
    ensures Aggregate([a, f, b]) == Ok(Aggregation([ra, rb], [ProvisionalRecord(t).(count := 2)], [ArtistRecord(t.artists[0], 2)]))
  {
    var rec := ProvisionalRecord(t);
    var c := Collected([ra, rb], [rec, rec], t.artists + t.artists);
    SameTrackRows(t, a, b, ra, rb);
    SameTrackTables(t);
    AggregateIgnoresOtherPlaylists([a, f, b]);
  }

  /** The track and artist rows of one single-artist track occurring twice. */
  lemma SameTrackTables(t: RawTrack)
    requires t.id.Some? && |t.artists| == 1
    ensures TrackRecords([ProvisionalRecord(t), ProvisionalRecord(t)]) == [ProvisionalRecord(t).(count := 2)]
    ensures ArtistTallies(t.artists + t.artists) == [ArtistRecord(t.artists[0], 2)]
  {
    TwoEqualRecordsMerge(ProvisionalRecord(t));
    var x := t.artists[0];
    assert t.artists + t.artists == [x, x];
    TwiceTallied(x);
  }

  /** Two occurrences of one track with an id become one record counted
      twice. */
  lemma TwoEqualRecordsMerge(rec: TrackRecord)
    requires rec.trackId.Some? && rec.count == 1
    ensures TrackRecords([rec, rec]) == [rec.(count := 2)]
  {
    var recs := [rec, rec];
    assert Ids(recs) == [rec.trackId, rec.trackId];
    assert multiset(Ids(recs))[rec.trackId] == 2;
    CountPassKnownId(recs, 0);
    CountPassKnownId(recs, 1);
    UniqueOfConstant(CountPass(recs), rec.(count := 2));
  }

  /** The walk over two date-prefixed playlists, with rows `ra` and `rb`,
      that hold the same single track. */
  lemma SameTrackRows(t: RawTrack, a: RawPlaylist, b: RawPlaylist, ra: PlaylistRecord, rb: PlaylistRecord)
    requires a.tracks == [t] && b.tracks == [t]
    requires IsSpinName(a.name) && IsSpinName(b.name)
    requires SummarizePlaylist(a) == Ok(ra) && SummarizePlaylist(b) == Ok(rb)
    ensures Collect([a, b]) == Ok(Collected([ra, rb], [ProvisionalRecord(t), ProvisionalRecord(t)], t.artists + t.artists))
  {
    CollectPair(a, b, ra, rb);
    OneTrackTwice(t);
  }

  /** A single track walked twice contributes two equal provisional records
      and its artists twice. */
  lemma OneTrackTwice(t: RawTrack)
    ensures ProvisionalRecords([t]) + ProvisionalRecords([t]) == [ProvisionalRecord(t), ProvisionalRecord(t)]
    ensures ArtistsOf([t]) + ArtistsOf([t]) == t.artists + t.artists
  {
    OneTrack(t);
  }

  /** A single track contributes one provisional record and its artists. */
  lemma OneTrack(t: RawTrack)
    ensures ProvisionalRecords([t]) == [ProvisionalRecord(t)]
    ensures ArtistsOf([t]) == t.artists
  {
    assert [t][..0] == [];
  }

  /** The first date-prefixed playlist the walk absorbs, when its name
      splits into the row `ra`. */
  lemma AbsorbFirst(a: RawPlaylist, ra: PlaylistRecord)
    requires IsSpinName(a.name) && SummarizePlaylist(a) == Ok(ra)
    ensures Absorb(Collected([], [], []), a) == Ok(Collected([ra], ProvisionalRecords(a.tracks), ArtistsOf(a.tracks)))
  {
    var e := Collected([], [], []);
    AbsorbSpin(e, a, ra);
    OntoEmpty(ra, ProvisionalRecords(a.tracks), ArtistsOf(a.tracks));
  }

  /** Appending to the empty walk gives just what was appended. */
  lemma OntoEmpty(ra: PlaylistRecord, pr: seq<TrackRecord>, ar: seq<string>)
    ensures Collected([] + [ra], [] + pr, [] + ar) == Collected([ra], pr, ar)
  {
    assert [] + pr == pr;
    assert [] + ar == ar;
  }

  /** The walk over one date-prefixed playlist whose name splits into the
      row `ra`. */
  lemma CollectSingle(a: RawPlaylist, ra: PlaylistRecord)
    requires IsSpinName(a.name) && SummarizePlaylist(a) == Ok(ra)
    ensures Collect([a]) == Ok(Collected([ra], ProvisionalRecords(a.tracks), ArtistsOf(a.tracks)))
  {
    assert [a][..0] == [];
    CollectStep([a]);
    AbsorbFirst(a, ra);
  }

  /** The walk over two date-prefixed playlists whose names split into the
      rows `ra` and `rb`. */
  lemma CollectPair(a: RawPlaylist, b: RawPlaylist, ra: PlaylistRecord, rb: PlaylistRecord)
    requires IsSpinName(a.name) && SummarizePlaylist(a) == Ok(ra)
    requires IsSpinName(b.name) && SummarizePlaylist(b) == Ok(rb)
    ensures Collect([a, b]) == Ok(Collected([ra, rb],
      ProvisionalRecords(a.tracks) + ProvisionalRecords(b.tracks), ArtistsOf(a.tracks) + ArtistsOf(b.tracks)))
  {
    var ca := Collected([ra], ProvisionalRecords(a.tracks), ArtistsOf(a.tracks));
    CollectSingle(a, ra);
    CollectSecond(a, b, ca);
    AbsorbSecond(ra, ProvisionalRecords(a.tracks), ArtistsOf(a.tracks), b, rb);
  }

  /** The walk over two playlists absorbs the second into the walk over the
      first. */
  lemma CollectSecond(a: RawPlaylist, b: RawPlaylist, ca: Collected)
    requires Collect([a]) == Ok(ca)
    ensures Collect([a, b]) == Absorb(ca, b)
  {
    assert [a, b][..1] == [a];
    CollectStep([a, b]);
  }

  /** A second date-prefixed playlist, whose name splits into `rb`, absorbed
      after a first one with row `ra`. */
  lemma AbsorbSecond(ra: PlaylistRecord, tracks: seq<TrackRecord>, artists: seq<string>, b: RawPlaylist, rb: PlaylistRecord)
    requires IsSpinName(b.name) && SummarizePlaylist(b) == Ok(rb)
    ensures Absorb(Collected([ra], tracks, artists), b)
      == Ok(Collected([ra, rb], tracks + ProvisionalRecords(b.tracks), artists + ArtistsOf(b.tracks)))
  {
    AbsorbSpin(Collected([ra], tracks, artists), b, rb);
    SecondRow(ra, rb);
  }

  /** Two rows appended one after the other. */
  lemma SecondRow(ra: PlaylistRecord, rb: PlaylistRecord)
    ensures [ra] + [rb] == [ra, rb]
  {
  }

  /** A date-prefixed name with no space aborts the run, even after a
      well-formed playlist. */
  lemma MissingTitleExample(a: RawPlaylist, b: RawPlaylist)
    requires a == RawPlaylist("3/1 Road Trip", "u1", []) && b == RawPlaylist("3/8", "u2", [])
    ensures Aggregate([a, b]) == Err(MissingTitle("3/8"))
  {
    MissingTitleNames(a, b);
    AggregateFailure([a, b]);
    assert [a, b][0] == a && [a, b][1] == b;
  }

  /** Of the names "3/1 Road Trip" and "3/8", only the second lacks a title. */
  lemma MissingTitleNames(a: RawPlaylist, b: RawPlaylist)
    requires a.name == "3/1 Road Trip" && b.name == "3/8"
    ensures !Malformed(a) && Malformed(b)
  {
    RunNameExamples();
    assert a.name[3] == ' ';
  }
}
