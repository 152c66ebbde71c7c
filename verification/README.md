# Spin playlist aggregation, modelled in Dafny

The system is a small personal dashboard. It reads a user's playlists from a
music streaming service. It keeps the "spin" playlists, whose names start with
the date the playlist was first used ("3/1 Road Trip"). From those it builds
the rows of three tables:

- **playlists**: uri, title, date, total length as `M:SS`, and the track
  titles joined by ", ";
- **tracks**: id, title, joined artists, and how often the track occurs
  across the spin playlists;
- **artists**: name, and how often the artist occurs across all (track, artist)
  pairings.

This project models the aggregation step of that run as pure functions over
sequences, one module per concern:

| file | module | what it holds |
|---|---|---|
| `wrappers.dfy` | `Wrappers` | `Option` and `Result`, with `:-` support |
| `seqs.dfy` | `Seqs` | distinct elements in first-occurrence order (Python's "append unless present" and a `Counter`'s key order), first positions, sums of occurrence counts |
| `text.dfy` | `Text` | decimal digits, `str(n)`, `", ".join`, `str.find`, `split(sep, 1)`, and a full `split(sep)` that reads a join back |
| `spin_filter.dfy` | `SpinFilter` | the date-prefix filter, the pattern `\d+/` matched at the start of the name |
| `duration.dfy` | `Duration` | the `M:SS` length format |
| `track_count.dfy` | `TrackCount` | the provisional track records, the counting pass exactly as the source writes it (a nested loop that also renames null ids), and the merge of equal records |
| `artist_count.dfy` | `ArtistCount` | the artist counter, read back in key order |
| `aggregator.dfy` | `Aggregator` | the raw input, the walk over the playlists, the failure on a name without a space, and the run as a whole |

The fetched playlists are an input: a sequence of `RawPlaylist`, each holding its
tracks. A run is `Aggregator.Aggregate`. It returns either the three tables'
rows or `MissingTitle(name)` for the first spin playlist whose name has no space.
In the source, that case is an `IndexError` on `components[1]`, which aborts the
request.

### How the code behaves at its edges

- **Merging is by full-record equality, not by id.** Two occurrences of one
  id with different titles or artist strings stay two records. Each of them
  carries the id's full count (`TrackCount.SameIdTwoTitlesExample`), so the
  tracks table can hold one id more than once.
- **Tracks without an id are counted together only when the very first track
  has no id.** The counting pass renames a null id to the track's title during
  the sweep for the first key. After that, null-id records match a key only if
  their title is also the id of some other track. So two occurrences of a
  local track after the first track end as one record with count 1
  (`TrackCount.NullIdUndercountExample`). When the first track has no id, they
  are counted together (`TrackCount.NullIdFirstExample`).
- **A malformed name fails before any insert.** The inserts at
  `app.py:160-171` all follow the walk and the counting, and the split fails
  inside the walk (`app.py:88-89`). So a run that fails writes nothing.
  Whatever earlier runs left in the tables is outside this model.
- **The seconds field is computed in floating point.** It can be one second
  low; see `Duration.FormatLength` under "Left out".

## Model

| member | source | states |
|---|---|---|
| SpinFilter.LeadingDigits | app.py:77 | the run of ASCII digits at the start of a name: all digits, maximal |
| SpinFilter.SpinNameIffDatePrefix | app.py:77-83 | a playlist is kept exactly when its name has a non-empty digit prefix followed by "/" (what `re.match(r'\d+/')` accepts) |
| SpinFilter.SpinNameExamples | app.py:76-83 | "1/15 Winter Mix" and "12/3" are kept; "Winter Mix", "/15 Mix" and "2024 Mix" are not |
| SpinFilter.RunNameExamples | app.py:76-83 | "3/1 Road Trip", "3/8 Chill" and "3/8" are kept; "Favorites" is not |
| Text.NatToString | app.py:123 | `str` of a natural number: a non-empty run of decimal digits whose value is the number, with no leading zero, one digit below 10 and at most two below 100 |
| Text.FindFrom | app.py:88 | `str.find`: the leftmost occurrence of the separator at or after the start, or none at all |
| Text.SplitOnce | app.py:88 | `split(sep, 1)`: one part (the whole string) exactly when the separator does not occur; otherwise two parts, joined back by the separator, and the first contains no occurrence |
| Text.SplitOnceAtSpace | app.py:88-90 | a name splits into two parts exactly when it contains a space, and the date part then has no space |
| Text.SplitOnceOfJoined | app.py:88-90 | splitting `date + " " + title` at the first space gives back the date and title, when the date has no space |
| Text.Split | app.py:133 | the read-back inverse of the ", " join: `SplitJoin` uses it to show the join loses nothing; its own contract bounds the pieces |
| Text.SplitJoin | app.py:133 | splitting a ", "-joined non-empty list gives the list back, when no element contains ", " |
| Duration.SecondsField | app.py:126-129 | the seconds field is two digits with the seconds' value, with a leading "0" exactly below ten |
| Duration.FormatLength | app.py:122-131 | the length is the whole minutes (no leading zero), a colon, and two digits holding the leftover whole seconds (first digit at most 5) |
| Duration.WholeSeconds | app.py:122-124 | minutes times 60 plus leftover seconds is the total number of whole seconds |
| Duration.FormatLengthInjective | app.py:122-131 | two lengths print the same exactly when they have the same number of whole seconds |
| Duration.SameTextSameSeconds | app.py:122-131 | the printed length determines the number of whole seconds |
| Duration.SameFieldsSameSeconds | app.py:122-131 | equal minutes and equal leftover seconds mean equal whole seconds |
| Duration.SameWholeSeconds | app.py:122-124 | equal whole seconds give equal minutes and equal leftover seconds |
| Duration.FormatLengthExamples | app.py:121-131 | 0 ms prints "0:00", 600000 ms prints "10:00", 185000 ms prints "3:05" |
| Seqs.Unique | app.py:148-151 | "append unless present" keeps no duplicates and keeps exactly the elements of the input |
| Seqs.FirstIndex | app.py:140 | the first position of an element: it holds the element and no earlier position does |
| Seqs.UniqueKeepsFirstOccurrenceOrder | app.py:139-140 | the distinct elements come in the order of their first occurrences, as a `Counter`'s keys do |
| Seqs.UniqueHead | app.py:140 | the first key is the first element |
| Seqs.UniqueOfConstant | app.py:139-140 | a list of one repeated value has that value as its only key, occurring once per element |
| Seqs.CountSumUnique | app.py:154-157 | the counter's counts over its keys add up to the list's length |
| Aggregator.TrackNames | app.py:99 | the titles of the tracks, in order |
| Aggregator.TrackIds | app.py:103 | the ids of the tracks, in order |
| Aggregator.ProvisionalRecords | app.py:102-119 | one record per track occurrence, in order: its id, its title, its artists joined by ", ", and count 1 |
| Aggregator.SummarizePlaylist | app.py:84-93 | fails with the name exactly when the name has no space; otherwise the row's date, a space and its title give back the name, the date has no space, and the row holds the playlist's uri |
| Aggregator.PlaylistRow | app.py:84-135 | a successful row fits its playlist: uri, date and title split at the first space, length reading back as minutes and leftover seconds of the total duration, joined titles |
| Aggregator.PlaylistTracksSplitBack | app.py:133 | a playlist's joined track field splits back into its titles, when no title contains ", " |
| Aggregator.SpinOnlyKeepsDatePrefixed | app.py:81-83 | the filter keeps exactly the date-prefixed playlists |
| Aggregator.CollectIgnoresOtherPlaylists | app.py:81-83 | playlists without a date prefix do not change the walk |
| Aggregator.CollectFailure | app.py:81-90 | the walk fails exactly when some kept name has no space, and reports the first such name |
| Aggregator.CollectPlaylistRows | app.py:81-135 | a successful walk holds one row per kept playlist, in order |
| Aggregator.CollectTrackRecords | app.py:95-119 | a successful walk holds the provisional records and the artist names of the kept playlists' tracks, in order |
| Aggregator.ArtistsOfLength | app.py:108-113 | the flat artist list has one entry per (track, artist) pairing |
| Aggregator.ArtistsOfMembers | app.py:108-113 | the flat artist list holds exactly the tracks' artists |
| Aggregator.ArtistsOfPairings | app.py:108-113 | the flat artist list has one entry per (track, artist) pairing and holds exactly the tracks' artists |
| Aggregator.ProvisionalIds | app.py:103 | the provisional records carry the tracks' ids |
| Aggregator.AggregateIgnoresOtherPlaylists | app.py:81-83 | a run depends only on the date-prefixed playlists |
| Aggregator.AggregateFailure | app.py:81-90 | a run fails exactly when some kept name has no space, and reports the first such name |
| Aggregator.AggregatePlaylists | app.py:81-135 | the playlist rows of a successful run: one per kept playlist, in order, each fitting its playlist |
| Aggregator.AggregateTrackCounts | app.py:95-151 | a track occurrence with an id ends as exactly one emitted record: its id, title, joined artists, and the number of occurrences of its id across the kept playlists |
| Aggregator.AggregateNoNullIds | app.py:139-151 | once any kept track has an id, no emitted record has a null id |
| Aggregator.AggregateArtists | app.py:108-157 | the artist rows: every artist of the kept tracks once, in order of first occurrence, counted by its pairings; the counts add up to the number of pairings |
| Aggregator.TwoEqualRecordsMerge | app.py:139-151 | two identical occurrences of a track with an id become one record with count 2 |
| Aggregator.ExampleFilter | app.py:81-83 | a playlist without a date between two dated ones is dropped |
| Aggregator.CollectSingle | app.py:81-135 | the walk over one kept playlist whose name splits |
| Aggregator.CollectPair | app.py:81-135 | the walk over two kept playlists whose names split |
| Aggregator.OneTrack | app.py:95-119 | a single track contributes one provisional record and its own artists |
| Aggregator.SameTrackTables | app.py:139-157 | one single-artist track occurring twice gives one track row with count 2 and one artist row with count 2 |
| Aggregator.ExampleRows | app.py:84-133 | the rows of "3/1 Road Trip" and "3/8 Chill", each holding one 185000 ms track "Song" |
| Aggregator.MissingTitleNames | app.py:83-89 | of "3/1 Road Trip" and "3/8", only the second is kept and lacks a title |
| Aggregator.SameTrackRows | app.py:81-135 | two kept playlists holding the same single track give their two rows, two equal provisional records and the track's artists twice |
| Aggregator.SameTrackRun | app.py:72-157 | a run over two kept playlists holding the same single-artist track gives two rows, one record with count 2 and the artist with count 2 |
| Aggregator.ExampleSummary | app.py:84-133 | a playlist named date, space, title, holding one 185000 ms track "Song", has that date and title, length "3:05" and tracks "Song" |
| Aggregator.TwoPlaylistsRunExample | app.py:72-157 | a run over "3/1 Road Trip", "Favorites" and "3/8 Chill", all holding one track, gives two playlist rows, the track with count 2 and its artist with count 2 |
| Aggregator.MissingTitleExample | app.py:88-89 | a kept name "3/8" with no space aborts the run, even after a well-formed playlist |
| TrackCount.Ids | app.py:139 | the records' ids, in order |
| TrackCount.Sweep | app.py:141-145 | the inner loop visits every record once |
| TrackCount.WalkIsPointwise | app.py:140-145 | the nested loop treats each record independently: each ends as the record settled through all keys in turn |
| TrackCount.FirstKnown | app.py:140-145 | the first non-null id, null exactly when every id is null |
| TrackCount.FirstKnownCons | app.py:140-145 | reading the first non-null id from the front |
| TrackCount.FirstKnownOfUnique | app.py:140 | the counter's keys have the same first non-null id as the ids |
| TrackCount.SettleUntouched | app.py:142-145 | a record whose non-null id is not a key is left unchanged |
| TrackCount.SettleKnown | app.py:142-143 | a record whose non-null id is a key keeps its id and takes that key's tally |
| TrackCount.SettleRenamed | app.py:142-145 | a null-id record is renamed by the first non-null key and then counted only under its title, if that is a later key |
| TrackCount.SettleNull | app.py:140-145 | a null-id record ends with its title as id; it is counted under its title, or under null when null is the first key, or not at all |
| TrackCount.SettleKeepsNameAndArtist | app.py:140-145 | settling changes neither the title nor the artists |
| TrackCount.CountPassKnownId | app.py:139-143 | a record that came with an id keeps it and ends with the number of records carrying that id |
| TrackCount.CountPassNullId | app.py:139-145 | a record that came without an id, when some record has one, ends with its title as id and with the count the sweep order gives it |
| TrackCount.CountPassAllNull | app.py:139-145 | when no record has an id, none is renamed and each one's count is the number of records |
| TrackCount.CountPassLeavesNoNullId | app.py:140-145 | once some record has an id, no record keeps a null id |
| TrackCount.CountPassKeepsNamesAndArtists | app.py:140-145 | the pass changes only ids and counts |
| TrackCount.TrackRecordsAreDistinctPassRecords | app.py:148-151 | the emitted records are the records after the pass, each exactly once, in first-occurrence order |
| TrackCount.IdenticalOccurrencesCollapse | app.py:139-151 | each occurrence with an id ends as exactly one emitted record, which carries that id's number of occurrences |
| TrackCount.UniqueOfThree | app.py:148-151 | a repeat of either of two distinct records is merged away |
| TrackCount.TwoIdsExample | app.py:139-151 | "T1", "T2", "T1" give counts 2 and 1 |
| TrackCount.NullIdUndercountExample | app.py:139-151 | two null-id occurrences after a track with an id end as one record with count 1 |
| TrackCount.NullIdFirstExample | app.py:139-151 | when the first track has no id, the null-id occurrences are counted together |
| TrackCount.NullIdFirstPass | app.py:139-145 | when the first occurrence has no id, both id-less occurrences are counted 2 under the null key and then renamed by their title |
| TrackCount.SameIdTwoTitlesExample | app.py:139-151 | one id under two titles stays two records, each with the id's full count |
| ArtistCount.Tally | app.py:154-157 | one (name, count) pair per key |
| ArtistCount.Names | app.py:156 | the names of the artist rows, in order |
| ArtistCount.TallyNamesAndCounts | app.py:154-157 | each pair holds the key at its position and that key's occurrences |
| ArtistCount.TallyTotal | app.py:154-157 | the pairs' counts add up to the keys' occurrences |
| ArtistCount.TallyEntries | app.py:154-157 | the pairs keep the keys' order, each key counted by its occurrences, and the counts sum to the keys' occurrences |
| ArtistCount.ArtistTalliesSpec | app.py:154-157 | every name of the flat list exactly once, in first-occurrence order, with a positive count equal to its occurrences; the counts add up to the list's length |
| ArtistCount.TwoPlaylistsExample | app.py:154-157 | artists A and B each occurring twice give (A, 2), (B, 2) |
| ArtistCount.TwiceTallied | app.py:154-157 | an artist occurring twice gives one row with count 2 |
| ArtistCount.UniqueOfTwoRepeated | app.py:156 | the keys of A, B, A, B are A, B |

## Left out

- Web layer: the routes, templates and the redirect flow around the run are
  not modelled; only the aggregation body of the `/index` handler is.
- Streaming-service access: the OAuth flow, the credentials read from the
  environment, and the paged playlist fetch (six pages of 50 at offsets
  0-250) are left out. The model's input is the concatenation of the fetched
  pages, with each playlist's tracks already fetched. The source never fetches
  more than the first 300 playlists, or more than the first page of a
  playlist's tracks; in the model, those limits are up to the caller.
- Persistence: the table creation, the inserts into the SQLite store and the
  commit (`app.py:160-171`) are left out, as are the queries that read rows
  back. The model ends with the rows that would be inserted. The tables are
  dropped only when the application starts (`app.py:23-25`), so a second run
  in the same process appends its rows to the first run's rows; that
  cross-run state is not modelled.
- SpinFilter.IsSpinName: treats only the ASCII digits 0-9 as digits. A Python
  `str` pattern's `\d` also matches other Unicode decimal digits.
- Duration.FormatLength: computes the seconds exactly, as `(ms % 60000) /
  1000`. The source divides by 60000 in floating point and truncates
  `(x % 1) * 60`, which can land just under the whole second. For example,
  65000 ms gives 4.999… and prints "1:04", and 61000 ms prints "1:00". The
  model gives the value the format evidently means, not the rounding error.
- Duration.FormatLengthInjective: holds of the exact seconds only. With the
  source's floating-point seconds, 60000 and 61000 ms both print "1:00", so
  two lengths with different whole seconds can print the same.
- Duration.SameTextSameSeconds: holds of the exact seconds only. With the
  source's floating-point seconds, 63000 and 64000 ms both print "1:03".
- Missing track objects: a playlist entry whose track object is absent (the
  service reports removed tracks that way) would raise in the source. The
  model's `RawTrack` always has a title, a duration and artists.
- Text.Split: its own contract only bounds the number of pieces. Its meaning
  is stated through `Text.SplitJoin`.
