/**
 * What the duplicate filter of module Dedup guarantees: what each pass keeps
 * and drops, what holds of its output, and that a second run changes nothing.
 */
module DedupProperties {
  import opened Songs
  import opened Sequences
  import opened Clean
  import opened Dedup

  // ---------------------------------------------------------------------------
  // The exact pass
  // ---------------------------------------------------------------------------

  /** The exact pass keeps exactly the first row of each (artist, uniformized
      title), in table order. */
  lemma ExactPassKeepsFirst(rows: seq<Row>) returns (idx: seq<nat>)
    ensures StrictlyIncreasing(idx) && InBounds(idx, |rows|)
    ensures ExactPass(rows) == Select(rows, idx)
    ensures forall i :: 0 <= i < |rows| ==> (i in idx <==> IsFirstOccurrence(rows, i))
  {
    idx := Positions(FirstOccurrences(rows), |rows|);
    PositionsAreFlagged(FirstOccurrences(rows), |rows|);
  }

  /** No two rows left by the exact pass share artist and uniformized title. */
  lemma ExactPassKeysDistinct(rows: seq<Row>)
    ensures forall m, n :: 0 <= m < n < |ExactPass(rows)| ==>
      Key(ExactPass(rows)[m]) != Key(ExactPass(rows)[n])
  {
    var idx := ExactPassKeepsFirst(rows);
    forall m, n | 0 <= m < n < |idx| ensures Key(rows[idx[m]]) != Key(rows[idx[n]]) {
      assert idx[m] < idx[n];
      assert IsFirstOccurrence(rows, idx[n]);
    }
  }

  /** Every key has a first row. */
  lemma {:induction false} FirstOccurrenceExists(rows: seq<Row>, i: nat)
    requires i < |rows|
    ensures exists j :: 0 <= j <= i && IsFirstOccurrence(rows, j) && Key(rows[j]) == Key(rows[i])
  {
    if !IsFirstOccurrence(rows, i) {
      var k :| 0 <= k < i && Key(rows[k]) == Key(rows[i]);
      FirstOccurrenceExists(rows, k);
    }
  }

  /** The exact pass loses no key: every (artist, uniformized title) of the
      table is still there. */
  lemma ExactPassCoversKeys(rows: seq<Row>)
    ensures forall i :: 0 <= i < |rows| ==>
      exists m :: 0 <= m < |ExactPass(rows)| && Key(ExactPass(rows)[m]) == Key(rows[i])
  {
    var idx := ExactPassKeepsFirst(rows);
    forall i | 0 <= i < |rows| ensures exists m :: 0 <= m < |idx| && Key(rows[idx[m]]) == Key(rows[i]) {
      FirstOccurrenceExists(rows, i);
      var j :| 0 <= j <= i && IsFirstOccurrence(rows, j) && Key(rows[j]) == Key(rows[i]);
      assert j in idx;
      var m :| 0 <= m < |idx| && idx[m] == j;
    }
  }

  /** A table without repeated keys passes the exact pass unchanged. */
  lemma ExactPassOfDistinct(rows: seq<Row>)
    requires forall m, n :: 0 <= m < n < |rows| ==> Key(rows[m]) != Key(rows[n])
    ensures ExactPass(rows) == rows
  {
    SelectAllFlagged(rows, FirstOccurrences(rows));
  }

  // ---------------------------------------------------------------------------
  // The fuzzy pass
  // ---------------------------------------------------------------------------

  /** The fuzzy pass keeps exactly the rows whose score is at most the
      threshold, in table order. */
  lemma FuzzyPassKeeps(rows: seq<Row>, threshold: int, ratio: (string, string) -> int) returns (idx: seq<nat>)
    ensures StrictlyIncreasing(idx) && InBounds(idx, |rows|)
    ensures FuzzyPass(rows, threshold, ratio) == Select(rows, idx)
    ensures forall i :: 0 <= i < |rows| ==> (i in idx <==> FuzzyScore(rows, i, ratio) <= threshold)
  {
    var keep := AtMost(FuzzyScores(rows, ratio), threshold);
    idx := Positions(keep, |rows|);
    PositionsAreFlagged(keep, |rows|);
  }

  /** With a threshold of at least 0, a row survives the fuzzy pass exactly when
      no later row of its artist has a title within the threshold's reach. */
  lemma SurvivesIff(rows: seq<Row>, i: nat, threshold: int, ratio: (string, string) -> int)
    requires i < |rows| && threshold >= 0
    ensures FuzzyScore(rows, i, ratio) <= threshold <==>
      forall j :: i < j < |rows| && rows[j].song.artist == rows[i].song.artist ==>
        ratio(rows[i].uniform, rows[j].uniform) <= threshold
  {
    FuzzyScoreIsMax(rows, i, ratio);
  }

  /** With a negative threshold every score is above it. */
  lemma NegativeThresholdDropsAll(rows: seq<Row>, threshold: int, ratio: (string, string) -> int)
    requires threshold < 0
    ensures FuzzyPass(rows, threshold, ratio) == []
  {
    var keep := AtMost(FuzzyScores(rows, ratio), threshold);
    forall i | 0 <= i < |rows| ensures !keep[i] {
      FuzzyScoreIsMax(rows, i, ratio);
    }
    PositionsNoneSet(keep, |rows|);
  }

  /** No later row has the same artist. */
  predicate IsLastOfArtist(rows: seq<Row>, i: nat)
    requires i < |rows|
  {
    forall j :: i < j < |rows| ==> rows[j].song.artist != rows[i].song.artist
  }

  /** Every row of an artist is followed, or is itself, by the artist's last row. */
  lemma {:induction false} LastOfArtistExists(rows: seq<Row>, i: nat)
    requires i < |rows|
    decreases |rows| - i
    ensures exists j :: i <= j < |rows| && rows[j].song.artist == rows[i].song.artist && IsLastOfArtist(rows, j)
  {
    if !IsLastOfArtist(rows, i) {
      var j :| i < j < |rows| && rows[j].song.artist == rows[i].song.artist;
      LastOfArtistExists(rows, j);
    }
  }

  /** The last row of an artist has nothing to be compared with and scores 0. */
  lemma LastOfArtistScoresZero(rows: seq<Row>, i: nat, ratio: (string, string) -> int)
    requires i < |rows| && IsLastOfArtist(rows, i)
    ensures FuzzyScore(rows, i, ratio) == 0
  {
    FuzzyScoreIsMax(rows, i, ratio);
  }

  /** With a threshold of at least 0 the fuzzy pass loses no artist: the last
      row of each artist survives. */
  lemma FuzzyPassKeepsEveryArtist(rows: seq<Row>, threshold: int, ratio: (string, string) -> int)
    requires threshold >= 0
    ensures forall i :: 0 <= i < |rows| ==>
      exists m :: 0 <= m < |FuzzyPass(rows, threshold, ratio)| &&
        FuzzyPass(rows, threshold, ratio)[m].song.artist == rows[i].song.artist
  {
    var idx := FuzzyPassKeeps(rows, threshold, ratio);
    forall i | 0 <= i < |rows|
      ensures exists m :: 0 <= m < |idx| && rows[idx[m]].song.artist == rows[i].song.artist
    {
      LastOfArtistExists(rows, i);
      var j :| i <= j < |rows| && rows[j].song.artist == rows[i].song.artist && IsLastOfArtist(rows, j);
      LastOfArtistScoresZero(rows, j, ratio);
      assert j in idx;
      var m :| 0 <= m < |idx| && idx[m] == j;
    }
  }

  /** After the fuzzy pass, the `ratio` of the title of a row to the title of
      any later row of its artist is at most the threshold. */
  lemma FuzzyPassNoNearDuplicates(rows: seq<Row>, threshold: int, ratio: (string, string) -> int)
    ensures var out := FuzzyPass(rows, threshold, ratio);
      forall m, n :: 0 <= m < n < |out| && out[m].song.artist == out[n].song.artist ==>
        ratio(out[m].uniform, out[n].uniform) <= threshold
  {
    var idx := FuzzyPassKeeps(rows, threshold, ratio);
    forall m, n | 0 <= m < n < |idx| && rows[idx[m]].song.artist == rows[idx[n]].song.artist
      ensures ratio(rows[idx[m]].uniform, rows[idx[n]].uniform) <= threshold
    {
      assert idx[m] < idx[n];
      assert idx[m] in idx;
      FuzzyScoreIsMax(rows, idx[m], ratio);
    }
  }

  /** A table whose rows are all at most `threshold` apart, with a threshold of
      at least 0, passes the fuzzy pass unchanged. */
  lemma FuzzyPassOfSpread(rows: seq<Row>, threshold: int, ratio: (string, string) -> int)
    requires threshold >= 0
    requires forall m, n :: 0 <= m < n < |rows| && rows[m].song.artist == rows[n].song.artist ==>
      ratio(rows[m].uniform, rows[n].uniform) <= threshold
    ensures FuzzyPass(rows, threshold, ratio) == rows
  {
    var keep := AtMost(FuzzyScores(rows, ratio), threshold);
    forall i | 0 <= i < |rows| ensures keep[i] {
      SurvivesIff(rows, i, threshold, ratio);
    }
    SelectAllFlagged(rows, keep);
  }

  // ---------------------------------------------------------------------------
  // The whole filter
  // ---------------------------------------------------------------------------

  /** Every row's `uniformized_song_title` is its song title uniformized. */
  predicate Consistent(rows: seq<Row>) {
    forall i :: 0 <= i < |rows| ==> rows[i].uniform == Uniformize(rows[i].song.songTitle)
  }

  /** Adding the uniformized column back to the songs of a consistent table
      gives the table. */
  lemma UniformizedSongsOf(rows: seq<Row>)
    requires Consistent(rows)
    ensures Uniformized(SongsOf(rows)) == rows
  {
  }

  lemma SongsOfSelect(rows: seq<Row>, idx: seq<nat>)
    requires InBounds(idx, |rows|)
    ensures SongsOf(Select(rows, idx)) == Select(SongsOf(rows), idx)
  {
  }

  /** The two passes as one selection from the uniformized table. */
  lemma PassesKeep(songs: seq<Song>, threshold: int, ratio: (string, string) -> int) returns (idx: seq<nat>)
    ensures StrictlyIncreasing(idx) && InBounds(idx, |songs|)
    ensures FuzzyPass(ExactPass(Uniformized(songs)), threshold, ratio) == Select(Uniformized(songs), idx)
    ensures forall m :: 0 <= m < |idx| ==> IsFirstOccurrence(Uniformized(songs), idx[m])
  {
    var table := Uniformized(songs);
    var exact := ExactPassKeepsFirst(table);
    var fuzzy := FuzzyPassKeeps(ExactPass(table), threshold, ratio);
    SelectSelect(table, exact, fuzzy);
    idx := Select(exact, fuzzy);
    forall m | 0 <= m < |idx| ensures IsFirstOccurrence(table, idx[m]) {
      assert idx[m] == exact[fuzzy[m]];
      assert exact[fuzzy[m]] in exact;
    }
  }

  /** The filter's output is the input with some songs left out and the others
      in their original order; the songs it keeps are first occurrences of
      their (artist, uniformized title). */
  lemma DropDuplicatesKeeps(songs: seq<Song>, threshold: int, ratio: (string, string) -> int) returns (idx: seq<nat>)
    ensures StrictlyIncreasing(idx) && InBounds(idx, |songs|)
    ensures DropDuplicates(songs, threshold, ratio) == Select(songs, idx)
    ensures forall m :: 0 <= m < |idx| ==> IsFirstOccurrence(Uniformized(songs), idx[m])
  {
    var table := Uniformized(songs);
    idx := PassesKeep(songs, threshold, ratio);
    SongsOfSelect(table, idx);
    SongsOfUniformized(songs);
  }

  /** Dropping the added column gives back the songs. */
  lemma SongsOfUniformized(songs: seq<Song>)
    ensures SongsOf(Uniformized(songs)) == songs
  {
    var table := Uniformized(songs);
    forall i | 0 <= i < |songs| ensures SongsOf(table)[i] == songs[i] {
      assert table[i].song == songs[i];
    }
  }

  lemma DropDuplicatesIsSubsequence(songs: seq<Song>, threshold: int, ratio: (string, string) -> int)
    ensures IsSubsequence(DropDuplicates(songs, threshold, ratio), songs)
  {
    var idx := DropDuplicatesKeeps(songs, threshold, ratio);
  }

  /** No two songs of the output have the same artist and the same uniformized title. */
  lemma DropDuplicatesDistinctTitles(songs: seq<Song>, threshold: int, ratio: (string, string) -> int)
    ensures var out := DropDuplicates(songs, threshold, ratio);
      forall m, n :: 0 <= m < n < |out| && out[m].artist == out[n].artist ==>
        Uniformize(out[m].songTitle) != Uniformize(out[n].songTitle)
  {
    var table := Uniformized(songs);
    var idx := DropDuplicatesKeeps(songs, threshold, ratio);
    forall m, n | 0 <= m < n < |idx| && songs[idx[m]].artist == songs[idx[n]].artist
      ensures Uniformize(songs[idx[m]].songTitle) != Uniformize(songs[idx[n]].songTitle)
    {
      assert idx[m] < idx[n];
      assert IsFirstOccurrence(table, idx[n]);
      assert Key(table[idx[m]]) != Key(table[idx[n]]);
    }
  }

  /** Selecting rows in order keeps keys distinct. */
  lemma SelectKeysDistinct(rows: seq<Row>, idx: seq<nat>)
    requires StrictlyIncreasing(idx) && InBounds(idx, |rows|)
    requires forall m, n :: 0 <= m < n < |rows| ==> Key(rows[m]) != Key(rows[n])
    ensures var sel := Select(rows, idx);
      forall m, n :: 0 <= m < n < |sel| ==> Key(sel[m]) != Key(sel[n])
  {
    forall m, n | 0 <= m < n < |idx| ensures Key(rows[idx[m]]) != Key(rows[idx[n]]) {
      assert idx[m] < idx[n];
    }
  }

  /** The rows the two passes leave have consistent uniformized titles. */
  lemma PassesConsistent(songs: seq<Song>, threshold: int, ratio: (string, string) -> int)
    ensures Consistent(FuzzyPass(ExactPass(Uniformized(songs)), threshold, ratio))
  {
    var idx := PassesKeep(songs, threshold, ratio);
  }

  /** The rows the two passes leave have distinct keys. */
  lemma PassesKeysDistinct(songs: seq<Song>, threshold: int, ratio: (string, string) -> int)
    ensures var rows := FuzzyPass(ExactPass(Uniformized(songs)), threshold, ratio);
      forall m, n :: 0 <= m < n < |rows| ==> Key(rows[m]) != Key(rows[n])
  {
    var exact := ExactPass(Uniformized(songs));
    var fuzzy := FuzzyPassKeeps(exact, threshold, ratio);
    ExactPassKeysDistinct(Uniformized(songs));
    SelectKeysDistinct(exact, fuzzy);
  }

  /** The filter's output, for songs of one artist, has titles at most
      `threshold` apart by `ratio`. */
  lemma DropDuplicatesNoNearDuplicates(songs: seq<Song>, threshold: int, ratio: (string, string) -> int)
    ensures var out := DropDuplicates(songs, threshold, ratio);
      forall m, n :: 0 <= m < n < |out| && out[m].artist == out[n].artist ==>
        ratio(Uniformize(out[m].songTitle), Uniformize(out[n].songTitle)) <= threshold
  {
    var rows := FuzzyPass(ExactPass(Uniformized(songs)), threshold, ratio);
    var out := SongsOf(rows);
    assert DropDuplicates(songs, threshold, ratio) == out;
    PassesConsistent(songs, threshold, ratio);
    FuzzyPassNoNearDuplicates(ExactPass(Uniformized(songs)), threshold, ratio);
    forall m, n | 0 <= m < n < |out| && out[m].artist == out[n].artist
      ensures ratio(Uniformize(out[m].songTitle), Uniformize(out[n].songTitle)) <= threshold
    {
      assert out[m] == rows[m].song && out[n] == rows[n].song;
      assert rows[m].uniform == Uniformize(out[m].songTitle);
      assert rows[n].uniform == Uniformize(out[n].songTitle);
    }
  }

  /** With a threshold of at least 0 the filter loses no artist. */
  lemma DropDuplicatesKeepsEveryArtist(songs: seq<Song>, threshold: int, ratio: (string, string) -> int)
    requires threshold >= 0
    ensures var out := DropDuplicates(songs, threshold, ratio);
      forall i :: 0 <= i < |songs| ==> exists m :: 0 <= m < |out| && out[m].artist == songs[i].artist
  {
    var table := Uniformized(songs);
    var rows := FuzzyPass(ExactPass(table), threshold, ratio);
    var out := SongsOf(rows);
    assert DropDuplicates(songs, threshold, ratio) == out;
    PassesKeepEveryArtist(table, threshold, ratio);
    forall i | 0 <= i < |songs| ensures exists m :: 0 <= m < |out| && out[m].artist == songs[i].artist {
      assert table[i].song == songs[i];
      var m :| 0 <= m < |rows| && rows[m].song.artist == table[i].song.artist;
      assert out[m] == rows[m].song;
    }
  }

  /** Both passes together lose no artist, with a threshold of at least 0. */
  lemma PassesKeepEveryArtist(table: seq<Row>, threshold: int, ratio: (string, string) -> int)
    requires threshold >= 0
    ensures var rows := FuzzyPass(ExactPass(table), threshold, ratio);
      forall i :: 0 <= i < |table| ==> exists m :: 0 <= m < |rows| && rows[m].song.artist == table[i].song.artist
  {
    var exact := ExactPass(table);
    var rows := FuzzyPass(exact, threshold, ratio);
    ExactPassCoversKeys(table);
    FuzzyPassKeepsEveryArtist(exact, threshold, ratio);
    forall i | 0 <= i < |table| ensures exists m :: 0 <= m < |rows| && rows[m].song.artist == table[i].song.artist {
      var k :| 0 <= k < |exact| && Key(exact[k]) == Key(table[i]);
      var m :| 0 <= m < |rows| && rows[m].song.artist == exact[k].song.artist;
    }
  }

  /** With a negative threshold nothing is left. */
  lemma DropDuplicatesNegativeThreshold(songs: seq<Song>, threshold: int, ratio: (string, string) -> int)
    requires threshold < 0
    ensures DropDuplicates(songs, threshold, ratio) == []
  {
    NegativeThresholdDropsAll(ExactPass(Uniformized(songs)), threshold, ratio);
  }

  /** Songs of pairwise different artists all survive a threshold of at least 0. */
  lemma DistinctArtistsKept(songs: seq<Song>, threshold: int, ratio: (string, string) -> int)
    requires threshold >= 0
    requires forall m, n :: 0 <= m < n < |songs| ==> songs[m].artist != songs[n].artist
    ensures DropDuplicates(songs, threshold, ratio) == songs
  {
    var table := Uniformized(songs);
    ExactPassOfDistinct(table);
    FuzzyPassOfSpread(table, threshold, ratio);
  }

  /** Running the filter on its own output changes nothing. */
  lemma DropDuplicatesIdempotent(songs: seq<Song>, threshold: int, ratio: (string, string) -> int)
    ensures DropDuplicates(DropDuplicates(songs, threshold, ratio), threshold, ratio)
         == DropDuplicates(songs, threshold, ratio)
  {
    var rows := FuzzyPass(ExactPass(Uniformized(songs)), threshold, ratio);
    PassesConsistent(songs, threshold, ratio);
    PassesKeysDistinct(songs, threshold, ratio);
    FuzzyPassNoNearDuplicates(ExactPass(Uniformized(songs)), threshold, ratio);
    UniformizedSongsOf(rows);
    ExactPassOfDistinct(rows);
    if threshold >= 0 {
      FuzzyPassOfSpread(rows, threshold, ratio);
    } else {
      NegativeThresholdDropsAll(ExactPass(Uniformized(songs)), threshold, ratio);
      NegativeThresholdDropsAll(rows, threshold, ratio);
    }
  }
}
