/**
 * Dropping duplicate songs from the scraped songs table
 * (collect_data/clean/__init__.py, `drop_duplicate_songs` and
 * `compute_fuzzy_score`).
 *
 * The filter adds the uniformized title as a column, drops every row whose
 * (artist, uniformized title) an earlier row already has (`ExactPass`), then
 * scores each remaining row against the LATER rows of its artist with the
 * foreign similarity function `ratio` and drops every row whose score is
 * strictly above the threshold (`FuzzyPass`). `DropDuplicateSongs` is the
 * procedure; `DropDuplicates` is the function it is proved against.
 */
module Dedup {
  import opened Songs
  import opened Sequences
  import opened Clean

  /** A row of the table while the filter runs: the song and its
      `uniformized_song_title` column. */
  datatype Row = Row(song: Song, uniform: string)

  /** The table with the `uniformized_song_title` column added. */
  function Uniformized(songs: seq<Song>): (rows: seq<Row>)
    ensures |rows| == |songs|
    ensures forall i :: 0 <= i < |songs| ==> rows[i] == Row(songs[i], Uniformize(songs[i].songTitle))
  {
    seq(|songs|, i requires 0 <= i < |songs| => Row(songs[i], Uniformize(songs[i].songTitle)))
  }

  /** The table with the working columns dropped again. */
  function SongsOf(rows: seq<Row>): (songs: seq<Song>)
    ensures |songs| == |rows|
    ensures forall i :: 0 <= i < |rows| ==> songs[i] == rows[i].song
  {
    seq(|rows|, i requires 0 <= i < |rows| => rows[i].song)
  }

  // ---------------------------------------------------------------------------
  // Exact pass: `drop_duplicates(subset=["artist", "uniformized_song_title"])`
  // ---------------------------------------------------------------------------

  /** The pair the exact pass compares. */
  function Key(row: Row): (key: (string, string)) {
    (row.song.artist, row.uniform)
  }

  /** No earlier row has the same artist and uniformized title. */
  predicate IsFirstOccurrence(rows: seq<Row>, i: nat): (b: bool)
    requires i < |rows|
    ensures i == 0 ==> b
  {
    forall j :: 0 <= j < i ==> Key(rows[j]) != Key(rows[i])
  }

  /** The mask `~duplicated(subset=["artist", "uniformized_song_title"])`. */
  function FirstOccurrences(rows: seq<Row>): (keep: seq<bool>)
    ensures |keep| == |rows|
    ensures forall i :: 0 <= i < |rows| ==> (keep[i] <==> IsFirstOccurrence(rows, i))
  {
    seq(|rows|, i requires 0 <= i < |rows| => IsFirstOccurrence(rows, i))
  }

  /** The table after the exact pass (`keep="first"`). */
  function ExactPass(rows: seq<Row>): (r: seq<Row>)
    ensures |r| <= |rows|
  {
    Select(rows, Positions(FirstOccurrences(rows), |rows|))
  }

  // ---------------------------------------------------------------------------
  // Fuzzy pass: `groupby("artist").apply(compute_fuzzy_score)` and the threshold
  // ---------------------------------------------------------------------------

  function Max(a: int, b: int): (m: int)
    ensures m >= a && m >= b && (m == a || m == b)
  {
    if a < b then b else a
  }

  /** Positions, from `lo` on, of the rows of one artist: the rows of its group. */
  function Group(rows: seq<Row>, artist: string, lo: nat): (idx: seq<nat>)
    requires lo <= |rows|
    decreases |rows| - lo
    ensures forall m :: 0 <= m < |idx| ==> lo <= idx[m] < |rows|
  {
    if lo == |rows| then []
    else (if rows[lo].song.artist == artist then [lo] else []) + Group(rows, artist, lo + 1)
  }

  /** The group is in table order. */
  lemma {:induction false} GroupIsOrdered(rows: seq<Row>, artist: string, lo: nat)
    requires lo <= |rows|
    decreases |rows| - lo
    ensures StrictlyIncreasing(Group(rows, artist, lo))
  {
    if lo < |rows| {
      GroupIsOrdered(rows, artist, lo + 1);
    }
  }

  /** Every row of the group is the artist's. */
  lemma {:induction false} GroupIsOfArtist(rows: seq<Row>, artist: string, lo: nat)
    requires lo <= |rows|
    decreases |rows| - lo
    ensures forall m :: 0 <= m < |Group(rows, artist, lo)| ==> rows[Group(rows, artist, lo)[m]].song.artist == artist
  {
    if lo < |rows| {
      GroupIsOfArtist(rows, artist, lo + 1);
    }
  }

  /** The group holds every row of the artist from `lo` on. */
  lemma {:induction false} GroupIsComplete(rows: seq<Row>, artist: string, lo: nat)
    requires lo <= |rows|
    decreases |rows| - lo
    ensures forall i :: lo <= i < |rows| && rows[i].song.artist == artist ==> i in Group(rows, artist, lo)
  {
    if lo < |rows| {
      GroupIsComplete(rows, artist, lo + 1);
    }
  }

  /** The group from `lo` starts with `lo` when that row is the artist's. */
  lemma GroupHead(rows: seq<Row>, artist: string, lo: nat)
    requires lo < |rows| && rows[lo].song.artist == artist
    ensures |Group(rows, artist, lo)| > 0 && Group(rows, artist, lo)[0] == lo
    ensures Group(rows, artist, lo)[1..] == Group(rows, artist, lo + 1)
  {
  }

  /** Past its head, the group from `lo` is the group from `lo + 1`. */
  lemma GroupTail(rows: seq<Row>, artist: string, lo: nat, h: nat, m: nat)
    requires lo < |rows| && h == (if rows[lo].song.artist == artist then 1 else 0)
    requires h <= m < |Group(rows, artist, lo)|
    ensures m - h < |Group(rows, artist, lo + 1)|
    ensures Group(rows, artist, lo)[m] == Group(rows, artist, lo + 1)[m - h]
    ensures Group(rows, artist, lo)[m + 1..] == Group(rows, artist, lo + 1)[m - h + 1..]
  {
    var head: seq<nat> := if h == 1 then [lo] else [];
    SuffixOfConcat(head, Group(rows, artist, lo + 1), m);
  }

  /** What follows a row inside its group is the group of the rows after it. */
  lemma {:induction false} GroupSuffix(rows: seq<Row>, artist: string, lo: nat, m: nat)
    requires lo <= |rows| && m < |Group(rows, artist, lo)|
    decreases |rows| - lo
    ensures Group(rows, artist, lo)[m + 1..] == Group(rows, artist, Group(rows, artist, lo)[m] + 1)
  {
    if rows[lo].song.artist == artist && m == 0 {
      GroupHead(rows, artist, lo);
    } else {
      var h := if rows[lo].song.artist == artist then 1 else 0;
      GroupTail(rows, artist, lo, h, m);
      GroupSuffix(rows, artist, lo + 1, m - h);
    }
  }

  /** The `uniformized_song_title` column of the rows at `idx`. */
  function Titles(rows: seq<Row>, idx: seq<nat>): (ts: seq<string>)
    requires InBounds(idx, |rows|)
    ensures |ts| == |idx|
    ensures forall m :: 0 <= m < |idx| ==> ts[m] == rows[idx[m]].uniform
  {
    seq(|idx|, m requires 0 <= m < |idx| => rows[idx[m]].uniform)
  }

  /** `acc` raised to `ratio(t, o)` for each `o` of `others` in turn, as the
      loop over `itertools.combinations` does for one `idx1`. */
  function FoldMax(t: string, others: seq<string>, acc: int, ratio: (string, string) -> int): (r: int)
    decreases |others|
    ensures r >= acc
  {
    if others == [] then acc
    else Max(FoldMax(t, others[..|others| - 1], acc, ratio), ratio(t, others[|others| - 1]))
  }

  /** The fold is the maximum of `acc` and the ratios: an upper bound of each,
      and equal to one of them. */
  lemma {:induction false} FoldMaxIsMax(t: string, others: seq<string>, acc: int, ratio: (string, string) -> int)
    decreases |others|
    ensures FoldMax(t, others, acc, ratio) >= acc
    ensures forall k :: 0 <= k < |others| ==> FoldMax(t, others, acc, ratio) >= ratio(t, others[k])
    ensures FoldMax(t, others, acc, ratio) == acc ||
      exists k :: 0 <= k < |others| && FoldMax(t, others, acc, ratio) == ratio(t, others[k])
  {
    if others != [] {
      var init := others[..|others| - 1];
      FoldMaxIsMax(t, init, acc, ratio);
      forall k | 0 <= k < |init| ensures init[k] == others[k] { }
    }
  }

  /** One more comparison raises the score to the new ratio if it is larger. */
  lemma FoldMaxStep(t: string, titles: seq<string>, lo: nat, hi: nat, acc: int, ratio: (string, string) -> int)
    requires lo < hi <= |titles|
    ensures FoldMax(t, titles[lo..hi], acc, ratio) == Max(FoldMax(t, titles[lo..hi - 1], acc, ratio), ratio(t, titles[hi - 1]))
  {
    assert titles[lo..hi][..hi - 1 - lo] == titles[lo..hi - 1];
  }

  /** The `fuzzy_score` of row `i`: its title folded against the titles of the
      LATER rows of its artist, from the initial 0. */
  function FuzzyScore(rows: seq<Row>, i: nat, ratio: (string, string) -> int): (score: int)
    requires i < |rows|
    ensures score >= 0
  {
    FoldMax(rows[i].uniform, Titles(rows, Group(rows, rows[i].song.artist, i + 1)), 0, ratio)
  }

  /** The score of a row is the largest ratio between its title and the title of
      a later row of the same artist, or 0 when there is none (or all are negative). */
  lemma FuzzyScoreIsMax(rows: seq<Row>, i: nat, ratio: (string, string) -> int)
    requires i < |rows|
    ensures FuzzyScore(rows, i, ratio) >= 0
    ensures forall j :: i < j < |rows| && rows[j].song.artist == rows[i].song.artist ==>
      FuzzyScore(rows, i, ratio) >= ratio(rows[i].uniform, rows[j].uniform)
    ensures FuzzyScore(rows, i, ratio) == 0 ||
      exists j :: i < j < |rows| && rows[j].song.artist == rows[i].song.artist &&
        FuzzyScore(rows, i, ratio) == ratio(rows[i].uniform, rows[j].uniform)
  {
    var later := Group(rows, rows[i].song.artist, i + 1);
    var titles := Titles(rows, later);
    FoldMaxIsMax(rows[i].uniform, titles, 0, ratio);
    GroupIsOfArtist(rows, rows[i].song.artist, i + 1);
    GroupIsComplete(rows, rows[i].song.artist, i + 1);
    forall j | i < j < |rows| && rows[j].song.artist == rows[i].song.artist
      ensures FuzzyScore(rows, i, ratio) >= ratio(rows[i].uniform, rows[j].uniform)
    {
      var k :| 0 <= k < |later| && later[k] == j;
      assert titles[k] == rows[j].uniform;
    }
    if FuzzyScore(rows, i, ratio) != 0 {
      var k :| 0 <= k < |titles| && FuzzyScore(rows, i, ratio) == ratio(rows[i].uniform, titles[k]);
      assert i < later[k];
    }
  }

  /** The `fuzzy_score` column. */
  function FuzzyScores(rows: seq<Row>, ratio: (string, string) -> int): (scores: seq<int>)
    ensures |scores| == |rows|
    ensures forall i :: 0 <= i < |rows| ==> scores[i] == FuzzyScore(rows, i, ratio)
  {
    seq(|rows|, i requires 0 <= i < |rows| => FuzzyScore(rows, i, ratio))
  }

  /** The mask `scores <= threshold`: the rows the threshold does not drop. */
  function AtMost(scores: seq<int>, threshold: int): (keep: seq<bool>)
    ensures |keep| == |scores|
    ensures forall i :: 0 <= i < |scores| ==> (keep[i] <==> scores[i] <= threshold)
  {
    seq(|scores|, i requires 0 <= i < |scores| => scores[i] <= threshold)
  }

  /** `df.drop(df[df["fuzzy_score"] > fuzzy_score_threshold].index)`. */
  function FuzzyPass(rows: seq<Row>, threshold: int, ratio: (string, string) -> int): (r: seq<Row>)
    ensures |r| <= |rows|
  {
    Select(rows, Positions(AtMost(FuzzyScores(rows, ratio), threshold), |rows|))
  }

  /** The default `fuzzy_score_threshold` of `drop_duplicate_songs`. */
  const DefaultFuzzyScoreThreshold := 85

  /** `drop_duplicate_songs`: add the uniformized column, the exact pass, the
      fuzzy pass, and drop the working columns. */
  function DropDuplicates(songs: seq<Song>, threshold: int, ratio: (string, string) -> int): (r: seq<Song>)
    ensures |r| <= |songs|
  {
    SongsOf(FuzzyPass(ExactPass(Uniformized(songs)), threshold, ratio))
  }

  // ---------------------------------------------------------------------------
  // The procedure
  // ---------------------------------------------------------------------------

  /** `compute_fuzzy_score` on one artist's group: `titles` is its
      `uniformized_song_title` column and `scores` its `fuzzy_score` column.
      The pairs come in `itertools.combinations` order, and each pair raises
      only the score of its first row. */
  method ComputeFuzzyScore(titles: seq<string>, scores: array<int>, ratio: (string, string) -> int)
    requires scores.Length == |titles|
    modifies scores
    ensures forall i :: 0 <= i < |titles| ==>
      scores[i] == FoldMax(titles[i], titles[i + 1..], old(scores[i]), ratio)
  {
    var i := 0;
    while i < |titles|
      invariant 0 <= i <= |titles|
      invariant forall k :: 0 <= k < i ==>
        scores[k] == FoldMax(titles[k], titles[k + 1..], old(scores[k]), ratio)
      invariant forall k :: i <= k < |titles| ==> scores[k] == old(scores[k])
    {
      ScoreAgainstLater(titles, i, scores, ratio);
      i := i + 1;
    }
  }

  /** The inner loop of `compute_fuzzy_score`: the score of `titles[i]` is
      raised to its ratio with each later title in turn. */
  method ScoreAgainstLater(titles: seq<string>, i: nat, scores: array<int>, ratio: (string, string) -> int)
    requires i < |titles| && scores.Length == |titles|
    modifies scores
    ensures scores[i] == FoldMax(titles[i], titles[i + 1..], old(scores[i]), ratio)
    ensures forall k :: 0 <= k < |titles| && k != i ==> scores[k] == old(scores[k])
  {
    var j := i + 1;
    while j < |titles|
      invariant i + 1 <= j <= |titles|
      invariant scores[i] == FoldMax(titles[i], titles[i + 1..j], old(scores[i]), ratio)
      invariant forall k :: 0 <= k < |titles| && k != i ==> scores[k] == old(scores[k])
    {
      FoldMaxStep(titles[i], titles, i + 1, j + 1, old(scores[i]), ratio);
      scores[i] := Max(scores[i], ratio(titles[i], titles[j]));
      j := j + 1;
    }
    assert titles[i + 1..j] == titles[i + 1..];
  }

  /** The score the group computation gives the `m`-th row of the group that
      holds every row of its artist from `lo` on. */
  lemma GroupScore(rows: seq<Row>, artist: string, lo: nat, m: nat, ratio: (string, string) -> int)
    requires lo <= |rows| && m < |Group(rows, artist, lo)|
    ensures var idx := Group(rows, artist, lo);
      FoldMax(Titles(rows, idx)[m], Titles(rows, idx)[m + 1..], 0, ratio) == FuzzyScore(rows, idx[m], ratio)
  {
    var idx := Group(rows, artist, lo);
    GroupIsOfArtist(rows, artist, lo);
    GroupSuffix(rows, artist, lo, m);
    assert Titles(rows, idx)[m + 1..] == Titles(rows, idx[m + 1..]);
  }

  /** Writing the scores `compute_fuzzy_score` computes for the group of an
      artist (the rows from `lo` on, when none comes before) back into the
      column gives each of the artist's rows its fuzzy score and leaves the
      other rows as they were. */
  lemma GroupScores(rows: seq<Row>, artist: string, lo: nat, group: seq<int>,
                    before: seq<int>, after: seq<int>, ratio: (string, string) -> int)
    requires lo <= |rows|
    requires forall j :: 0 <= j < lo ==> rows[j].song.artist != artist
    requires |group| == |Group(rows, artist, lo)|
    requires forall m :: 0 <= m < |group| ==>
      var ts := Titles(rows, Group(rows, artist, lo)); group[m] == FoldMax(ts[m], ts[m + 1..], 0, ratio)
    requires |before| == |rows| && |after| == |rows|
    requires forall m :: 0 <= m < |group| ==> after[Group(rows, artist, lo)[m]] == group[m]
    requires forall j :: 0 <= j < |rows| && j !in Group(rows, artist, lo) ==> after[j] == before[j]
    ensures forall j :: 0 <= j < |rows| ==>
      after[j] == if rows[j].song.artist == artist then FuzzyScore(rows, j, ratio) else before[j]
  {
    var idx := Group(rows, artist, lo);
    GroupIsOfArtist(rows, artist, lo);
    GroupIsComplete(rows, artist, lo);
    forall j | 0 <= j < |rows| && rows[j].song.artist == artist
      ensures after[j] == FuzzyScore(rows, j, ratio)
    {
      var m :| 0 <= m < |idx| && idx[m] == j;
      GroupScore(rows, artist, lo, m, ratio);
    }
  }

  /** The keys of the rows before `n`: what `drop_duplicates` has seen there. */
  ghost function KeysBefore(table: seq<Row>, n: nat): (keys: set<(string, string)>)
    requires n <= |table|
  {
    if n == 0 then {} else KeysBefore(table, n - 1) + {Key(table[n - 1])}
  }

  lemma {:induction false} KeysBeforeMembers(table: seq<Row>, n: nat)
    requires n <= |table|
    ensures forall j :: 0 <= j < n ==> Key(table[j]) in KeysBefore(table, n)
    ensures forall key :: key in KeysBefore(table, n) ==> exists j :: 0 <= j < n && Key(table[j]) == key
  {
    if n > 0 {
      KeysBeforeMembers(table, n - 1);
    }
  }

  /** A row whose key was not seen before is the first of its key. */
  lemma FreshKeyIsFirst(table: seq<Row>, i: nat)
    requires i < |table| && Key(table[i]) !in KeysBefore(table, i)
    ensures FirstOccurrences(table)[i]
  {
    KeysBeforeMembers(table, i);
  }

  /** A row whose key was seen before is not the first of its key. */
  lemma SeenKeyIsRepeat(table: seq<Row>, i: nat)
    requires i < |table| && Key(table[i]) in KeysBefore(table, i)
    ensures !FirstOccurrences(table)[i]
  {
    KeysBeforeMembers(table, i);
    var j :| 0 <= j < i && Key(table[j]) == Key(table[i]);
  }

  /** `drop_duplicates(subset=["artist", "uniformized_song_title"])`: one pass
      that remembers the keys already seen. */
  method DropDuplicateRows(table: seq<Row>) returns (rows: seq<Row>)
    ensures rows == ExactPass(table)
  {
    ghost var first := FirstOccurrences(table);
    rows := [];
    var seen: set<(string, string)> := {};
    ghost var kept: seq<nat> := [];
    var i := 0;
    while i < |table|
      invariant 0 <= i <= |table|
      invariant kept == Positions(first, i)
      invariant rows == Select(table, kept)
      invariant seen == KeysBefore(table, i)
    {
      var key := Key(table[i]);
      if key !in seen {
        FreshKeyIsFirst(table, i);
        SelectSnoc(table, kept, i);
        kept := kept + [i];
        rows := rows + [table[i]];
      } else {
        SeenKeyIsRepeat(table, i);
      }
      seen := seen + {key};
      i := i + 1;
    }
  }

  /** Writes the scores of one group back into the table's `fuzzy_score`
      column at the group's rows. */
  method Scatter(scores: array<int>, idx: seq<nat>, group: array<int>)
    requires InBounds(idx, scores.Length) && StrictlyIncreasing(idx)
    requires group.Length == |idx| && group != scores
    modifies scores
    ensures forall m :: 0 <= m < |idx| ==> scores[idx[m]] == group[m]
    ensures forall j :: 0 <= j < scores.Length && j !in idx ==> scores[j] == old(scores[j])
  {
    var m := 0;
    while m < |idx|
      invariant 0 <= m <= |idx|
      invariant forall n :: 0 <= n < m ==> scores[idx[n]] == group[n]
      invariant forall j :: 0 <= j < scores.Length && j !in idx[..m] ==> scores[j] == old(scores[j])
    {
      assert idx[..m + 1] == idx[..m] + [idx[m]];
      scores[idx[m]] := group[m];
      m := m + 1;
    }
    assert idx[..m] == idx;
  }

  /** `compute_fuzzy_score` applied to the group of one artist, whose rows
      all come at or after `lo`, with the results written back to the
      table's `fuzzy_score` column. */
  method ScoreGroup(rows: seq<Row>, artist: string, lo: nat, scores: array<int>, ratio: (string, string) -> int)
    requires lo <= |rows| && scores.Length == |rows|
    requires forall j :: 0 <= j < lo ==> rows[j].song.artist != artist
    modifies scores
    ensures forall j {:trigger scores[j]} :: 0 <= j < |rows| ==>
      scores[j] == if rows[j].song.artist == artist then FuzzyScore(rows, j, ratio) else old(scores[j])
  {
    var idx := Group(rows, artist, lo);
    GroupIsOrdered(rows, artist, lo);
    var group := new int[|idx|](_ => 0);
    ComputeFuzzyScore(Titles(rows, idx), group, ratio);
    Scatter(scores, idx, group);
    GroupScores(rows, artist, lo, group[..], old(scores[..]), scores[..], ratio);
  }

  /** `groupby("artist").apply(compute_fuzzy_score)` on a zero-filled
      `fuzzy_score` column: the groups are taken in order of first appearance. */
  method GroupedFuzzyScores(rows: seq<Row>, ratio: (string, string) -> int) returns (scores: array<int>)
    ensures fresh(scores) && scores.Length == |rows|
    ensures scores[..] == FuzzyScores(rows, ratio)
  {
    scores := new int[|rows|](_ => 0);
    var done: set<string> := {};
    var i := 0;
    while i < |rows|
      invariant 0 <= i <= |rows|
      invariant forall j :: 0 <= j < i ==> rows[j].song.artist in done
      invariant forall j {:trigger scores[j]} :: 0 <= j < |rows| ==>
        scores[j] == if rows[j].song.artist in done then FuzzyScore(rows, j, ratio) else 0
    {
      var artist := rows[i].song.artist;
      if artist !in done {
        ScoreGroup(rows, artist, i, scores, ratio);
      }
      done := done + {artist};
      i := i + 1;
    }
  }

  /** `drop(df[df["fuzzy_score"] > fuzzy_score_threshold].index)` given the
      computed scores. */
  method DropAboveThreshold(rows: seq<Row>, scores: seq<int>, threshold: int) returns (result: seq<Row>)
    requires |scores| == |rows|
    ensures result == Select(rows, Positions(AtMost(scores, threshold), |rows|))
  {
    result := [];
    ghost var survivors: seq<nat> := [];
    var i := 0;
    while i < |rows|
      invariant 0 <= i <= |rows|
      invariant survivors == Positions(AtMost(scores, threshold), i)
      invariant result == Select(rows, survivors)
    {
      if scores[i] <= threshold {
        SelectSnoc(rows, survivors, i);
        survivors := survivors + [i];
        result := result + [rows[i]];
      }
      i := i + 1;
    }
  }

  /** `drop_duplicate_songs`: the uniformized column, the exact pass, the
      scores, the threshold, and the working columns dropped. */
  method DropDuplicateSongs(songs: seq<Song>, threshold: int, ratio: (string, string) -> int)
    returns (result: seq<Song>)
    ensures result == DropDuplicates(songs, threshold, ratio)
  {
    var table := Uniformized(songs);
    var rows := DropDuplicateRows(table);
    var scores := GroupedFuzzyScores(rows, ratio);
    var kept := DropAboveThreshold(rows, scores[..], threshold);
    result := SongsOf(kept);
  }
}
