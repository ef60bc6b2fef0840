/**
 * Small tables run through the duplicate filter of module Dedup, derived
 * from the properties proved in modules Dedup and DedupProperties.
 */
module DedupExamples {
  import opened Songs
  import opened Sequences
  import opened Clean
  import opened CleanExamples
  import opened Dedup
  import opened DedupProperties

  /** The positions a two-flag mask leaves. */
  lemma PositionsOfPair(keep: seq<bool>)
    requires |keep| == 2
    ensures Positions(keep, 2) == (if keep[0] then [0] else []) + (if keep[1] then [1] else [])
  {
    assert Positions(keep, 1) == if keep[0] then [0] else [];
  }

  /** Of two rows of one artist, the first scores above a threshold below
      their ratio and the second, the last of its artist, scores 0. */
  lemma ScoresOfPair(rows: seq<Row>, threshold: int, ratio: (string, string) -> int)
    requires |rows| == 2 && rows[0].song.artist == rows[1].song.artist
    requires 0 <= threshold < ratio(rows[0].uniform, rows[1].uniform)
    ensures AtMost(FuzzyScores(rows, ratio), threshold) == [false, true]
  {
    FuzzyScoreIsMax(rows, 0, ratio);
    LastOfArtistScoresZero(rows, 1, ratio);
  }

  /** Two rows with different keys both pass the exact pass. */
  lemma DistinctPairKept(rows: seq<Row>)
    requires |rows| == 2 && Key(rows[0]) != Key(rows[1])
    ensures ExactPass(rows) == rows
  {
    ExactPassOfDistinct(rows);
  }

  /** The fuzzy pass of two rows whose mask keeps only the second. */
  lemma SecondOfPairKept(rows: seq<Row>, threshold: int, ratio: (string, string) -> int)
    requires |rows| == 2 && AtMost(FuzzyScores(rows, ratio), threshold) == [false, true]
    ensures FuzzyPass(rows, threshold, ratio) == [rows[1]]
  {
    PositionsOfPair([false, true]);
  }

  /** Of two rows of one artist with different titles closer than the
      threshold, both pass the exact pass and only the second the fuzzy pass. */
  lemma PairKeepsLater(rows: seq<Row>, threshold: int, ratio: (string, string) -> int)
    requires |rows| == 2 && rows[0].song.artist == rows[1].song.artist && rows[0].uniform != rows[1].uniform
    requires 0 <= threshold < ratio(rows[0].uniform, rows[1].uniform)
    ensures FuzzyPass(ExactPass(rows), threshold, ratio) == [rows[1]]
  {
    DistinctPairKept(rows);
    ScoresOfPair(rows, threshold, ratio);
    SecondOfPairKept(rows, threshold, ratio);
  }

  /** Of two rows with the same artist and title, only the first is kept. */
  lemma PairKeepsFirst(rows: seq<Row>, threshold: int, ratio: (string, string) -> int)
    requires |rows| == 2 && Key(rows[0]) == Key(rows[1]) && threshold >= 0
    ensures FuzzyPass(ExactPass(rows), threshold, ratio) == [rows[0]]
  {
    var first := FirstOccurrences(rows);
    assert !first[1];
    PositionsOfPair(first);
    FuzzyPassOfSpread(ExactPass(rows), threshold, ratio);
  }

  /** The working table of two songs. */
  lemma PairTable(a: Song, b: Song)
    ensures var t := Uniformized([a, b]);
      |t| == 2 && t[0] == Row(a, Uniformize(a.songTitle)) && t[1] == Row(b, Uniformize(b.songTitle))
  {
  }

  /** Dropping the working columns of a one-row table. */
  lemma SingleSong(row: Row)
    ensures SongsOf([row]) == [row.song]
  {
  }

  /** Two songs of one artist whose uniformized titles differ but are closer
      than the threshold: the score is given to the EARLIER song, which is
      dropped, and the later one is kept. */
  lemma EarlierNearDuplicateDropped(a: Song, b: Song, threshold: int, ratio: (string, string) -> int)
    requires a.artist == b.artist && Uniformize(a.songTitle) != Uniformize(b.songTitle)
    requires 0 <= threshold < ratio(Uniformize(a.songTitle), Uniformize(b.songTitle))
    ensures DropDuplicates([a, b], threshold, ratio) == [b]
  {
    var table := Uniformized([a, b]);
    PairTable(a, b);
    PairKeepsLater(table, threshold, ratio);
    SingleSong(table[1]);
  }

  /** Two songs of one artist with the same uniformized title: the exact pass
      keeps the first. */
  lemma RepeatedTitleDropped(a: Song, b: Song, threshold: int, ratio: (string, string) -> int)
    requires a.artist == b.artist && Uniformize(a.songTitle) == Uniformize(b.songTitle)
    requires threshold >= 0
    ensures DropDuplicates([a, b], threshold, ratio) == [a]
  {
    var table := Uniformized([a, b]);
    PairTable(a, b);
    PairKeepsFirst(table, threshold, ratio);
    SingleSong(table[0]);
  }

  /** A pair scoring exactly the threshold is kept whole: only a score
      strictly above the threshold drops a song. */
  lemma ThresholdBoundaryKept(a: Song, b: Song, threshold: int, ratio: (string, string) -> int)
    requires a.artist == b.artist && Uniformize(a.songTitle) != Uniformize(b.songTitle)
    requires 0 <= threshold == ratio(Uniformize(a.songTitle), Uniformize(b.songTitle))
    ensures DropDuplicates([a, b], threshold, ratio) == [a, b]
  {
    var table := Uniformized([a, b]);
    PairTable(a, b);
    PairKeepsBoth(table, threshold, ratio);
    UniformizedSongs(a, b);
  }

  /** Of two rows of one artist with different titles no closer than the
      threshold, both are kept. */
  lemma PairKeepsBoth(rows: seq<Row>, threshold: int, ratio: (string, string) -> int)
    requires |rows| == 2 && rows[0].song.artist == rows[1].song.artist && rows[0].uniform != rows[1].uniform
    requires 0 <= threshold && ratio(rows[0].uniform, rows[1].uniform) <= threshold
    ensures FuzzyPass(ExactPass(rows), threshold, ratio) == rows
  {
    DistinctPairKept(rows);
    SpreadPairKept(rows, threshold, ratio);
  }

  /** The fuzzy pass keeps two rows whose ratio is within the threshold. */
  lemma SpreadPairKept(rows: seq<Row>, threshold: int, ratio: (string, string) -> int)
    requires |rows| == 2 && 0 <= threshold && ratio(rows[0].uniform, rows[1].uniform) <= threshold
    ensures FuzzyPass(rows, threshold, ratio) == rows
  {
    forall m, n | 0 <= m < n < |rows| ensures ratio(rows[m].uniform, rows[n].uniform) <= threshold {
      assert m == 0 && n == 1;
    }
    FuzzyPassOfSpread(rows, threshold, ratio);
  }

  /** Dropping the working columns of the two-song table gives the songs back. */
  lemma UniformizedSongs(a: Song, b: Song)
    ensures SongsOf(Uniformized([a, b])) == [a, b]
  {
    PairTable(a, b);
  }

  /** `"Hello!"` and `"hello"` by one artist: only the first is kept. */
  lemma ExampleHelloTwice(a: Song, b: Song, ratio: (string, string) -> int)
    requires a.artist == b.artist && a.songTitle == "Hello!" && b.songTitle == "hello"
    ensures DropDuplicates([a, b], DefaultFuzzyScoreThreshold, ratio) == [a]
  {
    ExamplePunctuationAndCase();
    RepeatedTitleDropped(a, b, DefaultFuzzyScoreThreshold, ratio);
  }

  /** A title of lower-case letters only is its own uniformized form. */
  lemma LettersAreUniform(t: string)
    requires forall i :: 0 <= i < |t| ==> 'a' <= t[i] <= 'z'
    ensures Uniformize(t) == t
  {
    UniformShapeIsFixed(t);
  }

  lemma ImagineUniformized(t: string)
    requires t == "imagine" || t == "imagin"
    ensures Uniformize(t) == t
  {
    forall i | 0 <= i < |t| ensures 'a' <= t[i] <= 'z' { }
    LettersAreUniform(t);
  }

  /** `"imagine"` and `"imagin"` by one artist, whose `fuzz.ratio` is 92: above
      the default threshold of 85, so `"imagine"`, the earlier, is dropped. */
  lemma ExampleImagine(a: Song, b: Song, ratio: (string, string) -> int)
    requires a.artist == b.artist && a.songTitle == "imagine" && b.songTitle == "imagin"
    requires ratio("imagine", "imagin") == 92
    ensures DropDuplicates([a, b], DefaultFuzzyScoreThreshold, ratio) == [b]
  {
    ImagineUniformized(a.songTitle);
    ImagineUniformized(b.songTitle);
    EarlierNearDuplicateDropped(a, b, DefaultFuzzyScoreThreshold, ratio);
  }
}
