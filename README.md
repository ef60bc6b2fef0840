# Duplicate-song filter of the lyrics classifier, in Dafny

This project models the duplicate-song filter of the lyrics classifier's data
collection, together with the file-name sanitising of its path helpers. It
proves what the filter keeps and what it drops.

`drop_duplicate_songs` works on the table of scraped songs in two passes:

1. **Exact pass.** Each song title is *uniformized* by
   `uniformize_song_title`:
   - it is lower-cased;
   - the run of `[...]` / `(...)` annotations at its end is removed;
   - punctuation is deleted;
   - surrounding whitespace is stripped.

   For each (artist, uniformized title), only the first song is kept.
2. **Fuzzy pass.** Inside each artist, every song gets a *fuzzy score* from
   `compute_fuzzy_score`: the largest `fuzz.ratio` between its uniformized
   title and the uniformized title of a later song of the same artist, or 0
   when there is none. Every song whose score is strictly above the threshold
   (default 85) is dropped.

The path helpers turn artist names and song titles into file names. The
sanitiser `re.sub(r"[\s/]", "_", name)` replaces every whitespace character
and every `/` with `_`. A suffix `.html` or `.txt` is then appended, and the
name is joined under a directory taken from the environment.

Modules:

- `Text` (text.dfy): character classes, matching Python 3 on ASCII:
  - whitespace as `str.isspace` and the regex class `\s` see it;
  - `string.punctuation`;
  - `str.lower`.
- `Songs` (song.dfy): the `Song` record of lyrics_classifier/collect_data/process/song.py (lines 16-23), one string per attribute.
- `Sequences` (sequences.dfy): selecting rows by a boolean mask.
- `Clean` (clean.dfy): `uniformize_song_title`, one function per step.
  - The regex `((\s*\[[^]]*\])|(\s*\([^)]*\)))+$` is modelled as a
    deterministic parse into groups (`GroupLength`, `IsAnnotationRun`).
  - This parse is proved to agree with the pattern, read group by group
    (`GroupLengthIsGroup`, `GroupIsGroupLength`).
- `CleanExamples` (clean_examples.dfy): concrete titles.
- `Dedup` (dedup.dfy): the two passes as specification functions
  (`ExactPass`, `FuzzyPass`, `DropDuplicates`), and the procedure
  `DropDuplicateSongs`.
  - The procedure's loops and array updates mirror the source. It is proved
    to compute `DropDuplicates`.
  - `ComputeFuzzyScore` is the pairwise loop of `compute_fuzzy_score`, run
    on one artist's column.
- `DedupProperties` (dedup_properties.dfy): what the filter guarantees.
- `DedupExamples` (dedup_examples.dfy): two-song tables.
- `Paths` and `PathsExamples` (paths.dfy): the sanitiser and the path
  builders.
  - A path is the sequence of its components. `joinpath` appends one
    component, except that pathlib skips `""` and `"."` (`Join`), so the
    artists `""` and `"."` get the parent directory itself.
  - The project root and the directory names from the environment are the
    fields of an `Env`.

`fuzz.ratio` is code this model cannot see, so every member that uses it
takes it as a parameter `ratio: (string, string) -> int`.

### Which song of a near-duplicate pair the code drops

In lyrics_classifier/collect_data/clean/__init__.py, `compute_fuzzy_score`
promises to "save maximum fuzzy score" (line 88). Read
symmetrically, that would compare each song with all its partners, and a pair
of near-duplicates would lose both songs. Lines 110-115 do something narrower:
`itertools.combinations` yields each pair `(idx1, idx2)` with `idx1` before
`idx2`, and only `idx1`'s score is raised. The model follows these lines:

- a song's score only counts LATER songs of its artist;
- the EARLIER song of a near-duplicate pair is the one dropped
  (`DedupExamples.ExampleImagine`, `DedupExamples.EarlierNearDuplicateDropped`);
- the last song of every artist scores 0, so with a threshold of at least 0
  no artist loses all its songs (`DedupProperties.DropDuplicatesKeepsEveryArtist`).

`drop_duplicate_songs` does not check the range of its threshold (line 21),
so the model accepts any integer. A negative threshold drops every song
(`DedupProperties.DropDuplicatesNegativeThreshold`).

## Model

| member | source | states |
|---|---|---|
| Text.ToLower | lyrics_classifier/collect_data/clean/__init__.py:72 | `str.lower` on one character: an upper-case ASCII letter moves up by 32 and every other character is kept; the result is not upper case; whitespace and punctuation are preserved in both directions |
| Clean.LowerString | lyrics_classifier/collect_data/clean/__init__.py:72 | the lowered title has the same length and each character is lowered |
| Clean.LeadingSpace | lyrics_classifier/collect_data/clean/__init__.py:75 | what a greedy `\s*` consumes: all whitespace before the count, a non-space at it |
| Clean.IndexOf | lyrics_classifier/collect_data/clean/__init__.py:75 | the first occurrence of a character (where `[^]]*` / `[^)]*` must stop), or the length when absent |
| Clean.GroupLength | lyrics_classifier/collect_data/clean/__init__.py:75 | a measured group starts (after its whitespace) with an opener and ends with the matching closer |
| Clean.GroupLengthIsGroup | lyrics_classifier/collect_data/clean/__init__.py:75 | what `GroupLength` measures is a group of the pattern |
| Clean.GroupIsGroupLength | lyrics_classifier/collect_data/clean/__init__.py:75 | every group of the pattern at the start of a text is the one `GroupLength` measures (the group's extent is forced) |
| Clean.IsGroupAt | lyrics_classifier/collect_data/clean/__init__.py:75 | one alternative of the pattern's group: blanks, an opener, no matching closer, the matching closer; the opener can only stand after exactly the leading blanks |
| Clean.IsGroup | lyrics_classifier/collect_data/clean/__init__.py:75 | the text is one group of the pattern; its opener is its first non-blank character |
| Clean.IsAnnotationRun | lyrics_classifier/collect_data/clean/__init__.py:75 | the `(...)+` of the pattern: a group followed by the end or by another run (a definition; its meaning is stated by the lemmas below) |
| Clean.MatchEnd | lyrics_classifier/collect_data/clean/__init__.py:75 | where Python's `$` matches: the end of the text, or just before a final line feed, and only there |
| Clean.RunStart | lyrics_classifier/collect_data/clean/__init__.py:74-76 | the leftmost position from which an annotation run reaches the end; no earlier position starts one |
| Clean.StripTrailingAnnotations | lyrics_classifier/collect_data/clean/__init__.py:74-76 | the `re.sub`: the result is the text before the match plus what follows `$`; the removed part is a run of groups; no earlier start gives a run (leftmost match) |
| Clean.RemovePunctuation | lyrics_classifier/collect_data/clean/__init__.py:78-80 | the result has no punctuation, only characters of the input, and is no longer |
| Clean.TrimEnd | lyrics_classifier/collect_data/clean/__init__.py:82 | `rstrip`: a prefix not ending in whitespace, with only whitespace cut off |
| Clean.TrimStart | lyrics_classifier/collect_data/clean/__init__.py:82 | `lstrip`: a suffix not starting with whitespace, with only whitespace cut off |
| Clean.Strip | lyrics_classifier/collect_data/clean/__init__.py:82 | `strip()`: no whitespace at either end, only characters of the input |
| Clean.StripRemovesOnlySpace | lyrics_classifier/collect_data/clean/__init__.py:82 | `strip()` removes whitespace and nothing else: the result is a slice of the input with only whitespace before and after it |
| Clean.Uniformize | lyrics_classifier/collect_data/clean/__init__.py:53-84 | `uniformize_song_title`: the four steps in order; the result has no whitespace at either end |
| Clean.UniformizeShape | lyrics_classifier/collect_data/clean/__init__.py:53-84 | a uniformized title has no upper-case letter and no punctuation |
| Clean.RunEndsWithCloser | lyrics_classifier/collect_data/clean/__init__.py:75 | an annotation run is non-empty and ends with `]` or `)` |
| Clean.NoRunWithoutOpener | lyrics_classifier/collect_data/clean/__init__.py:75 | a text whose first non-blank character is no opener is no run |
| Clean.GroupLengthAfterSpace | lyrics_classifier/collect_data/clean/__init__.py:75 | whitespace in front of a group joins it (`\s*`) |
| Clean.RunAfterSpace | lyrics_classifier/collect_data/clean/__init__.py:75 | whitespace in front of a run gives a run |
| Clean.GroupLengthUnderLower | lyrics_classifier/collect_data/clean/__init__.py:72-75 | lowercasing does not move group boundaries |
| Clean.RunUnderLower | lyrics_classifier/collect_data/clean/__init__.py:72-76 | a text is a run exactly when its lowered form is |
| Clean.StripWithoutRun | lyrics_classifier/collect_data/clean/__init__.py:74-76 | without a run before `$` the regex changes nothing |
| Clean.StripRemovesLongestRun | lyrics_classifier/collect_data/clean/__init__.py:74-76 | the regex removes exactly the longest run before `$` |
| Clean.StripWithoutOpener | lyrics_classifier/collect_data/clean/__init__.py:74-76 | a title without `[` or `(` is left alone by the regex |
| Clean.StripWithoutTrailingCloser | lyrics_classifier/collect_data/clean/__init__.py:74-76 | a title whose text before `$` does not end in `]` or `)` is left alone: a group in the middle of a title is kept |
| Clean.RemovePunctuationAppend | lyrics_classifier/collect_data/clean/__init__.py:78-80 | deleting punctuation distributes over concatenation |
| Clean.RemovePunctuationKeepsClean | lyrics_classifier/collect_data/clean/__init__.py:78-80 | a text without punctuation is unchanged |
| Clean.TrimEndUnique | lyrics_classifier/collect_data/clean/__init__.py:82 | `rstrip` cuts exactly the trailing whitespace |
| Clean.TrimStartUnique | lyrics_classifier/collect_data/clean/__init__.py:82 | `lstrip` cuts exactly the leading whitespace |
| Clean.StripAppendSpace | lyrics_classifier/collect_data/clean/__init__.py:82 | trailing whitespace does not survive `strip()` |
| Clean.UniformShapeIsFixed | lyrics_classifier/collect_data/clean/__init__.py:71-84 | a title in uniform shape (lower case, no punctuation, trimmed) is its own uniformized form |
| Clean.UniformizeIdempotent | lyrics_classifier/collect_data/clean/__init__.py:71-84 | uniformizing twice is uniformizing once |
| Clean.UniformizePlain | lyrics_classifier/collect_data/clean/__init__.py:71-84 | a trimmed title without punctuation is only lowercased |
| Clean.MatchEndAfterRun | lyrics_classifier/collect_data/clean/__init__.py:75 | after a run, `$` matches only at the very end |
| Clean.NoRunInBareTitle | lyrics_classifier/collect_data/clean/__init__.py:74-76 | no run starts inside a bracket-free title before its trailing blanks |
| Clean.NoRunBeforeNonSpace | lyrics_classifier/collect_data/clean/__init__.py:75 | no opener up to the first non-blank character means no run |
| Clean.RunFromTitleBlanks | lyrics_classifier/collect_data/clean/__init__.py:75 | the title's trailing blanks and the run after them form one run |
| Clean.StripAnnotationSuffix | lyrics_classifier/collect_data/clean/__init__.py:74-76 | for a bracket-free title followed by a run, the regex removes the run and the blanks before it |
| Clean.StripRemovesRunAtEnd | lyrics_classifier/collect_data/clean/__init__.py:74-76 | when `$` is the end, the regex removes the leftmost run reaching it |
| Clean.TrailingBlanksIgnored | lyrics_classifier/collect_data/clean/__init__.py:78-82 | blanks at the end of a title make no difference after punctuation removal and `strip()` |
| Clean.AnnotationSuffixIgnored | lyrics_classifier/collect_data/clean/__init__.py:71-84 | a bracket-free title followed by any run of `[...]`/`(...)` groups uniformizes like the bare title |
| Clean.GroupIsRun | lyrics_classifier/collect_data/clean/__init__.py:75 | a single group is a run |
| Clean.RunAppend | lyrics_classifier/collect_data/clean/__init__.py:75 | two runs in a row are one run (the `+` of the pattern) |
| Clean.RunAppendStep | lyrics_classifier/collect_data/clean/__init__.py:75 | a group followed by a run stays a run when text is appended |
| Clean.GroupLengthMatchesPrefix | lyrics_classifier/collect_data/clean/__init__.py:75 | text after a group does not change where the group ends |
| CleanExamples.ExampleTrailingAnnotations | lyrics_classifier/collect_data/clean/__init__.py:74-76 | `title + " (Live) [Remastered]"` uniformizes like `title` |
| CleanExamples.ExampleRemasteredYear | lyrics_classifier/collect_data/clean/__init__.py:74-76 | `title + " (Remastered 2011)"` uniformizes like `title` |
| CleanExamples.LiveRemasteredIsRun | lyrics_classifier/collect_data/clean/__init__.py:75 | `" (Live) [Remastered]"` is a run of two groups |
| CleanExamples.ExampleInnerGroupKept | lyrics_classifier/collect_data/clean/__init__.py:71-84 | `"Hello (Live) World"` becomes `"hello live world"`: a group inside the title loses only its brackets |
| CleanExamples.ExamplePunctuationAndCase | lyrics_classifier/collect_data/clean/__init__.py:71-84 | `"Hello!"` and `"hello"` both become `"hello"` |
| Sequences.Select | lyrics_classifier/collect_data/clean/__init__.py:44 | the rows at the given positions, in that order |
| Sequences.Positions | lyrics_classifier/collect_data/clean/__init__.py:44 | the positions a boolean mask leaves lie below its length |
| Sequences.PositionsAreFlagged | lyrics_classifier/collect_data/clean/__init__.py:39 | a mask's positions are increasing and are exactly the flagged rows |
| Sequences.SelectSelect | lyrics_classifier/collect_data/clean/__init__.py:39-44 | filtering a filtered table is one filter through the composed positions |
| Sequences.PositionsAllSet | lyrics_classifier/collect_data/clean/__init__.py:44 | a mask with every flag set leaves every position |
| Sequences.SelectAllFlagged | lyrics_classifier/collect_data/clean/__init__.py:44 | a mask keeping every row leaves the table as it is |
| Sequences.PositionsNoneSet | lyrics_classifier/collect_data/clean/__init__.py:44 | a mask keeping no row leaves nothing |
| Dedup.Uniformized | lyrics_classifier/collect_data/clean/__init__.py:38 | each row is its song with the uniformized title as the new column |
| Dedup.SongsOf | lyrics_classifier/collect_data/clean/__init__.py:47 | dropping the working columns gives back each row's song |
| Dedup.FirstOccurrences | lyrics_classifier/collect_data/clean/__init__.py:39 | the `drop_duplicates` mask is set exactly on rows whose (artist, uniformized title) no earlier row has |
| Dedup.IsFirstOccurrence | lyrics_classifier/collect_data/clean/__init__.py:39 | no earlier row has the row's (artist, uniformized title); the first row always is one |
| Dedup.ExactPass | lyrics_classifier/collect_data/clean/__init__.py:39 | `drop_duplicates(subset=[...])` keeping the first: a filter by the first-occurrence mask, never longer than its input (its meaning is `DedupProperties.ExactPassKeepsFirst`) |
| Dedup.Group | lyrics_classifier/collect_data/clean/__init__.py:43 | the positions of one artist's rows from a start lie in the table, from the start on |
| Dedup.GroupIsOrdered | lyrics_classifier/collect_data/clean/__init__.py:43 | an artist's group is in table order |
| Dedup.GroupIsOfArtist | lyrics_classifier/collect_data/clean/__init__.py:43 | every row of the group has that artist |
| Dedup.GroupIsComplete | lyrics_classifier/collect_data/clean/__init__.py:43 | every row of that artist from the start is in the group |
| Dedup.GroupHead | lyrics_classifier/collect_data/clean/__init__.py:43 | a group starting at a row of its artist begins with it |
| Dedup.GroupTail | lyrics_classifier/collect_data/clean/__init__.py:43 | a group from one row further on is the same group, less its first row when that row is the artist's |
| Dedup.GroupSuffix | lyrics_classifier/collect_data/clean/__init__.py:110-112 | the group members after a member are the group started after it: the partners `combinations` pairs it with |
| Dedup.Titles | lyrics_classifier/collect_data/clean/__init__.py:111 | the `uniformized_song_title` column of the given rows |
| Dedup.FoldMax | lyrics_classifier/collect_data/clean/__init__.py:113-115 | `max` applied with each later ratio in turn, from a start value; never below the start |
| Dedup.FoldMaxIsMax | lyrics_classifier/collect_data/clean/__init__.py:113-115 | folding `max` over the ratios gives at least the start and every ratio, and equals the start or one of them |
| Dedup.FoldMaxStep | lyrics_classifier/collect_data/clean/__init__.py:113-115 | one more partner takes the `max` with its ratio |
| Dedup.FuzzyScore | lyrics_classifier/collect_data/clean/__init__.py:110-115 | the score of a row: its fold over the later rows of its artist from 0; never negative |
| Dedup.FuzzyScoreIsMax | lyrics_classifier/collect_data/clean/__init__.py:110-115 | a row's score is at least 0 and at least its ratio to every later row of its artist, and is 0 or one of those ratios |
| Dedup.FuzzyScores | lyrics_classifier/collect_data/clean/__init__.py:42-43 | the `fuzzy_score` column holds each row's score |
| Dedup.Max | lyrics_classifier/collect_data/clean/__init__.py:113 | Python's `max` of two integers: at least both, and one of them |
| Dedup.AtMost | lyrics_classifier/collect_data/clean/__init__.py:44 | the kept mask is set exactly where the score is not above the threshold |
| Dedup.ComputeFuzzyScore | lyrics_classifier/collect_data/clean/__init__.py:110-116 | the pairwise loop leaves in each row's cell the `max` of its start value and its ratios to every later title |
| Dedup.ScoreAgainstLater | lyrics_classifier/collect_data/clean/__init__.py:110-115 | the pairs with one row as first element raise its cell to the fold of its later ratios, leaving every other cell unchanged |
| Dedup.GroupScore | lyrics_classifier/collect_data/clean/__init__.py:43 | a group member's fold over the later group titles is its score in the whole table |
| Dedup.GroupScores | lyrics_classifier/collect_data/clean/__init__.py:43 | writing an artist's group scores back gives that artist's rows their score and leaves other rows alone |
| Dedup.KeysBeforeMembers | lyrics_classifier/collect_data/clean/__init__.py:39 | the keys seen before a row are exactly the keys of the earlier rows |
| Dedup.FreshKeyIsFirst | lyrics_classifier/collect_data/clean/__init__.py:39 | a key not seen before is a first occurrence |
| Dedup.SeenKeyIsRepeat | lyrics_classifier/collect_data/clean/__init__.py:39 | a key seen before is not a first occurrence |
| Dedup.DropDuplicateRows | lyrics_classifier/collect_data/clean/__init__.py:39 | the `drop_duplicates` loop computes the exact pass |
| Dedup.Scatter | lyrics_classifier/collect_data/clean/__init__.py:43 | writing a group's scores back sets exactly the group's cells |
| Dedup.ScoreGroup | lyrics_classifier/collect_data/clean/__init__.py:43 | scoring one artist's group sets that artist's rows to their score and leaves other rows alone |
| Dedup.GroupedFuzzyScores | lyrics_classifier/collect_data/clean/__init__.py:42-43 | the zeroed column, scored group by group, is the `fuzzy_score` column |
| Dedup.DropAboveThreshold | lyrics_classifier/collect_data/clean/__init__.py:44 | the rows scoring above the threshold are dropped and the others kept in order |
| Dedup.FuzzyPass | lyrics_classifier/collect_data/clean/__init__.py:44 | the `drop` of the rows scoring above the threshold: a filter by the `AtMost` mask, never longer than its input (its meaning is `DedupProperties.FuzzyPassKeeps`) |
| Dedup.DropDuplicates | lyrics_classifier/collect_data/clean/__init__.py:20-50 | `drop_duplicate_songs` as a function: the column, the two passes, the column drop; never longer than its input (its meaning is the `DedupProperties` lemmas) |
| Dedup.DropDuplicateSongs | lyrics_classifier/collect_data/clean/__init__.py:20-50 | the procedure computes `DropDuplicates` |
| DedupProperties.ExactPassKeepsFirst | lyrics_classifier/collect_data/clean/__init__.py:39 | the exact pass keeps, in order, exactly the first row of each (artist, uniformized title) |
| DedupProperties.ExactPassKeysDistinct | lyrics_classifier/collect_data/clean/__init__.py:39 | after the exact pass no two rows share (artist, uniformized title) |
| DedupProperties.FirstOccurrenceExists | lyrics_classifier/collect_data/clean/__init__.py:39 | every key has a first occurrence at or before any row carrying it |
| DedupProperties.ExactPassCoversKeys | lyrics_classifier/collect_data/clean/__init__.py:39 | every key of the input is still present after the exact pass |
| DedupProperties.ExactPassOfDistinct | lyrics_classifier/collect_data/clean/__init__.py:39 | a table with distinct keys passes the exact pass unchanged |
| DedupProperties.FuzzyPassKeeps | lyrics_classifier/collect_data/clean/__init__.py:44 | the fuzzy pass keeps, in order, exactly the rows scoring at most the threshold |
| DedupProperties.SurvivesIff | lyrics_classifier/collect_data/clean/__init__.py:110-115 | with a threshold of at least 0, a row survives exactly when its ratio to every later row of its artist is at most the threshold |
| DedupProperties.NegativeThresholdDropsAll | lyrics_classifier/collect_data/clean/__init__.py:44 | a negative threshold drops every row |
| DedupProperties.LastOfArtistExists | lyrics_classifier/collect_data/clean/__init__.py:43 | every row has its artist's last row at or after it |
| DedupProperties.LastOfArtistScoresZero | lyrics_classifier/collect_data/clean/__init__.py:42 | the last row of an artist keeps the score 0 |
| DedupProperties.FuzzyPassKeepsEveryArtist | lyrics_classifier/collect_data/clean/__init__.py:44 | with a threshold of at least 0 every artist keeps a row |
| DedupProperties.FuzzyPassNoNearDuplicates | lyrics_classifier/collect_data/clean/__init__.py:44 | after the fuzzy pass any two rows of one artist are at most the threshold apart |
| DedupProperties.FuzzyPassOfSpread | lyrics_classifier/collect_data/clean/__init__.py:44 | a table whose same-artist rows are all within the threshold passes unchanged |
| DedupProperties.UniformizedSongsOf | lyrics_classifier/collect_data/clean/__init__.py:38 | re-adding the column to a consistent table's songs gives the table |
| DedupProperties.SongsOfUniformized | lyrics_classifier/collect_data/clean/__init__.py:38-47 | dropping the added column gives back the input songs |
| DedupProperties.SongsOfSelect | lyrics_classifier/collect_data/clean/__init__.py:47 | dropping the columns commutes with filtering rows |
| DedupProperties.PassesKeep | lyrics_classifier/collect_data/clean/__init__.py:39-44 | both passes together filter the table in order, keeping only first occurrences |
| DedupProperties.DropDuplicatesKeeps | lyrics_classifier/collect_data/clean/__init__.py:20-50 | the output is the input with some songs left out, in input order, each a first occurrence of its key |
| DedupProperties.DropDuplicatesIsSubsequence | lyrics_classifier/collect_data/clean/__init__.py:20-50 | the output is a subsequence of the input |
| DedupProperties.DropDuplicatesDistinctTitles | lyrics_classifier/collect_data/clean/__init__.py:39 | no two output songs of one artist have the same uniformized title |
| DedupProperties.SelectKeysDistinct | lyrics_classifier/collect_data/clean/__init__.py:44 | filtering keeps distinct keys distinct |
| DedupProperties.PassesConsistent | lyrics_classifier/collect_data/clean/__init__.py:38-44 | every row left by the passes carries its own title's uniformized form |
| DedupProperties.PassesKeysDistinct | lyrics_classifier/collect_data/clean/__init__.py:39-44 | the rows left by the passes have distinct keys |
| DedupProperties.DropDuplicatesNoNearDuplicates | lyrics_classifier/collect_data/clean/__init__.py:20-50 | any two output songs of one artist have uniformized titles at most the threshold apart by `ratio` |
| DedupProperties.DropDuplicatesKeepsEveryArtist | lyrics_classifier/collect_data/clean/__init__.py:20-50 | with a threshold of at least 0 every artist of the input has a song in the output |
| DedupProperties.PassesKeepEveryArtist | lyrics_classifier/collect_data/clean/__init__.py:39-44 | both passes together lose no artist when the threshold is at least 0 |
| DedupProperties.DropDuplicatesNegativeThreshold | lyrics_classifier/collect_data/clean/__init__.py:44 | a negative threshold leaves no song |
| DedupProperties.DistinctArtistsKept | lyrics_classifier/collect_data/clean/__init__.py:20-50 | songs of pairwise different artists all survive a threshold of at least 0 |
| DedupProperties.DropDuplicatesIdempotent | lyrics_classifier/collect_data/clean/__init__.py:20-50 | filtering the output again changes nothing |
| DedupExamples.PositionsOfPair | lyrics_classifier/collect_data/clean/__init__.py:44 | the positions a two-flag mask leaves |
| DedupExamples.ScoresOfPair | lyrics_classifier/collect_data/clean/__init__.py:110-115 | of two rows of one artist whose ratio is above the threshold, only the second scores within it |
| DedupExamples.DistinctPairKept | lyrics_classifier/collect_data/clean/__init__.py:39 | two rows with different keys both pass the exact pass |
| DedupExamples.SecondOfPairKept | lyrics_classifier/collect_data/clean/__init__.py:44 | a two-row table whose mask keeps only the second row keeps only that row |
| DedupExamples.PairKeepsLater | lyrics_classifier/collect_data/clean/__init__.py:39-44 | of two near-duplicate rows only the later one survives |
| DedupExamples.PairKeepsFirst | lyrics_classifier/collect_data/clean/__init__.py:39 | of two rows with the same key only the first survives |
| DedupExamples.PairKeepsBoth | lyrics_classifier/collect_data/clean/__init__.py:39-44 | two rows with different titles no closer than the threshold both survive |
| DedupExamples.SpreadPairKept | lyrics_classifier/collect_data/clean/__init__.py:44 | two rows within the threshold pass the fuzzy pass |
| DedupExamples.EarlierNearDuplicateDropped | lyrics_classifier/collect_data/clean/__init__.py:110-115 | for two songs of one artist with different uniformized titles whose ratio is above the threshold, the earlier is dropped and the later kept |
| DedupExamples.RepeatedTitleDropped | lyrics_classifier/collect_data/clean/__init__.py:39 | for two songs of one artist with the same uniformized title, the first is kept |
| DedupExamples.ThresholdBoundaryKept | lyrics_classifier/collect_data/clean/__init__.py:44 | a ratio exactly at the threshold keeps both songs: only a score strictly above drops one |
| DedupExamples.ExampleHelloTwice | lyrics_classifier/collect_data/clean/__init__.py:20-50 | `"Hello!"` then `"hello"` by one artist: only the first is kept, with the default threshold 85 |
| DedupExamples.ExampleImagine | lyrics_classifier/collect_data/clean/__init__.py:20-50 | `"imagine"` then `"imagin"` by one artist, with ratio 92 and the default threshold 85: `"imagine"` is dropped and `"imagin"` kept |
| Paths.Replace | lyrics_classifier/paths/__init__.py:90 | what replaces one character: never a separator, and the character itself exactly when it is not one |
| Paths.Sanitize | lyrics_classifier/paths/__init__.py:90 | `re.sub(r"[\s/]", "_", name)`: same length, each whitespace character or `/` becomes `_`, every other character is kept |
| Paths.SanitizeHasNoSeparator | lyrics_classifier/paths/__init__.py:90 | a sanitised name has no whitespace and no `/` |
| Paths.SanitizeIdempotent | lyrics_classifier/paths/__init__.py:90 | sanitising twice is sanitising once |
| Paths.SanitizeIsIdentityIff | lyrics_classifier/paths/__init__.py:90 | a name is unchanged exactly when it has no whitespace and no `/` |
| Paths.ReplaceSameIff | lyrics_classifier/paths/__init__.py:90 | two characters are replaced alike exactly when they are equal or each is a separator or `_` |
| Paths.SanitizeSameIff | lyrics_classifier/paths/__init__.py:90 | two names sanitise alike exactly when they have the same length and differ only where both hold a separator or `_` |
| Paths.SameSanitizedAgree | lyrics_classifier/paths/__init__.py:90 | names that sanitise alike differ only at separators or `_` |
| Paths.AgreeingSanitizeSame | lyrics_classifier/paths/__init__.py:90 | names that differ only at separators or `_` sanitise alike |
| Paths.Join | lyrics_classifier/paths/__init__.py:125-126 | `joinpath` with one name: the name becomes the last component, except that `""` and `"."` are skipped and the directory itself comes back |
| Paths.JoinSameIff | lyrics_classifier/paths/__init__.py:125-126 | two names joined to one directory give one path exactly when they are equal or both skipped |
| Paths.SanitizeSkippedIff | lyrics_classifier/paths/__init__.py:125-126 | a sanitised name is `""` or `"."` exactly when the name is |
| Paths.DataDirPath | lyrics_classifier/paths/__init__.py:45-58 | `data_dir_path`: the project root, or one entry below it |
| Paths.ArtistsDirPath | lyrics_classifier/paths/__init__.py:61-74 | `artists_dir_path`: the data directory, or one entry below it |
| Paths.ArtistHtmlFilePath | lyrics_classifier/paths/__init__.py:77-91 | `artist_html_file_path`: exactly one entry below the artists directory |
| Paths.LyricsDirPath | lyrics_classifier/paths/__init__.py:94-107 | `lyrics_dir_path`: the data directory, or one entry below it |
| Paths.ArtistLyricsDirPath | lyrics_classifier/paths/__init__.py:110-128 | `artist_lyrics_dir_path`: the lyrics directory, or one entry below it |
| Paths.LyricsTextFilePath | lyrics_classifier/paths/__init__.py:131-145 | `lyrics_text_file_path`: exactly one entry below the artist's lyrics directory |
| Paths.SongsCsvFilePath | lyrics_classifier/paths/__init__.py:148-156 | `songs_csv_file_path`: the entry `songs.csv` of the data directory |
| Paths.SongsDirPath | lyrics_classifier/paths/__init__.py:159-172 | `songs_dir_path`: the data directory, or one entry below it |
| Paths.ArtistSongsDirPath | lyrics_classifier/paths/__init__.py:175-193 | `artist_songs_dir_path`: the songs directory, or one entry below it |
| Paths.SongHtmlFilePath | lyrics_classifier/paths/__init__.py:196-210 | `song_html_file_path`: exactly one entry below the artist's songs directory |
| Paths.ArtistHtmlFileIsEntry | lyrics_classifier/paths/__init__.py:77-91 | the artist page is one entry of the artists directory: the sanitised artist, which has no separator, plus `.html` |
| Paths.LyricsTextFileIsEntry | lyrics_classifier/paths/__init__.py:131-145 | the lyrics file is one entry of the artist's lyrics directory: the sanitised title plus `.txt` |
| Paths.SongHtmlFileIsEntry | lyrics_classifier/paths/__init__.py:196-210 | the song page is one entry of the artist's songs directory: the sanitised title plus `.html` |
| Paths.SongsCsvFileIsEntry | lyrics_classifier/paths/__init__.py:148-156 | the songs table is `songs.csv` in the data directory and depends on nothing but the data directory |
| Paths.ArtistLyricsDirIsEntry | lyrics_classifier/paths/__init__.py:110-128 | for the artists `""` and `"."` the artist's lyrics directory is the lyrics directory itself; for any other it is one entry of it, named by the sanitised artist, which has no separator |
| Paths.ArtistSongsDirIsEntry | lyrics_classifier/paths/__init__.py:175-193 | for the artists `""` and `"."` the artist's songs directory is the songs directory itself; for any other it is one entry of it, named by the sanitised artist, which has no separator |
| Paths.PathsUnderDataDir | lyrics_classifier/paths/__init__.py:45-58 | every file path built lies under the data directory |
| Paths.ExtensionCancels | lyrics_classifier/paths/__init__.py:91 | the same extension keeps names apart |
| Paths.ArtistHtmlFileShared | lyrics_classifier/paths/__init__.py:77-91 | two artists share a page file exactly when their sanitised names agree |
| Paths.ArtistDirsShared | lyrics_classifier/paths/__init__.py:110-128 | two artists get the same lyrics directory, and the same songs directory, exactly when their sanitised names agree or both are `""` or `"."` |
| Paths.FileJoinSameIff | lyrics_classifier/paths/__init__.py:145 | a `.txt` or `.html` file below two directories is one path exactly when the directories and the names agree |
| Paths.SongFilesShared | lyrics_classifier/paths/__init__.py:131-210 | two songs share a lyrics file, or a song page, exactly when their sanitised titles agree and their artists share a directory (same sanitised name, or both `""` or `"."`) |
| PathsExamples.ExampleSharedName | lyrics_classifier/paths/__init__.py:90 | `"AC/DC"` and `"AC DC"` both become `"AC_DC"` |
| PathsExamples.ExampleSkippedArtists | lyrics_classifier/paths/__init__.py:125-145 | songs of the artists `""` and `"."` with one title share one lyrics file, directly in the lyrics directory, though the sanitised artists differ |

## Left out

- Characters outside ASCII: the model's `str.lower`, `\s`, `str.strip` and `str.isspace` are Python's on code points 0..127. Upper-case and whitespace characters beyond ASCII (for example U+00A0 or U+2003) are not modelled.
- `fuzz.ratio`: its computation is not modelled. It is the parameter `ratio`, and nothing is assumed about its values.
- pandas index labels: the table is a sequence in row order. The model assumes unique, ordered labels. With repeated labels, `df.loc[idx1, ...]` and `df.drop(index)` would act on several rows at once.
- Songs without an artist (`NaN`): `groupby("artist")` leaves them out of the result. The model treats every artist as a string.
- Clean.Uniformize: titles that the CSV reader turns into `NaN` (an empty field, `NA`, `null`, `None` and the like) are not modelled. In the program `uniformize_song_title` then fails at `song_title.lower()` (line 72) and the whole filter raises; the model instead reads such a title as a plain string, so an empty title uniformizes to the empty string.
- The row order after `groupby(...).apply`: the output is kept in input order. The reset of the index (line 48) makes positions the only labels.
- `groupby.apply` in some pandas versions calls the function one extra time on the first group. The model scores each group once.
- Changes to the caller's table: lines 38-42 change the caller's data frame in place. It gains the new column, loses the exact-pass duplicates and gains a zero score column. The model works on values and returns only the result.
- Paths: `project_root_path`, `module_root_path`, `os.getenv`, `load_dotenv` and every `mkdir` are file-system and configuration effects. They are left out.
  - The root and the environment values are fields of `Env`.
  - A missing variable (`getenv` returning `None`, which makes `joinpath` fail) is not modelled.
  - An environment value holding `/` or an absolute path is taken as a single component (an empty value or `.` is skipped, as for any other name).
  - Artist names and titles are sanitised, so they never hold `/`; `Join` covers only such names.
- Scraping, the lyrics site, CSV reading and writing, logging and the command-line entry point: these are not part of this model.
