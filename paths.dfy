/**
 * The pure part of the project's path helpers: the file-name sanitiser
 * `re.sub(r"[\s/]", "_", name)` and the paths built from it. A path is the
 * sequence of its components, and `joinpath` is `Join`: pathlib skips an
 * empty or `.` component and appends any other. The project root and the
 * directory names read from the environment are the fields of an `Env`, and
 * directory creation is not modelled.
 */
module Paths {
  import opened Text
  import opened Songs

  /** The characters of the class `[\s/]`. */
  predicate IsSeparator(c: char) {
    IsSpace(c) || c == '/'
  }

  /** What `re.sub(r"[\s/]", "_", ...)` puts in place of one character. */
  function Replace(c: char): (d: char)
    ensures !IsSeparator(d)
    ensures d == c <==> !IsSeparator(c)
  {
    if IsSeparator(c) then '_' else c
  }

  /** `re.sub(r"[\s/]", "_", name)`: every whitespace character and every `/`
      becomes `_`, every other character is kept. */
  function Sanitize(name: string): (r: string)
    ensures |r| == |name|
    ensures forall i :: 0 <= i < |name| ==> r[i] == Replace(name[i])
  {
    if name == [] then [] else [Replace(name[0])] + Sanitize(name[1..])
  }

  /** A sanitised name has no whitespace and no `/`: it is one path component. */
  lemma SanitizeHasNoSeparator(name: string)
    ensures forall i :: 0 <= i < |Sanitize(name)| ==> !IsSeparator(Sanitize(name)[i])
  {
  }

  lemma SanitizeIdempotent(name: string)
    ensures Sanitize(Sanitize(name)) == Sanitize(name)
  {
    var r := Sanitize(name);
    forall i | 0 <= i < |r| ensures Sanitize(r)[i] == r[i] {
      assert !IsSeparator(r[i]);
    }
  }

  /** A name is left unchanged exactly when it has no whitespace and no `/`. */
  lemma SanitizeIsIdentityIff(name: string)
    ensures Sanitize(name) == name <==> forall i :: 0 <= i < |name| ==> !IsSeparator(name[i])
  {
    var r := Sanitize(name);
    if r == name {
      forall i | 0 <= i < |name| ensures !IsSeparator(name[i]) {
        assert r[i] == name[i];
      }
    }
  }

  predicate SeparatorOrUnderscore(c: char) {
    IsSeparator(c) || c == '_'
  }

  /** Two characters become the same exactly when they are equal or each is a
      separator or `_`. */
  lemma ReplaceSameIff(c: char, d: char)
    ensures Replace(c) == Replace(d) <==> c == d || (SeparatorOrUnderscore(c) && SeparatorOrUnderscore(d))
  {
  }

  /** Two names get the same file name exactly when they have the same length
      and differ only where each has a separator or `_`: "AC/DC", "AC DC" and
      "AC_DC" share one. */
  lemma SanitizeSameIff(a: string, b: string)
    ensures Sanitize(a) == Sanitize(b) <==> SameUpToSeparators(a, b)
  {
    if Sanitize(a) == Sanitize(b) {
      SameSanitizedAgree(a, b);
    }
    if SameUpToSeparators(a, b) {
      AgreeingSanitizeSame(a, b);
    }
  }

  /** Same length, and at each position the same character or, in both, a
      separator or `_`. */
  predicate SameUpToSeparators(a: string, b: string) {
    |a| == |b| &&
    forall i :: 0 <= i < |a| ==> a[i] == b[i] || (SeparatorOrUnderscore(a[i]) && SeparatorOrUnderscore(b[i]))
  }

  lemma SameSanitizedAgree(a: string, b: string)
    requires Sanitize(a) == Sanitize(b)
    ensures SameUpToSeparators(a, b)
  {
    forall i | 0 <= i < |a|
      ensures a[i] == b[i] || (SeparatorOrUnderscore(a[i]) && SeparatorOrUnderscore(b[i]))
    {
      assert Replace(a[i]) == Replace(b[i]);
      ReplaceSameIff(a[i], b[i]);
    }
  }

  lemma AgreeingSanitizeSame(a: string, b: string)
    requires SameUpToSeparators(a, b)
    ensures Sanitize(a) == Sanitize(b)
  {
    forall i | 0 <= i < |a| ensures Sanitize(a)[i] == Sanitize(b)[i] {
      ReplaceSameIff(a[i], b[i]);
    }
  }

  // ---------------------------------------------------------------------------
  // Paths
  // ---------------------------------------------------------------------------

  /** A path as its components, from the root. */
  type Path = seq<string>

  /** A component `joinpath` leaves out: pathlib drops `""` and `"."`. */
  predicate IsSkipped(name: string) {
    name == "" || name == "."
  }

  /** `p.joinpath(name)` for a name without `/`: the name becomes the last
      component, unless pathlib skips it and `p` itself comes back. */
  function Join(p: Path, name: string): (r: Path)
    ensures p <= r
    ensures r == p <==> IsSkipped(name)
    ensures !IsSkipped(name) ==> |r| == |p| + 1 && r[|p|] == name
  {
    if IsSkipped(name) then p else p + [name]
  }

  /** Two names joined to one directory give the same path exactly when they
      are equal or both are skipped. */
  lemma JoinSameIff(p: Path, a: string, b: string)
    ensures Join(p, a) == Join(p, b) <==> a == b || (IsSkipped(a) && IsSkipped(b))
  {
    if Join(p, a) == Join(p, b) && !IsSkipped(a) && !IsSkipped(b) {
      assert Join(p, a)[|p|] == a;
    }
  }

  /** The sanitiser turns a name into a skipped component exactly when the
      name already is one: `""` and `"."` are the only names that become `""`
      or `"."`. */
  lemma SanitizeSkippedIff(name: string)
    ensures IsSkipped(Sanitize(name)) <==> IsSkipped(name)
  {
    if name == "." {
      assert Sanitize(name)[0] == Replace('.');
      assert Sanitize(name) == ".";
    }
    if Sanitize(name) == "." {
      assert Replace(name[0]) == '.';
    }
  }

  /** The project root and the values of `DATA_DIR`, `ARTISTS_DIR`,
      `LYRICS_DIR` and `SONGS_DIR`. */
  datatype Env = Env(projectRoot: Path, dataDir: string, artistsDir: string, lyricsDir: string, songsDir: string)

  /** `data_dir_path`: at most one level below the project root. */
  function DataDirPath(env: Env): (p: Path)
    ensures env.projectRoot <= p && |p| <= |env.projectRoot| + 1
  {
    Join(env.projectRoot, env.dataDir)
  }

  /** `artists_dir_path`: at most one level below the data directory. */
  function ArtistsDirPath(env: Env): (p: Path)
    ensures DataDirPath(env) <= p && |p| <= |DataDirPath(env)| + 1
  {
    Join(DataDirPath(env), env.artistsDir)
  }

  /** `artist_html_file_path`: exactly one level below the artists directory. */
  function ArtistHtmlFilePath(env: Env, artist: string): (p: Path)
    ensures ArtistsDirPath(env) <= p && |p| == |ArtistsDirPath(env)| + 1
  {
    Join(ArtistsDirPath(env), Sanitize(artist) + ".html")
  }

  /** `lyrics_dir_path`: at most one level below the data directory. */
  function LyricsDirPath(env: Env): (p: Path)
    ensures DataDirPath(env) <= p && |p| <= |DataDirPath(env)| + 1
  {
    Join(DataDirPath(env), env.lyricsDir)
  }

  /** `artist_lyrics_dir_path`: at most one level below the lyrics directory. */
  function ArtistLyricsDirPath(env: Env, artist: string): (p: Path)
    ensures LyricsDirPath(env) <= p && |p| <= |LyricsDirPath(env)| + 1
  {
    Join(LyricsDirPath(env), Sanitize(artist))
  }

  /** `lyrics_text_file_path`: exactly one level below the artist's lyrics directory. */
  function LyricsTextFilePath(env: Env, song: Song): (p: Path)
    ensures ArtistLyricsDirPath(env, song.artist) <= p && |p| == |ArtistLyricsDirPath(env, song.artist)| + 1
  {
    Join(ArtistLyricsDirPath(env, song.artist), Sanitize(song.songTitle) + ".txt")
  }

  /** `songs_csv_file_path`: `songs.csv` one level below the data directory. */
  function SongsCsvFilePath(env: Env): (p: Path)
    ensures DataDirPath(env) <= p && |p| == |DataDirPath(env)| + 1 && p[|p| - 1] == "songs.csv"
  {
    Join(DataDirPath(env), "songs.csv")
  }

  /** `songs_dir_path`: at most one level below the data directory. */
  function SongsDirPath(env: Env): (p: Path)
    ensures DataDirPath(env) <= p && |p| <= |DataDirPath(env)| + 1
  {
    Join(DataDirPath(env), env.songsDir)
  }

  /** `artist_songs_dir_path`: at most one level below the songs directory. */
  function ArtistSongsDirPath(env: Env, artist: string): (p: Path)
    ensures SongsDirPath(env) <= p && |p| <= |SongsDirPath(env)| + 1
  {
    Join(SongsDirPath(env), Sanitize(artist))
  }

  /** `song_html_file_path`: exactly one level below the artist's songs directory. */
  function SongHtmlFilePath(env: Env, song: Song): (p: Path)
    ensures ArtistSongsDirPath(env, song.artist) <= p && |p| == |ArtistSongsDirPath(env, song.artist)| + 1
  {
    Join(ArtistSongsDirPath(env, song.artist), Sanitize(song.songTitle) + ".html")
  }

  /** `p` is `dir` followed by the single component `name`. */
  predicate IsEntry(p: Path, dir: Path, name: string) {
    p == dir + [name]
  }

  /** A name followed by an extension, where the name has no whitespace and no `/`. */
  predicate IsFileName(component: string, name: string, ext: string) {
    component == name + ext && forall i :: 0 <= i < |name| ==> !IsSeparator(name[i])
  }

  /** The artist page is one entry of the artists directory, named by the
      sanitised artist and `.html`. */
  lemma ArtistHtmlFileIsEntry(env: Env, artist: string)
    ensures var p := ArtistHtmlFilePath(env, artist);
      p[..|p| - 1] == ArtistsDirPath(env) && IsFileName(p[|p| - 1], Sanitize(artist), ".html")
  {
    SanitizeHasNoSeparator(artist);
  }

  /** The lyrics file is one entry of the artist's lyrics directory, named by
      the sanitised title and `.txt`. */
  lemma LyricsTextFileIsEntry(env: Env, song: Song)
    ensures var p := LyricsTextFilePath(env, song);
      p[..|p| - 1] == ArtistLyricsDirPath(env, song.artist) && IsFileName(p[|p| - 1], Sanitize(song.songTitle), ".txt")
  {
    SanitizeHasNoSeparator(song.songTitle);
  }

  /** The song page is one entry of the artist's songs directory, named by the
      sanitised title and `.html`. */
  lemma SongHtmlFileIsEntry(env: Env, song: Song)
    ensures var p := SongHtmlFilePath(env, song);
      p[..|p| - 1] == ArtistSongsDirPath(env, song.artist) && IsFileName(p[|p| - 1], Sanitize(song.songTitle), ".html")
  {
    SanitizeHasNoSeparator(song.songTitle);
  }

  /** The songs table is `songs.csv` in the data directory, whatever the
      environment names the other directories. */
  lemma SongsCsvFileIsEntry(env: Env, env': Env)
    requires env'.projectRoot == env.projectRoot && env'.dataDir == env.dataDir
    ensures IsEntry(SongsCsvFilePath(env), DataDirPath(env), "songs.csv")
    ensures SongsCsvFilePath(env') == SongsCsvFilePath(env)
  {
  }

  /** The artist's lyrics directory is the lyrics directory itself for the
      artists `""` and `"."`, and otherwise one entry of it, named by the
      sanitised artist, which has no whitespace and no `/`. */
  lemma ArtistLyricsDirIsEntry(env: Env, artist: string)
    ensures IsSkipped(artist) ==> ArtistLyricsDirPath(env, artist) == LyricsDirPath(env)
    ensures !IsSkipped(artist) ==> IsEntry(ArtistLyricsDirPath(env, artist), LyricsDirPath(env), Sanitize(artist))
    ensures forall i :: 0 <= i < |artist| ==> !IsSeparator(Sanitize(artist)[i])
  {
    SanitizeSkippedIff(artist);
    SanitizeHasNoSeparator(artist);
  }

  /** The artist's songs directory is the songs directory itself for the
      artists `""` and `"."`, and otherwise one entry of it, named by the
      sanitised artist, which has no whitespace and no `/`. */
  lemma ArtistSongsDirIsEntry(env: Env, artist: string)
    ensures IsSkipped(artist) ==> ArtistSongsDirPath(env, artist) == SongsDirPath(env)
    ensures !IsSkipped(artist) ==> IsEntry(ArtistSongsDirPath(env, artist), SongsDirPath(env), Sanitize(artist))
    ensures forall i :: 0 <= i < |artist| ==> !IsSeparator(Sanitize(artist)[i])
  {
    SanitizeSkippedIff(artist);
    SanitizeHasNoSeparator(artist);
  }

  /** Every path the helpers build lies under the data directory. */
  lemma PathsUnderDataDir(env: Env, song: Song)
    ensures var d := DataDirPath(env);
      d <= ArtistHtmlFilePath(env, song.artist) && d <= LyricsTextFilePath(env, song) &&
      d <= SongHtmlFilePath(env, song) && d <= SongsCsvFilePath(env)
  {
    var d := DataDirPath(env);
    PrefixTransitive(d, ArtistsDirPath(env), ArtistHtmlFilePath(env, song.artist));
    PrefixTransitive(d, LyricsDirPath(env), ArtistLyricsDirPath(env, song.artist));
    PrefixTransitive(d, ArtistLyricsDirPath(env, song.artist), LyricsTextFilePath(env, song));
    PrefixTransitive(d, SongsDirPath(env), ArtistSongsDirPath(env, song.artist));
    PrefixTransitive(d, ArtistSongsDirPath(env, song.artist), SongHtmlFilePath(env, song));
  }

  lemma PrefixTransitive(a: Path, b: Path, c: Path)
    requires a <= b && b <= c
    ensures a <= c
  {
    assert c[..|a|] == b[..|a|];
  }

  /** Appending the same extension keeps names apart. */
  lemma ExtensionCancels(a: string, b: string, ext: string)
    ensures a + ext == b + ext <==> a == b
  {
    if a + ext == b + ext {
      assert a == (a + ext)[..|a|];
    }
  }

  /** Two artists share a page file exactly when their sanitised names agree. */
  lemma ArtistHtmlFileShared(env: Env, a: string, b: string)
    ensures ArtistHtmlFilePath(env, a) == ArtistHtmlFilePath(env, b) <==> Sanitize(a) == Sanitize(b)
  {
    var d := ArtistsDirPath(env);
    if ArtistHtmlFilePath(env, a) == ArtistHtmlFilePath(env, b) {
      assert ArtistHtmlFilePath(env, a)[|d|] == Sanitize(a) + ".html";
      ExtensionCancels(Sanitize(a), Sanitize(b), ".html");
    }
  }

  /** Two artists get one directory: their sanitised names agree, or both
      are skipped by `joinpath` (the artists `""` and `"."`). */
  predicate ShareArtistDir(a: string, b: string) {
    Sanitize(a) == Sanitize(b) || (IsSkipped(a) && IsSkipped(b))
  }

  /** Two artists get the same lyrics directory, and the same songs
      directory, exactly when they share a directory name. */
  lemma ArtistDirsShared(env: Env, a: string, b: string)
    ensures ArtistLyricsDirPath(env, a) == ArtistLyricsDirPath(env, b) <==> ShareArtistDir(a, b)
    ensures ArtistSongsDirPath(env, a) == ArtistSongsDirPath(env, b) <==> ShareArtistDir(a, b)
  {
    SanitizeSkippedIff(a);
    SanitizeSkippedIff(b);
    JoinSameIff(LyricsDirPath(env), Sanitize(a), Sanitize(b));
    JoinSameIff(SongsDirPath(env), Sanitize(a), Sanitize(b));
  }

  /** A file name joined below two directories gives one path exactly when
      the directories and the file names are the same. */
  lemma FileJoinSameIff(p: Path, q: Path, x: string, y: string, ext: string)
    requires ext == ".txt" || ext == ".html"
    ensures Join(p, x + ext) == Join(q, y + ext) <==> p == q && x == y
  {
    var f, g := x + ext, y + ext;
    if Join(p, f) == Join(q, g) {
      assert p == Join(p, f)[..|p|];
      assert Join(p, f)[|p|] == f;
      ExtensionCancels(x, y, ext);
    }
  }

  /** Two songs share a lyrics file exactly when their artists share a
      directory and their sanitised titles agree; the same holds for the
      song page. */
  lemma SongFilesShared(env: Env, s: Song, t: Song)
    ensures LyricsTextFilePath(env, s) == LyricsTextFilePath(env, t) <==>
      ShareArtistDir(s.artist, t.artist) && Sanitize(s.songTitle) == Sanitize(t.songTitle)
    ensures SongHtmlFilePath(env, s) == SongHtmlFilePath(env, t) <==>
      ShareArtistDir(s.artist, t.artist) && Sanitize(s.songTitle) == Sanitize(t.songTitle)
  {
    ArtistDirsShared(env, s.artist, t.artist);
    FileJoinSameIff(ArtistLyricsDirPath(env, s.artist), ArtistLyricsDirPath(env, t.artist),
      Sanitize(s.songTitle), Sanitize(t.songTitle), ".txt");
    FileJoinSameIff(ArtistSongsDirPath(env, s.artist), ArtistSongsDirPath(env, t.artist),
      Sanitize(s.songTitle), Sanitize(t.songTitle), ".html");
  }
}

/** File names of a few artist names. */
module PathsExamples {
  import opened Songs
  import opened Paths

  /** "AC/DC" and "AC DC" both become "AC_DC", so they share their files. */
  lemma ExampleSharedName(x: string, y: string)
    requires x == "AC/DC" && y == "AC DC"
    ensures Sanitize(x) == "AC_DC" && Sanitize(y) == "AC_DC"
  {
    assert SameUpToSeparators(x, "AC_DC");
    assert SameUpToSeparators(y, "AC_DC");
    SanitizeSameIff(x, "AC_DC");
    SanitizeSameIff(y, "AC_DC");
    SanitizeIsIdentityIff("AC_DC");
  }

  /** The artists `""` and `"."` differ after sanitising, yet both songs'
      lyrics land in the lyrics directory itself, in one file. */
  lemma ExampleSkippedArtists(env: Env, s: Song, t: Song)
    requires s.artist == "" && t.artist == "." && s.songTitle == t.songTitle
    ensures Sanitize(s.artist) != Sanitize(t.artist)
    ensures LyricsTextFilePath(env, s) == LyricsTextFilePath(env, t)
    ensures LyricsTextFilePath(env, s) == LyricsDirPath(env) + [Sanitize(s.songTitle) + ".txt"]
  {
    SanitizeSkippedIff(t.artist);
    SongFilesShared(env, s, t);
    ArtistLyricsDirIsEntry(env, s.artist);
  }
}
