/**
 * Title uniformization for the duplicate filter
 * (collect_data/clean/__init__.py, `uniformize_song_title`).
 *
 * A title is lower-cased, loses the run of bracketed and parenthesised
 * annotations at its end, loses its punctuation and is stripped of
 * surrounding whitespace. Two songs of one artist whose titles uniformize
 * to the same string are exact duplicates for the filter in module Dedup.
 */
module Clean {
  import opened Text

  // ---------------------------------------------------------------------------
  // Title uniformization
  // ---------------------------------------------------------------------------

  /** Step 1: `str.lower`. */
  function LowerString(s: string): (r: string)
    ensures |r| == |s|
    ensures forall i :: 0 <= i < |s| ==> r[i] == ToLower(s[i])
  {
    seq(|s|, i requires 0 <= i < |s| => ToLower(s[i]))
  }

  /** Length of the run of whitespace `s` starts with: what a greedy `\s*` consumes. */
  function LeadingSpace(s: string): (n: nat)
    ensures n <= |s|
    ensures forall k :: 0 <= k < n ==> IsSpace(s[k])
    ensures n < |s| ==> !IsSpace(s[n])
  {
    if s != [] && IsSpace(s[0]) then 1 + LeadingSpace(s[1..]) else 0
  }

  /** Position of the first `c` in `s`, or `|s|` when there is none. */
  function IndexOf(s: string, c: char): (k: nat)
    ensures k <= |s|
    ensures k < |s| ==> s[k] == c
    ensures forall j :: 0 <= j < k ==> s[j] != c
  {
    if s == [] then 0 else if s[0] == c then 0 else 1 + IndexOf(s[1..], c)
  }

  predicate IsOpener(c: char) {
    c == '[' || c == '('
  }

  function Closer(opener: char): (c: char)
    ensures c == ']' || c == ')'
  {
    if opener == '[' then ']' else ')'
  }

  /** The regex's group `\s*\[[^]]*\]` or `\s*\([^)]*\)`, read off the pattern:
      whitespace, an opener, no matching closer, the matching closer. */
  ghost predicate IsGroup(g: string): (b: bool)
    ensures b ==> IsGroupAt(g, LeadingSpace(g))
  {
    exists w: nat :: IsGroupAt(g, w)
  }

  /** Length of the group `t` starts with, or 0 when it starts with none. The
      group's extent is forced: `\s*` cannot stop before an opener, which is
      not whitespace, and `[^]]*` cannot pass the first closer. */
  function GroupLength(t: string): (n: nat)
    ensures n <= |t|
    ensures n > 0 ==> LeadingSpace(t) < n - 1 && IsOpener(t[LeadingSpace(t)])
                      && t[n - 1] == Closer(t[LeadingSpace(t)])
  {
    var w := LeadingSpace(t);
    if w < |t| && IsOpener(t[w]) then
      var j := IndexOf(t[w + 1..], Closer(t[w]));
      if w + 1 + j < |t| then w + j + 2 else 0
    else 0
  }

  /** `t` is a non-empty concatenation of groups: `(group)+` matches all of `t`. */
  predicate IsAnnotationRun(t: string)
    decreases |t|
  {
    var n := GroupLength(t);
    n > 0 && (n == |t| || IsAnnotationRun(t[n..]))
  }

  /** Smallest `q >= p` at which an annotation run reaching the end of `t` starts, or `|t|`. */
  function RunStart(t: string, p: nat): (q: nat)
    requires p <= |t|
    decreases |t| - p
    ensures p <= q <= |t|
    ensures q < |t| ==> IsAnnotationRun(t[q..])
    ensures forall k :: p <= k < q ==> !IsAnnotationRun(t[k..])
  {
    if p == |t| then |t| else if IsAnnotationRun(t[p..]) then p else RunStart(t, p + 1)
  }

  /** Where Python's `$` matches: the end of `t`, or just before a final line feed.
      (A group ends with a closer, so a match can never end after that line feed.) */
  function MatchEnd(t: string): (e: nat)
    ensures e == |t| || e == |t| - 1
    ensures e < |t| <==> |t| > 0 && t[|t| - 1] == '\n'
  {
    if |t| > 0 && t[|t| - 1] == '\n' then |t| - 1 else |t|
  }

  /** Step 2: `re.sub(r"((\s*\[[^]]*\])|(\s*\([^)]*\)))+$", "", t)`. The leftmost
      match start gives the longest annotation run ending where `$` matches;
      it is removed, and since the match reaches `$` there is no second one. */
  function StripTrailingAnnotations(t: string): (r: string)
    ensures var e := MatchEnd(t); var q := |r| - (|t| - e);
      0 <= q <= e
      && r == t[..q] + t[e..]
      && (q < e ==> IsAnnotationRun(t[q..e]))
      && (forall k :: 0 <= k < q ==> !IsAnnotationRun(t[k..e]))
  {
    var e := MatchEnd(t);
    var q := RunStart(t[..e], 0);
    assert forall k :: 0 <= k <= e ==> t[..e][k..] == t[k..e];
    t[..q] + t[e..]
  }

  /** Step 3: `translate` deleting every character of `string.punctuation`. */
  function RemovePunctuation(s: string): (r: string)
    ensures forall i :: 0 <= i < |r| ==> !IsPunctuation(r[i])
    ensures forall c :: c in r ==> c in s
    ensures |r| <= |s|
  {
    if s == [] then []
    else (if IsPunctuation(s[0]) then [] else [s[0]]) + RemovePunctuation(s[1..])
  }

  /** `rstrip()`: the longest prefix not ending in whitespace. */
  function TrimEnd(s: string): (r: string)
    ensures |r| <= |s| && r == s[..|r|]
    ensures r == [] || !IsSpace(r[|r| - 1])
    ensures forall k :: |r| <= k < |s| ==> IsSpace(s[k])
  {
    if s != [] && IsSpace(s[|s| - 1]) then TrimEnd(s[..|s| - 1]) else s
  }

  /** `lstrip()`: the longest suffix not starting with whitespace. */
  function TrimStart(s: string): (r: string)
    ensures |r| <= |s| && r == s[|s| - |r|..]
    ensures r == [] || !IsSpace(r[0])
    ensures forall k :: 0 <= k < |s| - |r| ==> IsSpace(s[k])
  {
    if s != [] && IsSpace(s[0]) then TrimStart(s[1..]) else s
  }

  /** Step 4: `strip()`. */
  function Strip(s: string): (r: string)
    ensures r == [] || (!IsSpace(r[0]) && !IsSpace(r[|r| - 1]))
    ensures forall c :: c in r ==> c in s
  {
    TrimStart(TrimEnd(s))
  }

  /** `strip()` removes whitespace and nothing else: what is left is the slice
      `s[a..b]` of the input, with only whitespace before `a` and after `b`. */
  lemma StripRemovesOnlySpace(s: string) returns (a: nat, b: nat)
    ensures a <= b <= |s| && Strip(s) == s[a..b]
    ensures forall k :: 0 <= k < a ==> IsSpace(s[k])
    ensures forall k :: b <= k < |s| ==> IsSpace(s[k])
  {
    var e := TrimEnd(s);
    var r := TrimStart(e);
    SliceBetweenSpace(s, e, r);
    a, b := |e| - |r|, |e|;
  }

  /** `e` is `s` less its trailing whitespace, and `r` is `e` less its leading
      whitespace: then `r` is the slice of `s` between the two. */
  lemma SliceBetweenSpace(s: string, e: string, r: string)
    requires |e| <= |s| && e == s[..|e|] && forall k :: |e| <= k < |s| ==> IsSpace(s[k])
    requires |r| <= |e| && r == e[|e| - |r|..] && forall k :: 0 <= k < |e| - |r| ==> IsSpace(e[k])
    ensures var a, b := |e| - |r|, |e|;
      r == s[a..b] && (forall k :: 0 <= k < a ==> IsSpace(s[k])) && (forall k :: b <= k < |s| ==> IsSpace(s[k]))
  {
    var a := |e| - |r|;
    forall k | 0 <= k < |r| ensures r[k] == s[a + k] {
      assert r[k] == e[a + k];
    }
    assert r == s[a..|e|];
    forall k | 0 <= k < a ensures IsSpace(s[k]) {
      assert s[k] == e[k];
    }
  }

  /** `uniformize_song_title`: lowercase, drop the trailing bracket/parenthesis
      annotations, delete punctuation, strip whitespace. The result has no
      whitespace at either end. */
  function Uniformize(title: string): (r: string)
    ensures r == [] || (!IsSpace(r[0]) && !IsSpace(r[|r| - 1]))
  {
    Strip(RemovePunctuation(StripTrailingAnnotations(LowerString(title))))
  }

  /** A uniformized title has no upper-case letter and no punctuation: no
      step after the lowering brings one back. */
  lemma UniformizeShape(title: string)
    ensures var r := Uniformize(title);
      forall i :: 0 <= i < |r| ==> !IsUpper(r[i]) && !IsPunctuation(r[i])
  {
    var lowered := LowerString(title);
    var stripped := StripTrailingAnnotations(lowered);
    var cleaned := RemovePunctuation(stripped);
    var r := Strip(cleaned);
    forall i | 0 <= i < |r| ensures !IsUpper(r[i]) && !IsPunctuation(r[i]) {
      assert r[i] in cleaned;
      assert r[i] in stripped;
      assert r[i] in lowered;
    }
  }

  // ---------------------------------------------------------------------------
  // Properties of the title uniformization
  // ---------------------------------------------------------------------------

  predicate NoOpener(s: string) {
    forall k :: 0 <= k < |s| ==> !IsOpener(s[k])
  }

  predicate AllSpace(s: string) {
    forall k :: 0 <= k < |s| ==> IsSpace(s[k])
  }

  lemma LeadingSpaceUnique(s: string, n: nat)
    requires n <= |s| && (forall k :: 0 <= k < n ==> IsSpace(s[k]))
    requires n < |s| ==> !IsSpace(s[n])
    ensures LeadingSpace(s) == n
  {
  }

  lemma IndexOfUnique(s: string, c: char, k: nat)
    requires k <= |s| && (k < |s| ==> s[k] == c)
    requires forall j :: 0 <= j < k ==> s[j] != c
    ensures IndexOf(s, c) == k
  {
  }

  /** `g` is a group whose opener stands at position `w`. */
  ghost predicate IsGroupAt(g: string, w: nat): (b: bool)
    ensures b ==> w == LeadingSpace(g)
  {
    w < |g| - 1 && IsOpener(g[w])
    && (forall k :: 0 <= k < w ==> IsSpace(g[k]))
    && g[|g| - 1] == Closer(g[w])
    && (forall k :: w < k < |g| - 1 ==> g[k] != Closer(g[w]))
  }

  /** What `GroupLength` measures is a group of the pattern. */
  lemma GroupLengthIsGroup(t: string)
    requires GroupLength(t) > 0
    ensures IsGroup(t[..GroupLength(t)])
  {
    var n, w := GroupLength(t), LeadingSpace(t);
    var g := t[..n];
    var rest := t[w + 1..];
    var j := IndexOf(rest, Closer(t[w]));
    assert n == w + j + 2;
    assert forall k :: w < k < n - 1 ==> g[k] == rest[k - w - 1];
    assert IsGroupAt(g, w);
  }

  /** Every group of the pattern at the start of `t` is the one `GroupLength` measures. */
  lemma GroupIsGroupLength(t: string, n: nat)
    requires 0 < n <= |t| && IsGroup(t[..n])
    ensures GroupLength(t) == n
  {
    var g := t[..n];
    var w: nat :| IsGroupAt(g, w);
    LeadingSpaceUnique(t, w);
    var rest := t[w + 1..];
    assert forall k :: 0 <= k < n - w - 2 ==> rest[k] == g[k + w + 1];
    IndexOfUnique(rest, Closer(t[w]), n - w - 2);
  }

  lemma {:induction false} RunEndsWithCloser(t: string)
    requires IsAnnotationRun(t)
    ensures |t| > 0 && (t[|t| - 1] == ']' || t[|t| - 1] == ')')
    decreases |t|
  {
    var n := GroupLength(t);
    if n < |t| {
      RunEndsWithCloser(t[n..]);
      assert t[n..][|t[n..]| - 1] == t[|t| - 1];
    }
  }

  /** A text whose first non-blank character opens no group is no annotation run. */
  lemma NoRunWithoutOpener(u: string)
    requires LeadingSpace(u) < |u| ==> !IsOpener(u[LeadingSpace(u)])
    ensures !IsAnnotationRun(u)
  {
  }

  /** Whitespace in front of a group belongs to it (`\s*`). */
  lemma GroupLengthAfterSpace(w: string, b: string)
    requires AllSpace(w)
    ensures GroupLength(w + b) == if GroupLength(b) == 0 then 0 else |w| + GroupLength(b)
  {
    var t := w + b;
    var lb := LeadingSpace(b);
    LeadingSpaceUnique(t, |w| + lb);
    if lb < |b| {
      assert t[|w| + lb] == b[lb];
      assert t[|w| + lb + 1..] == b[lb + 1..];
    }
  }

  /** A group followed by the end of the text or by a run is a run. */
  lemma RunCons(t: string, n: nat, rest: string)
    requires n == GroupLength(t) && n > 0 && rest == t[n..] && (rest == [] || IsAnnotationRun(rest))
    ensures IsAnnotationRun(t)
  {
  }

  /** Whitespace in front of a run joins its first group. */
  lemma RunAfterSpace(w: string, b: string)
    requires AllSpace(w) && IsAnnotationRun(b)
    ensures IsAnnotationRun(w + b)
  {
    var n := GroupLength(b);
    var rest := b[n..];
    GroupLengthAfterSpace(w, b);
    assert (w + b)[|w| + n..] == rest;
    RunCons(w + b, |w| + n, rest);
  }

  lemma LowerStringSlice(s: string, i: nat, j: nat)
    requires i <= j <= |s|
    ensures LowerString(s)[i..j] == LowerString(s[i..j])
  {
  }

  lemma LowerStringAppend(a: string, b: string)
    ensures LowerString(a + b) == LowerString(a) + LowerString(b)
  {
  }

  /** Lowercasing changes no whitespace, bracket or parenthesis, so it does not
      change where groups start and end. */
  lemma GroupLengthUnderLower(t: string)
    ensures GroupLength(LowerString(t)) == GroupLength(t)
  {
    var lt := LowerString(t);
    var w := LeadingSpace(t);
    LeadingSpaceUnique(lt, w);
    if w < |t| && IsOpener(t[w]) {
      var c := Closer(t[w]);
      var j := IndexOf(t[w + 1..], c);
      LowerStringSlice(t, w + 1, |t|);
      IndexOfUnique(lt[w + 1..], c, j);
    }
  }

  lemma {:induction false} RunUnderLower(t: string)
    ensures IsAnnotationRun(LowerString(t)) <==> IsAnnotationRun(t)
    decreases |t|
  {
    var lt := LowerString(t);
    var n := GroupLength(t);
    assert GroupLength(lt) == n by {
      GroupLengthUnderLower(t);
    }
    if 0 < n < |t| {
      assert lt[n..] == LowerString(t[n..]) by {
        LowerStringSlice(t, n, |t|);
      }
      RunUnderLower(t[n..]);
    }
  }

  /** With no annotation run before `$`, the regex leaves the title alone. */
  lemma StripWithoutRun(t: string)
    requires forall k :: 0 <= k < MatchEnd(t) ==> !IsAnnotationRun(t[k..MatchEnd(t)])
    ensures StripTrailingAnnotations(t) == t
  {
  }

  /** The regex removes exactly the longest annotation run before `$`. */
  lemma StripRemovesLongestRun(t: string, q: nat)
    requires q < MatchEnd(t) && IsAnnotationRun(t[q..MatchEnd(t)])
    requires forall k :: 0 <= k < q ==> !IsAnnotationRun(t[k..MatchEnd(t)])
    ensures StripTrailingAnnotations(t) == t[..q] + t[MatchEnd(t)..]
  {
  }

  lemma StripWithoutOpener(t: string)
    requires NoOpener(t)
    ensures StripTrailingAnnotations(t) == t
  {
    var e := MatchEnd(t);
    forall k | 0 <= k < e ensures !IsAnnotationRun(t[k..e]) {
      var u := t[k..e];
      var m := LeadingSpace(u);
      if m < |u| {
        assert u[m] == t[k + m];
      }
      NoRunWithoutOpener(u);
    }
    StripWithoutRun(t);
  }

  /** A title whose text before `$` does not end in `]` or `)` has no trailing
      annotation: a bracket group in the middle of a title is kept. */
  lemma StripWithoutTrailingCloser(t: string)
    requires MatchEnd(t) > 0 ==> t[MatchEnd(t) - 1] != ']' && t[MatchEnd(t) - 1] != ')'
    ensures StripTrailingAnnotations(t) == t
  {
    var e := MatchEnd(t);
    forall k | 0 <= k < e ensures !IsAnnotationRun(t[k..e]) {
      var u := t[k..e];
      assert u[|u| - 1] == t[e - 1];
      if IsAnnotationRun(u) {
        RunEndsWithCloser(u);
      }
    }
    StripWithoutRun(t);
  }

  lemma {:induction false} RemovePunctuationAppend(a: string, b: string)
    ensures RemovePunctuation(a + b) == RemovePunctuation(a) + RemovePunctuation(b)
    decreases |a|
  {
    if a == [] {
      assert a + b == b;
    } else {
      assert (a + b)[0] == a[0];
      assert (a + b)[1..] == a[1..] + b;
      RemovePunctuationAppend(a[1..], b);
    }
  }

  lemma {:induction false} RemovePunctuationKeepsClean(s: string)
    requires forall k :: 0 <= k < |s| ==> !IsPunctuation(s[k])
    ensures RemovePunctuation(s) == s
    decreases |s|
  {
    if s != [] {
      RemovePunctuationKeepsClean(s[1..]);
    }
  }

  lemma {:induction false} TrimEndUnique(s: string, n: nat)
    requires n <= |s| && (n == 0 || !IsSpace(s[n - 1]))
    requires forall k :: n <= k < |s| ==> IsSpace(s[k])
    ensures TrimEnd(s) == s[..n]
    decreases |s|
  {
    if n < |s| {
      var s' := s[..|s| - 1];
      TrimEndUnique(s', n);
      assert s'[..n] == s[..n];
    }
  }

  lemma {:induction false} TrimStartUnique(s: string, n: nat)
    requires n <= |s| && (n == |s| || !IsSpace(s[n]))
    requires forall k :: 0 <= k < n ==> IsSpace(s[k])
    ensures TrimStart(s) == s[n..]
    decreases n
  {
    if n > 0 {
      TrimStartUnique(s[1..], n - 1);
      assert s[1..][n - 1..] == s[n..];
    }
  }

  /** Trailing whitespace does not survive `strip()`. */
  lemma StripAppendSpace(x: string, w: string)
    requires AllSpace(w)
    ensures Strip(x + w) == Strip(x)
  {
    var n := |TrimEnd(x)|;
    TrimEndUnique(x + w, n);
    assert (x + w)[..n] == TrimEnd(x);
  }

  /** A title already in uniform shape is left unchanged. */
  lemma UniformShapeIsFixed(t: string)
    requires forall i :: 0 <= i < |t| ==> !IsUpper(t[i]) && !IsPunctuation(t[i])
    requires t == [] || (!IsSpace(t[0]) && !IsSpace(t[|t| - 1]))
    ensures Uniformize(t) == t
  {
    assert LowerString(t) == t;
    assert NoOpener(t);
    StripWithoutOpener(t);
    RemovePunctuationKeepsClean(t);
    TrimEndUnique(t, |t|);
    TrimStartUnique(t, 0);
  }

  /** Uniformizing a uniformized title changes nothing. */
  lemma UniformizeIdempotent(title: string)
    ensures Uniformize(Uniformize(title)) == Uniformize(title)
  {
    UniformizeShape(title);
    UniformShapeIsFixed(Uniformize(title));
  }

  /** A title without punctuation or surrounding whitespace is only lowercased. */
  lemma UniformizePlain(title: string)
    requires forall i :: 0 <= i < |title| ==> !IsPunctuation(title[i])
    requires title == [] || (!IsSpace(title[0]) && !IsSpace(title[|title| - 1]))
    ensures Uniformize(title) == LowerString(title)
  {
    var l := LowerString(title);
    assert NoOpener(l);
    StripWithoutOpener(l);
    RemovePunctuationKeepsClean(l);
    TrimEndUnique(l, |l|);
    TrimStartUnique(l, 0);
  }

  /** A run ends with a closer, so `$` matches at the very end of a text ending in one. */
  lemma MatchEndAfterRun(a: string, b: string)
    requires IsAnnotationRun(b)
    ensures MatchEnd(a + b) == |a + b|
  {
    RunEndsWithCloser(b);
    assert (a + b)[|a + b| - 1] == b[|b| - 1];
  }

  /** No annotation run starts inside a bracket-free title before its trailing blanks. */
  lemma NoRunInBareTitle(a: string, b: string, k: nat)
    requires NoOpener(a) && k < |TrimEnd(a)|
    ensures !IsAnnotationRun((a + b)[k..])
  {
    var r := TrimEnd(a);
    var q := |r|;
    assert r[q - 1] == a[q - 1];
    var u := (a + b)[k..];
    var p := q - 1 - k;
    assert u[p] == a[q - 1];
    forall i | 0 <= i <= p ensures !IsOpener(u[i]) {
      assert u[i] == a[k + i];
    }
    NoRunBeforeNonSpace(u, p);
  }

  /** A text with no opener up to its first non-blank character is not a run. */
  lemma NoRunBeforeNonSpace(u: string, p: nat)
    requires p < |u| && !IsSpace(u[p])
    requires forall i :: 0 <= i <= p ==> !IsOpener(u[i])
    ensures !IsAnnotationRun(u)
  {
    var m := LeadingSpace(u);
    assert m <= p;
    NoRunWithoutOpener(u);
  }

  /** The trailing blanks of the title and the run after them form one run. */
  lemma RunFromTitleBlanks(a: string, b: string)
    requires IsAnnotationRun(b)
    ensures IsAnnotationRun((a + b)[|TrimEnd(a)|..])
  {
    var q := |TrimEnd(a)|;
    var w := a[q..];
    var u := (a + b)[q..];
    assert u == w + b;
    RunAfterSpace(w, b);
  }

  /** In a title without brackets followed by an annotation run, the regex
      removes the run together with the whitespace before it. */
  lemma StripAnnotationSuffix(a: string, b: string)
    requires NoOpener(a) && IsAnnotationRun(b)
    ensures StripTrailingAnnotations(a + b) == TrimEnd(a)
  {
    var t := a + b;
    var r := TrimEnd(a);
    var q := |r|;
    MatchEndAfterRun(a, b);
    RunFromTitleBlanks(a, b);
    forall k | 0 <= k < q ensures !IsAnnotationRun(t[k..]) {
      NoRunInBareTitle(a, b, k);
    }
    StripRemovesRunAtEnd(t, q);
    assert t[..q] == r;
  }

  /** When `$` matches only at the very end, the regex removes the longest run
      that reaches it. */
  lemma StripRemovesRunAtEnd(t: string, q: nat)
    requires MatchEnd(t) == |t| && q <= |t| && IsAnnotationRun(t[q..])
    requires forall k :: 0 <= k < q ==> !IsAnnotationRun(t[k..])
    ensures StripTrailingAnnotations(t) == t[..q]
  {
    assert forall k :: 0 <= k <= |t| ==> t[k..MatchEnd(t)] == t[k..];
    assert t[..q] + t[|t|..] == t[..q];
    StripRemovesLongestRun(t, q);
  }

  /** Blanks at the end of a title are lost to `strip()` anyway. */
  lemma TrailingBlanksIgnored(x: string)
    ensures Strip(RemovePunctuation(TrimEnd(x))) == Strip(RemovePunctuation(x))
  {
    var bare := TrimEnd(x);
    var w := x[|bare|..];
    assert x == bare + w;
    RemovePunctuationAppend(bare, w);
    RemovePunctuationKeepsClean(w);
    StripAppendSpace(RemovePunctuation(bare), w);
  }

  /** Trailing annotations make no difference to the uniformized title: a title
      without brackets or parentheses, followed by any run of `[...]`/`(...)`
      groups, uniformizes like the bare title. */
  lemma AnnotationSuffixIgnored(a: string, b: string)
    requires NoOpener(a) && IsAnnotationRun(b)
    ensures Uniformize(a + b) == Uniformize(a)
  {
    var la, lb := LowerString(a), LowerString(b);
    LowerStringAppend(a, b);
    RunUnderLower(b);
    assert NoOpener(la);
    StripAnnotationSuffix(la, lb);
    StripWithoutOpener(la);
    TrailingBlanksIgnored(la);
  }

  /** A group is a run on its own. */
  lemma GroupIsRun(g: string, w: nat)
    requires IsGroupAt(g, w)
    ensures IsAnnotationRun(g)
  {
    assert g[..|g|] == g;
    GroupIsGroupLength(g, |g|);
  }

  /** The four steps of `Uniformize`, one at a time. */
  lemma UniformizeSteps(title: string, lowered: string, stripped: string, cleaned: string, r: string)
    requires LowerString(title) == lowered
    requires StripTrailingAnnotations(lowered) == stripped
    requires RemovePunctuation(stripped) == cleaned
    requires Strip(cleaned) == r
    ensures Uniformize(title) == r
  {
  }

  /** Two runs in a row are one run. */
  lemma {:induction false} RunAppend(x: string, y: string)
    requires IsAnnotationRun(x) && IsAnnotationRun(y)
    ensures IsAnnotationRun(x + y)
    decreases |x|
  {
    var n := GroupLength(x);
    if n == |x| {
      RunAppendStep(x, y, n, y);
    } else {
      RunAppend(x[n..], y);
      RunAppendStep(x, y, n, x[n..] + y);
    }
  }

  /** A group followed by a run `rest` is still a run when text is appended
      after the group's own text. */
  lemma RunAppendStep(x: string, y: string, n: nat, rest: string)
    requires 0 < n == GroupLength(x) <= |x| && rest == x[n..] + y
    requires rest == [] || IsAnnotationRun(rest)
    ensures IsAnnotationRun(x + y)
  {
    GroupLengthMatchesPrefix(x, y);
    assert (x + y)[n..] == rest;
    RunCons(x + y, n, rest);
  }

  /** Text after a group does not change where the group ends. */
  lemma GroupLengthMatchesPrefix(x: string, y: string)
    requires GroupLength(x) > 0
    ensures GroupLength(x + y) == GroupLength(x)
  {
    var n := GroupLength(x);
    GroupLengthIsGroup(x);
    assert (x + y)[..n] == x[..n];
    GroupIsGroupLength(x + y, n);
  }
}
