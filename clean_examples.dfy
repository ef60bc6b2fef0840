/**
 * Worked examples of the duplicate filter's title uniformization, each
 * derived from the general properties proved in module Clean.
 */
module CleanExamples {
  import opened Text
  import opened Clean

  lemma LiveIsFirstGroup(t: string)
    requires t == " (Live) [Remastered]"
    ensures GroupLength(t) == 7
  {
    assert IsGroupAt(t[..7], 1);
    GroupIsGroupLength(t, 7);
  }

  lemma RemasteredIsRun(r: string)
    requires r == " [Remastered]"
    ensures IsAnnotationRun(r)
  {
    GroupIsRun(r, 1);
  }

  /** `" (Live) [Remastered]"` is a run of two groups. */
  lemma LiveRemasteredIsRun(t: string)
    requires t == " (Live) [Remastered]"
    ensures IsAnnotationRun(t)
  {
    var r := t[7..];
    assert r == " [Remastered]";
    LiveIsFirstGroup(t);
    RemasteredIsRun(r);
    RunCons(t, 7, r);
  }

  /** A title with `" (Live) [Remastered]"` appended uniformizes as the title
      does, when the title has no bracket or parenthesis of its own:
      `"Song Title (Live) [Remastered]"` becomes `"song title"`. */
  lemma ExampleTrailingAnnotations(title: string)
    requires NoOpener(title)
    ensures Uniformize(title + " (Live) [Remastered]") == Uniformize(title)
  {
    LiveRemasteredIsRun(" (Live) [Remastered]");
    AnnotationSuffixIgnored(title, " (Live) [Remastered]");
  }

  /** Likewise for `" (Remastered 2011)"`: `"Bohemian Rhapsody (Remastered 2011)"`
      becomes `"bohemian rhapsody"`. */
  lemma ExampleRemasteredYear(title: string)
    requires NoOpener(title)
    ensures Uniformize(title + " (Remastered 2011)") == Uniformize(title)
  {
    GroupIsRun(" (Remastered 2011)", 1);
    AnnotationSuffixIgnored(title, " (Remastered 2011)");
  }

  lemma InnerGroupLowered()
    ensures LowerString("Hello (Live) World") == "hello (live) world"
  {
  }

  lemma InnerGroupNotStripped()
    ensures StripTrailingAnnotations("hello (live) world") == "hello (live) world"
  {
    StripWithoutTrailingCloser("hello (live) world");
  }

  lemma PunctuationOnly(s: string)
    requires forall i :: 0 <= i < |s| ==> IsPunctuation(s[i])
    ensures RemovePunctuation(s) == []
  {
  }

  lemma PunctuationDropped(c: char, s: string)
    requires IsPunctuation(c)
    ensures RemovePunctuation([c] + s) == RemovePunctuation(s)
  {
    assert ([c] + s)[1..] == s;
  }

  /** Parentheses inside a punctuation-free text are deleted, nothing else. */
  lemma ParenthesesRemoved(x: string, y: string, z: string)
    requires forall i :: 0 <= i < |x| ==> !IsPunctuation(x[i])
    requires forall i :: 0 <= i < |y| ==> !IsPunctuation(y[i])
    requires forall i :: 0 <= i < |z| ==> !IsPunctuation(z[i])
    ensures RemovePunctuation(x + ("(" + (y + (")" + z)))) == x + (y + z)
  {
    var tail := ")" + z;
    PunctuationDropped(')', z);
    RemovePunctuationKeepsClean(z);
    assert RemovePunctuation(tail) == z;
    RemovePunctuationAppend(y, tail);
    RemovePunctuationKeepsClean(y);
    var mid := y + tail;
    assert RemovePunctuation(mid) == y + z;
    PunctuationDropped('(', mid);
    RemovePunctuationAppend(x, "(" + mid);
    RemovePunctuationKeepsClean(x);
  }

  lemma InnerGroupPunctuationRemoved()
    ensures RemovePunctuation("hello (live) world") == "hello live world"
  {
    assert "hello " + ("(" + ("live" + (")" + " world"))) == "hello (live) world";
    assert "hello " + ("live" + " world") == "hello live world";
    ParenthesesRemoved("hello ", "live", " world");
  }

  lemma InnerGroupStripped()
    ensures Strip("hello live world") == "hello live world"
  {
    TrimEndUnique("hello live world", 16);
    TrimStartUnique("hello live world", 0);
  }

  /** A group that is not at the end only loses its brackets, as punctuation:
      `"Hello (Live) World"` uniformizes to `"hello live world"`. */
  lemma ExampleInnerGroupKept()
    ensures Uniformize("Hello (Live) World") == "hello live world"
  {
    InnerGroupLowered();
    InnerGroupNotStripped();
    InnerGroupPunctuationRemoved();
    InnerGroupStripped();
    UniformizeSteps("Hello (Live) World", "hello (live) world", "hello (live) world",
                    "hello live world", "hello live world");
  }

  lemma ExclamationLowered()
    ensures LowerString("Hello!") == "hello!"
  {
  }

  lemma ExclamationNotStripped()
    ensures StripTrailingAnnotations("hello!") == "hello!"
  {
    StripWithoutTrailingCloser("hello!");
  }

  lemma ExclamationRemoved()
    ensures RemovePunctuation("hello!") == "hello"
  {
    RemovePunctuationAppend("hello", "!");
    RemovePunctuationKeepsClean("hello");
    PunctuationOnly("!");
    assert "hello" + "!" == "hello!";
  }

  lemma HelloStripped()
    ensures Strip("hello") == "hello"
  {
    TrimEndUnique("hello", 5);
    TrimStartUnique("hello", 0);
  }

  lemma HelloIsUniform(t: string)
    requires t == "hello"
    ensures Uniformize(t) == t
  {
    UniformShapeIsFixed(t);
  }

  /** `"Hello!"` and `"hello"` uniformize alike, to `"hello"`. */
  lemma ExamplePunctuationAndCase()
    ensures Uniformize("Hello!") == "hello"
    ensures Uniformize("hello") == "hello"
  {
    ExclamationLowered();
    ExclamationNotStripped();
    ExclamationRemoved();
    HelloStripped();
    UniformizeSteps("Hello!", "hello!", "hello!", "hello", "hello");
    HelloIsUniform("hello");
  }
}
