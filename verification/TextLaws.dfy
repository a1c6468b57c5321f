/**
 * What NormalizeText, StripHTML and NormalizeSkill make of a text, piece by piece: escapes are resolved, a tag counts
 * as a blank, separators split, words are lowered. Together the laws determine the result.
 */
module TextLaws {
  import opened Basics
  import opened Normalization

  /** `part` stands somewhere in `s`. */
  ghost predicate Occurs(part: string, s: string) {
    exists before, after :: s == before + part + after
  }

  // ---- tags ----

  /** No `<` has a `>` after it. */
  predicate TagFree(s: string) {
    forall i, j :: 0 <= i < j < |s| && s[i] == '<' ==> s[j] != '>'
  }

  lemma {:induction false} StripTagsAfter(a: string, b: string)
    requires '<' !in a
    ensures StripTags(a + b) == a + StripTags(b)
  {
    if |a| == 0 {
      assert a + b == b;
    } else {
      assert (a + b)[1..] == a[1..] + b;
      StripTagsAfter(a[1..], b);
      assert a == [a[0]] + a[1..];
    }
  }

  lemma FirstTag(tag: string, b: string)
    requires '>' !in tag
    ensures StripTags("<" + tag + ">" + b) == " " + StripTags(b)
  {
    var s := "<" + tag + ">" + b;
    assert s == ("<" + tag) + ['>'] + b;
    IndexOfFirst("<" + tag, '>', b);
    assert s[|tag| + 2..] == b;
  }

  /** The leftmost tag becomes one blank, and the text after it is stripped in the same way. */
  lemma TagBecomesBlank(a: string, tag: string, b: string)
    requires '<' !in a && '>' !in tag
    ensures StripTags(a + "<" + tag + ">" + b) == a + " " + StripTags(b)
  {
    assert a + "<" + tag + ">" + b == a + ("<" + tag + ">" + b);
    StripTagsAfter(a, "<" + tag + ">" + b);
    FirstTag(tag, b);
    assert a + (" " + StripTags(b)) == a + " " + StripTags(b);
  }

  /** Exactly the texts without a complete tag are left alone. */
  lemma {:induction false} UnchangedIffTagFree(s: string)
    ensures StripTags(s) == s <==> TagFree(s)
  {
    if |s| > 0 {
      var k := IndexOf(s, '>');
      if s[0] == '<' {
        if k < |s| { assert !TagFree(s); } else { assert s[..k] == s; }
      } else {
        UnchangedIffTagFree(s[1..]);
        assert s == [s[0]] + s[1..];
        TagFreeTail(s);
      }
    }
  }

  lemma TagFreeTail(s: string)
    requires |s| > 0 && s[0] != '<'
    ensures TagFree(s) <==> TagFree(s[1..])
  {
    if TagFree(s[1..]) {
      forall i, j | 0 <= i < j < |s| && s[i] == '<' ensures s[j] != '>' {
        assert s[1..][i - 1] == s[i] && s[1..][j - 1] == s[j];
      }
    }
    if TagFree(s) {
      forall i, j | 0 <= i < j < |s[1..]| && s[1..][i] == '<' ensures s[1..][j] != '>' {
        assert s[i + 1] == '<' && s[j + 1] == s[1..][j];
      }
    }
  }

  lemma {:induction false} NoTagsAreLeft(s: string)
    ensures TagFree(StripTags(s))
  {
    if |s| > 0 {
      var k := IndexOf(s, '>');
      if s[0] == '<' && k == |s| {
        assert s[..k] == s;
      } else {
        var rest := if s[0] == '<' then s[k + 1..] else s[1..];
        NoTagsAreLeft(rest);
        assert StripTags(s)[1..] == StripTags(rest);
        TagFreeTail(StripTags(s));
      }
    }
  }

  /** A tag is worth a blank, also one that was written with escapes. */
  lemma TagIsABlank(t: Text, v: string, w: string, a: string, tag: string, b: string)
    requires '<' !in a && '>' !in tag
    requires t.unescape(v) == a + "<" + tag + ">" + b && t.unescape(w) == a + " " + b
    ensures NormalizeText(t, v) == NormalizeText(t, w) && StripHTML(t, v) == StripHTML(t, w)
  {
    TagBecomesBlank(a, tag, b);
    StripTagsAfter(a + " ", b);
  }

  /** In particular in texts without an ampersand, which unescaping leaves alone. */
  lemma TagInPlainText(t: Text, a: string, tag: string, b: string)
    requires Lawful(t) && '<' !in a && '>' !in tag && '&' !in a && '&' !in tag && '&' !in b
    ensures NormalizeText(t, a + "<" + tag + ">" + b) == NormalizeText(t, a + " " + b)
    ensures StripHTML(t, a + "<" + tag + ">" + b) == StripHTML(t, a + " " + b)
  {
    TagIsABlank(t, a + "<" + tag + ">" + b, a + " " + b, a, tag, b);
  }

  /** Escapes are resolved first. */
  lemma EscapesAreResolved(t: Text, v: string, u: string)
    requires t.unescape(v) == u == t.unescape(u)
    ensures NormalizeText(t, v) == NormalizeText(t, u) && StripHTML(t, v) == StripHTML(t, u)
  {
  }

  // ---- words ----

  /** Both texts with one blank between them, if neither is empty. */
  function Glue(a: string, b: string): string {
    if a == "" then b else if b == "" then a else a + " " + b
  }

  lemma WordBeforeSeparator(space: char -> bool, a: string, c: char, b: string)
    requires space(c)
    ensures WordLength(space, a + [c] + b) == WordLength(space, a)
  {
    var s, n, m := a + [c] + b, WordLength(space, a + [c] + b), WordLength(space, a);
    assert forall i :: 0 <= i < |a| ==> s[i] == a[i];
    assert s[|a|] == c;
  }

  /** A separator keeps the words on its two sides apart. */
  lemma {:induction false} FieldsAroundSeparator(space: char -> bool, a: string, c: char, b: string)
    requires space(c)
    ensures Fields(space, a + [c] + b) == Fields(space, a) + Fields(space, b)
    decreases |a|
  {
    var s := a + [c] + b;
    if |a| == 0 {
      assert s[1..] == b;
    } else if space(a[0]) {
      assert s[1..] == a[1..] + [c] + b;
      FieldsAroundSeparator(space, a[1..], c, b);
    } else {
      var n := WordLength(space, a);
      WordBeforeSeparator(space, a, c, b);
      assert s[..n] == a[..n] && s[n..] == a[n..] + [c] + b;
      FieldsAroundSeparator(space, a[n..], c, b);
    }
  }

  lemma {:induction false} WordsAreNotEmpty(space: char -> bool, s: string)
    ensures forall w :: w in Fields(space, s) ==> w != ""
    decreases |s|
  {
    if |s| > 0 {
      if space(s[0]) {
        WordsAreNotEmpty(space, s[1..]);
      } else {
        WordsAreNotEmpty(space, s[WordLength(space, s)..]);
      }
    }
  }

  lemma {:induction false} JoinGlues(xs: seq<string>, ys: seq<string>)
    requires forall w :: w in xs + ys ==> w != ""
    ensures Join(xs + ys, " ") == Glue(Join(xs, " "), Join(ys, " "))
    ensures Join(xs, " ") == "" <==> xs == []
  {
    if |xs| == 0 {
      assert xs + ys == ys;
    } else {
      assert xs[0] in xs + ys;
      assert (xs + ys)[1..] == xs[1..] + ys;
      assert forall w :: w in xs[1..] + ys ==> w in xs + ys;
      JoinGlues(xs[1..], ys);
      if |xs| > 1 {
        var tail := Join(xs[1..], " ");
        assert xs[0] + " " + (tail + " " + Join(ys, " ")) == (xs[0] + " " + tail) + " " + Join(ys, " ");
      } else if |ys| > 0 {
        assert ys[0] in xs + ys;
        assert xs[1..] + ys == ys;
        JoinIsNotEmpty(ys);
      }
    }
  }

  lemma JoinIsNotEmpty(words: seq<string>)
    requires words != [] && words[0] != ""
    ensures Join(words, " ") != ""
  {
  }

  lemma JoinedFieldsGlue(space: char -> bool, a: string, c: char, b: string)
    requires space(c)
    ensures Join(Fields(space, a + [c] + b), " ") == Glue(Join(Fields(space, a), " "), Join(Fields(space, b), " "))
  {
    FieldsAroundSeparator(space, a, c, b);
    WordsAreNotEmpty(space, a);
    WordsAreNotEmpty(space, b);
    JoinGlues(Fields(space, a), Fields(space, b));
  }

  // ---- literal texts ----

  /** A text that unescaping and tag stripping leave alone. */
  predicate Literal(t: Text, s: string) {
    t.unescape(s) == s && TagFree(s)
  }

  /** What remains in a normalised text, after lowering. */
  predicate Remains(t: Text, c: char) {
    t.letterOrDigit(c) || c in {'+', '#', '.', '/', '-', '_'}
  }

  lemma KeptIffRemains(t: Text, c: char)
    ensures Kept(t, c) <==> Remains(t, c)
  {
  }

  lemma KeepOrBlankAround(t: Text, a: string, c: char, b: string)
    requires !Remains(t, t.lower(c))
    ensures KeepOrBlank(t, a + [c] + b) == KeepOrBlank(t, a) + [' '] + KeepOrBlank(t, b)
  {
    KeptIffRemains(t, t.lower(c));
  }

  lemma NothingIsNothing(t: Text)
    requires Lawful(t)
    ensures NormalizeText(t, "") == "" && StripHTML(t, "") == ""
  {
    assert t.unescape("") == "";
  }

  /** Every other character separates: the two sides are normalised on their own, one blank between them. */
  lemma SeparatorSplits(t: Text, a: string, c: char, b: string)
    requires Lawful(t) && Literal(t, a) && Literal(t, b) && Literal(t, a + [c] + b)
    requires !Remains(t, t.lower(c))
    ensures NormalizeText(t, a + [c] + b) == Glue(NormalizeText(t, a), NormalizeText(t, b))
  {
    UnchangedIffTagFree(a);
    UnchangedIffTagFree(b);
    UnchangedIffTagFree(a + [c] + b);
    KeepOrBlankAround(t, a, c, b);
    JoinedFieldsGlue(t.space, KeepOrBlank(t, a), ' ', KeepOrBlank(t, b));
  }

  /** A run of characters that remain is one word, and it is lowered. */
  lemma WordIsLowered(t: Text, w: string)
    requires Lawful(t) && Literal(t, w) && forall i :: 0 <= i < |w| ==> Remains(t, t.lower(w[i]))
    ensures |NormalizeText(t, w)| == |w|
    ensures forall i :: 0 <= i < |w| ==> NormalizeText(t, w)[i] == t.lower(w[i])
  {
    UnchangedIffTagFree(w);
    var kept := KeepOrBlank(t, w);
    forall i | 0 <= i < |w| ensures kept[i] == t.lower(w[i]) && !t.space(kept[i]) {
      KeptIffRemains(t, t.lower(w[i]));
    }
    if |w| > 0 {
      assert WordLength(t.space, kept) == |kept|;
      FieldsOfOneWord(t, kept);
    }
  }

  /** StripHTML splits at white space only and leaves words as they are. */
  lemma SpaceSplitsHTML(t: Text, a: string, c: char, b: string)
    requires Literal(t, a) && Literal(t, b) && Literal(t, a + [c] + b) && t.space(c)
    ensures StripHTML(t, a + [c] + b) == Glue(StripHTML(t, a), StripHTML(t, b))
  {
    UnchangedIffTagFree(a);
    UnchangedIffTagFree(b);
    UnchangedIffTagFree(a + [c] + b);
    JoinedFieldsGlue(t.space, a, c, b);
  }

  lemma WordStaysInHTML(t: Text, w: string)
    requires Literal(t, w) && forall i :: 0 <= i < |w| ==> !t.space(w[i])
    ensures StripHTML(t, w) == w
  {
    UnchangedIffTagFree(w);
    if |w| > 0 {
      assert WordLength(t.space, w) == |w|;
      FieldsOfOneWord(t, w);
    }
  }

  // ---- skills ----

  lemma AliasFamilies(text: string)
    ensures Alias(text) == "go" <==> text in {"go", "golang", "go lang"}
    ensures Alias(text) == "javascript" <==> text in {"javascript", "js"}
    ensures Alias(text) == "typescript" <==> text in {"typescript", "ts"}
    ensures Alias(text) == "nodejs" <==> text in {"nodejs", "node", "node.js"}
    ensures Alias(text) == "postgresql" <==> text in {"postgresql", "postgres"}
    ensures Alias(text) == "python" <==> text in {"python", "py"}
    ensures Alias(text) == "kubernetes" <==> text in {"kubernetes", "k8s"}
    ensures Alias(text) == "docker-compose" <==> text in {"docker-compose", "docker compose"}
    ensures Alias(text) in {"go", "javascript", "typescript", "nodejs", "postgresql", "python", "kubernetes",
                            "docker-compose", text}
  {
  }

  /** Which normalised texts name each aliased skill; every other text names itself. */
  lemma SkillFamilies(t: Text, value: string)
    ensures var text, skill := NormalizeText(t, value), NormalizeSkill(t, value);
            && (skill == "go" <==> text in {"go", "golang", "go lang"})
            && (skill == "javascript" <==> text in {"javascript", "js"})
            && (skill == "typescript" <==> text in {"typescript", "ts"})
            && (skill == "nodejs" <==> text in {"nodejs", "node", "node.js"})
            && (skill == "postgresql" <==> text in {"postgresql", "postgres"})
            && (skill == "python" <==> text in {"python", "py"})
            && (skill == "kubernetes" <==> text in {"kubernetes", "k8s"})
            && (skill == "docker-compose" <==> text in {"docker-compose", "docker compose"})
            && skill in {"go", "javascript", "typescript", "nodejs", "postgresql", "python", "kubernetes",
                         "docker-compose", text}
  {
    AliasFamilies(NormalizeText(t, value));
  }
}
