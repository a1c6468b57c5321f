/**
 * Text, skill and list normalisation (internal/core/normalize.go).
 * Characters are runes. The HTML entity table and the Unicode tables are parameters; `Lawful` lists what
 * is assumed of them. Tag stripping, word splitting, joining, aliasing and list building are modelled in full.
 */
module Normalization {
  import opened Basics
  import opened Ordering

  /** The library tables: html.UnescapeString, unicode.ToLower, IsLetter || IsDigit, and IsSpace. */
  datatype Text = Text(unescape: string -> string, lower: char -> char, letterOrDigit: char -> bool,
                       space: char -> bool)

  const PUNCTUATION: string := "+#./-_"

  ghost predicate Lawful(t: Text) {
    && (forall s: string :: '&' !in s ==> t.unescape(s) == s)
    && (forall c :: t.lower(t.lower(c)) == t.lower(c))
    && (forall c :: 'a' <= c <= 'z' ==> t.lower(c) == c && t.letterOrDigit(c))
    && t.lower('-') == '-' && t.lower(' ') == ' '
    && t.space(' ') && (forall c :: c in PUNCTUATION ==> !t.space(c))
    && (forall c :: t.letterOrDigit(c) ==> !t.space(c) && c != '&' && c != '<' && c != ',' && c != '\0')
  }

  predicate Kept(t: Text, c: char) {
    t.letterOrDigit(c) || c in PUNCTUATION
  }

  // ---- the stages of NormalizeText ----

  /** Replaces each leftmost `<...>` by one space; a `<` with no `>` after it matches nothing. */
  function StripTags(s: string): string {
    if s == [] then []
    else if s[0] == '<' then
      var k := IndexOf(s, '>');
      if k < |s| then [' '] + StripTags(s[k + 1..]) else s
    else [s[0]] + StripTags(s[1..])
  }

  function KeepOrBlank(t: Text, s: string): (r: string)
    ensures |r| == |s|
    ensures forall i :: 0 <= i < |s| ==> r[i] == if Kept(t, t.lower(s[i])) then t.lower(s[i]) else ' '
  {
    seq(|s|, i requires 0 <= i < |s| => if Kept(t, t.lower(s[i])) then t.lower(s[i]) else ' ')
  }

  function WordLength(space: char -> bool, s: string): (n: nat)
    ensures n <= |s|
    ensures forall i :: 0 <= i < n ==> !space(s[i])
    ensures n < |s| ==> space(s[n])
  {
    if s == [] || space(s[0]) then 0 else 1 + WordLength(space, s[1..])
  }

  function Fields(space: char -> bool, s: string): seq<string>
    decreases |s|
  {
    if s == [] then []
    else if space(s[0]) then Fields(space, s[1..])
    else
      var n := WordLength(space, s);
      [s[..n]] + Fields(space, s[n..])
  }

  function Join(words: seq<string>, separator: string): string {
    if words == [] then []
    else if |words| == 1 then words[0]
    else words[0] + separator + Join(words[1..], separator)
  }

  function NormalizeText(t: Text, value: string): string {
    Join(Fields(t.space, KeepOrBlank(t, StripTags(t.unescape(value)))), " ")
  }

  function StripHTML(t: Text, value: string): string {
    Join(Fields(t.space, StripTags(t.unescape(value))), " ")
  }

  // ---- the image of NormalizeText ----

  /** Kept lower-case characters, and single spaces strictly inside. */
  ghost predicate Tidy(t: Text, s: string) {
    && (forall i :: 0 <= i < |s| ==> s[i] == ' ' || (Kept(t, s[i]) && t.lower(s[i]) == s[i]))
    && (s != [] ==> s[0] != ' ' && s[|s| - 1] != ' ')
    && (forall i :: 0 < i < |s| ==> !(s[i - 1] == ' ' && s[i] == ' '))
  }

  ghost predicate CleanWord(t: Text, w: string) {
    w != [] && forall i :: 0 <= i < |w| ==> Kept(t, w[i]) && t.lower(w[i]) == w[i]
  }

  lemma {:induction false} FieldsAreClean(t: Text, s: string)
    requires Lawful(t)
    requires forall i :: 0 <= i < |s| ==> s[i] == ' ' || (Kept(t, s[i]) && t.lower(s[i]) == s[i])
    ensures forall w :: w in Fields(t.space, s) ==> CleanWord(t, w)
    decreases |s|
  {
    if s == [] {
    } else if t.space(s[0]) {
      FieldsAreClean(t, s[1..]);
    } else {
      var n := WordLength(t.space, s);
      FieldsAreClean(t, s[n..]);
    }
  }

  lemma {:induction false} JoinIsTidy(t: Text, words: seq<string>)
    requires Lawful(t) && forall w :: w in words ==> CleanWord(t, w)
    ensures Tidy(t, Join(words, " "))
    ensures words != [] ==> Join(words, " ") != []
  {
    if |words| == 1 {
      assert CleanWord(t, words[0]);
    } else if |words| > 1 {
      JoinIsTidy(t, words[1..]);
      assert CleanWord(t, words[0]);
      var tail := Join(words[1..], " ");
      var whole := Join(words, " ");
      assert whole == words[0] + [' '] + tail;
      assert whole[|whole| - 1] == tail[|tail| - 1];
    }
  }

  lemma {:induction false} TidySuffix(t: Text, s: string, n: nat)
    requires Tidy(t, s) && n <= |s| && (n < |s| ==> s[n] != ' ')
    ensures Tidy(t, s[n..])
  {
  }

  /** The first word of a text, then the words after the blank that ends it. */
  lemma FieldsAfterWord(t: Text, s: string, n: nat)
    requires n == WordLength(t.space, s) && 0 < n < |s|
    ensures Fields(t.space, s) == [s[..n]] + Fields(t.space, s[n + 1..])
  {
    var tail := s[n..];
    assert tail[0] == s[n] && t.space(tail[0]) && tail[1..] == s[n + 1..];
    assert Fields(t.space, tail) == Fields(t.space, s[n + 1..]);
    assert !t.space(s[0]);
  }

  lemma TidyFirstWord(t: Text, s: string, n: nat)
    requires Lawful(t) && Tidy(t, s) && s != [] && n == WordLength(t.space, s)
    ensures 0 < n
    ensures n < |s| ==> s[n] == ' ' && n + 1 < |s| && s[n + 1] != ' '
  {
  }

  lemma FieldsOfOneWord(t: Text, s: string)
    requires s != [] && WordLength(t.space, s) == |s|
    ensures Fields(t.space, s) == [s]
  {
    assert s[..|s|] == s && s[|s|..] == [];
    assert Fields(t.space, s) == [s] + Fields(t.space, []);
  }

  /** Splitting a tidy text into words and joining them again changes nothing. */
  lemma {:induction false} JoinOfFields(t: Text, s: string)
    requires Lawful(t) && Tidy(t, s)
    ensures Join(Fields(t.space, s), " ") == s
    ensures s != [] ==> Fields(t.space, s) != []
    decreases |s|
  {
    if s != [] {
      var n := WordLength(t.space, s);
      TidyFirstWord(t, s, n);
      if n == |s| {
        FieldsOfOneWord(t, s);
      } else {
        TidySuffix(t, s, n + 1);
        JoinOfFields(t, s[n + 1..]);
        JoinAfterWord(t, s, n);
      }
    }
  }

  lemma JoinAfterWord(t: Text, s: string, n: nat)
    requires n == WordLength(t.space, s) && 0 < n < |s| && s[n] == ' '
    requires Join(Fields(t.space, s[n + 1..]), " ") == s[n + 1..] && Fields(t.space, s[n + 1..]) != []
    ensures Join(Fields(t.space, s), " ") == s && Fields(t.space, s) != []
  {
    FieldsAfterWord(t, s, n);
    JoinCons(s[..n], Fields(t.space, s[n + 1..]));
    CutAt(s, n);
  }

  lemma CutAt(s: string, n: nat)
    requires n < |s|
    ensures s == s[..n] + [s[n]] + s[n + 1..]
  {
  }

  lemma JoinCons(word: string, words: seq<string>)
    requires words != []
    ensures Join([word] + words, " ") == word + " " + Join(words, " ")
  {
  }

  lemma {:induction false} StripTagsWithoutTags(s: string)
    requires '<' !in s
    ensures StripTags(s) == s
  {
    if s != [] {
      StripTagsWithoutTags(s[1..]);
      assert s == [s[0]] + s[1..];
    }
  }

  lemma NormalizeTextIsTidy(t: Text, value: string)
    requires Lawful(t)
    ensures Tidy(t, NormalizeText(t, value))
  {
    var kept := KeepOrBlank(t, StripTags(t.unescape(value)));
    FieldsAreClean(t, kept);
    JoinIsTidy(t, Fields(t.space, kept));
  }

  lemma TidyIsFixed(t: Text, s: string)
    requires Lawful(t) && Tidy(t, s)
    ensures NormalizeText(t, s) == s
  {
    TidyHasNoMarkup(t, s);
    StripTagsWithoutTags(s);
    KeepOrBlankOfTidy(t, s);
    JoinOfFields(t, s);
  }

  lemma TidyHasNoMarkup(t: Text, s: string)
    requires Lawful(t) && Tidy(t, s)
    ensures '&' !in s && '<' !in s && ',' !in s && '\0' !in s
  {
  }

  lemma KeepOrBlankOfTidy(t: Text, s: string)
    requires Lawful(t) && Tidy(t, s)
    ensures KeepOrBlank(t, s) == s
  {
  }

  /** The normal forms are exactly the tidy texts. */
  lemma NormalFormsAreTidyTexts(t: Text, s: string)
    requires Lawful(t)
    ensures NormalizeText(t, s) == s <==> Tidy(t, s)
  {
    NormalizeTextIsTidy(t, s);
    if Tidy(t, s) { TidyIsFixed(t, s); }
  }

  lemma NormalizeTextIdempotent(t: Text, value: string)
    requires Lawful(t)
    ensures NormalizeText(t, NormalizeText(t, value)) == NormalizeText(t, value)
  {
    NormalizeTextIsTidy(t, value);
    TidyIsFixed(t, NormalizeText(t, value));
  }

  // ---- skills ----

  const SKILL_ALIASES: map<string, string> := map[
    "golang" := "go",
    "go lang" := "go",
    "js" := "javascript",
    "ts" := "typescript",
    "node" := "nodejs",
    "node.js" := "nodejs",
    "postgres" := "postgresql",
    "postgresql" := "postgresql",
    "py" := "python",
    "k8s" := "kubernetes",
    "docker compose" := "docker-compose"
  ]

  function Alias(text: string): string {
    if text in SKILL_ALIASES then SKILL_ALIASES[text] else text
  }

  function NormalizeSkill(t: Text, value: string): string {
    Alias(NormalizeText(t, value))
  }

  predicate PlainAscii(s: string) {
    s != "" && forall i :: 0 <= i < |s| ==> 'a' <= s[i] <= 'z' || s[i] == '-'
  }

  lemma PlainAsciiIsTidy(t: Text, s: string)
    requires Lawful(t) && PlainAscii(s)
    ensures Tidy(t, s)
  {
  }

  lemma AliasTargetIsPlain(key: string)
    requires key in SKILL_ALIASES
    ensures PlainAscii(SKILL_ALIASES[key])
  {
  }

  lemma AliasTargetsAreFinal(key: string)
    requires key in SKILL_ALIASES
    ensures Alias(SKILL_ALIASES[key]) == SKILL_ALIASES[key]
  {
  }

  /** No alias leads to another alias, and every target is itself normalised text. */
  lemma AliasTargets(t: Text, key: string)
    requires Lawful(t) && key in SKILL_ALIASES
    ensures Alias(SKILL_ALIASES[key]) == SKILL_ALIASES[key]
    ensures Tidy(t, SKILL_ALIASES[key])
  {
    AliasTargetsAreFinal(key);
    AliasTargetIsPlain(key);
    PlainAsciiIsTidy(t, SKILL_ALIASES[key]);
  }

  lemma NormalizeSkillIdempotent(t: Text, value: string)
    requires Lawful(t)
    ensures NormalizeSkill(t, NormalizeSkill(t, value)) == NormalizeSkill(t, value)
    ensures Tidy(t, NormalizeSkill(t, value))
  {
    var text := NormalizeText(t, value);
    NormalizeTextIsTidy(t, value);
    if text in SKILL_ALIASES { AliasTargets(t, text); }
    TidyIsFixed(t, Alias(text));
  }

  // ---- lists ----

  /** The non-empty normalised items of a list. */
  function Items(t: Text, values: seq<string>): set<string> {
    set v | v in values && NormalizeSkill(t, v) != "" :: NormalizeSkill(t, v)
  }

  /** The canonical list: strictly sorted, with exactly these items. */
  function NormalizedList(t: Text, values: seq<string>): (r: seq<string>)
    ensures StrictlySorted(r)
    ensures forall x :: x in r <==> x in Items(t, values)
  {
    if values == [] then []
    else
      var rest := NormalizedList(t, values[1..]);
      var skill := NormalizeSkill(t, values[0]);
      ItemsOfCons(t, values);
      if skill == "" then rest else InsertNew(skill, rest)
  }

  lemma ItemsOfCons(t: Text, values: seq<string>)
    requires values != []
    ensures Items(t, values) == Items(t, values[1..])
                                + (if NormalizeSkill(t, values[0]) == "" then {} else {NormalizeSkill(t, values[0])})
  {
  }

  function InsertNew(x: string, xs: seq<string>): (r: seq<string>)
    requires StrictlySorted(xs)
    ensures StrictlySorted(r)
    ensures forall y :: y in r <==> y == x || y in xs
  {
    if xs == [] then [x]
    else if x == xs[0] then xs
    else if Less(x, xs[0]) then
      InsertFront(x, xs);
      [x] + xs
    else
      var rest := InsertNew(x, xs[1..]);
      LessIsStrictAndTotal(x, xs[0]);
      assert forall y :: y in rest ==> Less(xs[0], y);
      [xs[0]] + rest
  }

  lemma InsertFront(x: string, xs: seq<string>)
    requires StrictlySorted(xs) && xs != [] && Less(x, xs[0])
    ensures StrictlySorted([x] + xs)
  {
    forall j | 0 <= j < |xs| ensures Less(x, xs[j]) {
      if j > 0 { LessTransitive(x, xs[0], xs[j]); }
    }
  }

  /** The source's loop: a seen set, an output slice, then an in-place sort. */
  method NormalizeStringList(t: Text, values: seq<string>) returns (r: seq<string>)
    ensures r == NormalizedList(t, values)
  {
    if |values| == 0 { return []; }
    var seen: set<string> := {};
    var out: seq<string> := [];
    for i := 0 to |values|
      invariant seen == Items(t, values[..i])
      invariant forall x :: x in out <==> x in seen
      invariant forall j, k :: 0 <= j < k < |out| ==> out[j] != out[k]
    {
      var value := NormalizeSkill(t, values[i]);
      ItemsOfSnoc(t, values[..i], values[i]);
      assert values[..i + 1] == values[..i] + [values[i]];
      if value != "" && value !in seen {
        seen := seen + {value};
        out := out + [value];
      }
    }
    assert values[..|values|] == values;
    r := Sort(AtMost(), out);
    AtMostIsTotalPreorder();
    SortSorts(AtMost(), out);
    SortKeepsDistinct(out, r);
    SortedDistinctIsStrict(r);
    forall x ensures x in r <==> x in NormalizedList(t, values) {
      assert x in multiset(r) <==> x in multiset(out);
    }
    StrictlySortedIsUnique(r, NormalizedList(t, values));
  }

  lemma ItemsOfSnoc(t: Text, values: seq<string>, v: string)
    ensures Items(t, values + [v])
         == Items(t, values) + (if NormalizeSkill(t, v) == "" then {} else {NormalizeSkill(t, v)})
  {
  }

  lemma {:induction false} DistinctIffMultiset(xs: seq<string>)
    ensures (forall j, k :: 0 <= j < k < |xs| ==> xs[j] != xs[k]) <==> (forall x :: x in xs ==> multiset(xs)[x] == 1)
  {
    if xs != [] {
      var tail := xs[1..];
      DistinctIffMultiset(tail);
      assert xs == [xs[0]] + tail;
      assert multiset(xs) == multiset{xs[0]} + multiset(tail);
      if forall x :: x in xs ==> multiset(xs)[x] == 1 {
        assert xs[0] in xs && multiset(xs)[xs[0]] == 1;
        assert xs[0] !in multiset(tail);
        forall x | x in tail ensures multiset(tail)[x] == 1 { assert x in xs; assert x in multiset(tail); }
      }
    }
  }

  lemma SortKeepsDistinct(xs: seq<string>, ys: seq<string>)
    requires multiset(xs) == multiset(ys)
    requires forall j, k :: 0 <= j < k < |xs| ==> xs[j] != xs[k]
    ensures forall j, k :: 0 <= j < k < |ys| ==> ys[j] != ys[k]
  {
    DistinctIffMultiset(xs);
    DistinctIffMultiset(ys);
    forall y | y in ys ensures multiset(ys)[y] == 1 { assert y in multiset(ys); assert y in multiset(xs); }
  }

  /** Canonical form: two lists normalise alike iff they name the same items. */
  lemma NormalizedListIsCanonical(t: Text, a: seq<string>, b: seq<string>)
    ensures NormalizedList(t, a) == NormalizedList(t, b) <==> Items(t, a) == Items(t, b)
  {
    var la, lb := NormalizedList(t, a), NormalizedList(t, b);
    if la == lb {
      forall x ensures x in Items(t, a) <==> x in Items(t, b) { assert x in la <==> x in lb; }
    } else if Items(t, a) == Items(t, b) {
      StrictlySortedIsUnique(la, lb);
    }
  }

  lemma NormalizedListIdempotent(t: Text, values: seq<string>)
    requires Lawful(t)
    ensures NormalizedList(t, NormalizedList(t, values)) == NormalizedList(t, values)
  {
    var once := NormalizedList(t, values);
    forall x ensures x in Items(t, once) <==> x in Items(t, values) {
      if x in once {
        var v :| v in values && NormalizeSkill(t, v) == x && x != "";
        NormalizeSkillIdempotent(t, v);
      }
      if x in Items(t, once) {
        var y :| y in once && NormalizeSkill(t, y) == x && x != "";
        var v :| v in values && NormalizeSkill(t, v) == y && y != "";
        NormalizeSkillIdempotent(t, v);
      }
    }
    NormalizedListIsCanonical(t, once, values);
  }

  // ---- the assumptions are satisfiable ----

  /** The tables cut down to ASCII, with no HTML entities. */
  function Ascii(): Text {
    Text(s => s,
         c => if 'A' <= c <= 'Z' then (c as int + 32) as char else c,
         c => 'a' <= c <= 'z' || 'A' <= c <= 'Z' || '0' <= c <= '9',
         c => c == ' ' || '\t' <= c <= '\r')
  }

  lemma AsciiIsLawful()
    ensures Lawful(Ascii())
  {
  }
}
