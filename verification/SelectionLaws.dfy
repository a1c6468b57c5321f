/** Which resume a vacancy gets when none is named, stated from the vacancy's texts. */
module SelectionLaws {
  import opened Basics
  import opened Entities
  import opened Normalization
  import opened TextLaws
  import opened ResumeSelection
  import Ordering
  import Scoring
  import ScoreLaws

  // ---- the text that is searched ----

  /** The non-empty parts with one blank between them. */
  function GlueAll(parts: seq<string>): string {
    if parts == [] then "" else Glue(parts[0], GlueAll(parts[1..]))
  }

  /** Every text that counts, normalised: the title twice, the three long texts, the skills, the match's reasons. */
  function Parts(t: Text, v: VacancyDetails, reasons: seq<string>): seq<string> {
    [NormalizeText(t, v.normalizedTitle), NormalizeText(t, v.title), NormalizeText(t, v.description),
     NormalizeText(t, v.requirements), NormalizeText(t, v.responsibilities),
     Join(NormalizedList(t, v.skills), " ")] + NormalizedReasons(t, reasons)
  }

  function NormalizedReasons(t: Text, reasons: seq<string>): seq<string> {
    seq(|reasons|, i requires 0 <= i < |reasons| => NormalizeText(t, reasons[i]))
  }

  function WholeText(t: Text, v: VacancyDetails, reasons: seq<string>): string {
    GlueAll(Parts(t, v, reasons))
  }

  lemma {:induction false} NoMarkupAhead(parts: seq<string>, c: char)
    requires c != ' ' && forall x :: x in parts ==> c !in x
    ensures c !in Join(parts, " ")
  {
    if |parts| > 1 {
      assert forall x :: x in parts[1..] ==> x in parts;
      NoMarkupAhead(parts[1..], c);
    }
  }

  lemma WithoutMarkupIsLiteral(t: Text, s: string)
    requires Lawful(t) && '&' !in s && '<' !in s
    ensures Literal(t, s)
  {
  }

  /** Normalising the joined parts once more only squeezes the blanks that empty parts leave. */
  lemma {:induction false} NormalizeJoined(t: Text, parts: seq<string>)
    requires Lawful(t) && forall x :: x in parts ==> Tidy(t, x)
    ensures NormalizeText(t, Join(parts, " ")) == GlueAll(parts)
  {
    if |parts| == 0 {
      NothingIsNothing(t);
    } else {
      assert parts[0] in parts && forall x :: x in parts[1..] ==> x in parts;
      TidyIsFixed(t, parts[0]);
      if |parts| == 1 {
        assert parts[1..] == [];
      } else {
        NormalizeJoined(t, parts[1..]);
        SplitAtFirst(t, parts);
      }
    }
  }

  lemma NormalizeAroundBlank(t: Text, a: string, b: string)
    requires Lawful(t) && '&' !in a && '<' !in a && '&' !in b && '<' !in b
    ensures NormalizeText(t, a + " " + b) == Glue(NormalizeText(t, a), NormalizeText(t, b))
  {
    WithoutMarkupIsLiteral(t, a);
    WithoutMarkupIsLiteral(t, b);
    WithoutMarkupIsLiteral(t, a + [' '] + b);
    BlankSeparates(t);
    SeparatorSplits(t, a, ' ', b);
  }

  lemma TidyPartsHaveNoMarkup(t: Text, parts: seq<string>)
    requires Lawful(t) && forall x :: x in parts ==> Tidy(t, x)
    ensures forall x :: x in parts ==> '&' !in x && '<' !in x
  {
    forall x | x in parts ensures '&' !in x && '<' !in x { TidyHasNoMarkup(t, x); }
  }

  lemma SplitAtFirst(t: Text, parts: seq<string>)
    requires Lawful(t) && |parts| > 1 && forall x :: x in parts ==> Tidy(t, x)
    ensures NormalizeText(t, Join(parts, " "))
            == Glue(NormalizeText(t, parts[0]), NormalizeText(t, Join(parts[1..], " ")))
  {
    TidyPartsHaveNoMarkup(t, parts);
    assert parts[0] in parts && forall x :: x in parts[1..] ==> x in parts;
    NoMarkupAhead(parts[1..], '&');
    NoMarkupAhead(parts[1..], '<');
    NormalizeAroundBlank(t, parts[0], Join(parts[1..], " "));
  }

  lemma BlankSeparates(t: Text)
    requires Lawful(t)
    ensures !Remains(t, t.lower(' '))
  {
  }

  lemma {:induction false} JoinSnoc(parts: seq<string>, last: string)
    requires parts != []
    ensures Join(parts + [last], " ") == Join(parts, " ") + " " + last
  {
    if |parts| > 1 {
      assert (parts + [last])[1..] == parts[1..] + [last];
      JoinSnoc(parts[1..], last);
      var tail := Join(parts[1..], " ");
      assert parts[0] + " " + (tail + " " + last) == (parts[0] + " " + tail) + " " + last;
    } else {
      assert (parts + [last])[1..] == [last];
    }
  }

  lemma NormalizedReasonsSnoc(t: Text, parts: seq<string>, reasons: seq<string>)
    requires reasons != []
    ensures var n := |reasons| - 1;
            parts + NormalizedReasons(t, reasons)
            == (parts + NormalizedReasons(t, reasons[..n])) + [NormalizeText(t, reasons[n])]
  {
  }

  lemma AppendAfter(a: string, b: string, c: string)
    ensures a + (b + " " + c) == (a + b) + " " + c
  {
  }

  lemma {:induction false} ReasonsAreParts(t: Text, parts: seq<string>, reasons: seq<string>)
    requires parts != []
    ensures Join(parts, " ") + Reasons(t, reasons) == Join(parts + NormalizedReasons(t, reasons), " ")
  {
    if |reasons| == 0 {
      assert parts + NormalizedReasons(t, reasons) == parts;
      assert Join(parts, " ") + [] == Join(parts, " ");
    } else {
      var n := |reasons| - 1;
      var last := NormalizeText(t, reasons[n]);
      ReasonsAreParts(t, parts, reasons[..n]);
      NormalizedReasonsSnoc(t, parts, reasons);
      JoinSnoc(parts + NormalizedReasons(t, reasons[..n]), last);
      AppendAfter(Join(parts, " "), Reasons(t, reasons[..n]), last);
    }
  }

  lemma PartsAreTidy(t: Text, v: VacancyDetails, reasons: seq<string>)
    requires Lawful(t)
    ensures forall x :: x in Parts(t, v, reasons) ==> Tidy(t, x)
  {
    forall value ensures Tidy(t, NormalizeText(t, value)) { NormalizeTextIsTidy(t, value); }
    forall x | x in NormalizedList(t, v.skills) ensures TidyItem(t, x) { ListItemsAreTidy(t, v.skills, x); }
    JoinOfTidyIsTidy(t, NormalizedList(t, v.skills));
  }

  ghost predicate TidyItem(t: Text, x: string) {
    x != "" && Tidy(t, x)
  }

  lemma ListItemsAreTidy(t: Text, values: seq<string>, x: string)
    requires Lawful(t) && x in NormalizedList(t, values)
    ensures TidyItem(t, x)
  {
    var value :| value in values && NormalizeSkill(t, value) == x && x != "";
    NormalizeSkillIdempotent(t, value);
  }

  lemma {:induction false} JoinOfTidyIsTidy(t: Text, parts: seq<string>)
    requires forall x :: x in parts ==> TidyItem(t, x)
    ensures Tidy(t, Join(parts, " "))
    ensures parts != [] ==> Join(parts, " ") != ""
  {
    if |parts| > 0 {
      assert parts[0] in parts && forall x :: x in parts[1..] ==> x in parts;
      JoinOfTidyIsTidy(t, parts[1..]);
      if |parts| > 1 { TidyAroundBlank(t, parts[0], Join(parts[1..], " ")); }
    }
  }

  lemma TidyAroundBlank(t: Text, a: string, b: string)
    requires TidyItem(t, a) && TidyItem(t, b)
    ensures Tidy(t, a + " " + b)
  {
    var s := a + " " + b;
    assert forall i :: 0 <= i < |s| ==> s[i] == if i < |a| then a[i] else if i == |a| then ' ' else b[i - |a| - 1];
  }

  /** The selector's search text, normalised, is the whole text. */
  lemma BlobIsWholeText(t: Text, v: VacancyDetails, reasons: seq<string>, blob: string)
    requires Lawful(t)
    requires blob == Join([NormalizeText(t, v.normalizedTitle), NormalizeText(t, v.title),
                           NormalizeText(t, v.description), NormalizeText(t, v.requirements),
                           NormalizeText(t, v.responsibilities), Join(NormalizedList(t, v.skills), " ")], " ")
                     + Reasons(t, reasons)
    ensures NormalizeText(t, blob) == WholeText(t, v, reasons)
  {
    var fields := [NormalizeText(t, v.normalizedTitle), NormalizeText(t, v.title), NormalizeText(t, v.description),
                   NormalizeText(t, v.requirements), NormalizeText(t, v.responsibilities),
                   Join(NormalizedList(t, v.skills), " ")];
    ReasonsAreParts(t, fields, reasons);
    assert fields + NormalizedReasons(t, reasons) == Parts(t, v, reasons);
    PartsAreTidy(t, v, reasons);
    NormalizeJoined(t, Parts(t, v, reasons));
  }

  // ---- words in it ----

  lemma OccursAcrossBlank(word: string, a: string, b: string)
    requires word != "" && ' ' !in word
    ensures Occurs(word, a + " " + b) <==> Occurs(word, a) || Occurs(word, b)
  {
    var s := a + " " + b;
    if Occurs(word, a) {
      var x, y :| a == x + word + y;
      assert s == x + word + (y + " " + b);
    }
    if Occurs(word, b) {
      var x, y :| b == x + word + y;
      assert s == (a + " " + x) + word + y;
    }
    if Occurs(word, s) {
      var x, y :| s == x + word + y;
      OnOneSide(word, a, b, x, y);
    }
  }

  lemma CharOfWord(x: string, word: string, y: string, k: int)
    requires |x| <= k < |x| + |word|
    ensures (x + word + y)[k] in word
  {
    assert (x + word + y)[k] == word[k - |x|];
  }

  lemma OnOneSide(word: string, a: string, b: string, x: string, y: string)
    requires word != "" && ' ' !in word && a + " " + b == x + word + y
    ensures Occurs(word, a) || Occurs(word, b)
  {
    var s := x + word + y;
    assert s[|a|] == ' ';
    if |x| + |word| <= |a| {
      assert a == s[..|a|] == x + word + a[|x| + |word|..];
    } else if |a| < |x| {
      assert b == s[|a| + 1..] == b[..|x| - |a| - 1] + word + y;
    } else {
      CharOfWord(x, word, y, |a|);
    }
  }

  lemma OccursInNothing(word: string)
    requires word != ""
    ensures !Occurs(word, "")
  {
  }

  /** A word without blanks stands in the glued text iff it stands in one of the parts. */
  lemma {:induction false} OccursInParts(word: string, parts: seq<string>)
    requires word != "" && ' ' !in word
    ensures Occurs(word, GlueAll(parts)) <==> exists part :: part in parts && Occurs(word, part)
  {
    OccursInNothing(word);
    if |parts| > 0 {
      OccursInParts(word, parts[1..]);
      OccursAcrossBlank(word, parts[0], GlueAll(parts[1..]));
      assert parts == [parts[0]] + parts[1..];
      assert forall part :: part in parts <==> part == parts[0] || part in parts[1..];
    }
  }

  lemma {:induction false} JoinIsGlueAll(items: seq<string>)
    requires forall x :: x in items ==> x != ""
    ensures Join(items, " ") == GlueAll(items)
    ensures items != [] ==> GlueAll(items) != ""
  {
    if |items| > 0 {
      assert items[0] in items && forall x :: x in items[1..] ==> x in items;
      JoinIsGlueAll(items[1..]);
    }
  }

  ghost predicate SkillMentions(t: Text, skills: seq<string>, word: string) {
    exists x :: x in skills && Occurs(word, NormalizeSkill(t, x))
  }

  ghost predicate ReasonMentions(t: Text, reasons: seq<string>, word: string) {
    exists x :: x in reasons && Occurs(word, NormalizeText(t, x))
  }

  lemma OccursInSkills(t: Text, skills: seq<string>, word: string)
    requires Lawful(t) && word != "" && ' ' !in word
    ensures Occurs(word, Join(NormalizedList(t, skills), " ")) <==> SkillMentions(t, skills, word)
  {
    var list := NormalizedList(t, skills);
    JoinIsGlueAll(list);
    OccursInParts(word, list);
    OccursInNothing(word);
    if SkillMentions(t, skills, word) {
      var x :| x in skills && Occurs(word, NormalizeSkill(t, x));
      assert NormalizeSkill(t, x) in list;
    }
  }

  lemma OccursInReasons(t: Text, reasons: seq<string>, word: string)
    ensures (exists part :: part in NormalizedReasons(t, reasons) && Occurs(word, part))
            <==> ReasonMentions(t, reasons, word)
  {
    if x :| x in reasons && Occurs(word, NormalizeText(t, x)) {
      var i :| 0 <= i < |reasons| && reasons[i] == x;
      assert NormalizedReasons(t, reasons)[i] == NormalizeText(t, x);
    }
  }

  /** One of the vacancy's texts or skills, or one of the match's reasons, has the word, once normalised. */
  ghost predicate MentionsWord(t: Text, v: VacancyDetails, reasons: seq<string>, word: string) {
    || Occurs(word, NormalizeText(t, v.normalizedTitle)) || Occurs(word, NormalizeText(t, v.title))
    || Occurs(word, NormalizeText(t, v.description)) || Occurs(word, NormalizeText(t, v.requirements))
    || Occurs(word, NormalizeText(t, v.responsibilities))
    || SkillMentions(t, v.skills, word) || ReasonMentions(t, reasons, word)
  }

  lemma WordInWholeText(t: Text, v: VacancyDetails, reasons: seq<string>, word: string)
    requires Lawful(t) && word != "" && ' ' !in word
    ensures Occurs(word, WholeText(t, v, reasons)) <==> MentionsWord(t, v, reasons, word)
  {
    OccursInParts(word, Parts(t, v, reasons));
    OccursInSkills(t, v.skills, word);
    OccursInReasons(t, reasons, word);
  }

  /** A phrase in one of the texts stands in the whole text too, blanks and all. */
  lemma {:induction false} PhraseInWhole(phrase: string, parts: seq<string>, k: nat)
    requires k < |parts| && phrase != "" && Occurs(phrase, parts[k])
    ensures Occurs(phrase, GlueAll(parts))
  {
    OccursInNothing(phrase);
    var rest := GlueAll(parts[1..]);
    if k == 0 {
      var x, y :| parts[0] == x + phrase + y;
      assert parts[0] + " " + rest == x + phrase + (y + " " + rest);
    } else {
      PhraseInWhole(phrase, parts[1..], k - 1);
      var x, y :| rest == x + phrase + y;
      assert parts[0] + " " + rest == (parts[0] + " " + x) + phrase + y;
    }
  }

  // ---- the role it names ----

  /** An active resume of this role if there is one, else an active general one, else none. */
  ghost predicate Serves(resumes: seq<Resume>, role: TargetRole, r: Result<Resume, SelectionError>) {
    var wanted := if HasActive(resumes, role) then role else GeneralBackend;
    if HasActive(resumes, wanted)
    then r.Ok? && r.value in resumes && r.value.isActive && r.value.targetRole == wanted
    else r == Err(NoSuitableResume)
  }

  ghost predicate HasActive(resumes: seq<Resume>, role: TargetRole) {
    exists x :: x in resumes && x.isActive && x.targetRole == role
  }

  /** The phrases may run across the end of one text into the next. */
  ghost predicate MentionsAnalyst(t: Text, v: VacancyDetails, reasons: seq<string>) {
    var whole := WholeText(t, v, reasons);
    || Occurs("system analyst", whole) || Occurs("systems analyst", whole) || Occurs("business analyst", whole)
    || Occurs(NormalizeText(t, "системный аналитик"), whole)
  }

  ghost predicate MentionsPython(t: Text, v: VacancyDetails, reasons: seq<string>) {
    || MentionsWord(t, v, reasons, "python") || MentionsWord(t, v, reasons, "django")
    || MentionsWord(t, v, reasons, "flask") || MentionsWord(t, v, reasons, "fastapi")
    || MentionsWord(t, v, reasons, "pandas") || MentionsWord(t, v, reasons, "sqlalchemy")
  }

  ghost predicate MentionsGo(t: Text, v: VacancyDetails, reasons: seq<string>) {
    || MentionsWord(t, v, reasons, "go") || MentionsWord(t, v, reasons, "grpc")
    || MentionsWord(t, v, reasons, "microservice")
  }

  /** Letters a to z, with single blanks between them. */
  ghost predicate Phrase(s: string) {
    && s != "" && s[0] != ' ' && s[|s| - 1] != ' '
    && (forall i :: 0 <= i < |s| ==> 'a' <= s[i] <= 'z' || s[i] == ' ')
    && (forall i :: 0 < i < |s| ==> s[i - 1] != ' ' || s[i] != ' ')
  }

  lemma PhraseIsFixed(t: Text, s: string)
    requires Lawful(t) && Phrase(s)
    ensures NormalizeText(t, s) == s
  {
    assert Tidy(t, s);
    TidyIsFixed(t, s);
  }

  lemma SystemNeedlesArePhrases()
    ensures Phrase("system analyst") && Phrase("systems analyst")
  {
  }

  lemma BusinessNeedlesArePhrases()
    ensures Phrase("business analyst") && Phrase("business system analyst")
  {
  }

  lemma AnalystNeedles(t: Text)
    requires Lawful(t)
    ensures NormalizeText(t, "system analyst") == "system analyst"
    ensures NormalizeText(t, "systems analyst") == "systems analyst"
    ensures NormalizeText(t, "business analyst") == "business analyst"
    ensures NormalizeText(t, "business system analyst") == "business system analyst"
  {
    SystemNeedlesArePhrases();
    BusinessNeedlesArePhrases();
    PhraseIsFixed(t, "system analyst");
    PhraseIsFixed(t, "systems analyst");
    PhraseIsFixed(t, "business analyst");
    PhraseIsFixed(t, "business system analyst");
  }

  predicate Word(s: string) {
    s != "" && forall i :: 0 <= i < |s| ==> 'a' <= s[i] <= 'z'
  }

  lemma PythonNeedlesAreWords()
    ensures Word("python")
    ensures Word("django")
    ensures Word("flask")
    ensures Word("fastapi")
    ensures Word("pandas")
    ensures Word("sqlalchemy")
  {
  }

  lemma GoNeedlesAreWords()
    ensures Word("go")
    ensures Word("golang")
    ensures Word("grpc")
    ensures Word("microservice")
    ensures Word("microservices")
  {
  }

  lemma NeedleInTexts(t: Text, v: VacancyDetails, reasons: seq<string>, word: string)
    requires Lawful(t) && Word(word)
    ensures Occurs(NormalizeText(t, word), WholeText(t, v, reasons)) <==> MentionsWord(t, v, reasons, word)
  {
    assert Phrase(word);
    PhraseIsFixed(t, word);
    WordInWholeText(t, v, reasons, word);
  }

  lemma LongerNeedleInTexts(t: Text, v: VacancyDetails, reasons: seq<string>, longer: string, word: string)
    requires Lawful(t) && Word(longer) && Word(word) && Occurs(word, longer)
    ensures Occurs(NormalizeText(t, longer), WholeText(t, v, reasons)) ==> MentionsWord(t, v, reasons, word)
  {
    NeedleInTexts(t, v, reasons, word);
    assert Phrase(word) && Phrase(longer);
    PhraseIsFixed(t, word);
    PhraseIsFixed(t, longer);
    if Occurs(longer, WholeText(t, v, reasons)) { ScoreLaws.OccursInside(word, longer, WholeText(t, v, reasons)); }
  }

  lemma LongerGoNeedles()
    ensures Occurs("go", "golang") && Occurs("microservice", "microservices")
  {
    assert "golang" == "" + "go" + "lang";
    assert "microservices" == "" + "microservice" + "s";
  }

  lemma BusinessSystemAnalyst(s: string)
    requires Occurs("business system analyst", s)
    ensures Occurs("system analyst", s)
  {
    assert "business system analyst" == "business " + "system analyst" + "";
    ScoreLaws.OccursInside("system analyst", "business system analyst", s);
  }

  lemma AnyMeansOccurs(t: Text, blob: string, whole: string, needles: seq<string>)
    requires NormalizeText(t, blob) == whole
    ensures MentionsAny(t, blob, needles)
            <==> exists needle :: needle in needles && Occurs(NormalizeText(t, needle), whole)
  {
    forall part ensures Scoring.Contains(whole, part) <==> Occurs(part, whole) {
      ScoreLaws.ContainsMeansOccurs(whole, part);
    }
  }

  lemma AnyOfFive(t: Text, blob: string, whole: string, a: string, b: string, c: string, d: string, e: string)
    requires NormalizeText(t, blob) == whole
    ensures MentionsAny(t, blob, [a, b, c, d, e])
            <==> || Occurs(NormalizeText(t, a), whole) || Occurs(NormalizeText(t, b), whole)
                 || Occurs(NormalizeText(t, c), whole) || Occurs(NormalizeText(t, d), whole)
                 || Occurs(NormalizeText(t, e), whole)
  {
    AnyMeansOccurs(t, blob, whole, [a, b, c, d, e]);
    assert forall x :: x in [a, b, c, d, e] <==> x == a || x == b || x == c || x == d || x == e;
  }

  lemma AnyOfSix(t: Text, blob: string, whole: string, a: string, b: string, c: string, d: string, e: string, f: string)
    requires NormalizeText(t, blob) == whole
    ensures MentionsAny(t, blob, [a, b, c, d, e, f])
            <==> || Occurs(NormalizeText(t, a), whole) || Occurs(NormalizeText(t, b), whole)
                 || Occurs(NormalizeText(t, c), whole) || Occurs(NormalizeText(t, d), whole)
                 || Occurs(NormalizeText(t, e), whole) || Occurs(NormalizeText(t, f), whole)
  {
    AnyMeansOccurs(t, blob, whole, [a, b, c, d, e, f]);
    assert forall x :: x in [a, b, c, d, e, f] <==> x == a || x == b || x == c || x == d || x == e || x == f;
  }

  lemma AnalystNeedlesMean(t: Text, v: VacancyDetails, reasons: seq<string>, blob: string)
    requires Lawful(t) && NormalizeText(t, blob) == WholeText(t, v, reasons)
    ensures MentionsAny(t, blob, ["system analyst", "systems analyst", "системный аналитик", "business analyst",
                                  "business system analyst"])
            <==> MentionsAnalyst(t, v, reasons)
  {
    var whole := WholeText(t, v, reasons);
    AnyOfFive(t, blob, whole, "system analyst", "systems analyst", "системный аналитик", "business analyst",
              "business system analyst");
    AnalystNeedles(t);
    if Occurs("business system analyst", whole) { BusinessSystemAnalyst(whole); }
  }

  lemma PythonNeedlesMean(t: Text, v: VacancyDetails, reasons: seq<string>, blob: string)
    requires Lawful(t) && NormalizeText(t, blob) == WholeText(t, v, reasons)
    ensures MentionsAny(t, blob, ["python", "django", "flask", "fastapi", "pandas", "sqlalchemy"])
            <==> MentionsPython(t, v, reasons)
  {
    AnyOfSix(t, blob, WholeText(t, v, reasons), "python", "django", "flask", "fastapi", "pandas", "sqlalchemy");
    PythonNeedlesAreWords();
    NeedleInTexts(t, v, reasons, "python");
    NeedleInTexts(t, v, reasons, "django");
    NeedleInTexts(t, v, reasons, "flask");
    NeedleInTexts(t, v, reasons, "fastapi");
    NeedleInTexts(t, v, reasons, "pandas");
    NeedleInTexts(t, v, reasons, "sqlalchemy");
  }

  lemma GoNeedlesMean(t: Text, v: VacancyDetails, reasons: seq<string>, blob: string)
    requires Lawful(t) && NormalizeText(t, blob) == WholeText(t, v, reasons)
    ensures MentionsAny(t, blob, ["go", "golang", "grpc", "microservice", "microservices"])
            <==> MentionsGo(t, v, reasons)
  {
    AnyOfFive(t, blob, WholeText(t, v, reasons), "go", "golang", "grpc", "microservice", "microservices");
    GoNeedlesAreWords();
    LongerGoNeedles();
    NeedleInTexts(t, v, reasons, "go");
    NeedleInTexts(t, v, reasons, "grpc");
    NeedleInTexts(t, v, reasons, "microservice");
    LongerNeedleInTexts(t, v, reasons, "golang", "go");
    LongerNeedleInTexts(t, v, reasons, "microservices", "microservice");
  }

  /** Analyst words come before Python words, and these before Go words. */
  lemma RoleLaw(t: Text, v: VacancyDetails, reasons: seq<string>)
    requires Lawful(t)
    ensures InferTargetRole(t, v, reasons)
            == if MentionsAnalyst(t, v, reasons) then SystemAnalyst
               else if MentionsPython(t, v, reasons) then PythonBackend
               else if MentionsGo(t, v, reasons) then GoBackend
               else GeneralBackend
  {
    var blob := Join([NormalizeText(t, v.normalizedTitle), NormalizeText(t, v.title), NormalizeText(t, v.description),
                      NormalizeText(t, v.requirements), NormalizeText(t, v.responsibilities),
                      Join(NormalizedList(t, v.skills), " ")], " ") + Reasons(t, reasons);
    BlobIsWholeText(t, v, reasons, blob);
    AnalystNeedlesMean(t, v, reasons, blob);
    PythonNeedlesMean(t, v, reasons, blob);
    GoNeedlesMean(t, v, reasons, blob);
  }

  lemma SelectionServes(t: Text, v: VacancyDetails, reasons: seq<string>, resumes: seq<Resume>,
                        r: Result<Resume, SelectionError>)
    requires IsSelection(t, "", v, reasons, resumes, r)
    ensures Serves(resumes, InferTargetRole(t, v, reasons), r)
  {
    var role := InferTargetRole(t, v, reasons);
    assert forall x, y: TargetRole :: Candidate(x, y) <==> x.isActive && x.targetRole == y;
    assert HasActive(resumes, role) <==> exists x :: x in resumes && Candidate(x, role);
  }

  /** Without a named resume, the vacancy's texts decide whom the selected one serves. */
  lemma SelectionLaw(t: Text, v: VacancyDetails, reasons: seq<string>, resumes: seq<Resume>,
                     r: Result<Resume, SelectionError>)
    requires Lawful(t) && IsSelection(t, "", v, reasons, resumes, r)
    ensures MentionsAnalyst(t, v, reasons) ==> Serves(resumes, SystemAnalyst, r)
    ensures !MentionsAnalyst(t, v, reasons) && MentionsPython(t, v, reasons) ==> Serves(resumes, PythonBackend, r)
    ensures !MentionsAnalyst(t, v, reasons) && !MentionsPython(t, v, reasons) && MentionsGo(t, v, reasons) ==>
              Serves(resumes, GoBackend, r)
    ensures !MentionsAnalyst(t, v, reasons) && !MentionsPython(t, v, reasons) && !MentionsGo(t, v, reasons) ==>
              Serves(resumes, GeneralBackend, r)
  {
    SelectionServes(t, v, reasons, resumes, r);
    RoleLaw(t, v, reasons);
  }

  /** Needles are found inside other words as well. */
  lemma InsideAWord(t: Text, v: VacancyDetails, reasons: seq<string>, longer: string, word: string)
    requires Lawful(t) && Word(longer) && Word(word) && Occurs(word, longer) && MentionsWord(t, v, reasons, longer)
    ensures MentionsWord(t, v, reasons, word)
  {
    NeedleInTexts(t, v, reasons, longer);
    LongerNeedleInTexts(t, v, reasons, longer, word);
  }

  lemma AlgorithmHasGo()
    ensures Word("go") && Word("algorithm") && Occurs("go", "algorithm")
  {
    assert "algorithm" == "al" + "go" + "rithm";
  }

  /** So a text about algorithms names Go. */
  lemma AlgorithmsNameGo(t: Text, v: VacancyDetails, reasons: seq<string>)
    requires Lawful(t) && MentionsWord(t, v, reasons, "algorithm")
    ensures MentionsGo(t, v, reasons)
  {
    AlgorithmHasGo();
    InsideAWord(t, v, reasons, "algorithm", "go");
  }

  // ---- the choice among the resumes of that role ----

  /** How many normalised skills the vacancy and the resume share. */
  function Shared(t: Text, v: VacancyDetails, r: Resume): nat {
    |set x | x in Items(t, v.skills) && x in Items(t, r.skills)|
  }

  lemma SharedEitherWay(t: Text, v: VacancyDetails, r: Resume)
    ensures Shared(t, v, r) == |SharedSkills(t, v, r)|
  {
    assert (set x | x in Items(t, v.skills) && x in Items(t, r.skills)) == SharedSkills(t, v, r);
  }

  /**
   * No active resume of the selected one's role shares more skills with the vacancy; of those that share as many none
   * is older, and of those as old none has a smaller ID.
   */
  lemma NoneIsBetter(t: Text, v: VacancyDetails, reasons: seq<string>, resumes: seq<Resume>, best: Resume,
                     other: Resume)
    requires IsSelection(t, "", v, reasons, resumes, Ok(best))
    requires other in resumes && other.isActive && other.targetRole == best.targetRole
    ensures Shared(t, v, other) <= Shared(t, v, best)
    ensures Shared(t, v, other) == Shared(t, v, best) ==> best.createdAt <= other.createdAt
    ensures Shared(t, v, other) == Shared(t, v, best) && best.createdAt == other.createdAt ==>
              !Ordering.Less(other.id, best.id)
  {
    SharedEitherWay(t, v, best);
    SharedEitherWay(t, v, other);
    assert Candidate(other, best.targetRole);
  }
}
