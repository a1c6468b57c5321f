/**
 * When each component score takes which value, stated from the texts and numbers of profile and vacancy, and how the
 * components move the total.
 */
module ScoreLaws {
  import opened Basics
  import opened Entities
  import opened Normalization
  import opened TextLaws
  import opened Scoring

  type Currencies = (string, string) -> bool

  /** strings.Contains finds exactly the parts of a text. */
  lemma ContainsMeansOccurs(s: string, part: string)
    ensures Contains(s, part) <==> Occurs(part, s)
  {
    if Contains(s, part) {
      var i :| 0 <= i <= |s| && part <= s[i..];
      assert s == s[..i] + part + s[i + |part|..];
    }
    if Occurs(part, s) {
      var a, b :| s == a + part + b;
      assert s[|a|..] == part + b;
    }
  }

  lemma {:induction false} OccursInside(part: string, mid: string, s: string)
    requires Occurs(part, mid) && Occurs(mid, s)
    ensures Occurs(part, s)
  {
    var a, b :| mid == a + part + b;
    var c, d :| s == c + mid + d;
    assert s == (c + a) + part + (b + d);
  }

  // ---- role and grade ----

  /** Some non-empty entry of the list, normalised, is `text` or stands in `context`. */
  ghost predicate Names(t: Text, wanted: seq<string>, text: string, context: string) {
    exists x :: x in wanted && NormalizeSkill(t, x) != ""
                && (NormalizeSkill(t, x) == text || Occurs(NormalizeSkill(t, x), context))
  }

  ghost predicate Unrestricted(t: Text, wanted: seq<string>) {
    forall x :: x in wanted ==> NormalizeSkill(t, x) == ""
  }

  lemma EmptyIffUnrestricted(t: Text, wanted: seq<string>)
    ensures NormalizedList(t, wanted) == [] <==> Unrestricted(t, wanted)
  {
    var list := NormalizedList(t, wanted);
    assert list != [] ==> list[0] in list;
    if x :| x in wanted && NormalizeSkill(t, x) != "" { assert NormalizeSkill(t, x) in list; }
  }

  lemma ListNames(t: Text, wanted: seq<string>, text: string, context: string)
    ensures (exists x :: x in NormalizedList(t, wanted) && (x == text || Contains(context, x)))
            <==> Names(t, wanted, text, context)
  {
    forall x ensures Contains(context, x) <==> Occurs(x, context) {
      ContainsMeansOccurs(context, x);
    }
    if Names(t, wanted, text, context) {
      var x :| x in wanted && NormalizeSkill(t, x) != ""
               && (NormalizeSkill(t, x) == text || Occurs(NormalizeSkill(t, x), context));
      assert NormalizeSkill(t, x) in NormalizedList(t, wanted);
    }
  }

  ghost predicate RoleFits(t: Text, p: CandidateProfile, v: VacancyDetails) {
    || Unrestricted(t, p.desiredRoles)
    || Names(t, p.desiredRoles, v.normalizedTitle, v.normalizedTitle + " " + NormalizeText(t, v.title))
  }

  lemma RoleLaw(t: Text, same: Currencies, p: CandidateProfile, v: VacancyDetails, blacklisted: bool)
    ensures ScoresOf(t, same, p, v, blacklisted).role == if RoleFits(t, p, v) then 100 else 0
  {
    EmptyIffUnrestricted(t, p.desiredRoles);
    ListNames(t, p.desiredRoles, v.normalizedTitle, v.normalizedTitle + " " + NormalizeText(t, v.title));
  }

  lemma GradeLaw(t: Text, same: Currencies, p: CandidateProfile, v: VacancyDetails, blacklisted: bool)
    ensures var grade := NormalizeSkill(t, v.grade);
            ScoresOf(t, same, p, v, blacklisted).grade
            == if Unrestricted(t, p.desiredGrades) || Names(t, p.desiredGrades, grade, grade) then 100 else 30
  {
    var grade := NormalizeSkill(t, v.grade);
    EmptyIffUnrestricted(t, p.desiredGrades);
    ListNames(t, p.desiredGrades, grade, grade);
  }

  // ---- experience ----

  ghost predicate Mentions3(s: string, a: string, b: string, c: string) {
    Occurs(a, s) || Occurs(b, s) || Occurs(c, s)
  }

  lemma LongerWords(s: string)
    ensures Occurs("junior", s) ==> Occurs("jun", s)
    ensures Occurs("middle", s) ==> Occurs("mid", s)
  {
    if Occurs("junior", s) {
      assert "junior" == "" + "jun" + "ior";
      OccursInside("jun", "junior", s);
    }
    if Occurs("middle", s) {
      assert "middle" == "" + "mid" + "dle";
      OccursInside("mid", "middle", s);
    }
  }

  lemma GradeRankLaw(t: Text, grade: string)
    ensures var g := NormalizeText(t, grade);
            && (GradeRank(t, grade) == 1 <==> Mentions3(g, "trainee", "intern", "jun"))
            && (GradeRank(t, grade) == 2 <==> !Mentions3(g, "trainee", "intern", "jun") && Occurs("mid", g))
            && (GradeRank(t, grade) == 3
                <==> !Mentions3(g, "trainee", "intern", "jun") && !Occurs("mid", g)
                     && (Occurs("senior", g) || Occurs("sr", g)))
            && (GradeRank(t, grade) == 4
                <==> !Mentions3(g, "trainee", "intern", "jun") && !Occurs("mid", g)
                     && !Occurs("senior", g) && !Occurs("sr", g) && Mentions3(g, "lead", "principal", "staff"))
            && 0 <= GradeRank(t, grade) <= 4
  {
    var g := NormalizeText(t, grade);
    LongerWords(g);
    forall word ensures Contains(g, word) <==> Occurs(word, g) {
      ContainsMeansOccurs(g, word);
    }
  }

  function YearsScore(years: int, enough: int, nearly: int): int {
    if years >= enough then 100 else if years >= nearly then 60 else 0
  }

  lemma ExperienceByRank(t: Text, p: CandidateProfile, grade: string)
    ensures var years := p.yearsOfCommercialExperience;
            && (GradeRank(t, grade) == 0 ==> ExperienceScore(t, p, grade) == 70)
            && (GradeRank(t, grade) == 1 ==> ExperienceScore(t, p, grade) == 100)
            && (GradeRank(t, grade) == 2 ==> ExperienceScore(t, p, grade) == if years >= 2 then 100 else 60)
            && (GradeRank(t, grade) == 3 ==> ExperienceScore(t, p, grade) == YearsScore(years, 5, 2))
            && (GradeRank(t, grade) == 4 ==> ExperienceScore(t, p, grade) == YearsScore(years, 8, 5))
  {
  }

  /**
   * By the seniority that the vacancy's grade names first and the years on the profile: 100 with enough of them, 60 one
   * step below, 0 further down, 70 for a grade that names none.
   */
  lemma ExperienceLaw(t: Text, same: Currencies, p: CandidateProfile, v: VacancyDetails, blacklisted: bool)
    ensures var g, years := NormalizeText(t, v.grade), p.yearsOfCommercialExperience;
            ScoresOf(t, same, p, v, blacklisted).experience
            == if Mentions3(g, "trainee", "intern", "jun") then 100
               else if Occurs("mid", g) then (if years >= 2 then 100 else 60)
               else if Occurs("senior", g) || Occurs("sr", g) then YearsScore(years, 5, 2)
               else if Mentions3(g, "lead", "principal", "staff") then YearsScore(years, 8, 5)
               else 70
  {
    GradeRankLaw(t, v.grade);
    ExperienceByRank(t, p, v.grade);
  }

  lemma YearsClimb(t: Text, p: CandidateProfile, years: int, grade: string)
    requires p.yearsOfCommercialExperience <= years
    ensures ExperienceScore(t, p, grade) <= ExperienceScore(t, p.(yearsOfCommercialExperience := years), grade)
  {
  }

  lemma MoreYearsNeverHurt(t: Text, same: Currencies, p: CandidateProfile, years: int, v: VacancyDetails,
                           blacklisted: bool)
    requires p.yearsOfCommercialExperience <= years
    ensures var p' := p.(yearsOfCommercialExperience := years);
            ScoresOf(t, same, p, v, blacklisted).experience <= ScoresOf(t, same, p', v, blacklisted).experience
  {
    YearsClimb(t, p, years, v.grade);
  }

  // ---- place and pay ----

  ghost predicate Remote(t: Text, v: VacancyDetails) {
    Occurs("remote", NormalizeText(t, v.remoteType)) || Occurs("remote", NormalizeText(t, v.location))
  }

  /** A desired place stands in the vacancy's location. */
  ghost predicate Near(t: Text, p: CandidateProfile, v: VacancyDetails) {
    && NormalizeText(t, v.location) != ""
    && exists d :: d in p.desiredLocations && Occurs(NormalizeText(t, d), NormalizeText(t, v.location))
  }

  lemma ContainsRemote(t: Text, v: VacancyDetails)
    ensures Contains(NormalizeText(t, v.remoteType), "remote") || Contains(NormalizeText(t, v.location), "remote")
            <==> Remote(t, v)
  {
    ContainsMeansOccurs(NormalizeText(t, v.remoteType), "remote");
    ContainsMeansOccurs(NormalizeText(t, v.location), "remote");
  }

  lemma ContainsDesired(t: Text, p: CandidateProfile, v: VacancyDetails)
    ensures NormalizeText(t, v.location) != ""
            && (exists d :: d in p.desiredLocations && Contains(NormalizeText(t, v.location), NormalizeText(t, d)))
            <==> Near(t, p, v)
  {
    forall d ensures Contains(NormalizeText(t, v.location), NormalizeText(t, d))
                     <==> Occurs(NormalizeText(t, d), NormalizeText(t, v.location))
    {
      ContainsMeansOccurs(NormalizeText(t, v.location), NormalizeText(t, d));
    }
  }

  lemma PlaceScore(t: Text, p: CandidateProfile, v: VacancyDetails)
    ensures LocationScore(t, p, v.location, v.remoteType)
            == if Remote(t, v) && p.remoteAllowed then 100
               else if p.desiredLocations == [] then (if Remote(t, v) then 0 else 80)
               else if Near(t, p, v) then 100
               else if p.relocationAllowed then 60
               else 0
  {
    ContainsRemote(t, v);
    ContainsDesired(t, p, v);
  }

  lemma LocationLaw(t: Text, same: Currencies, p: CandidateProfile, v: VacancyDetails, blacklisted: bool)
    ensures var score := ScoresOf(t, same, p, v, blacklisted).location;
            var home := Remote(t, v) && p.remoteAllowed;
            && (score == 100 <==> home || Near(t, p, v))
            && (score == 80 <==> !Remote(t, v) && p.desiredLocations == [])
            && (score == 60 <==> !home && !Near(t, p, v) && p.desiredLocations != [] && p.relocationAllowed)
            && (score == 0 <==> !home && !Near(t, p, v)
                                && if p.desiredLocations == [] then Remote(t, v) else !p.relocationAllowed)
  {
    PlaceScore(t, p, v);
  }

  /** The profile names a minimum salary. */
  predicate Demands(p: CandidateProfile) {
    p.minimumSalary.Some? && p.minimumSalary.value > 0
  }

  predicate Offers(v: VacancyDetails) {
    v.salaryFrom.Some? || v.salaryTo.Some?
  }

  /** Both sides name currencies, and none agrees. */
  ghost predicate ForeignCurrency(same: Currencies, p: CandidateProfile, v: VacancyDetails) {
    v.currency != "" && p.currencies != [] && forall c :: c in p.currencies ==> !same(c, v.currency)
  }

  predicate Covered(offer: Option<int>, p: CandidateProfile)
    requires Demands(p)
  {
    offer.Some? && offer.value >= p.minimumSalary.value
  }

  lemma SalaryLaw(t: Text, same: Currencies, p: CandidateProfile, v: VacancyDetails, blacklisted: bool)
    ensures var score := ScoresOf(t, same, p, v, blacklisted).salary;
            if !Demands(p) then score == 100
            else if !Offers(v) then score == 50
            else if ForeignCurrency(same, p, v) then score == 20
            else
              var from, to := Covered(v.salaryFrom, p), Covered(v.salaryTo, p);
              && (score == 100 <==> from)
              && (score == 70 <==> !from && to && v.salaryFrom.Some?)
              && (score == 40 <==> !from && if v.salaryTo.Some? then to && v.salaryFrom.None? else true)
              && (score == 0 <==> !from && !to && v.salaryTo.Some?)
  {
    PayScore(same, p, v);
  }

  lemma PayScore(same: Currencies, p: CandidateProfile, v: VacancyDetails)
    ensures SalaryScore(same, p, v.salaryFrom, v.salaryTo, v.currency)
            == if !Demands(p) then 100
               else if !Offers(v) then 50
               else if ForeignCurrency(same, p, v) then 20
               else if Covered(v.salaryFrom, p) then 100
               else if v.salaryTo.Some? && !Covered(v.salaryTo, p) then 0
               else if v.salaryFrom.Some? && v.salaryTo.Some? then 70
               else 40
  {
  }

  predicate NoLower(before: Option<int>, after: Option<int>) {
    (before.Some? <==> after.Some?) && (before.Some? ==> before.value <= after.value)
  }

  /** Raising either end of the offered range never lowers the salary score. */
  lemma HigherPayNeverHurts(t: Text, same: Currencies, p: CandidateProfile, v: VacancyDetails, salaryFrom: Option<int>,
                            salaryTo: Option<int>, blacklisted: bool)
    requires NoLower(v.salaryFrom, salaryFrom) && NoLower(v.salaryTo, salaryTo)
    ensures var v' := v.(salaryFrom := salaryFrom, salaryTo := salaryTo);
            ScoresOf(t, same, p, v, blacklisted).salary <= ScoresOf(t, same, p, v', blacklisted).salary
  {
    PayScore(same, p, v);
    PayScore(same, p, v.(salaryFrom := salaryFrom, salaryTo := salaryTo));
  }

  // ---- domain ----

  /** The two lists share no normalised item. */
  ghost predicate Disjoint(t: Text, wanted: seq<string>, offered: seq<string>) {
    forall x, y :: x in wanted && y in offered ==> NormalizeSkill(t, x) != NormalizeSkill(t, y)
  }

  lemma OverlapMeansShared(t: Text, wanted: seq<string>, offered: seq<string>)
    ensures Overlaps(t, wanted, offered) <==> !Disjoint(t, wanted, offered)
  {
    if x, y :| x in wanted && y in offered && NormalizeSkill(t, x) == NormalizeSkill(t, y) {
      assert NormalizeSkill(t, x) in SkillNames(t, offered);
    }
  }

  /** Without constraints 100, else 0 for a blacklisted company, else 100 less 30, 20 and 30 for what differs. */
  lemma DomainLaw(t: Text, same: Currencies, p: CandidateProfile, v: VacancyDetails, blacklisted: bool)
    ensures var employment := p.employmentTypes != [] && Disjoint(t, p.employmentTypes, [v.employmentType]);
            var language :=
              p.languages != [] && v.languageRequirements != [] && Disjoint(t, p.languages, v.languageRequirements);
            var permit := p.workAuthorization != [] && v.workAuthorizationRequirements != []
                          && Disjoint(t, p.workAuthorization, v.workAuthorizationRequirements);
            ScoresOf(t, same, p, v, blacklisted).domain
            == if p.employmentTypes == [] && p.languages == [] && p.workAuthorization == [] then 100
               else if blacklisted then 0
               else 100 - (if employment then 30 else 0) - (if language then 20 else 0) - (if permit then 30 else 0)
  {
    OverlapMeansShared(t, p.employmentTypes, [v.employmentType]);
    OverlapMeansShared(t, p.languages, v.languageRequirements);
    OverlapMeansShared(t, p.workAuthorization, v.workAuthorizationRequirements);
  }

  // ---- skills ----

  /** A wished skill that counts: its normal form is not empty and not that of an excluded one. */
  ghost predicate Counts(t: Text, p: CandidateProfile, x: string) {
    NormalizeSkill(t, x) != "" && forall e :: e in p.excludedSkills ==> NormalizeSkill(t, e) != NormalizeSkill(t, x)
  }

  ghost predicate Offered(t: Text, v: VacancyDetails, x: string) {
    exists y :: y in v.skills && NormalizeSkill(t, y) == NormalizeSkill(t, x)
  }

  /** The entries of a list that count. */
  ghost function CountingEntries(t: Text, p: CandidateProfile, values: seq<string>): set<nat> {
    set i: nat | i < |values| && Counts(t, p, values[i])
  }

  /** And of these the ones that the vacancy asks for. */
  ghost function MatchingEntries(t: Text, p: CandidateProfile, v: VacancyDetails, values: seq<string>): set<nat> {
    set i: nat | i < |values| && Counts(t, p, values[i]) && Offered(t, v, values[i])
  }

  ghost function EntriesIn(t: Text, values: seq<string>, skills: set<string>): set<nat> {
    set i: nat | i < |values| && NormalizeSkill(t, values[i]) in skills
  }

  lemma {:induction false} SumSplits(skills: set<string>, f: string -> nat, g: string -> nat, h: string -> nat)
    requires forall x :: x in skills ==> f(x) == g(x) + h(x)
    ensures SumOver(skills, f) == SumOver(skills, g) + SumOver(skills, h)
    decreases |skills|
  {
    if skills != {} {
      var x :| x in skills;
      SumOverAny(skills, f, x);
      SumOverAny(skills, g, x);
      SumOverAny(skills, h, x);
      SumSplits(skills - {x}, f, g, h);
    }
  }

  lemma {:induction false} SumOfHits(skills: set<string>, h: string -> nat, x: string, each: nat)
    requires forall y :: y in skills ==> h(y) == if y == x then each else 0
    ensures SumOver(skills, h) == if x in skills then each else 0
    decreases |skills|
  {
    if skills != {} {
      var y :| y in skills;
      SumOverAny(skills, h, y);
      SumOfHits(skills - {y}, h, x, each);
    }
  }

  function MentionsOf(t: Text, values: seq<string>, each: nat): string -> nat {
    skill => Mentions(t, values, each, skill)
  }

  /** Summing a list's weight over the skills is counting the list's entries among them. */
  lemma {:induction false} SumOfMentions(t: Text, values: seq<string>, each: nat, skills: set<string>)
    ensures SumOver(skills, MentionsOf(t, values, each)) == each * |EntriesIn(t, values, skills)|
  {
    if |values| == 0 {
      SumOfHits(skills, MentionsOf(t, values, each), "", 0);
      assert EntriesIn(t, values, skills) == {};
    } else {
      var n := |values| - 1;
      var last := NormalizeSkill(t, values[n]);
      var hit := (skill: string) => if skill == last then each else 0;
      SumSplits(skills, MentionsOf(t, values, each), MentionsOf(t, values[..n], each), hit);
      SumOfHits(skills, hit, last, each);
      SumOfMentions(t, values[..n], each, skills);
      EntriesSnoc(t, values, skills);
      EachOnce(each, |EntriesIn(t, values[..n], skills)|);
    }
  }

  lemma EachOnce(each: nat, n: nat)
    ensures each * (n + 1) == each * n + each
  {
  }

  lemma EntriesSnoc(t: Text, values: seq<string>, skills: set<string>)
    requires |values| > 0
    ensures var n := |values| - 1;
            |EntriesIn(t, values, skills)|
            == |EntriesIn(t, values[..n], skills)| + if NormalizeSkill(t, values[n]) in skills then 1 else 0
  {
    var n := |values| - 1;
    var before := EntriesIn(t, values[..n], skills);
    var after := EntriesIn(t, values, skills);
    forall i: nat ensures i in after <==> i in before || (i == n && NormalizeSkill(t, values[n]) in skills) {
      if i < n { assert values[..n][i] == values[i]; }
    }
    if NormalizeSkill(t, values[n]) in skills {
      assert after == before + {n};
    } else {
      assert after == before;
    }
  }

  lemma TotalWeight(t: Text, p: CandidateProfile, skills: set<string>)
    ensures SumOver(skills, Weight(t, p))
            == 2 * |EntriesIn(t, p.primarySkills, skills)| + |EntriesIn(t, p.secondarySkills, skills)|
  {
    SumSplits(skills, Weight(t, p), MentionsOf(t, p.primarySkills, 2), MentionsOf(t, p.secondarySkills, 1));
    SumOfMentions(t, p.primarySkills, 2, skills);
    SumOfMentions(t, p.secondarySkills, 1, skills);
  }

  lemma EntriesThatCount(t: Text, p: CandidateProfile, v: VacancyDetails, values: seq<string>)
    requires forall x :: x in values ==> x in p.primarySkills || x in p.secondarySkills
    ensures EntriesIn(t, values, CountedSkills(t, p)) == CountingEntries(t, p, values)
    ensures EntriesIn(t, values, CountedSkills(t, p) * SkillNames(t, v.skills)) == MatchingEntries(t, p, v, values)
  {
    forall x | x in values ensures NormalizeSkill(t, x) in CountedSkills(t, p) <==> Counts(t, p, x) {
    }
    forall x ensures NormalizeSkill(t, x) in SkillNames(t, v.skills) <==> Offered(t, v, x) {
    }
  }

  ghost function CountedWeight(t: Text, p: CandidateProfile): nat {
    2 * |CountingEntries(t, p, p.primarySkills)| + |CountingEntries(t, p, p.secondarySkills)|
  }

  ghost function MatchedWeight(t: Text, p: CandidateProfile, v: VacancyDetails): nat {
    2 * |MatchingEntries(t, p, v, p.primarySkills)| + |MatchingEntries(t, p, v, p.secondarySkills)|
  }

  lemma WeightsInEntries(t: Text, p: CandidateProfile, v: VacancyDetails)
    ensures SumOver(CountedSkills(t, p), Weight(t, p)) == CountedWeight(t, p)
    ensures SumOver(CountedSkills(t, p) * SkillNames(t, v.skills), Weight(t, p)) == MatchedWeight(t, p, v)
  {
    EntriesThatCount(t, p, v, p.primarySkills);
    EntriesThatCount(t, p, v, p.secondarySkills);
    TotalWeight(t, p, CountedSkills(t, p));
    TotalWeight(t, p, CountedSkills(t, p) * SkillNames(t, v.skills));
  }

  /**
   * The skill score in entries: each primary entry of the profile that counts weighs 2, each secondary one 1, and the
   * score is the percentage of that weight which the vacancy asks for; 100 if nothing counts.
   */
  lemma SkillsLaw(t: Text, same: Currencies, p: CandidateProfile, v: VacancyDetails, blacklisted: bool)
    ensures ScoresOf(t, same, p, v, blacklisted).skills
            == if CountedWeight(t, p) == 0 then 100 else Round(100 * MatchedWeight(t, p, v), CountedWeight(t, p))
  {
    WeightsInEntries(t, p, v);
  }

  // ---- the total ----

  lemma RoundIsOdd(n: int, d: nat)
    requires d > 0
    ensures Round(-n, d) == -Round(n, d)
  {
  }

  /** The total is the integer nearest to the weighted sum over 100, halves away from zero. */
  lemma TotalIsNearest(cfg: Config, t: Text, same: Currencies, p: CandidateProfile, v: VacancyDetails, company: Company,
                       passed: bool)
    ensures var s, w := ScoresOf(t, same, p, v, company.blacklisted), cfg.weights;
            var sum := w.role * s.role + w.skills * s.skills + w.experience * s.experience + w.grade * s.grade
                       + w.location * s.location + w.salary * s.salary + w.domain * s.domain;
            var total := ScoreVacancy(cfg, t, same, p, v, company, passed).total;
            if sum >= 0 then 200 * total - 100 <= 2 * sum < 200 * total + 100
            else 200 * total - 100 < 2 * sum <= 200 * total + 100
  {
    var sum := WeightedSum(cfg.weights, ScoresOf(t, same, p, v, company.blacklisted));
    RoundIsOdd(sum, 100);
  }

  lemma RoundShifts(n: nat, k: nat)
    ensures Round(n + 100 * k, 100) == Round(n, 100) + k
  {
  }

  /** A vacancy whose title fits scores exactly the role weight above the same vacancy under a title that does not. */
  lemma FittingTitleAddsItsWeight(cfg: Config, t: Text, same: Currencies, p: CandidateProfile, v: VacancyDetails,
                                  title: string, normalizedTitle: string, company: Company, passed: bool)
    requires NonNegative(cfg.weights)
    requires RoleFits(t, p, v) && !RoleFits(t, p, v.(title := title, normalizedTitle := normalizedTitle))
    ensures var v' := v.(title := title, normalizedTitle := normalizedTitle);
            ScoreVacancy(cfg, t, same, p, v, company, passed).total
            == ScoreVacancy(cfg, t, same, p, v', company, passed).total + cfg.weights.role
  {
    var v' := v.(title := title, normalizedTitle := normalizedTitle);
    var s, s' := ScoresOf(t, same, p, v, company.blacklisted), ScoresOf(t, same, p, v', company.blacklisted);
    RoleLaw(t, same, p, v, company.blacklisted);
    RoleLaw(t, same, p, v', company.blacklisted);
    assert s == s'.(role := 100) && s'.role == 0;
    WeightedSumMonotone(cfg.weights, Scores(0, 0, 0, 0, 0, 0, 0), s');
    assert WeightedSum(cfg.weights, s) == WeightedSum(cfg.weights, s') + 100 * cfg.weights.role;
    RoundShifts(WeightedSum(cfg.weights, s'), cfg.weights.role);
  }
}
