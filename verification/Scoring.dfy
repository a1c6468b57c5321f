/**
 * Scoring (internal/core/scoring.go), numbers only: the reason texts depend on map order.
 * math.Round of a quotient is integer rounding, half away from zero; this agrees with float64 while
 * all weighted sums stay below 2^40.
 */
module Scoring {
  import opened Basics
  import opened Entities
  import opened Normalization
  import opened Ordering

  datatype Weights = Weights(role: int, skills: int, experience: int, grade: int, location: int, salary: int,
                             domain: int)

  datatype Config = Config(weights: Weights, applyThreshold: int, reviewThreshold: int)

  /** ScoringConfig.Validate. */
  predicate Valid(cfg: Config) {
    var w := cfg.weights;
    && w.role + w.skills + w.experience + w.grade + w.location + w.salary + w.domain == 100
    && cfg.applyThreshold >= cfg.reviewThreshold
  }

  predicate NonNegative(w: Weights) {
    && w.role >= 0 && w.skills >= 0 && w.experience >= 0 && w.grade >= 0
    && w.location >= 0 && w.salary >= 0 && w.domain >= 0
  }

  // ---- rounding ----

  function Round(n: int, d: nat): (r: int)
    requires d > 0
    ensures n >= 0 ==> r >= 0 && 2 * r * d - d <= 2 * n < 2 * r * d + d
  {
    if n >= 0 then
      RoundNearest(n, d);
      (2 * n + d) / (2 * d)
    else -((2 * -n + d) / (2 * d))
  }

  lemma RoundNearest(n: nat, d: nat)
    requires d > 0
    ensures var r := (2 * n + d) / (2 * d); r >= 0 && 2 * r * d - d <= 2 * n < 2 * r * d + d
  {
  }

  lemma CancelFactor(a: int, b: int, d: nat)
    requires a * d < b * d
    ensures a < b
  {
  }

  lemma RoundMonotone(m: nat, n: nat, d: nat)
    requires d > 0 && m <= n
    ensures Round(m, d) <= Round(n, d)
  {
    var a, b := Round(m, d), Round(n, d);
    assert 2 * a * d - d <= 2 * m && 2 * n < 2 * b * d + d;
    assert (b + 1) * d == b * d + d;
    CancelFactor(a, b + 1, d);
  }

  lemma RoundPercent(m: nat, total: nat)
    requires m <= total && total > 0
    ensures 0 <= Round(100 * m, total) <= 100
  {
    var r := Round(100 * m, total);
    assert 2 * r * total - total <= 200 * m <= 200 * total;
    CancelFactor(r, 101, total);
  }

  // ---- the weighted average ----

  datatype Scores = Scores(role: int, skills: int, experience: int, grade: int, location: int, salary: int, domain: int)

  predicate AllWithin(s: Scores, lo: int, hi: int) {
    && lo <= s.role <= hi && lo <= s.skills <= hi && lo <= s.experience <= hi && lo <= s.grade <= hi
    && lo <= s.location <= hi && lo <= s.salary <= hi && lo <= s.domain <= hi
  }

  function WeightedSum(w: Weights, s: Scores): int {
    s.role * w.role + s.skills * w.skills + s.experience * w.experience + s.grade * w.grade
    + s.location * w.location + s.salary * w.salary + s.domain * w.domain
  }

  function WeightedAverage(cfg: Config, s: Scores): int {
    Round(WeightedSum(cfg.weights, s), 100)
  }

  lemma Scale(lo: int, x: int, hi: int, w: int)
    requires lo <= x <= hi && w >= 0
    ensures lo * w <= x * w <= hi * w
  {
  }

  lemma Distribute(c: int, w: Weights)
    ensures c * w.role + c * w.skills + c * w.experience + c * w.grade + c * w.location + c * w.salary + c * w.domain
         == c * (w.role + w.skills + w.experience + w.grade + w.location + w.salary + w.domain)
  {
  }

  lemma WeightedSumBounds(w: Weights, s: Scores, lo: int, hi: int)
    requires NonNegative(w) && AllWithin(s, lo, hi)
    requires w.role + w.skills + w.experience + w.grade + w.location + w.salary + w.domain == 100
    ensures 100 * lo <= WeightedSum(w, s) <= 100 * hi
  {
    Scale(lo, s.role, hi, w.role);
    Scale(lo, s.skills, hi, w.skills);
    Scale(lo, s.experience, hi, w.experience);
    Scale(lo, s.grade, hi, w.grade);
    Scale(lo, s.location, hi, w.location);
    Scale(lo, s.salary, hi, w.salary);
    Scale(lo, s.domain, hi, w.domain);
    Distribute(lo, w);
    Distribute(hi, w);
  }

  /** The average lies between the least and the greatest component. */
  lemma AverageIsBetween(cfg: Config, s: Scores, lo: int, hi: int)
    requires Valid(cfg) && NonNegative(cfg.weights) && AllWithin(s, lo, hi)
    ensures lo <= WeightedAverage(cfg, s) <= hi
  {
    WeightedSumBounds(cfg.weights, s, lo, hi);
  }

  ghost predicate NoneLower(s: Scores, s': Scores) {
    && s.role <= s'.role && s.skills <= s'.skills && s.experience <= s'.experience && s.grade <= s'.grade
    && s.location <= s'.location && s.salary <= s'.salary && s.domain <= s'.domain
  }

  lemma WeightedSumMonotone(w: Weights, s: Scores, s': Scores)
    requires NonNegative(w) && NoneLower(s, s')
    ensures WeightedSum(w, s) <= WeightedSum(w, s')
  {
    Scale(s.role, s.role, s'.role, w.role);
    Scale(s.skills, s.skills, s'.skills, w.skills);
    Scale(s.experience, s.experience, s'.experience, w.experience);
    Scale(s.grade, s.grade, s'.grade, w.grade);
    Scale(s.location, s.location, s'.location, w.location);
    Scale(s.salary, s.salary, s'.salary, w.salary);
    Scale(s.domain, s.domain, s'.domain, w.domain);
  }

  /** Raising components never lowers the average. */
  lemma AverageIsMonotone(cfg: Config, s: Scores, s': Scores)
    requires NonNegative(cfg.weights) && NoneLower(s, s')
    ensures WeightedAverage(cfg, s) <= WeightedAverage(cfg, s')
  {
    WeightedSumMonotone(cfg.weights, s, s');
  }

  // ---- component scores ----

  predicate Contains(s: string, part: string) {
    exists i :: 0 <= i <= |s| && part <= s[i..]
  }

  function RoleScore(t: Text, p: CandidateProfile, title: string, normalizedTitle: string): int {
    var desired := NormalizedList(t, p.desiredRoles);
    var joined := normalizedTitle + " " + NormalizeText(t, title);
    if desired == [] || exists role :: role in desired && (role == normalizedTitle || Contains(joined, role))
    then 100
    else 0
  }

  function ExperienceRank(years: int): int {
    if years <= 1 then 1 else if years <= 4 then 2 else if years <= 7 then 3 else 4
  }

  function GradeRank(t: Text, grade: string): int {
    var g := NormalizeText(t, grade);
    if Contains(g, "trainee") || Contains(g, "intern") || Contains(g, "junior") || Contains(g, "jun") then 1
    else if Contains(g, "middle") || Contains(g, "mid") then 2
    else if Contains(g, "senior") || Contains(g, "sr") then 3
    else if Contains(g, "lead") || Contains(g, "principal") || Contains(g, "staff") then 4
    else 0
  }

  function ExperienceScore(t: Text, p: CandidateProfile, grade: string): int {
    var required, candidate := GradeRank(t, grade), ExperienceRank(p.yearsOfCommercialExperience);
    if required == 0 then 70 else if candidate >= required then 100 else if candidate + 1 == required then 60 else 0
  }

  function GradeScore(t: Text, p: CandidateProfile, vacancyGrade: string): int {
    var desired := NormalizedList(t, p.desiredGrades);
    var offered := NormalizeSkill(t, vacancyGrade);
    if desired == [] || exists grade :: grade in desired && (grade == offered || Contains(offered, grade))
    then 100
    else 30
  }

  function LocationScore(t: Text, p: CandidateProfile, vacancyLocation: string, remoteType: string): int {
    var location := NormalizeText(t, vacancyLocation);
    var remote := Contains(NormalizeText(t, remoteType), "remote") || Contains(location, "remote");
    if remote && p.remoteAllowed then 100
    else if p.desiredLocations == [] then (if remote then 0 else 80)
    else if location != "" && exists d :: d in p.desiredLocations && Contains(location, NormalizeText(t, d)) then 100
    else if p.relocationAllowed then 60
    else 0
  }

  function SalaryScore(sameCurrency: (string, string) -> bool, p: CandidateProfile, salaryFrom: Option<int>,
                       salaryTo: Option<int>, currency: string): int
  {
    if p.minimumSalary.None? || p.minimumSalary.value <= 0 then 100
    else if salaryFrom.None? && salaryTo.None? then 50
    else if currency != "" && p.currencies != [] && !exists c :: c in p.currencies && sameCurrency(c, currency) then 20
    else
      var min := p.minimumSalary.value;
      if salaryFrom.Some? && salaryFrom.value >= min then 100
      else if salaryTo.Some? && salaryTo.value < min then 0
      else if salaryFrom.Some? && salaryTo.Some? then 70
      else 40
  }

  function SkillNames(t: Text, values: seq<string>): set<string> {
    set x | x in values :: NormalizeSkill(t, x)
  }

  predicate Overlaps(t: Text, wanted: seq<string>, offered: seq<string>) {
    exists x :: x in wanted && NormalizeSkill(t, x) in SkillNames(t, offered)
  }

  function DomainScore(t: Text, p: CandidateProfile, employmentType: string, languages: seq<string>,
                       authorizations: seq<string>, blacklisted: bool): int
  {
    if p.employmentTypes == [] && p.languages == [] && p.workAuthorization == [] then 100
    else
      var employment := if p.employmentTypes != [] && !Overlaps(t, p.employmentTypes, [employmentType]) then 30 else 0;
      var language := if languages != [] && p.languages != [] && !Overlaps(t, p.languages, languages) then 20 else 0;
      var authorization := if p.workAuthorization != [] && authorizations != []
                              && !Overlaps(t, p.workAuthorization, authorizations) then 30 else 0;
      if blacklisted then 0 else 100 - employment - language - authorization
  }

  method AnyMatches(t: Text, wanted: seq<string>, offered: seq<string>) returns (ok: bool)
    ensures ok == Overlaps(t, wanted, offered)
  {
    var required := SkillNames(t, offered);
    ok := false;
    for i := 0 to |wanted|
      invariant !ok && forall j :: 0 <= j < i ==> NormalizeSkill(t, wanted[j]) !in required
    {
      if NormalizeSkill(t, wanted[i]) in required {
        return true;
      }
    }
  }

  /** The source's running score: blacklisting zeroes it midway and the end clamps it. */
  method ScoreDomain(t: Text, p: CandidateProfile, v: VacancyDetails, blacklisted: bool) returns (score: int)
    ensures score
            == DomainScore(t, p, v.employmentType, v.languageRequirements, v.workAuthorizationRequirements, blacklisted)
  {
    if |p.employmentTypes| == 0 && |p.languages| == 0 && |p.workAuthorization| == 0 { return 100; }
    score := 100;
    if |p.employmentTypes| > 0 {
      var ok := AnyMatches(t, p.employmentTypes, [v.employmentType]);
      if !ok { score := score - 30; }
    }
    if blacklisted { score := 0; }
    if |v.languageRequirements| > 0 && |p.languages| > 0 {
      var ok := AnyMatches(t, p.languages, v.languageRequirements);
      if !ok { score := score - 20; }
    }
    if |p.workAuthorization| > 0 && |v.workAuthorizationRequirements| > 0 {
      var ok := AnyMatches(t, p.workAuthorization, v.workAuthorizationRequirements);
      if !ok { score := score - 30; }
    }
    if score < 0 { score := 0; }
  }

  // ---- skills: a weighted overlap, summed in whatever order the map yields ----

  /** What a list contributes to a skill: `each` per mention. */
  function Mentions(t: Text, values: seq<string>, each: nat, skill: string): nat {
    if values == [] then 0
    else
      Mentions(t, values[..|values| - 1], each, skill)
      + (if NormalizeSkill(t, values[|values| - 1]) == skill then each else 0)
  }

  /** Primary mentions weigh 2, secondary ones 1; repeated mentions add up. */
  function Weight(t: Text, p: CandidateProfile): string -> nat {
    skill => Mentions(t, p.primarySkills, 2, skill) + Mentions(t, p.secondarySkills, 1, skill)
  }

  function RequiredSkills(t: Text, p: CandidateProfile): set<string> {
    Items(t, p.primarySkills) + Items(t, p.secondarySkills)
  }

  function CountedSkills(t: Text, p: CandidateProfile): set<string> {
    RequiredSkills(t, p) - SkillNames(t, p.excludedSkills)
  }

  ghost function SumOver(skills: set<string>, weight: string -> nat): nat {
    if skills == {} then 0
    else
      var x :| x in skills;
      weight(x) + SumOver(skills - {x}, weight)
  }

  /** The sum does not depend on which element is taken first. */
  lemma {:induction false} SumOverAny(skills: set<string>, weight: string -> nat, x: string)
    requires x in skills
    ensures SumOver(skills, weight) == weight(x) + SumOver(skills - {x}, weight)
    decreases |skills|
  {
    var y :| y in skills && SumOver(skills, weight) == weight(y) + SumOver(skills - {y}, weight);
    if y != x {
      SumOverAny(skills - {y}, weight, x);
      SumOverAny(skills - {x}, weight, y);
      assert skills - {x} - {y} == skills - {y} - {x};
    }
  }

  lemma {:induction false} SumOverSubset(small: set<string>, large: set<string>, weight: string -> nat)
    requires small <= large
    ensures SumOver(small, weight) <= SumOver(large, weight)
    decreases |small|
  {
    if small != {} {
      var x :| x in small;
      SumOverAny(small, weight, x);
      SumOverAny(large, weight, x);
      SumOverSubset(small - {x}, large - {x}, weight);
    }
  }

  ghost function SkillsScore(t: Text, p: CandidateProfile, offered: set<string>): int {
    var counted := CountedSkills(t, p);
    var total := SumOver(counted, Weight(t, p));
    if total == 0 then 100 else Round(100 * SumOver(counted * offered, Weight(t, p)), total)
  }

  lemma SkillsScoreInRange(t: Text, p: CandidateProfile, offered: set<string>)
    ensures 0 <= SkillsScore(t, p, offered) <= 100
  {
    var counted := CountedSkills(t, p);
    var total := SumOver(counted, Weight(t, p));
    SumOverSubset(counted * offered, counted, Weight(t, p));
    if total > 0 { RoundPercent(SumOver(counted * offered, Weight(t, p)), total); }
  }

  lemma SkillsScoreMonotone(t: Text, p: CandidateProfile, offered: set<string>, more: set<string>)
    requires offered <= more
    ensures SkillsScore(t, p, offered) <= SkillsScore(t, p, more)
  {
    var counted := CountedSkills(t, p);
    var total := SumOver(counted, Weight(t, p));
    SumOverSubset(counted * offered, counted * more, Weight(t, p));
    if total > 0 {
      RoundMonotone(100 * SumOver(counted * offered, Weight(t, p)), 100 * SumOver(counted * more, Weight(t, p)), total);
    }
  }

  function WeightIn(required: map<string, nat>, skill: string): nat {
    if skill in required then required[skill] else 0
  }

  function Bump(required: map<string, nat>, skill: string, each: nat): map<string, nat> {
    if skill == "" then required else required[skill := WeightIn(required, skill) + each]
  }

  ghost predicate Accumulated(t: Text, base: map<string, nat>, values: seq<string>, each: nat,
                              required: map<string, nat>)
  {
    && required.Keys == base.Keys + Items(t, values)
    && WeightsAccumulated(t, base, values, each, required)
  }

  ghost predicate WeightsAccumulated(t: Text, base: map<string, nat>, values: seq<string>, each: nat,
                                     required: map<string, nat>)
  {
    forall s :: s != "" ==> WeightIn(required, s) == WeightIn(base, s) + Mentions(t, values, each, s)
  }

  /** One of the two loops that fill the map of required skills. */
  method AddWeights(t: Text, base: map<string, nat>, values: seq<string>, each: nat)
    returns (required: map<string, nat>)
    ensures Accumulated(t, base, values, each, required)
  {
    required := base;
    for i := 0 to |values|
      invariant Accumulated(t, base, values[..i], each, required)
    {
      TakeOneMore(values, i);
      AccumulateOne(t, base, values[..i], each, required, values[i]);
      var skill := NormalizeSkill(t, values[i]);
      if skill != "" { required := Bump(required, skill, each); }
    }
    assert values[..|values|] == values;
  }

  lemma AccumulateOne(t: Text, base: map<string, nat>, values: seq<string>, each: nat, required: map<string, nat>,
                      v: string)
    requires Accumulated(t, base, values, each, required)
    ensures Accumulated(t, base, values + [v], each, Bump(required, NormalizeSkill(t, v), each))
  {
    ItemsOfSnoc(t, values, v);
    WeightsAccumulateOne(t, base, values, each, required, v);
  }

  lemma WeightsAccumulateOne(t: Text, base: map<string, nat>, values: seq<string>, each: nat,
                             required: map<string, nat>, v: string)
    requires WeightsAccumulated(t, base, values, each, required)
    ensures WeightsAccumulated(t, base, values + [v], each, Bump(required, NormalizeSkill(t, v), each))
  {
  }

  method CollectWeights(t: Text, p: CandidateProfile) returns (required: map<string, nat>)
    ensures required.Keys == RequiredSkills(t, p)
    ensures forall s :: s in required ==> required[s] == Weight(t, p)(s)
  {
    required := AddWeights(t, map[], p.primarySkills, 2);
    required := AddWeights(t, required, p.secondarySkills, 1);
    forall s | s in required ensures required[s] == Weight(t, p)(s) {
      assert s != "" && required[s] == WeightIn(required, s);
    }
  }

  datatype SkillTally = SkillTally(totalWeight: nat, matchedWeight: nat, matched: set<string>, missing: set<string>)

  ghost predicate Tallied(tally: SkillTally, counted: set<string>, offered: set<string>, weight: string -> nat) {
    && tally.matched == counted * offered && tally.missing == counted - offered
    && tally.totalWeight == SumOver(counted, weight) && tally.matchedWeight == SumOver(tally.matched, weight)
  }

  lemma TallyOne(tally: SkillTally, counted: set<string>, offered: set<string>, weight: string -> nat, skill: string)
    requires Tallied(tally, counted, offered, weight) && skill !in counted
    ensures skill in offered ==>
              Tallied(tally.(totalWeight := tally.totalWeight + weight(skill),
                             matchedWeight := tally.matchedWeight + weight(skill),
                             matched := tally.matched + {skill}), counted + {skill}, offered, weight)
    ensures skill !in offered ==>
              Tallied(tally.(totalWeight := tally.totalWeight + weight(skill), missing := tally.missing + {skill}),
                      counted + {skill}, offered, weight)
  {
    SumOverGrows(counted, weight, skill);
    SumOverGrows(tally.matched, weight, skill);
  }

  /** The map loop: keys arrive in any order, and the sums come out the same. */
  method TallySkills(required: map<string, nat>, excluded: set<string>, offered: set<string>,
                     ghost weight: string -> nat)
    returns (tally: SkillTally)
    requires forall s :: s in required ==> required[s] == weight(s)
    ensures Tallied(tally, required.Keys - excluded, offered, weight)
  {
    tally := SkillTally(0, 0, {}, {});
    var todo := required.Keys;
    ghost var counted: set<string> := {};
    while todo != {}
      invariant todo <= required.Keys
      invariant forall s :: s in counted <==> s in required && s !in todo && s !in excluded
      invariant Tallied(tally, counted, offered, weight)
      decreases |todo|
    {
      var skill :| skill in todo;
      todo := todo - {skill};
      if skill !in excluded {
        TallyOne(tally, counted, offered, weight, skill);
        counted := counted + {skill};
        tally := tally.(totalWeight := tally.totalWeight + required[skill]);
        if skill in offered {
          tally := tally.(matchedWeight := tally.matchedWeight + required[skill], matched := tally.matched + {skill});
        } else {
          tally := tally.(missing := tally.missing + {skill});
        }
      }
    }
    assert counted == required.Keys - excluded;
  }

  /** scoreSkills: one score whatever the map order; matched and missing partition the counted skills. */
  method ScoreSkills(t: Text, p: CandidateProfile, skills: seq<string>)
    returns (score: int, matched: set<string>, missing: set<string>)
    ensures score == SkillsScore(t, p, SkillNames(t, skills)) && 0 <= score <= 100
    ensures matched + missing == CountedSkills(t, p) && matched !! missing
    ensures matched == CountedSkills(t, p) * SkillNames(t, skills)
  {
    SkillsScoreInRange(t, p, SkillNames(t, skills));
    var required := CollectWeights(t, p);
    var excluded, offered := SkillNames(t, p.excludedSkills), SkillNames(t, skills);
    var tally := TallySkills(required, excluded, offered, Weight(t, p));
    matched, missing := tally.matched, tally.missing;
    score := if tally.totalWeight == 0 then 100 else Round(100 * tally.matchedWeight, tally.totalWeight);
  }

  lemma SumOverGrows(skills: set<string>, weight: string -> nat, x: string)
    requires x !in skills
    ensures SumOver(skills + {x}, weight) == SumOver(skills, weight) + weight(x)
  {
    SumOverAny(skills + {x}, weight, x);
    assert skills + {x} - {x} == skills;
  }

  // ---- the total ----

  ghost function ScoresOf(t: Text, sameCurrency: (string, string) -> bool, p: CandidateProfile, v: VacancyDetails,
                          blacklisted: bool): (s: Scores)
    ensures AllWithin(s, 0, 100)
  {
    SkillsScoreInRange(t, p, SkillNames(t, v.skills));
    Scores(RoleScore(t, p, v.title, v.normalizedTitle), SkillsScore(t, p, SkillNames(t, v.skills)),
           ExperienceScore(t, p, v.grade), GradeScore(t, p, v.grade), LocationScore(t, p, v.location, v.remoteType),
           SalaryScore(sameCurrency, p, v.salaryFrom, v.salaryTo, v.currency),
           DomainScore(t, p, v.employmentType, v.languageRequirements, v.workAuthorizationRequirements, blacklisted))
  }

  function Recommend(cfg: Config, passed: bool, total: int): Recommendation {
    if !passed then Skip
    else if total >= cfg.applyThreshold then Apply
    else if total >= cfg.reviewThreshold then Review
    else Skip
  }

  ghost function ScoreVacancy(cfg: Config, t: Text, sameCurrency: (string, string) -> bool, p: CandidateProfile,
                              v: VacancyDetails, company: Company, passed: bool): Verdict
  {
    var total := WeightedAverage(cfg, ScoresOf(t, sameCurrency, p, v, company.blacklisted));
    Verdict(passed, Recommend(cfg, passed, total), total)
  }

  lemma TotalScoreInRange(cfg: Config, t: Text, sameCurrency: (string, string) -> bool, p: CandidateProfile,
                          v: VacancyDetails, company: Company, passed: bool)
    requires Valid(cfg) && NonNegative(cfg.weights)
    ensures 0 <= ScoreVacancy(cfg, t, sameCurrency, p, v, company, passed).total <= 100
  {
    AverageIsBetween(cfg, ScoresOf(t, sameCurrency, p, v, company.blacklisted), 0, 100);
  }

  function Level(r: Recommendation): nat {
    match r case Skip => 0 case Review => 1 case Apply => 2
  }

  /** A vacancy that asks for more of the profile's skills never scores or ranks lower. */
  lemma MoreSkillsNeverHurt(cfg: Config, t: Text, sameCurrency: (string, string) -> bool, p: CandidateProfile,
                            v: VacancyDetails, more: seq<string>, company: Company, passed: bool)
    requires NonNegative(cfg.weights)
    requires SkillNames(t, v.skills) <= SkillNames(t, more)
    ensures var before := ScoreVacancy(cfg, t, sameCurrency, p, v, company, passed);
            var after := ScoreVacancy(cfg, t, sameCurrency, p, v.(skills := more), company, passed);
            before.total <= after.total && Level(before.recommendation) <= Level(after.recommendation)
  {
    var v' := v.(skills := more);
    SkillsScoreMonotone(t, p, SkillNames(t, v.skills), SkillNames(t, more));
    AverageIsMonotone(cfg, ScoresOf(t, sameCurrency, p, v, company.blacklisted),
                      ScoresOf(t, sameCurrency, p, v', company.blacklisted));
  }

  /** Order and repetition of the vacancy's skills are irrelevant. */
  lemma SkillOrderIsIrrelevant(cfg: Config, t: Text, sameCurrency: (string, string) -> bool, p: CandidateProfile,
                               v: VacancyDetails, skills: seq<string>, company: Company, passed: bool)
    requires forall x :: x in skills <==> x in v.skills
    ensures ScoreVacancy(cfg, t, sameCurrency, p, v, company, passed)
         == ScoreVacancy(cfg, t, sameCurrency, p, v.(skills := skills), company, passed)
  {
    assert SkillNames(t, skills) == SkillNames(t, v.skills);
  }

  // ---- exactly when totals stay in range ----

  /** Whether a profile entry that costs points is wanted: exactly where the weight is negative. */
  function OnlyIfNegative(weight: int): seq<string> {
    if weight < 0 then ["x"] else []
  }

  const HARSH_COMPANY := Company("company", "harsh", "harsh", "", "", true, "")

  /** A remote senior position with a salary ceiling of one. */
  const HARSH_VACANCY := VacancyDetails(
    "", "", "", "", "", "", "", "", "remote", "", "sr", None, Some(1), "", [], [], [], 0, 0)

  /** A profile that scores 100 where the weight is not negative and the component's minimum where it is. */
  function WorstProfile(w: Weights): CandidateProfile {
    CandidateProfile(
      "profile", OnlyIfNegative(w.role), OnlyIfNegative(w.grade), OnlyIfNegative(w.skills), [], [], [],
      w.location >= 0, false, if w.salary < 0 then Some(2) else None, [], [], if w.experience < 0 then 0 else 10,
      OnlyIfNegative(w.domain), [])
  }

  function Extreme(weight: int, least: int): int {
    if weight < 0 then least else 100
  }

  lemma NotContained(s: string, part: string, c: char)
    requires c in part && c !in s
    ensures !Contains(s, part)
  {
    var k :| 0 <= k < |part| && part[k] == c;
    forall i | 0 <= i <= |s| ensures !(part <= s[i..]) {
      assert forall j :: 0 <= j < |s[i..]| ==> s[i..][j] in s;
    }
  }

  lemma NotAnAlias(s: string)
    requires s != "" && s[0] in {'r', 's', 'x'}
    ensures s !in SKILL_ALIASES
  {
  }

  lemma PlainTextsAreFixed(t: Text, s: string)
    requires Lawful(t) && PlainAscii(s) && s[0] in {'r', 's', 'x'}
    ensures NormalizeText(t, s) == s && NormalizeSkill(t, s) == s
  {
    PlainAsciiIsTidy(t, s);
    TidyIsFixed(t, s);
    NotAnAlias(s);
  }

  lemma RanksThird(t: Text, grade: string)
    requires NormalizeText(t, grade) == grade && 't' !in grade && 'j' !in grade && 'm' !in grade
             && Contains(grade, "sr")
    ensures GradeRank(t, grade) == 3
  {
    NotContained(grade, "trainee", 't');
    NotContained(grade, "intern", 't');
    NotContained(grade, "junior", 'j');
    NotContained(grade, "jun", 'j');
    NotContained(grade, "middle", 'm');
    NotContained(grade, "mid", 'm');
  }

  lemma SrRanksThird(t: Text)
    requires Lawful(t)
    ensures GradeRank(t, "sr") == 3
  {
    PlainTextsAreFixed(t, "sr");
    ContainsItself("sr");
    RanksThird(t, "sr");
  }

  lemma ContainsItself(s: string)
    ensures Contains(s, s)
  {
    assert s <= s[0..];
  }

  lemma WorstItems(t: Text, weight: int)
    requires Lawful(t)
    ensures Items(t, OnlyIfNegative(weight)) == if weight < 0 then {"x"} else {}
    ensures NormalizedList(t, OnlyIfNegative(weight)) == OnlyIfNegative(weight)
  {
    PlainTextsAreFixed(t, "x");
    var items := Items(t, OnlyIfNegative(weight));
    if weight < 0 {
      assert items == {"x"};
      StrictlySortedIsUnique(NormalizedList(t, ["x"]), ["x"]);
    }
  }

  lemma WorstRole(t: Text, w: Weights)
    requires Lawful(t)
    ensures RoleScore(t, WorstProfile(w), "", "") == Extreme(w.role, 0)
  {
    WorstItems(t, w.role);
    TidyIsFixed(t, "");
    NotContained("" + " " + "", "x", 'x');
  }

  lemma GradeMissed(t: Text, p: CandidateProfile, grade: string)
    requires NormalizedList(t, p.desiredGrades) == ["x"] && NormalizeSkill(t, grade) == grade && 'x' !in grade
    ensures GradeScore(t, p, grade) == 30
  {
    NotContained(grade, "x", 'x');
    assert "x" != grade by { assert 'x' in "x"; }
  }

  lemma WorstGrade(t: Text, w: Weights)
    requires Lawful(t)
    ensures GradeScore(t, WorstProfile(w), "sr") == Extreme(w.grade, 30)
  {
    WorstItems(t, w.grade);
    if w.grade < 0 {
      PlainTextsAreFixed(t, "sr");
      GradeMissed(t, WorstProfile(w), "sr");
    }
  }

  lemma WorstSkillWeight(t: Text, p: CandidateProfile)
    requires Lawful(t) && p.primarySkills == ["x"] && p.secondarySkills == [] && p.excludedSkills == []
    ensures CountedSkills(t, p) == {"x"} && SumOver({"x"}, Weight(t, p)) == 2
  {
    PlainTextsAreFixed(t, "x");
    WorstItems(t, -1);
    assert Mentions(t, ["x"], 2, "x") == 2 by {
      assert ["x"][..0] == [];
    }
    SumOverAny({"x"}, Weight(t, p), "x");
    assert {"x"} - {"x"} == {};
  }

  lemma WorstSkills(t: Text, w: Weights)
    requires Lawful(t)
    ensures SkillsScore(t, WorstProfile(w), {}) == Extreme(w.skills, 0)
  {
    var p := WorstProfile(w);
    assert CountedSkills(t, p) * {} == {};
    if w.skills < 0 {
      WorstSkillWeight(t, p);
    } else {
      assert CountedSkills(t, p) == {};
    }
  }

  lemma WorstPlaceAndPay(t: Text, sameCurrency: (string, string) -> bool, w: Weights)
    requires Lawful(t)
    ensures LocationScore(t, WorstProfile(w), "", "remote") == Extreme(w.location, 0)
    ensures SalaryScore(sameCurrency, WorstProfile(w), None, Some(1), "") == Extreme(w.salary, 0)
    ensures DomainScore(t, WorstProfile(w), "", [], [], true) == Extreme(w.domain, 0)
  {
    PlainTextsAreFixed(t, "remote");
    ContainsItself("remote");
  }

  /** The extremes are reached together. */
  lemma WorstScores(t: Text, sameCurrency: (string, string) -> bool, w: Weights)
    requires Lawful(t)
    ensures ScoresOf(t, sameCurrency, WorstProfile(w), HARSH_VACANCY, true)
            == Scores(Extreme(w.role, 0), Extreme(w.skills, 0), Extreme(w.experience, 0), Extreme(w.grade, 30),
                      Extreme(w.location, 0), Extreme(w.salary, 0), Extreme(w.domain, 0))
  {
    WorstRole(t, w);
    WorstGrade(t, w);
    SrRanksThird(t);
    WorstSkills(t, w);
    assert SkillNames(t, []) == {};
    WorstPlaceAndPay(t, sameCurrency, w);
  }

  lemma ExtremeTimesWeight(weight: int, least: int)
    ensures Extreme(weight, least) * weight == if weight < 0 then least * weight else 100 * weight
  {
  }

  /** What the negative weights take out of the sum to 100, the others have put in at full score. */
  lemma NegativeWeightOvershoots(cfg: Config, s: Scores)
    requires Valid(cfg) && !NonNegative(cfg.weights)
    requires var w := cfg.weights;
             s == Scores(Extreme(w.role, 0), Extreme(w.skills, 0), Extreme(w.experience, 0), Extreme(w.grade, 30),
                         Extreme(w.location, 0), Extreme(w.salary, 0), Extreme(w.domain, 0))
    ensures WeightedAverage(cfg, s) > 100
  {
    var w := cfg.weights;
    ExtremeTimesWeight(w.role, 0);
    ExtremeTimesWeight(w.skills, 0);
    ExtremeTimesWeight(w.experience, 0);
    ExtremeTimesWeight(w.grade, 30);
    ExtremeTimesWeight(w.location, 0);
    ExtremeTimesWeight(w.salary, 0);
    ExtremeTimesWeight(w.domain, 0);
    assert WeightedSum(w, s) >= 10070;
  }

  /**
   * Validate accepts negative weights. Every profile, vacancy and company scores a total in [0, 100] iff there are
   * none: with one, some candidate scores above 100.
   */
  lemma TotalsStayInRangeIffWeightsNonNegative(cfg: Config, t: Text, sameCurrency: (string, string) -> bool)
    requires Valid(cfg) && Lawful(t)
    ensures (forall p, v, company, passed ::
               0 <= ScoreVacancy(cfg, t, sameCurrency, p, v, company, passed).total <= 100)
            <==> NonNegative(cfg.weights)
  {
    if NonNegative(cfg.weights) {
      forall p, v, company, passed ensures 0 <= ScoreVacancy(cfg, t, sameCurrency, p, v, company, passed).total <= 100 {
        TotalScoreInRange(cfg, t, sameCurrency, p, v, company, passed);
      }
    } else {
      var w := cfg.weights;
      WorstScores(t, sameCurrency, w);
      NegativeWeightOvershoots(cfg, ScoresOf(t, sameCurrency, WorstProfile(w), HARSH_VACANCY, true));
      assert ScoreVacancy(cfg, t, sameCurrency, WorstProfile(w), HARSH_VACANCY, HARSH_COMPANY, true).total > 100;
    }
  }
}
