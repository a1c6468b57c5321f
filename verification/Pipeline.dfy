/**
 * The import with its real parts put in: normalisation, hashing and scoring (internal/app/app.go, internal/core).
 * What is stored is tied back to the postings it came from, over whole runs.
 */
module Pipeline {
  import opened Basics
  import opened Entities
  import opened Workflow
  import opened WorkflowInvariants
  import opened Normalization
  import WorkflowRuns
  import ContentHash
  import Scoring
  import V = VacancyStatuses

  /** What comes from elsewhere: text tables, SHA-256, URL parsing, trimming, currency comparison, the hard filters. */
  datatype Library = Library(
    text: Text, sha: string -> string, hostname: string -> string, trim: string -> string,
    sameCurrency: (string, string) -> bool, filter: (CandidateProfile, VacancyDetails, Company, Instant) -> bool)

  function FirstNonEmpty(trim: string -> string, values: seq<string>): string {
    if values == [] then ""
    else if trim(values[0]) != "" then trim(values[0])
    else FirstNonEmpty(trim, values[1..])
  }

  function DetailsOf(t: Text, raw: RawVacancy): VacancyDetails {
    VacancyDetails(
      raw.sourceUrl, raw.canonicalUrl, raw.title, NormalizeText(t, raw.title),
      StripHTML(t, raw.description), StripHTML(t, raw.requirements), StripHTML(t, raw.responsibilities),
      raw.location, raw.remoteType, raw.employmentType, raw.grade, raw.salaryFrom, raw.salaryTo, raw.currency,
      NormalizedList(t, raw.skills), NormalizedList(t, raw.languageRequirements),
      NormalizedList(t, raw.workAuthorizationRequirements), raw.publishedAt, raw.collectedAt)
  }

  ghost function Evaluate(lib: Library, cfg: Scoring.Config, p: CandidateProfile, v: VacancyDetails, c: Company,
                          now: Instant)
    : Verdict
  {
    Scoring.ScoreVacancy(cfg, lib.text, lib.sameCurrency, p, v, c, lib.filter(p, v, c, now))
  }

  ghost function RealEnv(lib: Library, cfg: Scoring.Config): Env {
    Env((raw: RawVacancy) => FirstNonEmpty(lib.trim, [raw.companyName, lib.hostname(raw.sourceUrl), "unknown company"]),
        (name: string) => NormalizeText(lib.text, name),
        (raw: RawVacancy) => DetailsOf(lib.text, raw),
        (raw: RawVacancy) => ContentHash.ContentHashOf(lib.text, lib.sha, raw),
        (p: CandidateProfile, v: VacancyDetails, c: Company, now: Instant) => Evaluate(lib, cfg, p, v, c, now))
  }

  // ---- where stored rows come from ----

  predicate FromPosting(env: Env, v: Vacancy, raw: RawVacancy) {
    v.externalId == raw.externalId && v.details == env.details(raw) && v.contentHash == env.contentHash(raw)
  }

  predicate Evaluated(env: Env, v: Vacancy, m: VacancyMatch, p: CandidateProfile, c: Company, now: Instant) {
    && m.vacancyId == v.id && m.profileId == p.id && c.id == v.companyId && m.calculatedAt == now
    && m.verdict == env.evaluate(p, v.details, c, now)
  }

  ghost predicate Traced(env: Env, v: Vacancy, m: VacancyMatch) {
    (exists raw :: FromPosting(env, v, raw)) && (exists p, c, now :: Evaluated(env, v, m, p, c, now))
  }

  ghost predicate AllTraced(env: Env, vacancies: Vacancies, matches: Matches) {
    forall id :: id in vacancies ==> id in matches && Traced(env, vacancies[id], matches[id])
  }

  predicate OnlyStatusDiffers(v: Vacancy, v': Vacancy) {
    v' == v.(status := v'.status)
  }

  ghost predicate OnlyStatusesDiffer(before: Vacancies, after: Vacancies) {
    && (forall id :: id in before <==> id in after)
    && forall id :: id in before ==> OnlyStatusDiffers(before[id], after[id])
  }

  lemma MoveKeepsDetails(s: State, id: Id, to: V.VacancyStatus)
    requires id in s.vacancies
    ensures OnlyStatusesDiffer(s.vacancies, MoveVacancy(s, id, to).vacancies)
            && MoveVacancy(s, id, to).matches == s.matches
  {
  }

  lemma EffectKeepsDetails(s: State, effect: WorkflowRuns.Effect)
    requires !effect.Imports?
    ensures OnlyStatusesDiffer(s.vacancies, WorkflowRuns.Perform(s, effect).vacancies)
    ensures WorkflowRuns.Perform(s, effect).matches == s.matches
  {
    match effect
    case Moves(id, to) => if id in s.vacancies { MoveKeepsDetails(s, id, to); }
    case WritesAndMoves(a, e, to) => if a.vacancyId in s.vacancies { MoveKeepsDetails(s, a.vacancyId, to); }
    case _ =>
  }

  lemma ImportKeepsTraced(env: Env, s: State, profile: CandidateProfile, sourceId: Id, raw: RawVacancy, now: Instant,
                          ids: FreshIds, pick: Option<Id>)
    requires AllTraced(env, s.vacancies, s.matches)
    ensures var s' := Import(env, s, profile, sourceId, raw, now, ids, pick).state;
            AllTraced(env, s'.vacancies, s'.matches)
  {
    var r := Import(env, s, profile, sourceId, raw, now, ids, pick);
    assert FromPosting(env, r.vacancy, raw);
    assert Evaluated(env, r.vacancy, r.vacancyMatch, profile, r.company, now);
  }

  lemma StatusesKeepTraced(env: Env, before: Vacancies, after: Vacancies, matches: Matches)
    requires AllTraced(env, before, matches) && OnlyStatusesDiffer(before, after)
    ensures AllTraced(env, after, matches)
  {
    forall id | id in after ensures Traced(env, after[id], matches[id]) {
      var v, v' := before[id], after[id];
      assert Traced(env, v, matches[id]) && OnlyStatusDiffers(v, v');
      var raw :| FromPosting(env, v, raw);
      assert FromPosting(env, v', raw);
      var p, c, now :| Evaluated(env, v, matches[id], p, c, now);
      assert Evaluated(env, v', matches[id], p, c, now);
    }
  }

  lemma StepKeepsTraced(env: Env, s: State, action: Action)
    requires Inv(s) && Admissible(env, s, action) && AllTraced(env, s.vacancies, s.matches)
    ensures AllTraced(env, Step(env, s, action).vacancies, Step(env, s, action).matches)
  {
    match action {
      case ImportVacancy(profile, sourceId, raw, now, ids, pick) =>
        ImportKeepsTraced(env, s, profile, sourceId, raw, now, ids, pick);
      case _ =>
        var effect := WorkflowRuns.StepEffect(env, s, action);
        EffectKeepsDetails(s, effect);
        StatusesKeepTraced(env, s.vacancies, WorkflowRuns.Perform(s, effect).vacancies, s.matches);
    }
  }

  lemma {:induction false} RunKeepsTraced(env: Env, s: State, actions: seq<Action>)
    requires Inv(s) && AllTraced(env, s.vacancies, s.matches) && ValidRun(env, s, actions)
    ensures AllTraced(env, Run(env, s, actions).vacancies, Run(env, s, actions).matches)
    decreases |actions|
  {
    if actions != [] {
      StepKeepsTraced(env, s, actions[0]);
      StepKeepsInv(env, s, actions[0]);
      RunKeepsTraced(env, Step(env, s, actions[0]), actions[1..]);
    }
  }

  /**
   * In every store a run produces, a vacancy's text and hash come from one posting, and its match is the verdict on
   * exactly that text.
   */
  lemma StoredRowsAreTraced(env: Env, s: State, id: Id)
    requires Reachable(env, s) && id in s.vacancies
    ensures id in s.matches && Traced(env, s.vacancies[id], s.matches[id])
  {
    var actions :| ValidRun(env, EMPTY, actions) && s == Run(env, EMPTY, actions);
    EmptyStoreIsFine();
    RunKeepsTraced(env, EMPTY, actions);
  }

  lemma StoredVerdictsAreOk(env: Env, s: State, id: Id, ok: Verdict -> bool)
    requires forall p, v, c, now: Instant :: ok(env.evaluate(p, v, c, now))
    requires Reachable(env, s) && id in s.vacancies
    ensures id in s.matches && ok(s.matches[id].verdict)
  {
    StoredRowsAreTraced(env, s, id);
    var p, c, now :| Evaluated(env, s.vacancies[id], s.matches[id], p, c, now);
    assert ok(env.evaluate(p, s.vacancies[id].details, c, now));
  }

  /** The recommendation says where the total lies between the thresholds. */
  predicate VerdictOk(cfg: Scoring.Config, m: Verdict) {
    && 0 <= m.total <= 100
    && (m.recommendation == Apply <==> m.passed && m.total >= cfg.applyThreshold)
    && (m.recommendation == Skip <==> !m.passed || m.total < cfg.reviewThreshold)
  }

  lemma EvaluateIsOk(lib: Library, cfg: Scoring.Config, p: CandidateProfile, v: VacancyDetails, c: Company,
                     now: Instant)
    requires Scoring.Valid(cfg) && Scoring.NonNegative(cfg.weights)
    ensures VerdictOk(cfg, Evaluate(lib, cfg, p, v, c, now))
  {
    Scoring.TotalScoreInRange(cfg, lib.text, lib.sameCurrency, p, v, c, lib.filter(p, v, c, now));
  }

  /** Every stored total lies in [0, 100] and agrees with the stored recommendation. */
  lemma StoredTotalsAreInRange(lib: Library, cfg: Scoring.Config, s: State, id: Id)
    requires Scoring.Valid(cfg) && Scoring.NonNegative(cfg.weights)
    requires Reachable(RealEnv(lib, cfg), s) && id in s.vacancies
    ensures id in s.matches && VerdictOk(cfg, s.matches[id].verdict)
  {
    var env, ok := RealEnv(lib, cfg), (m: Verdict) => VerdictOk(cfg, m);
    forall p, v, c, now: Instant ensures ok(env.evaluate(p, v, c, now)) {
      EvaluateIsOk(lib, cfg, p, v, c, now);
    }
    StoredVerdictsAreOk(env, s, id, ok);
  }

  // ---- deduplication means equal content ----

  /** An unlinked vacancy that came from `posting`. */
  ghost predicate IsOriginal(env: Env, s: State, id: Id, posting: RawVacancy) {
    id in s.vacancies && s.vacancies[id].duplicateOf.None? && FromPosting(env, s.vacancies[id], posting)
  }

  lemma DuplicateIffHashSeen(env: Env, s: State, profile: CandidateProfile, sourceId: Id, raw: RawVacancy, now: Instant,
                             ids: FreshIds, pick: Option<Id>)
    requires Reachable(env, s) && Admissible(env, s, ImportVacancy(profile, sourceId, raw, now, ids, pick))
    requires forall id :: !IsVacancyAt(s, id, sourceId, raw.externalId)
    ensures Import(env, s, profile, sourceId, raw, now, ids, pick).vacancy.duplicateOf == pick
    ensures pick.Some? <==> exists id, posting ::
              IsOriginal(env, s, id, posting) && env.contentHash(posting) == env.contentHash(raw)
  {
    if pick.Some? {
      StoredRowsAreTraced(env, s, pick.value);
      var posting :| FromPosting(env, s.vacancies[pick.value], posting);
      assert IsOriginal(env, s, pick.value, posting);
    } else if id, posting :| IsOriginal(env, s, id, posting) && env.contentHash(posting) == env.contentHash(raw) {
      assert IsPrimary(s, id, env.contentHash(raw));
    }
  }

  /** Agreement of everything that describes a posting; the long texts are compared without their tags. */
  predicate SamePosting(t: Text, a: RawVacancy, b: RawVacancy) {
    && NormalizeText(t, a.title) == NormalizeText(t, b.title)
    && NormalizeText(t, a.companyName) == NormalizeText(t, b.companyName)
    && NormalizeText(t, StripHTML(t, a.description)) == NormalizeText(t, StripHTML(t, b.description))
    && NormalizeText(t, StripHTML(t, a.requirements)) == NormalizeText(t, StripHTML(t, b.requirements))
    && NormalizeText(t, StripHTML(t, a.responsibilities)) == NormalizeText(t, StripHTML(t, b.responsibilities))
    && NormalizeText(t, a.location) == NormalizeText(t, b.location)
    && NormalizeText(t, a.remoteType) == NormalizeText(t, b.remoteType)
    && NormalizeText(t, a.employmentType) == NormalizeText(t, b.employmentType)
    && NormalizeText(t, a.grade) == NormalizeText(t, b.grade)
    && a.salaryFrom == b.salaryFrom && a.salaryTo == b.salaryTo
    && NormalizeText(t, a.currency) == NormalizeText(t, b.currency)
    && Items(t, a.skills) == Items(t, b.skills)
    && Items(t, a.languageRequirements) == Items(t, b.languageRequirements)
    && Items(t, a.workAuthorizationRequirements) == Items(t, b.workAuthorizationRequirements)
  }

  lemma HashMeansContent(lib: Library, cfg: Scoring.Config, a: RawVacancy, b: RawVacancy)
    requires Lawful(lib.text) && ContentHash.CollisionFree(lib.sha)
    ensures RealEnv(lib, cfg).contentHash(a) == RealEnv(lib, cfg).contentHash(b) <==> SamePosting(lib.text, a, b)
  {
    ContentHash.ContentHashIdentifiesContent(lib.text, lib.sha, a, b);
  }

  /**
   * A posting seen for the first time is linked as a duplicate iff some unlinked vacancy came from a posting with the
   * same normalised content.
   */
  lemma FirstImportIsDuplicateIffContentSeen(lib: Library, cfg: Scoring.Config, s: State, profile: CandidateProfile,
                                             sourceId: Id, raw: RawVacancy, now: Instant, ids: FreshIds,
                                             pick: Option<Id>)
    requires Lawful(lib.text) && ContentHash.CollisionFree(lib.sha)
    requires Reachable(RealEnv(lib, cfg), s)
    requires Admissible(RealEnv(lib, cfg), s, ImportVacancy(profile, sourceId, raw, now, ids, pick))
    requires forall id :: !IsVacancyAt(s, id, sourceId, raw.externalId)
    ensures Import(RealEnv(lib, cfg), s, profile, sourceId, raw, now, ids, pick).vacancy.duplicateOf.Some?
            <==> exists id, posting ::
                   IsOriginal(RealEnv(lib, cfg), s, id, posting) && SamePosting(lib.text, posting, raw)
  {
    var env := RealEnv(lib, cfg);
    DuplicateIffHashSeen(env, s, profile, sourceId, raw, now, ids, pick);
    forall posting ensures env.contentHash(posting) == env.contentHash(raw) <==> SamePosting(lib.text, posting, raw) {
      HashMeansContent(lib, cfg, posting, raw);
    }
  }

  predicate StatusFits(v: Vacancy, m: Verdict, recommended: bool) {
    v.status == if v.duplicateOf.Some? then V.Duplicate
                else if !m.passed then V.FilteredOut
                else if recommended then V.Recommended
                else V.Normalized
  }

  lemma FirstStatusFits(env: Env, s: State, profile: CandidateProfile, sourceId: Id, raw: RawVacancy, now: Instant,
                        ids: FreshIds, pick: Option<Id>)
    requires forall id :: !IsVacancyAt(s, id, sourceId, raw.externalId)
    ensures var r := Import(env, s, profile, sourceId, raw, now, ids, pick);
            var m := r.vacancyMatch.verdict;
            StatusFits(r.vacancy, m, m.recommendation != Skip)
              && m == env.evaluate(profile, env.details(raw), r.company, now)
  {
  }

  lemma WhenSkipped(lib: Library, cfg: Scoring.Config, p: CandidateProfile, v: VacancyDetails, c: Company, now: Instant)
    requires Scoring.Valid(cfg)
    ensures var m := RealEnv(lib, cfg).evaluate(p, v, c, now);
            m.passed == lib.filter(p, v, c, now)
              && (m.recommendation == Skip <==> !m.passed || m.total < cfg.reviewThreshold)
  {
    assert RealEnv(lib, cfg).evaluate(p, v, c, now) == Evaluate(lib, cfg, p, v, c, now);
  }

  /** Otherwise filter and score decide: FILTERED_OUT, RECOMMENDED from the review threshold on, or NORMALIZED. */
  lemma FirstImportStatus(lib: Library, cfg: Scoring.Config, s: State, profile: CandidateProfile, sourceId: Id,
                          raw: RawVacancy, now: Instant, ids: FreshIds, pick: Option<Id>)
    requires Scoring.Valid(cfg)
    requires forall id :: !IsVacancyAt(s, id, sourceId, raw.externalId)
    ensures var r := Import(RealEnv(lib, cfg), s, profile, sourceId, raw, now, ids, pick);
            var m := r.vacancyMatch.verdict;
            StatusFits(r.vacancy, m, m.total >= cfg.reviewThreshold)
  {
    var env := RealEnv(lib, cfg);
    FirstStatusFits(env, s, profile, sourceId, raw, now, ids, pick);
    WhenSkipped(lib, cfg, profile, env.details(raw), Import(env, s, profile, sourceId, raw, now, ids, pick).company,
                now);
  }
}
