/** What an import with its real parts stores, written out from the posting. */
module ImportLaws {
  import opened Basics
  import opened Entities
  import opened Workflow
  import opened WorkflowInvariants
  import opened Normalization
  import opened Pipeline
  import ContentHash
  import Ordering
  import Scoring
  import StatusLaws
  import TextLaws
  import V = VacancyStatuses

  /** The descriptive columns of a vacancy that came from this posting. */
  ghost predicate Columns(t: Text, d: VacancyDetails, raw: RawVacancy) {
    && d.sourceUrl == raw.sourceUrl && d.canonicalUrl == raw.canonicalUrl && d.title == raw.title
    && d.location == raw.location && d.remoteType == raw.remoteType && d.employmentType == raw.employmentType
    && d.grade == raw.grade && d.salaryFrom == raw.salaryFrom && d.salaryTo == raw.salaryTo
    && d.currency == raw.currency && d.publishedAt == raw.publishedAt && d.collectedAt == raw.collectedAt
    && d.normalizedTitle == NormalizeText(t, raw.title)
    && d.description == StripHTML(t, raw.description) && d.requirements == StripHTML(t, raw.requirements)
    && d.responsibilities == StripHTML(t, raw.responsibilities)
    && Canonical(t, d.skills, raw.skills) && Canonical(t, d.languageRequirements, raw.languageRequirements)
    && Canonical(t, d.workAuthorizationRequirements, raw.workAuthorizationRequirements)
  }

  /** `list` has each non-empty normalised item of `values` once, in order. */
  ghost predicate Canonical(t: Text, list: seq<string>, values: seq<string>) {
    && Ordering.StrictlySorted(list)
    && forall x :: x in list <==> x != "" && exists v :: v in values && NormalizeSkill(t, v) == x
  }

  lemma ListIsCanonical(t: Text, values: seq<string>)
    ensures Canonical(t, NormalizedList(t, values), values)
  {
  }

  lemma DetailsAreColumns(t: Text, raw: RawVacancy)
    ensures Columns(t, DetailsOf(t, raw), raw)
  {
    ListIsCanonical(t, raw.skills);
    ListIsCanonical(t, raw.languageRequirements);
    ListIsCanonical(t, raw.workAuthorizationRequirements);
  }

  /** In every reachable store the columns of a vacancy are those of one posting with its external ID and its hash. */
  lemma StoredColumns(lib: Library, cfg: Scoring.Config, s: State, id: Id)
    requires Reachable(RealEnv(lib, cfg), s) && id in s.vacancies
    ensures exists raw :: && Columns(lib.text, s.vacancies[id].details, raw)
                          && s.vacancies[id].externalId == raw.externalId
                          && s.vacancies[id].contentHash == ContentHash.ContentHashOf(lib.text, lib.sha, raw)
  {
    var env := RealEnv(lib, cfg);
    StoredRowsAreTraced(env, s, id);
    var raw :| FromPosting(env, s.vacancies[id], raw);
    DetailsAreColumns(lib.text, raw);
  }

  /** The company's name: the posting's, else the host it was found on, else a placeholder. */
  function NameOf(lib: Library, raw: RawVacancy): string {
    var given, host := lib.trim(raw.companyName), lib.trim(lib.hostname(raw.sourceUrl));
    if given != "" then given else if host != "" then host else lib.trim("unknown company")
  }

  lemma FirstOfThree(trim: string -> string, a: string, b: string, c: string)
    ensures FirstNonEmpty(trim, [a, b, c])
         == if trim(a) != "" then trim(a) else if trim(b) != "" then trim(b) else trim(c)
  {
    assert [a, b, c][1..] == [b, c] && [b, c][1..] == [c] && [c][1..] == [];
    assert FirstNonEmpty(trim, [c]) == trim(c) by { assert FirstNonEmpty(trim, []) == ""; }
  }

  /** An import leaves the company under the posting's name, found by the normal form of that name. */
  lemma CompanyLaw(lib: Library, cfg: Scoring.Config, s: State, profile: CandidateProfile, sourceId: Id,
                   raw: RawVacancy, now: Instant, ids: FreshIds, pick: Option<Id>)
    requires CompaniesKeyed(s.companies) && UniqueNames(s.companies) && ids.company !in s.companies
    ensures var r, name := Import(RealEnv(lib, cfg), s, profile, sourceId, raw, now, ids, pick), NameOf(lib, raw);
            && r.company.displayName == name && r.company.normalizedName == NormalizeText(lib.text, name)
            && r.state.companies == s.companies[r.company.id := r.company] && r.vacancy.companyId == r.company.id
            && (forall id :: id in s.companies && s.companies[id].normalizedName == NormalizeText(lib.text, name) ==>
                  r.company.id == id && r.company.blacklisted == s.companies[id].blacklisted)
  {
    var incoming := IncomingCompany(RealEnv(lib, cfg), raw, ids.company);
    CompanyAfterFacts(s, incoming);
    FirstOfThree(lib.trim, raw.companyName, lib.hostname(raw.sourceUrl), "unknown company");
    assert incoming.displayName == NameOf(lib, raw);
  }

  /** Once stored, a posting is judged afresh at each import until its vacancy leaves intake. */
  lemma ReimportStatus(lib: Library, cfg: Scoring.Config, s: State, profile: CandidateProfile, sourceId: Id,
                       raw: RawVacancy, now: Instant, ids: FreshIds, pick: Option<Id>, id: Id)
    requires Scoring.Valid(cfg) && VacanciesKeyed(s.vacancies) && UniqueVacancies(s.vacancies)
    requires IsVacancyAt(s, id, sourceId, raw.externalId)
    ensures var r := Import(RealEnv(lib, cfg), s, profile, sourceId, raw, now, ids, pick);
            var m, before := r.vacancyMatch.verdict, s.vacancies[id].status;
            && r.vacancy.id == id && r.vacancy.duplicateOf.None?
            && m.passed == lib.filter(profile, r.vacancy.details, r.company, now)
            && r.vacancy.status
               == if before !in {V.Discovered, V.Normalized, V.Duplicate, V.FilteredOut, V.Recommended} then before
                  else if !m.passed then V.FilteredOut
                  else if m.total >= cfg.reviewThreshold then V.Recommended
                  else V.Normalized
  {
    var env := RealEnv(lib, cfg);
    StatusLaws.ReimportLaw(env, s, profile, sourceId, raw, now, ids, pick, id);
    WhenSkipped(lib, cfg, profile, env.details(raw), Import(env, s, profile, sourceId, raw, now, ids, pick).company,
                now);
  }

  /** A tag in a description makes no difference to the hash: it is worth a blank. */
  lemma TagsDoNotChangeTheHash(t: Text, sha: string -> string, raw: RawVacancy, a: string, tag: string, b: string)
    requires Lawful(t) && '<' !in a && '>' !in tag && '&' !in a && '&' !in tag && '&' !in b
    ensures ContentHash.ContentHashOf(t, sha, raw.(description := a + "<" + tag + ">" + b))
         == ContentHash.ContentHashOf(t, sha, raw.(description := a + " " + b))
  {
    TextLaws.TagInPlainText(t, a, tag, b);
    var x, y := raw.(description := a + "<" + tag + ">" + b), raw.(description := a + " " + b);
    assert ContentHash.HashInput(t, x) == ContentHash.HashInput(t, y);
  }
}
