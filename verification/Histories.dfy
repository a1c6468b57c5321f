/**
 * Histories from the empty store. Each ends where the code does less than one might expect, so none of the conditions
 * proved elsewhere for these cases is empty.
 */
module Histories {
  import opened Basics
  import opened Entities
  import opened Workflow
  import opened WorkflowInvariants
  import opened WorkflowRuns
  import Atomicity
  import Interleaving
  import Pipeline
  import Scoring
  import ResumeSelection
  import V = VacancyStatuses
  import A = ApplicationStatuses

  const FIRST_IDS := FreshIds("c1", "v1", "m1")
  const SECOND_IDS := FreshIds("c2", "v2", "m2")
  const THIRD_IDS := FreshIds("c3", "v3", "m3")

  // ---- a duplicate that loses its link ----

  ghost function FirstImport(env: Env, profile: CandidateProfile, sourceId: Id, raw: RawVacancy,
                             now: Instant): Imported
  {
    Import(env, EMPTY, profile, sourceId, raw, now, FIRST_IDS, None)
  }

  /** The same content under another external ID. */
  ghost function DuplicateImport(env: Env, profile: CandidateProfile, sourceId: Id, raw: RawVacancy, again: RawVacancy,
                                 now: Instant): Imported
  {
    Import(env, FirstImport(env, profile, sourceId, raw, now).state, profile, sourceId, again, now, SECOND_IDS,
           Some("v1"))
  }

  ghost function ThirdImport(env: Env, profile: CandidateProfile, sourceId: Id, raw: RawVacancy, again: RawVacancy,
                             now: Instant): Imported
  {
    Import(env, DuplicateImport(env, profile, sourceId, raw, again, now).state, profile, sourceId, again, now,
           THIRD_IDS, Some("v1"))
  }

  lemma AfterFirstImport(env: Env, profile: CandidateProfile, sourceId: Id, raw: RawVacancy, now: Instant)
    ensures var r := FirstImport(env, profile, sourceId, raw, now);
            && Reachable(env, r.state)
            && r.state.companies.Keys == {"c1"} && r.state.vacancies.Keys == {"v1"} && r.state.matches.Keys == {"v1"}
            && r.state.vacancies["v1"] == r.vacancy && r.vacancy.sourceId == sourceId
            && r.vacancy.externalId == raw.externalId && r.vacancy.contentHash == env.contentHash(raw)
            && r.vacancy.duplicateOf.None? && V.Intake(r.vacancy.status)
            && r.state.applications == map[]
  {
    EmptyIsReachable(env);
    ReachableStep(env, EMPTY, ImportVacancy(profile, sourceId, raw, now, FIRST_IDS, None));
    assert VacancyAt(EMPTY, sourceId, raw.externalId).None?;
  }

  lemma AfterDuplicateImport(env: Env, profile: CandidateProfile, sourceId: Id, raw: RawVacancy, again: RawVacancy,
                             now: Instant)
    requires again.externalId != raw.externalId && env.contentHash(again) == env.contentHash(raw)
    ensures var s := FirstImport(env, profile, sourceId, raw, now).state;
            var r := DuplicateImport(env, profile, sourceId, raw, again, now);
            && Reachable(env, s) && Reachable(env, r.state)
            && Admissible(env, s, ImportVacancy(profile, sourceId, again, now, SECOND_IDS, Some("v1")))
            && r.state.companies.Keys <= {"c1", "c2"} && r.state.vacancies.Keys == {"v1", "v2"}
            && r.state.matches.Keys == {"v1", "v2"}
            && r.vacancy.id == "v2" && r.state.vacancies["v2"] == r.vacancy && r.vacancy.duplicateOf == Some("v1")
            && r.vacancy.sourceId == sourceId && r.vacancy.externalId == again.externalId
            && IsPrimary(r.state, "v1", env.contentHash(again))
  {
    AfterFirstImport(env, profile, sourceId, raw, now);
    var s := FirstImport(env, profile, sourceId, raw, now).state;
    assert IsPrimary(s, "v1", env.contentHash(again));
    ReachableStep(env, s, ImportVacancy(profile, sourceId, again, now, SECOND_IDS, Some("v1")));
    assert VacancyAt(s, sourceId, again.externalId).None?;
    SecondCompany(s, IncomingCompany(env, again, "c2"));
  }

  lemma SecondCompany(s: State, incoming: Company)
    requires s.companies.Keys == {"c1"} && s.companies["c1"].id == "c1" && incoming.id == "c2"
    ensures CompanyAfter(s, incoming).id in {"c1", "c2"}
  {
  }

  lemma KnownVacancyLosesItsLink(env: Env, s: State, profile: CandidateProfile, sourceId: Id, raw: RawVacancy,
                                 now: Instant, ids: FreshIds, pick: Option<Id>, v: Vacancy)
    requires Reachable(env, s) && v.id in s.vacancies && s.vacancies[v.id] == v
    requires v.sourceId == sourceId && v.externalId == raw.externalId
    ensures var r := Import(env, s, profile, sourceId, raw, now, ids, pick);
            r.vacancy.id == v.id && r.vacancy.duplicateOf.None?
  {
    ReachableUniqueVacancies(env, s);
    VacancyFoundAgain(s, v);
  }

  lemma ReachableUniqueVacancies(env: Env, s: State)
    requires Reachable(env, s)
    ensures UniqueVacancies(s.vacancies)
  {
    ReachableIsFine(env, s);
  }

  lemma LinkedReimportChanges(env: Env, s: State, profile: CandidateProfile, sourceId: Id, raw: RawVacancy,
                              now: Instant, ids: FreshIds, pick: Option<Id>, ids': FreshIds, pick': Option<Id>)
    requires Reachable(env, s) && Admissible(env, s, ImportVacancy(profile, sourceId, raw, now, ids, pick))
    requires Import(env, s, profile, sourceId, raw, now, ids, pick).vacancy.duplicateOf.Some?
    ensures var first := Import(env, s, profile, sourceId, raw, now, ids, pick);
            Import(env, first.state, profile, sourceId, raw, now, ids', pick').state != first.state
  {
    ReachableIsFine(env, s);
    ReimportAtOnce(env, s, profile, sourceId, raw, now, ids, pick, ids', pick');
  }

  lemma ThirdIdsAreFresh(env: Env, s: State, profile: CandidateProfile, sourceId: Id, raw: RawVacancy, now: Instant)
    requires s.companies.Keys <= {"c1", "c2"} && s.vacancies.Keys == {"v1", "v2"} && s.matches.Keys == {"v1", "v2"}
    requires IsPrimary(s, "v1", env.contentHash(raw))
    ensures Admissible(env, s, ImportVacancy(profile, sourceId, raw, now, THIRD_IDS, Some("v1")))
  {
    assert "c3" !in s.companies.Keys && "v3" !in s.vacancies.Keys && "v3" !in s.matches.Keys;
  }

  lemma ThirdIsAdmissible(env: Env, profile: CandidateProfile, sourceId: Id, raw: RawVacancy, again: RawVacancy,
                          now: Instant)
    requires again.externalId != raw.externalId && env.contentHash(again) == env.contentHash(raw)
    ensures Admissible(env, DuplicateImport(env, profile, sourceId, raw, again, now).state,
                       ImportVacancy(profile, sourceId, again, now, THIRD_IDS, Some("v1")))
  {
    AfterDuplicateImport(env, profile, sourceId, raw, again, now);
    var s := DuplicateImport(env, profile, sourceId, raw, again, now).state;
    ThirdIdsAreFresh(env, s, profile, sourceId, again, now);
  }

  /** A second posting of the same content is linked; importing it once more clears the link. */
  lemma ThirdImportClearsTheLink(env: Env, profile: CandidateProfile, sourceId: Id, raw: RawVacancy, again: RawVacancy,
                                 now: Instant)
    requires again.externalId != raw.externalId && env.contentHash(again) == env.contentHash(raw)
    ensures var second := DuplicateImport(env, profile, sourceId, raw, again, now);
            var third := ThirdImport(env, profile, sourceId, raw, again, now);
            && Reachable(env, second.state) && third.state != second.state
            && Admissible(env, second.state, ImportVacancy(profile, sourceId, again, now, THIRD_IDS, Some("v1")))
            && second.vacancy.duplicateOf == Some("v1")
            && third.vacancy.id == second.vacancy.id && third.vacancy.duplicateOf.None?
  {
    AfterDuplicateImport(env, profile, sourceId, raw, again, now);
    ThirdIsAdmissible(env, profile, sourceId, raw, again, now);
    var s := FirstImport(env, profile, sourceId, raw, now).state;
    var second := DuplicateImport(env, profile, sourceId, raw, again, now);
    LinkedReimportChanges(env, s, profile, sourceId, again, now, SECOND_IDS, Some("v1"), THIRD_IDS, Some("v1"));
    KnownVacancyLosesItsLink(env, second.state, profile, sourceId, again, now, THIRD_IDS, Some("v1"), second.vacancy);
  }

  /** With the real hash any posting will do: the external ID is no part of the content. */
  lemma RealDuplicatesLoseTheirLinks(lib: Pipeline.Library, cfg: Scoring.Config, profile: CandidateProfile,
                                     sourceId: Id, raw: RawVacancy, externalId: string, now: Instant)
    requires externalId != raw.externalId
    ensures var env, again := Pipeline.RealEnv(lib, cfg), raw.(externalId := externalId);
            && DuplicateImport(env, profile, sourceId, raw, again, now).vacancy.duplicateOf == Some("v1")
            && ThirdImport(env, profile, sourceId, raw, again, now).vacancy.duplicateOf.None?
  {
    ThirdImportClearsTheLink(Pipeline.RealEnv(lib, cfg), profile, sourceId, raw, raw.(externalId := externalId), now);
  }

  // ---- an application that awaits approval, then manual action ----

  lemma CreatedIsWritten(s: State, caller: Id, vacancyId: Id, resumeId: Id, freshId: Id, actor: string, now: Instant)
    requires Prepare(s, Some(caller), vacancyId, Ok(resumeId), freshId, actor, now).reply.Done?
    requires forall id :: !IsActiveFor(s, id, vacancyId, caller)
    ensures Prepare(s, Some(caller), vacancyId, Ok(resumeId), freshId, actor, now).state
            == Write(s, NewApplication(freshId, vacancyId, caller, resumeId, now),
                     AuditEvent(actor, Prepared, freshId, now))
  {
  }

  lemma ReachablePrepareCreates(env: Env, s: State, caller: Id, vacancyId: Id, resumeId: Id, freshId: Id, actor: string,
                                now: Instant)
    requires Reachable(env, s) && vacancyId in s.vacancies && s.vacancies[vacancyId].status != V.Archived
    requires freshId !in s.applications && resumeId in s.resumes && forall id :: !IsActiveFor(s, id, vacancyId, caller)
    ensures Prepare(s, Some(caller), vacancyId, Ok(resumeId), freshId, actor, now).reply.Done?
  {
    ReachableIsFine(env, s);
    PrepareCreates(s, caller, vacancyId, resumeId, freshId, actor, now);
  }

  lemma PreparedIsReachable(env: Env, s: State, caller: Id, vacancyId: Id, resumeId: Id, freshId: Id, actor: string,
                            now: Instant)
    requires Reachable(env, s) && vacancyId in s.vacancies && s.vacancies[vacancyId].status != V.Archived
    requires freshId !in s.applications && resumeId in s.resumes && forall id :: !IsActiveFor(s, id, vacancyId, caller)
    ensures var s' := Prepare(s, Some(caller), vacancyId, Ok(resumeId), freshId, actor, now).state;
            && Reachable(env, s') && freshId in s'.applications
            && s'.applications[freshId] == NewApplication(freshId, vacancyId, caller, resumeId, now)
  {
    ReachablePrepareCreates(env, s, caller, vacancyId, resumeId, freshId, actor, now);
    CreatedIsWritten(s, caller, vacancyId, resumeId, freshId, actor, now);
    ReachableStep(env, s, PrepareApplication(Some(caller), vacancyId, Ok(resumeId), freshId, actor, now));
  }

  lemma ApprovedIsReachable(env: Env, s: State, caller: Id, id: Id, actor: string, now: Instant)
    requires Reachable(env, s) && id in s.applications && s.applications[id].status == A.WaitingApproval
    ensures var s' := Approve(s, Some(caller), id, actor, now, now).state;
            && Reachable(env, s') && id in s'.applications && s'.applications[id].status == A.ManualActionRequired
  {
    ReachableIsFine(env, s);
    WhenApprovalSucceeds(s, caller, id, actor, now, now);
    ApproveIsAStep(env, s, Some(caller), id, actor, now, now);
  }

  /** Import a posting, store a resume, prepare. */
  ghost function Waiting(env: Env, profile: CandidateProfile, sourceId: Id, raw: RawVacancy, resume: Resume,
                         actor: string, now: Instant): State
  {
    var imported := FirstImport(env, profile, sourceId, raw, now).state;
    var s := imported.(resumes := imported.resumes[resume.id := resume]);
    Prepare(s, Some(profile.id), "v1", Ok(resume.id), "a1", actor, now).state
  }

  lemma WaitingIsReachable(env: Env, profile: CandidateProfile, sourceId: Id, raw: RawVacancy, resume: Resume,
                           actor: string, now: Instant)
    ensures var s := Waiting(env, profile, sourceId, raw, resume, actor, now);
            Reachable(env, s) && "a1" in s.applications && s.applications["a1"].status == A.WaitingApproval
            && s.applications["a1"].id == "a1"
  {
    AfterFirstImport(env, profile, sourceId, raw, now);
    var imported := FirstImport(env, profile, sourceId, raw, now).state;
    var s := imported.(resumes := imported.resumes[resume.id := resume]);
    ReachableStep(env, imported, SaveResume(resume));
    PreparedIsReachable(env, s, profile.id, "v1", resume.id, "a1", actor, now);
  }

  lemma IdleWorldIsSafe(env: Env, s: State)
    requires Reachable(env, s)
    ensures Interleaving.Safe(Interleaving.World(s, map[]))
  {
    ReachableIsFine(env, s);
  }

  /** Two calls on that store, interleaved: the cancelled application is APPROVED in the end. */
  lemma StaleApprovalHistory(env: Env, profile: CandidateProfile, sourceId: Id, raw: RawVacancy, resume: Resume,
                             actor: string, now: Instant)
    ensures var s := Waiting(env, profile, sourceId, raw, resume, actor, now);
            var read := Interleaving.Next(Interleaving.World(s, map[]),
                                          Interleaving.Load(1, "a1", Interleaving.Approve(now)));
            var cancelled := Interleaving.Next(Interleaving.Next(read, Interleaving.Load(2, "a1", Interleaving.Cancel)),
                                               Interleaving.WriteRow(2));
            var revived := Interleaving.Next(cancelled, Interleaving.WriteRow(1));
            && Reachable(env, s) && "a1" in cancelled.s.applications && "a1" in revived.s.applications
            && cancelled.s.applications["a1"].status == A.Cancelled
            && revived.s.applications["a1"].status == A.Approved
  {
    WaitingIsReachable(env, profile, sourceId, raw, resume, actor, now);
    var s := Waiting(env, profile, sourceId, raw, resume, actor, now);
    IdleWorldIsSafe(env, s);
    Interleaving.StaleApprovalRevives(Interleaving.World(s, map[]), s.applications["a1"], 1, 2, now);
  }

  /** Approve, archive the vacancy, mark submitted in memory: refused, and SUBMITTED all the same. */
  lemma TornSubmissionHistory(env: Env, profile: CandidateProfile, sourceId: Id, raw: RawVacancy, resume: Resume,
                              actor: string, now: Instant)
    ensures var waiting := Waiting(env, profile, sourceId, raw, resume, actor, now);
            var approved := Approve(waiting, Some(profile.id), "a1", actor, now, now).state;
            && "a1" in approved.applications
            && var archived := PatchVacancy(approved, approved.applications["a1"].vacancyId, V.Archived).0;
               Reachable(env, archived)
               && Atomicity.Torn(archived, MarkSubmittedInPlace(archived, Some(profile.id), "a1", actor, now))
  {
    WaitingIsReachable(env, profile, sourceId, raw, resume, actor, now);
    var waiting := Waiting(env, profile, sourceId, raw, resume, actor, now);
    ApprovedIsReachable(env, waiting, profile.id, "a1", actor, now);
    var approved := Approve(waiting, Some(profile.id), "a1", actor, now, now).state;
    Atomicity.ArchivingTearsInMemorySubmit(env, approved, profile.id, "a1", actor, now);
  }
}
