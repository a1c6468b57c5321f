/**
 * What each service call does, as one atomic step on the whole store: guards first, then one combined update.
 * Services.dfy proves that the write-then-check transaction bodies of internal/app refine these steps.
 */
module Workflow {
  import opened Basics
  import opened Entities
  import V = VacancyStatuses
  import A = ApplicationStatuses
  import ResumeSelection

  datatype State = State(
    companies: map<Id, Company>, vacancies: map<Id, Vacancy>, matches: map<Id, VacancyMatch>,
    resumes: map<Id, Resume>, applications: map<Id, Application>, events: seq<AuditEvent>)

  const EMPTY: State := State(map[], map[], map[], map[], map[], [])

  datatype Error =
    | NotFound | Conflict | ProfileNotConfigured | VacancyArchived | InvalidTransition | InvalidStatus
    | Unselectable(selection: ResumeSelection.SelectionError)
    | Unavailable  // the database failed

  datatype View = View(application: Application, resume: Resume, vacancy: Vacancy, company: Company,
                       vacancyMatch: VacancyMatch)

  datatype Reply = Done(view: View, created: bool) | Refused(error: Error)

  datatype Outcome = Outcome(state: State, reply: Reply)

  // ---- building blocks ----

  /** A failing transaction leaves the store as it was. */
  function Refuse(s: State, e: Error): Outcome {
    Outcome(s, Refused(e))
  }

  function BuildView(s: State, a: Application): Result<View, Error> {
    if a.resumeId !in s.resumes || a.vacancyId !in s.vacancies then Err(NotFound)
    else
      var v := s.vacancies[a.vacancyId];
      if v.companyId !in s.companies || v.id !in s.matches then Err(NotFound)
      else Ok(View(a, s.resumes[a.resumeId], v, s.companies[v.companyId], s.matches[v.id]))
  }

  /** Commit `after` if the view of `a` can be built there; otherwise nothing happened. */
  function Finish(s: State, after: State, a: Application, created: bool): Outcome {
    match BuildView(after, a)
    case Ok(view) => Outcome(after, Done(view, created))
    case Err(e) => Refuse(s, e)
  }

  /** The partial unique index on active applications. */
  ghost predicate Conflicts(s: State, a: Application) {
    && a.Active()
    && exists id :: id in s.applications && s.applications[id].id != a.id && s.applications[id].SamePair(a)
                    && s.applications[id].Active()
  }

  function Write(s: State, a: Application, event: AuditEvent): State {
    s.(applications := s.applications[a.id := a], events := s.events + [event])
  }

  function MoveVacancy(s: State, id: Id, to: V.VacancyStatus): State
    requires id in s.vacancies
  {
    s.(vacancies := s.vacancies[id := s.vacancies[id].(status := to)])
  }

  ghost function SaveApplication(s: State, a: Application, event: AuditEvent, created: bool): Outcome {
    if Conflicts(s, a) then Refuse(s, Conflict) else Finish(s, Write(s, a, event), a, created)
  }

  /** Writes the application and moves its vacancy to the mirroring status, or does neither. */
  ghost function SaveAndMove(s: State, a: Application, to: V.VacancyStatus, event: AuditEvent): Outcome {
    if Conflicts(s, a) then Refuse(s, Conflict)
    else if a.vacancyId !in s.vacancies then Refuse(s, NotFound)
    else if !V.CanTransition(s.vacancies[a.vacancyId].status, to) then Refuse(s, InvalidTransition)
    else Finish(s, Write(MoveVacancy(s, a.vacancyId, to), a, event), a, false)
  }

  // ---- applications ----

  ghost predicate IsActiveFor(s: State, id: Id, vacancyId: Id, profileId: Id) {
    && id in s.applications && s.applications[id].vacancyId == vacancyId && s.applications[id].profileId == profileId
    && s.applications[id].Active()
  }

  ghost function Prepare(s: State, caller: Option<Id>, vacancyId: Id,
                         choice: Result<Id, ResumeSelection.SelectionError>, freshId: Id, actor: string,
                         now: Instant): Outcome
  {
    if caller.None? then Refuse(s, ProfileNotConfigured)
    else if vacancyId !in s.vacancies then Refuse(s, NotFound)
    else
      var v := s.vacancies[vacancyId];
      if v.status == V.Archived then Refuse(s, VacancyArchived)
      else if v.id !in s.matches then Refuse(s, NotFound)
      else if exists id :: IsActiveFor(s, id, vacancyId, caller.value) then
        var id :| IsActiveFor(s, id, vacancyId, caller.value);
        Finish(s, s, s.applications[id], false)
      else if choice.Err? then Refuse(s, Unselectable(choice.error))
      else if v.companyId !in s.companies then Refuse(s, NotFound)
      else
        var a := NewApplication(freshId, vacancyId, caller.value, choice.value, now);
        SaveApplication(s, a, AuditEvent(actor, Prepared, a.id, now), true)
  }

  function NewApplication(id: Id, vacancyId: Id, profileId: Id, resumeId: Id, now: Instant): Application {
    Application(id, vacancyId, profileId, resumeId, A.WaitingApproval, now, None, None, None, "", "", now)
  }

  ghost function Approve(s: State, caller: Option<Id>, id: Id, actor: string, now: Instant,
                         auditNow: Instant): Outcome
  {
    if caller.None? then Refuse(s, ProfileNotConfigured)
    else if id !in s.applications then Refuse(s, NotFound)
    else
      var a := s.applications[id];
      match a.status
      case WaitingApproval =>
        SaveApplication(s, a.(status := A.ManualActionRequired, approvedAt := Some(now)),
                        AuditEvent(actor, AuditAction.Approved, a.id, auditNow), false)
      case Approved =>
        SaveApplication(s,
                        a.(status := A.ManualActionRequired, approvedAt := if a.approvedAt.None? then Some(now)
                           else a.approvedAt),
                        AuditEvent(actor, AuditAction.Approved, a.id, auditNow), false)
      case ManualActionRequired => Finish(s, s, a, false)
      case _ => Refuse(s, InvalidTransition)
  }

  ghost function Cancel(s: State, caller: Option<Id>, id: Id, actor: string, now: Instant): Outcome {
    if caller.None? then Refuse(s, ProfileNotConfigured)
    else if id !in s.applications then Refuse(s, NotFound)
    else
      var a := s.applications[id];
      if a.status == A.Cancelled then Finish(s, s, a, false)
      else if A.WasSubmitted(a.status) then Refuse(s, InvalidTransition)
      else SaveApplication(s, a.(status := A.Cancelled), AuditEvent(actor, Cancelled, a.id, now), false)
  }

  ghost function MarkSubmitted(s: State, caller: Option<Id>, id: Id, actor: string, now: Instant): Outcome {
    if caller.None? then Refuse(s, ProfileNotConfigured)
    else if id !in s.applications then Refuse(s, NotFound)
    else
      var a := s.applications[id];
      match a.status
      case Submitted => Finish(s, s, a, false)
      case ManualActionRequired =>
        SaveAndMove(s, a.(status := A.Submitted, submittedAt := Some(now)), V.Submitted,
                    AuditEvent(actor, MarkedSubmitted, a.id, now))
      case _ => Refuse(s, InvalidTransition)
  }

  /** auditActionForOutcome. */
  function OutcomeAction(status: A.ApplicationStatus): AuditAction {
    match status
    case HRContact => AuditAction.HRContact
    case Interview => AuditAction.Interview
    case Offer => AuditAction.Offer
    case Rejected => AuditAction.Rejected
    case _ => Prepared
  }

  function WithOutcome(a: Application, status: A.ApplicationStatus, reason: string, notes: string,
                       now: Instant): Application
  {
    a.(status := status, responseReceivedAt := Some(now),
       rejectionReason := if status == A.Rejected && reason != "" then reason else a.rejectionReason,
       notes := if notes != "" then notes else a.notes)
  }

  /** `status` is None when the request's text names no application status. */
  ghost function RecordOutcome(s: State, caller: Option<Id>, id: Id, status: Option<A.ApplicationStatus>,
                               reason: string, notes: string, actor: string, now: Instant): Outcome
  {
    if caller.None? then Refuse(s, ProfileNotConfigured)
    else if status.None? then Refuse(s, InvalidStatus)
    else if !A.IsOutcome(status.value) then Refuse(s, InvalidTransition)
    else if id !in s.applications then Refuse(s, NotFound)
    else
      var a := s.applications[id];
      if a.status == status.value then Finish(s, s, a, false)
      else if !A.CanTransition(a.status, status.value) then Refuse(s, InvalidTransition)
      else SaveAndMove(s, WithOutcome(a, status.value, reason, notes, now), A.Mirror(status.value),
                       AuditEvent(actor, OutcomeAction(status.value), a.id, now))
  }

  // ---- the same two calls without a transaction ----

  /** Writes the application first; a refusal after that leaves it written. */
  ghost function SaveAndMoveInPlace(s: State, a: Application, to: V.VacancyStatus, event: AuditEvent): Outcome {
    var saved := s.(applications := s.applications[a.id := a]);
    if Conflicts(s, a) then Refuse(s, Conflict)
    else if a.vacancyId !in s.vacancies then Refuse(saved, NotFound)
    else if !V.CanTransition(s.vacancies[a.vacancyId].status, to) then Refuse(saved, InvalidTransition)
    else
      var after := Write(MoveVacancy(s, a.vacancyId, to), a, event);
      Finish(after, after, a, false)
  }

  ghost function MarkSubmittedInPlace(s: State, caller: Option<Id>, id: Id, actor: string, now: Instant): Outcome {
    if caller.Some? && id in s.applications && s.applications[id].status == A.ManualActionRequired then
      SaveAndMoveInPlace(s, s.applications[id].(status := A.Submitted, submittedAt := Some(now)), V.Submitted,
                         AuditEvent(actor, MarkedSubmitted, s.applications[id].id, now))
    else MarkSubmitted(s, caller, id, actor, now)
  }

  /** The request gets as far as writing the application. */
  predicate WritesOutcome(s: State, caller: Option<Id>, id: Id, status: Option<A.ApplicationStatus>) {
    && caller.Some? && status.Some? && A.IsOutcome(status.value) && id in s.applications
    && s.applications[id].status != status.value && A.CanTransition(s.applications[id].status, status.value)
  }

  ghost function RecordOutcomeInPlace(s: State, caller: Option<Id>, id: Id, status: Option<A.ApplicationStatus>,
                                      reason: string, notes: string, actor: string, now: Instant): Outcome
  {
    if WritesOutcome(s, caller, id, status) then
      SaveAndMoveInPlace(s, WithOutcome(s.applications[id], status.value, reason, notes, now), A.Mirror(status.value),
                         AuditEvent(actor, OutcomeAction(status.value), s.applications[id].id, now))
    else RecordOutcome(s, caller, id, status, reason, notes, actor, now)
  }

  /** What a transaction makes of a body's outcome. */
  function RolledBack(s: State, o: Outcome): Outcome {
    if o.reply.Refused? then Outcome(s, o.reply) else o
  }

  // ---- vacancies ----

  /** PATCH /v1/vacancies/{id}/status: not a transaction, so a late NotFound would not undo the write. */
  function PatchVacancy(s: State, id: Id, status: V.VacancyStatus): (State, Option<Error>) {
    if id !in s.vacancies then (s, Some(NotFound))
    else if !V.CanTransition(s.vacancies[id].status, status) then (s, Some(InvalidTransition))
    else (MoveVacancy(s, id, status), if s.vacancies[id].companyId in s.companies then None else Some(NotFound))
  }

  /**
   * The same call on a store whose operation number n + k fails iff fails(n + k): it reads the vacancy, writes the
   * status, and reads vacancy, company and match again. A missing match is no error.
   */
  function PatchWithFaults(s: State, id: Id, status: V.VacancyStatus, fails: Schedule, n: nat): (State, Option<Error>) {
    if fails(n) then (s, Some(Unavailable))
    else if id !in s.vacancies then (s, Some(NotFound))
    else if !V.CanTransition(s.vacancies[id].status, status) then (s, Some(InvalidTransition))
    else if fails(n + 1) then (s, Some(Unavailable))
    else
      var moved := MoveVacancy(s, id, status);
      if fails(n + 2) || fails(n + 3) then (moved, Some(Unavailable))
      else if s.vacancies[id].companyId !in s.companies then (moved, Some(NotFound))
      else if fails(n + 4) then (moved, Some(Unavailable))
      else (moved, None)
  }

  /** What an import computes from its inputs alone: normalisation, hashing, filtering and scoring. */
  datatype Env = Env(
    displayName: RawVacancy -> string, normalizedName: string -> string, details: RawVacancy -> VacancyDetails,
    contentHash: RawVacancy -> string, evaluate: (CandidateProfile, VacancyDetails, Company, Instant) -> Verdict)

  datatype FreshIds = FreshIds(company: Id, vacancy: Id, vacancyMatch: Id)

  datatype VacancyWithMatch = VacancyWithMatch(vacancy: Vacancy, company: Company, vacancyMatch: VacancyMatch)

  datatype Imported = Imported(state: State, vacancy: Vacancy, company: Company, vacancyMatch: VacancyMatch)

  ghost predicate IsCompanyNamed(s: State, id: Id, name: string) {
    id in s.companies && s.companies[id].normalizedName == name
  }

  ghost function CompanyNamed(s: State, name: string): Option<Id> {
    if exists id :: IsCompanyNamed(s, id, name) then
      var id :| IsCompanyNamed(s, id, name);
      Some(id)
    else None
  }

  /** Descriptive fields are overwritten, the blacklist flag only ever gains. */
  function MergeCompany(existing: Company, incoming: Company): Company {
    existing.(displayName := incoming.displayName, website := incoming.website, careerPage := incoming.careerPage,
              blacklisted := existing.blacklisted || incoming.blacklisted, notes := incoming.notes)
  }

  ghost function CompanyAfter(s: State, incoming: Company): Company {
    match CompanyNamed(s, incoming.normalizedName)
    case Some(id) => MergeCompany(s.companies[id], incoming)
    case None => incoming
  }

  ghost predicate IsVacancyAt(s: State, id: Id, sourceId: Id, externalId: string) {
    id in s.vacancies && s.vacancies[id].sourceId == sourceId && s.vacancies[id].externalId == externalId
  }

  ghost function VacancyAt(s: State, sourceId: Id, externalId: string): Option<Id> {
    if exists id :: IsVacancyAt(s, id, sourceId, externalId) then
      var id :| IsVacancyAt(s, id, sourceId, externalId);
      Some(id)
    else None
  }

  predicate IsPrimary(s: State, id: Id, hash: string) {
    id in s.vacancies && s.vacancies[id].contentHash == hash && s.vacancies[id].duplicateOf.None?
  }

  /** `pick` is an answer FindVacancyByContentHash may give. */
  ghost predicate PickOk(s: State, hash: string, pick: Option<Id>) {
    match pick
    case Some(id) => IsPrimary(s, id, hash)
    case None => forall id :: !IsPrimary(s, id, hash)
  }

  predicate ShouldPreserve(existing: V.VacancyStatus, computed: V.VacancyStatus) {
    && existing != computed
    && existing in {V.Archived, V.Rejected, V.Offer, V.Interview, V.HRContact, V.Submitted, V.WaitingApproval,
                    V.ApplicationPrepared, V.Viewed}
  }

  function ComputedStatus(duplicate: bool, verdict: Verdict): V.VacancyStatus {
    if duplicate then V.Duplicate
    else if !verdict.passed then V.FilteredOut
    else if verdict.recommendation == Apply || verdict.recommendation == Review then V.Recommended
    else V.Normalized
  }

  const CONTENT_HASH: string := "CONTENT_HASH"

  function IncomingCompany(env: Env, raw: RawVacancy, freshId: Id): Company {
    var display := env.displayName(raw);
    Company(freshId, env.normalizedName(display), display, "", "", false, "")
  }

  /** The vacancy row an import writes. */
  function VacancyRow(env: Env, sourceId: Id, raw: RawVacancy, company: Company, existing: Option<Vacancy>,
                      verdict: Verdict, now: Instant, freshId: Id, pick: Option<Id>): Vacancy
  {
    var link := if existing.Some? then None else pick;
    var computed := ComputedStatus(link.Some?, verdict);
    Vacancy(
      if existing.Some? then existing.value.id else freshId,
      sourceId, raw.externalId, env.details(raw), company.id, env.contentHash(raw),
      if existing.Some? && ShouldPreserve(existing.value.status, computed) then existing.value.status else computed,
      link, if link.Some? then Some(CONTENT_HASH) else None,
      if existing.Some? && existing.value.createdAt != 0 then existing.value.createdAt else now,
      now)
  }

  function MatchRow(s: State, vacancyId: Id, profileId: Id, verdict: Verdict, now: Instant, freshId: Id): VacancyMatch {
    var id := if vacancyId in s.matches && s.matches[vacancyId].id != "" then s.matches[vacancyId].id else freshId;
    VacancyMatch(id, vacancyId, profileId, verdict, now)
  }

  function PutRows(s: State, c: Company, v: Vacancy, m: VacancyMatch): State {
    s.(companies := s.companies[c.id := c], vacancies := s.vacancies[v.id := v], matches := s.matches[v.id := m])
  }

  ghost function Import(env: Env, s: State, profile: CandidateProfile, sourceId: Id, raw: RawVacancy, now: Instant,
                        ids: FreshIds, pick: Option<Id>): Imported
  {
    var company := CompanyAfter(s, IncomingCompany(env, raw, ids.company));
    var at := VacancyAt(s, sourceId, raw.externalId);
    var existing := if at.Some? then Some(s.vacancies[at.value]) else None;
    var verdict := env.evaluate(profile, env.details(raw), company, now);
    var v := VacancyRow(env, sourceId, raw, company, existing, verdict, now, ids.vacancy, pick);
    var m := MatchRow(s, v.id, profile.id, verdict, now, ids.vacancyMatch);
    Imported(PutRows(s, company, v, m), v, company, m)
  }

  // ---- runs ----

  datatype Action =
    | ImportVacancy(profile: CandidateProfile, sourceId: Id, raw: RawVacancy, now: Instant, ids: FreshIds,
                    pick: Option<Id>)
    | PatchStatus(id: Id, vacancyStatus: V.VacancyStatus)
    | SaveResume(resume: Resume)
    | PrepareApplication(caller: Option<Id>, id: Id, choice: Result<Id, ResumeSelection.SelectionError>, freshId: Id,
                         actor: string, now: Instant)
    | ApproveApplication(caller: Option<Id>, id: Id, actor: string, now: Instant, auditNow: Instant)
    | CancelApplication(caller: Option<Id>, id: Id, actor: string, now: Instant)
    | MarkApplicationSubmitted(caller: Option<Id>, id: Id, actor: string, now: Instant)
    | UpdateOutcome(caller: Option<Id>, id: Id, status: Option<A.ApplicationStatus>, reason: string, notes: string,
                    actor: string, now: Instant)

  ghost function Step(env: Env, s: State, action: Action): State {
    match action
    case ImportVacancy(profile, sourceId, raw, now, ids, pick) =>
      Import(env, s, profile, sourceId, raw, now, ids, pick).state
    case PatchStatus(id, status) => PatchVacancy(s, id, status).0
    case SaveResume(resume) => s.(resumes := s.resumes[resume.id := resume])
    case PrepareApplication(caller, id, choice, freshId, actor, now) =>
      Prepare(s, caller, id, choice, freshId, actor, now).state
    case ApproveApplication(caller, id, actor, now, auditNow) => Approve(s, caller, id, actor, now, auditNow).state
    case CancelApplication(caller, id, actor, now) => Cancel(s, caller, id, actor, now).state
    case MarkApplicationSubmitted(caller, id, actor, now) => MarkSubmitted(s, caller, id, actor, now).state
    case UpdateOutcome(caller, id, status, reason, notes, actor, now) =>
      RecordOutcome(s, caller, id, status, reason, notes, actor, now).state
  }

  /** New identifiers are unused, and the store's nondeterministic answers are possible ones. */
  ghost predicate Admissible(env: Env, s: State, action: Action) {
    match action
    case ImportVacancy(_, _, raw, _, ids, pick) =>
      && ids.company !in s.companies && ids.vacancy !in s.vacancies && ids.vacancy !in s.matches
      && ids.vacancy != "" && ids.vacancyMatch != ""
      && PickOk(s, env.contentHash(raw), pick)
    case PrepareApplication(caller, _, choice, freshId, _, _) =>
      && freshId !in s.applications
      && (choice.Ok? ==> choice.value in s.resumes)
    case _ => true
  }

  ghost function Run(env: Env, s: State, actions: seq<Action>): State
    decreases |actions|
  {
    if actions == [] then s else Run(env, Step(env, s, actions[0]), actions[1..])
  }

  ghost predicate ValidRun(env: Env, s: State, actions: seq<Action>)
    decreases |actions|
  {
    actions == [] || (Admissible(env, s, actions[0]) && ValidRun(env, Step(env, s, actions[0]), actions[1..]))
  }

  ghost predicate Reachable(env: Env, s: State) {
    exists actions :: ValidRun(env, EMPTY, actions) && s == Run(env, EMPTY, actions)
  }
}
