/** The invariants of the store, and that every step keeps them. */
module WorkflowInvariants {
  import opened Basics
  import opened Entities
  import V = VacancyStatuses
  import A = ApplicationStatuses
  import opened Workflow
  import ResumeSelection

  type Companies = map<Id, Company>
  type Vacancies = map<Id, Vacancy>
  type Matches = map<Id, VacancyMatch>
  type Resumes = map<Id, Resume>
  type Applications = map<Id, Application>

  // ---- referential integrity ----

  ghost predicate VacanciesKeyed(vacancies: Vacancies) {
    forall id :: id in vacancies ==> vacancies[id].id == id && id != "" && vacancies[id].createdAt > 0
  }

  ghost predicate CompaniesKeyed(companies: Companies) {
    forall id :: id in companies ==> companies[id].id == id
  }

  /** One match per vacancy, none without. */
  ghost predicate MatchesKeyed(matches: Matches, vacancies: Vacancies) {
    && matches.Keys == vacancies.Keys
    && forall id :: id in matches ==> matches[id].vacancyId == id && matches[id].id != ""
  }

  ghost predicate VacanciesClosed(vacancies: Vacancies, companies: Companies) {
    forall id :: id in vacancies ==> vacancies[id].companyId in companies
  }

  ghost predicate ApplicationsClosed(applications: Applications, resumes: Resumes, vacancies: Vacancies) {
    forall id :: id in applications ==>
      applications[id].id == id && applications[id].resumeId in resumes && applications[id].vacancyId in vacancies
  }

  ghost predicate ResumesKeyed(resumes: Resumes) {
    forall id :: id in resumes ==> resumes[id].id == id
  }

  ghost predicate UniqueNames(companies: Companies) {
    forall x, y :: x in companies && y in companies && companies[x].normalizedName == companies[y].normalizedName ==>
      x == y
  }

  predicate SameKey(v: Vacancy, w: Vacancy) {
    v.sourceId == w.sourceId && v.externalId == w.externalId
  }

  ghost predicate UniqueVacancies(vacancies: Vacancies) {
    forall x, y :: x in vacancies && y in vacancies && SameKey(vacancies[x], vacancies[y]) ==> x == y
  }

  // ---- duplicate links ----

  ghost predicate LinkOk(vacancies: Vacancies, v: Vacancy) {
    && (v.duplicateOf.Some? <==> v.dedupReason.Some?)
    && (v.duplicateOf.Some? ==>
          && v.duplicateOf.value in vacancies && v.duplicateOf.value != v.id
          && vacancies[v.duplicateOf.value].duplicateOf.None?
          && (v.status == V.Duplicate || v.status == V.Archived))
  }

  ghost predicate Linked(vacancies: Vacancies) {
    forall id :: id in vacancies ==> LinkOk(vacancies, vacancies[id])
  }

  // ---- applications ----

  /** Statuses at transaction boundaries, and the timestamps each one carries. */
  predicate Shape(a: Application) {
    && a.preparedAt > 0
    && match a.status
       case WaitingApproval => a.approvedAt.None? && a.submittedAt.None? && a.responseReceivedAt.None?
       case ManualActionRequired => a.approvedAt.Some? && a.submittedAt.None? && a.responseReceivedAt.None?
       case Cancelled => a.submittedAt.None? && a.responseReceivedAt.None?
       case Submitted => a.approvedAt.Some? && a.submittedAt.Some? && a.responseReceivedAt.None?
       case HRContact => a.approvedAt.Some? && a.submittedAt.Some? && a.responseReceivedAt.Some?
       case Interview => a.approvedAt.Some? && a.submittedAt.Some? && a.responseReceivedAt.Some?
       case Offer => a.approvedAt.Some? && a.submittedAt.Some? && a.responseReceivedAt.Some?
       case Rejected => a.approvedAt.Some? && a.submittedAt.Some? && a.responseReceivedAt.Some?
       case Draft => false
       case Approved => false
  }

  ghost predicate Shaped(applications: Applications) {
    forall id :: id in applications ==> Shape(applications[id])
  }

  /** Two active applications of the same vacancy and profile are the same one. */
  ghost predicate ActiveUnique(applications: Applications) {
    forall x, y :: x in applications && y in applications && BothActive(applications[x], applications[y]) ==> x == y
  }

  predicate BothActive(a: Application, b: Application) {
    a.Active() && b.Active() && a.SamePair(b)
  }

  /** At most one application of a vacancy and profile has SubmittedAt set. */
  ghost predicate SubmittedOnce(applications: Applications) {
    forall x, y :: x in applications && y in applications && BothSubmitted(applications[x], applications[y]) ==> x == y
  }

  predicate BothSubmitted(a: Application, b: Application) {
    a.submittedAt.Some? && b.submittedAt.Some? && a.SamePair(b)
  }

  /** The vacancy can be reached from the status that mirrors the application's. */
  ghost predicate CoupledTo(a: Application, v: Vacancy) {
    A.WasSubmitted(a.status) ==> V.Reaches(A.Mirror(a.status), v.status)
  }

  ghost predicate Coupled(applications: Applications, vacancies: Vacancies) {
    forall id :: id in applications && applications[id].vacancyId in vacancies ==>
                   CoupledTo(applications[id], vacancies[applications[id].vacancyId])
  }

  // ---- replaying the audit log ----

  datatype Replayed = Absent | At(status: A.ApplicationStatus) | Broken

  function ActionTarget(action: AuditAction): A.ApplicationStatus {
    match action
    case Prepared => A.WaitingApproval
    case Approved => A.ManualActionRequired
    case Cancelled => A.Cancelled
    case MarkedSubmitted => A.Submitted
    case HRContact => A.HRContact
    case Interview => A.Interview
    case Offer => A.Offer
    case Rejected => A.Rejected
  }

  /** One event moves an application along table edges: approval covers two of them, the others one. */
  function After(before: Replayed, action: AuditAction): Replayed {
    var target := ActionTarget(action);
    match before
    case Absent => if action == Prepared then At(target) else Broken
    case Broken => Broken
    case At(status) =>
      if action == Approved && (status == A.WaitingApproval || status == A.Approved) then At(target)
      else if action != Prepared && action != Approved && status != target
        && target in A.Transitions(status) then At(target)
      else Broken
  }

  function Replay(events: seq<AuditEvent>, id: Id): Replayed {
    if events == [] then Absent
    else
      var before := Replay(events[..|events| - 1], id);
      var last := events[|events| - 1];
      if last.entityId == id then After(before, last.action) else before
  }

  ghost predicate LogReplays(events: seq<AuditEvent>, applications: Applications) {
    forall id :: Replay(events, id) == if id in applications then At(applications[id].status) else Absent
  }

  // ---- all together ----

  ghost predicate StoreInv(s: State) {
    && VacanciesKeyed(s.vacancies) && CompaniesKeyed(s.companies) && MatchesKeyed(s.matches, s.vacancies)
    && VacanciesClosed(s.vacancies, s.companies) && ResumesKeyed(s.resumes)
    && ApplicationsClosed(s.applications, s.resumes, s.vacancies)
    && UniqueNames(s.companies) && UniqueVacancies(s.vacancies) && Linked(s.vacancies)
  }

  /** Rows carry the identifiers they are stored under. */
  ghost predicate IdsMatch(s: State) {
    && VacanciesKeyed(s.vacancies) && ResumesKeyed(s.resumes)
    && forall id :: id in s.applications ==> s.applications[id].id == id
  }

  ghost predicate FlowInv(s: State) {
    && Shaped(s.applications) && ActiveUnique(s.applications) && SubmittedOnce(s.applications)
    && Coupled(s.applications, s.vacancies) && LogReplays(s.events, s.applications)
  }

  ghost predicate Inv(s: State) {
    StoreInv(s) && FlowInv(s)
  }

  lemma EmptyStoreIsFine()
    ensures Inv(EMPTY)
  {
  }

  /** buildApplicationView cannot fail in a well-formed store. */
  lemma ViewsExist(s: State, a: Application)
    requires StoreInv(s) && a.resumeId in s.resumes && a.vacancyId in s.vacancies
    ensures BuildView(s, a).Ok?
  {
  }

  // ---- moving one vacancy ----

  lemma MoveKeepsCoupling(applications: Applications, vacancies: Vacancies, id: Id, to: V.VacancyStatus)
    requires Coupled(applications, vacancies)
    requires id in vacancies && V.CanTransition(vacancies[id].status, to)
    ensures Coupled(applications, vacancies[id := vacancies[id].(status := to)])
  {
    forall x | x in applications && applications[x].vacancyId in vacancies
      ensures CoupledTo(applications[x], vacancies[id := vacancies[id].(status := to)][applications[x].vacancyId])
    {
      var a := applications[x];
      assert CoupledTo(a, vacancies[a.vacancyId]);
      if a.vacancyId == id && A.WasSubmitted(a.status) {
        V.ReachesFurther(A.Mirror(a.status), vacancies[id].status, to);
      }
    }
  }

  lemma MoveKeepsLinks(vacancies: Vacancies, id: Id, to: V.VacancyStatus)
    requires Linked(vacancies) && id in vacancies && V.CanTransition(vacancies[id].status, to)
    ensures Linked(vacancies[id := vacancies[id].(status := to)])
  {
  }

  lemma MoveKeepsKeys(vacancies: Vacancies, id: Id, to: V.VacancyStatus)
    requires VacanciesKeyed(vacancies) && UniqueVacancies(vacancies) && id in vacancies
    ensures VacanciesKeyed(vacancies[id := vacancies[id].(status := to)])
    ensures UniqueVacancies(vacancies[id := vacancies[id].(status := to)])
  {
  }

  lemma MoveKeepsInv(s: State, id: Id, to: V.VacancyStatus)
    requires Inv(s) && id in s.vacancies && V.CanTransition(s.vacancies[id].status, to)
    ensures Inv(MoveVacancy(s, id, to))
  {
    MoveKeepsCoupling(s.applications, s.vacancies, id, to);
    MoveKeepsLinks(s.vacancies, id, to);
    MoveKeepsKeys(s.vacancies, id, to);
    assert MoveVacancy(s, id, to).vacancies.Keys == s.vacancies.Keys;
  }

  // ---- writing one application and its event ----

  /** Everything a write must satisfy, save the unique index and the vacancy's status. */
  ghost predicate GoodWrite(s: State, a: Application, event: AuditEvent) {
    && a.resumeId in s.resumes && a.vacancyId in s.vacancies
    && Shape(a) && NoOtherSubmission(s.applications, a)
    && event.entityId == a.id && After(Replay(s.events, a.id), event.action) == At(a.status)
  }

  ghost predicate NoOtherSubmission(applications: Applications, a: Application) {
    a.submittedAt.Some? ==> forall x :: x in applications && x != a.id ==> !BothSubmitted(applications[x], a)
  }

  lemma WriteKeepsLog(events: seq<AuditEvent>, applications: Applications, a: Application, event: AuditEvent)
    requires LogReplays(events, applications)
    requires event.entityId == a.id && After(Replay(events, a.id), event.action) == At(a.status)
    ensures LogReplays(events + [event], applications[a.id := a])
  {
  }

  /** The unique index is all that keeps active applications unique: any write that passes its check is harmless. */
  lemma WriteKeepsActiveUnique(s: State, a: Application)
    requires ApplicationsClosed(s.applications, s.resumes, s.vacancies) && ActiveUnique(s.applications)
             && !Conflicts(s, a)
    ensures ActiveUnique(s.applications[a.id := a])
  {
  }

  lemma WriteKeepsApplications(applications: Applications, vacancies: Vacancies, a: Application)
    requires Shaped(applications) && SubmittedOnce(applications) && Coupled(applications, vacancies)
    requires Shape(a) && NoOtherSubmission(applications, a)
             && (a.vacancyId in vacancies ==> CoupledTo(a, vacancies[a.vacancyId]))
    ensures Shaped(applications[a.id := a]) && SubmittedOnce(applications[a.id := a])
    ensures Coupled(applications[a.id := a], vacancies)
  {
  }

  lemma WriteKeepsInv(s: State, a: Application, event: AuditEvent)
    requires Inv(s) && GoodWrite(s, a, event) && !Conflicts(s, a) && CoupledTo(a, s.vacancies[a.vacancyId])
    ensures Inv(Write(s, a, event))
  {
    WriteKeepsLog(s.events, s.applications, a, event);
    WriteKeepsActiveUnique(s, a);
    WriteKeepsApplications(s.applications, s.vacancies, a);
  }

  lemma SaveApplicationKeepsInv(s: State, a: Application, event: AuditEvent, created: bool)
    requires Inv(s) && GoodWrite(s, a, event) && !A.WasSubmitted(a.status)
    ensures Inv(SaveApplication(s, a, event, created).state)
  {
    if !Conflicts(s, a) { WriteKeepsInv(s, a, event); }
  }

  lemma SaveAndMoveKeepsInv(s: State, a: Application, event: AuditEvent)
    requires Inv(s) && GoodWrite(s, a, event)
    ensures Inv(SaveAndMove(s, a, A.Mirror(a.status), event).state)
  {
    var to := A.Mirror(a.status);
    if !Conflicts(s, a) && V.CanTransition(s.vacancies[a.vacancyId].status, to) {
      var moved := MoveVacancy(s, a.vacancyId, to);
      MoveKeepsInv(s, a.vacancyId, to);
      V.ReachesItself(to);
      assert !Conflicts(moved, a);
      WriteKeepsInv(moved, a, event);
    }
  }

  // ---- every step keeps the invariants ----

  lemma NewApplicationIsGoodWrite(s: State, profileId: Id, vacancyId: Id, resumeId: Id, freshId: Id, actor: string,
                                  now: Instant)
    requires Inv(s) && freshId !in s.applications && resumeId in s.resumes && vacancyId in s.vacancies
    ensures GoodWrite(s, NewApplication(freshId, vacancyId, profileId, resumeId, now),
                      AuditEvent(actor, Prepared, freshId, now))
  {
    assert Replay(s.events, freshId) == Absent;
  }

  lemma PrepareSaves(s: State, caller: Option<Id>, vacancyId: Id, choice: Result<Id, ResumeSelection.SelectionError>,
                     freshId: Id, actor: string, now: Instant)
    ensures var after := Prepare(s, caller, vacancyId, choice, freshId, actor, now).state;
            || after == s
            || (caller.Some? && vacancyId in s.vacancies && choice.Ok?
                && after == SaveApplication(s, NewApplication(freshId, vacancyId, caller.value, choice.value, now),
                                            AuditEvent(actor, Prepared, freshId, now), true).state)
  {
  }

  lemma PrepareKeepsInv(s: State, caller: Option<Id>, vacancyId: Id, choice: Result<Id, ResumeSelection.SelectionError>,
                        freshId: Id, actor: string, now: Instant)
    requires Inv(s) && freshId !in s.applications && (choice.Ok? ==> choice.value in s.resumes)
    ensures Inv(Prepare(s, caller, vacancyId, choice, freshId, actor, now).state)
  {
    PrepareSaves(s, caller, vacancyId, choice, freshId, actor, now);
    if Prepare(s, caller, vacancyId, choice, freshId, actor, now).state != s {
      NewApplicationIsGoodWrite(s, caller.value, vacancyId, choice.value, freshId, actor, now);
      SaveApplicationKeepsInv(s, NewApplication(freshId, vacancyId, caller.value, choice.value, now),
                              AuditEvent(actor, Prepared, freshId, now), true);
    }
  }

  lemma ApproveKeepsInv(s: State, caller: Option<Id>, id: Id, actor: string, now: Instant, auditNow: Instant)
    requires Inv(s)
    ensures Inv(Approve(s, caller, id, actor, now, auditNow).state)
  {
    if id in s.applications {
      var a := s.applications[id];
      assert Shape(a) && Replay(s.events, id) == At(a.status);
      if a.status == A.WaitingApproval {
        SaveApplicationKeepsInv(s, a.(status := A.ManualActionRequired, approvedAt := Some(now)),
                                AuditEvent(actor, AuditAction.Approved, a.id, auditNow), false);
      }
    }
  }

  lemma CancelIsGoodWrite(s: State, id: Id, actor: string, now: Instant)
    requires Inv(s) && id in s.applications
    requires s.applications[id].status == A.WaitingApproval || s.applications[id].status == A.ManualActionRequired
    ensures GoodWrite(s, s.applications[id].(status := A.Cancelled), AuditEvent(actor, AuditAction.Cancelled, id, now))
  {
    assert Shape(s.applications[id]) && Replay(s.events, id) == At(s.applications[id].status);
  }

  lemma CancelKeepsInv(s: State, caller: Option<Id>, id: Id, actor: string, now: Instant)
    requires Inv(s)
    ensures Inv(Cancel(s, caller, id, actor, now).state)
  {
    if id in s.applications {
      var a := s.applications[id];
      assert Shape(a);
      if a.status == A.WaitingApproval || a.status == A.ManualActionRequired {
        CancelIsGoodWrite(s, id, actor, now);
        SaveApplicationKeepsInv(s, a.(status := A.Cancelled), AuditEvent(actor, AuditAction.Cancelled, a.id, now),
                                false);
      }
    }
  }

  /**
   * The heart of "never submitted twice": whoever holds the other SubmittedAt is either still active, which the unique
   * index excludes, or rejected, and then the vacancy can never be SUBMITTED again.
   */
  lemma NoEarlierSubmission(s: State, id: Id, other: Id)
    requires Inv(s) && id in s.applications && other in s.applications && id != other
    requires s.applications[id].Active() && s.applications[id].SamePair(s.applications[other])
    requires V.CanTransition(s.vacancies[s.applications[id].vacancyId].status, V.Submitted)
    ensures s.applications[other].submittedAt.None?
  {
    var b := s.applications[other];
    assert Shape(b) && CoupledTo(b, s.vacancies[b.vacancyId]);
    if b.status == A.Rejected {
      V.ReachableFromRejected(s.vacancies[b.vacancyId].status);
    }
  }

  lemma SubmitIsGoodWrite(s: State, id: Id, actor: string, now: Instant)
    requires Inv(s) && id in s.applications && s.applications[id].status == A.ManualActionRequired
    requires V.CanTransition(s.vacancies[s.applications[id].vacancyId].status, V.Submitted)
    ensures GoodWrite(s, s.applications[id].(status := A.Submitted, submittedAt := Some(now)),
                      AuditEvent(actor, MarkedSubmitted, id, now))
  {
    var a := s.applications[id];
    var a' := a.(status := A.Submitted, submittedAt := Some(now));
    assert Shape(a) && Replay(s.events, id) == At(a.status);
    forall x | x in s.applications && x != id ensures !BothSubmitted(s.applications[x], a') {
      if s.applications[x].SamePair(a') { NoEarlierSubmission(s, id, x); }
    }
  }

  lemma SubmitKeepsInv(s: State, caller: Option<Id>, id: Id, actor: string, now: Instant)
    requires Inv(s)
    ensures Inv(MarkSubmitted(s, caller, id, actor, now).state)
  {
    if id in s.applications && s.applications[id].status == A.ManualActionRequired
       && V.CanTransition(s.vacancies[s.applications[id].vacancyId].status, V.Submitted) {
      SubmitIsGoodWrite(s, id, actor, now);
      SaveAndMoveKeepsInv(s, s.applications[id].(status := A.Submitted, submittedAt := Some(now)),
                          AuditEvent(actor, MarkedSubmitted, id, now));
    }
  }

  lemma SameSubmissionStaysAlone(applications: Applications, id: Id, a': Application)
    requires SubmittedOnce(applications) && id in applications && applications[id].SamePair(a')
    requires a'.id == id && (a'.submittedAt.Some? ==> applications[id].submittedAt.Some?)
    ensures NoOtherSubmission(applications, a')
  {
  }

  lemma OutcomeShape(a: Application, status: A.ApplicationStatus, reason: string, notes: string, now: Instant)
    requires Shape(a) && A.IsOutcome(status) && status in A.Transitions(a.status)
    ensures Shape(WithOutcome(a, status, reason, notes, now))
    ensures After(At(a.status), OutcomeAction(status)) == At(status)
  {
  }

  lemma OutcomeIsGoodWrite(s: State, id: Id, status: A.ApplicationStatus, reason: string, notes: string, actor: string,
                           now: Instant)
    requires Inv(s) && id in s.applications && A.IsOutcome(status) && status in A.Transitions(s.applications[id].status)
    ensures GoodWrite(s, WithOutcome(s.applications[id], status, reason, notes, now),
                      AuditEvent(actor, OutcomeAction(status), id, now))
  {
    var a := s.applications[id];
    assert Shape(a);
    OutcomeShape(a, status, reason, notes, now);
    assert Replay(s.events, id) == At(a.status);
    SameSubmissionStaysAlone(s.applications, id, WithOutcome(a, status, reason, notes, now));
  }

  lemma OutcomeKeepsInv(s: State, caller: Option<Id>, id: Id, status: Option<A.ApplicationStatus>, reason: string,
                        notes: string, actor: string, now: Instant)
    requires Inv(s)
    ensures Inv(RecordOutcome(s, caller, id, status, reason, notes, actor, now).state)
  {
    if id in s.applications && status.Some? && A.IsOutcome(status.value)
      && status.value in A.Transitions(s.applications[id].status) {
      OutcomeIsGoodWrite(s, id, status.value, reason, notes, actor, now);
      SaveAndMoveKeepsInv(s, WithOutcome(s.applications[id], status.value, reason, notes, now),
                          AuditEvent(actor, OutcomeAction(status.value), id, now));
    }
  }

  lemma SaveResumeKeepsInv(s: State, resume: Resume)
    requires Inv(s)
    ensures Inv(s.(resumes := s.resumes[resume.id := resume]))
  {
  }

  // ---- import ----

  lemma CompanyAfterFacts(s: State, incoming: Company)
    requires CompaniesKeyed(s.companies) && UniqueNames(s.companies) && incoming.id !in s.companies
    ensures var c := CompanyAfter(s, incoming);
            && c.normalizedName == incoming.normalizedName
            && (c.id in s.companies <==> CompanyNamed(s, incoming.normalizedName).Some?)
            && (c.id in s.companies ==> s.companies[c.id].normalizedName == c.normalizedName
                                        && (s.companies[c.id].blacklisted ==> c.blacklisted))
            && (c.id !in s.companies ==> forall id :: id in s.companies ==>
                s.companies[id].normalizedName != c.normalizedName)
  {
    var named := CompanyNamed(s, incoming.normalizedName);
    if named.Some? {
      assert IsCompanyNamed(s, named.value, incoming.normalizedName);
    } else {
      forall id | id in s.companies ensures s.companies[id].normalizedName != incoming.normalizedName {
        assert !IsCompanyNamed(s, id, incoming.normalizedName);
      }
    }
  }

  lemma VacancyAtFacts(s: State, sourceId: Id, externalId: string)
    ensures var at := VacancyAt(s, sourceId, externalId);
            && (at.Some? ==> IsVacancyAt(s, at.value, sourceId, externalId))
            && (at.None? ==> forall id :: !IsVacancyAt(s, id, sourceId, externalId))
  {
  }

  lemma ImportKeepsKeysUnique(vacancies: Vacancies, v: Vacancy)
    requires UniqueVacancies(vacancies)
    requires forall x :: x in vacancies && SameKey(vacancies[x], v) ==> x == v.id
    ensures UniqueVacancies(vacancies[v.id := v])
  {
  }

  lemma ImportKeepsLinks(vacancies: Vacancies, v: Vacancy)
    requires VacanciesKeyed(vacancies) && Linked(vacancies)
    requires v.id in vacancies ==> v.duplicateOf.None? && v.dedupReason.None?
    requires LinkOk(vacancies, v)
    ensures Linked(vacancies[v.id := v])
  {
  }

  lemma ImportKeepsCoupling(applications: Applications, vacancies: Vacancies, v: Vacancy)
    requires Coupled(applications, vacancies)
    requires forall x :: x in applications ==> applications[x].vacancyId in vacancies
    requires v.id in vacancies && vacancies[v.id].status in V.POST_SUBMISSION ==> v.status == vacancies[v.id].status
    ensures Coupled(applications, vacancies[v.id := v])
  {
    forall x | x in applications ensures CoupledTo(applications[x], vacancies[v.id := v][applications[x].vacancyId]) {
      var a := applications[x];
      assert CoupledTo(a, vacancies[a.vacancyId]);
      if A.WasSubmitted(a.status) {
        A.MirrorIsPostSubmission(a.status);
        V.ReachableAfterSubmission(A.Mirror(a.status), vacancies[a.vacancyId].status);
      }
    }
  }

  /** What an import does to the vacancy and company it touches. */
  lemma ImportFacts(env: Env, s: State, profile: CandidateProfile, sourceId: Id, raw: RawVacancy, now: Instant,
                    ids: FreshIds, pick: Option<Id>)
    requires StoreInv(s) && Admissible(env, s, ImportVacancy(profile, sourceId, raw, now, ids, pick))
    ensures var r := Import(env, s, profile, sourceId, raw, now, ids, pick);
            var v := r.vacancy;
            && (forall x :: x in s.vacancies && SameKey(s.vacancies[x], v) ==> x == v.id)
            && (v.id in s.vacancies ==> SameKey(s.vacancies[v.id], v) && v.createdAt == s.vacancies[v.id].createdAt
                                        && v.duplicateOf.None?
                                        && (V.Intake(s.vacancies[v.id].status) ==> V.Intake(v.status))
                                        && (!V.Intake(s.vacancies[v.id].status) ==>
                                            v.status == s.vacancies[v.id].status))
            && (v.id !in s.vacancies ==> V.Intake(v.status))
            && v.createdAt > 0 && v.id != "" && LinkOk(s.vacancies, v)
  {
    VacancyAtFacts(s, sourceId, raw.externalId);
    var v := Import(env, s, profile, sourceId, raw, now, ids, pick).vacancy;
    forall x | x in s.vacancies && SameKey(s.vacancies[x], v) ensures x == v.id {
      assert IsVacancyAt(s, x, sourceId, raw.externalId);
    }
  }

  lemma ImportKeepsCompanies(companies: Companies, c: Company)
    requires CompaniesKeyed(companies) && UniqueNames(companies)
    requires c.id in companies ==> companies[c.id].normalizedName == c.normalizedName
    requires c.id !in companies ==> forall x :: x in companies ==> companies[x].normalizedName != c.normalizedName
    ensures CompaniesKeyed(companies[c.id := c]) && UniqueNames(companies[c.id := c])
  {
  }

  lemma ImportKeepsMatches(matches: Matches, vacancies: Vacancies, v: Vacancy, m: VacancyMatch)
    requires MatchesKeyed(matches, vacancies) && VacanciesKeyed(vacancies)
    requires v.createdAt > 0 && v.id != "" && m.id != "" && m.vacancyId == v.id
    ensures MatchesKeyed(matches[v.id := m], vacancies[v.id := v]) && VacanciesKeyed(vacancies[v.id := v])
  {
    assert matches[v.id := m].Keys == vacancies[v.id := v].Keys;
  }

  lemma ImportKeepsStoreInv(s: State, c: Company, v: Vacancy, m: VacancyMatch)
    requires StoreInv(s)
    requires c.id in s.companies ==> s.companies[c.id].normalizedName == c.normalizedName
    requires c.id !in s.companies ==> forall x :: x in s.companies ==> s.companies[x].normalizedName != c.normalizedName
    requires v.companyId == c.id && v.createdAt > 0 && v.id != "" && m.id != "" && m.vacancyId == v.id
    requires forall x :: x in s.vacancies && SameKey(s.vacancies[x], v) ==> x == v.id
    ensures var companies, vacancies := s.companies[c.id := c], s.vacancies[v.id := v];
            && VacanciesKeyed(vacancies) && CompaniesKeyed(companies) && MatchesKeyed(s.matches[v.id := m], vacancies)
            && VacanciesClosed(vacancies, companies) && ApplicationsClosed(s.applications, s.resumes, vacancies)
            && UniqueNames(companies) && UniqueVacancies(vacancies)
  {
    ImportKeepsKeysUnique(s.vacancies, v);
    ImportKeepsCompanies(s.companies, c);
    ImportKeepsMatches(s.matches, s.vacancies, v, m);
  }

  lemma ImportedRowsKeepInv(s: State, c: Company, v: Vacancy, m: VacancyMatch)
    requires Inv(s)
    requires c.id in s.companies ==> s.companies[c.id].normalizedName == c.normalizedName
    requires c.id !in s.companies ==> forall x :: x in s.companies ==> s.companies[x].normalizedName != c.normalizedName
    requires v.companyId == c.id && v.createdAt > 0 && v.id != "" && m.id != "" && m.vacancyId == v.id
             && LinkOk(s.vacancies, v)
    requires forall x :: x in s.vacancies && SameKey(s.vacancies[x], v) ==> x == v.id
    requires v.id in s.vacancies ==>
               v.duplicateOf.None? && (!V.Intake(s.vacancies[v.id].status) ==> v.status == s.vacancies[v.id].status)
    ensures Inv(PutRows(s, c, v, m))
  {
    ImportKeepsStoreInv(s, c, v, m);
    ImportKeepsLinks(s.vacancies, v);
    ImportKeepsCoupling(s.applications, s.vacancies, v);
  }

  lemma ImportKeepsInv(env: Env, s: State, profile: CandidateProfile, sourceId: Id, raw: RawVacancy, now: Instant,
                       ids: FreshIds, pick: Option<Id>)
    requires Inv(s) && Admissible(env, s, ImportVacancy(profile, sourceId, raw, now, ids, pick))
    ensures Inv(Import(env, s, profile, sourceId, raw, now, ids, pick).state)
  {
    var r := Import(env, s, profile, sourceId, raw, now, ids, pick);
    CompanyAfterFacts(s, IncomingCompany(env, raw, ids.company));
    ImportFacts(env, s, profile, sourceId, raw, now, ids, pick);
    ImportedRowsKeepInv(s, r.company, r.vacancy, r.vacancyMatch);
  }

  lemma StepKeepsInv(env: Env, s: State, action: Action)
    requires Inv(s) && Admissible(env, s, action)
    ensures Inv(Step(env, s, action))
  {
    match action
    case ImportVacancy(profile, sourceId, raw, now, ids, pick) =>
      ImportKeepsInv(env, s, profile, sourceId, raw, now, ids, pick);
    case PatchStatus(id, status) =>
      if id in s.vacancies && V.CanTransition(s.vacancies[id].status, status) { MoveKeepsInv(s, id, status); }
    case SaveResume(resume) => SaveResumeKeepsInv(s, resume);
    case PrepareApplication(caller, id, choice, freshId, actor, now) =>
      PrepareKeepsInv(s, caller, id, choice, freshId, actor, now);
    case ApproveApplication(caller, id, actor, now, auditNow) => ApproveKeepsInv(s, caller, id, actor, now, auditNow);
    case CancelApplication(caller, id, actor, now) => CancelKeepsInv(s, caller, id, actor, now);
    case MarkApplicationSubmitted(caller, id, actor, now) => SubmitKeepsInv(s, caller, id, actor, now);
    case UpdateOutcome(caller, id, status, reason, notes, actor, now) =>
      OutcomeKeepsInv(s, caller, id, status, reason, notes, actor, now);
  }
}
