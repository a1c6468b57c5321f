/** The status rules written out status by status, and what they mean for every reachable store. */
module StatusLaws {
  import opened Basics
  import opened Entities
  import opened Workflow
  import opened WorkflowInvariants
  import WorkflowRuns
  import V = VacancyStatuses
  import A = ApplicationStatuses

  // ---- a submitted application and its vacancy ----

  lemma {:induction false} Stays(closed: set<V.VacancyStatus>, from: V.VacancyStatus, to: V.VacancyStatus)
    requires forall s :: s in closed ==> V.Transitions(s) <= closed
    requires V.Reaches(from, to) && from in closed
    ensures to in closed
  {
    var p :| V.IsPath(p, from, to);
    V.ClosedUnderPath(closed, p, from, to);
  }

  /** Where the vacancy of a submitted application can be, by the application's status. */
  predicate Accompanies(a: A.ApplicationStatus, v: V.VacancyStatus) {
    match a
    case Submitted => v in {V.Submitted, V.Viewed, V.HRContact, V.Interview, V.Offer, V.Rejected, V.Archived}
    case HRContact => v in {V.HRContact, V.Interview, V.Offer, V.Rejected, V.Archived}
    case Interview => v in {V.Interview, V.Offer, V.Rejected, V.Archived}
    case Offer => v in {V.Offer, V.Archived}
    case Rejected => v in {V.Rejected, V.Archived}
    case _ => true
  }

  lemma ReachesCompany(a: A.ApplicationStatus, v: V.VacancyStatus)
    requires A.WasSubmitted(a) && V.Reaches(A.Mirror(a), v)
    ensures Accompanies(a, v)
  {
    match a
    case Submitted =>
      Stays({V.Submitted, V.Viewed, V.HRContact, V.Interview, V.Offer, V.Rejected, V.Archived}, V.Submitted, v);
    case HRContact => Stays({V.HRContact, V.Interview, V.Offer, V.Rejected, V.Archived}, V.HRContact, v);
    case Interview => Stays({V.Interview, V.Offer, V.Rejected, V.Archived}, V.Interview, v);
    case Offer => Stays({V.Offer, V.Archived}, V.Offer, v);
    case Rejected => Stays({V.Rejected, V.Archived}, V.Rejected, v);
    case _ =>
  }

  /** In every reachable store a vacancy is at least as far as its submitted application. */
  lemma VacanciesAccompany(env: Env, s: State, id: Id)
    requires Reachable(env, s) && id in s.applications
    ensures s.applications[id].vacancyId in s.vacancies
    ensures Accompanies(s.applications[id].status, s.vacancies[s.applications[id].vacancyId].status)
  {
    WorkflowRuns.ReachableIsFine(env, s);
    if A.WasSubmitted(s.applications[id].status) {
      WorkflowRuns.SubmittedApplicationsAreMirrored(env, s, id);
      ReachesCompany(s.applications[id].status, s.vacancies[s.applications[id].vacancyId].status);
    }
  }

  // ---- a recorded outcome ----

  /** One application and its vacancy changed, and no other. */
  ghost predicate OnlyThese(s: State, s': State, id: Id, vacancyId: Id) {
    && s'.applications.Keys == s.applications.Keys && s'.vacancies.Keys == s.vacancies.Keys
    && (forall x :: x in s.applications && x != id ==> s'.applications[x] == s.applications[x])
    && (forall x :: x in s.vacancies && x != vacancyId ==> s'.vacancies[x] == s.vacancies[x])
    && s'.companies == s.companies && s'.matches == s.matches && s'.resumes == s.resumes
  }

  /** One event more, by this actor, about this application, at this time. */
  ghost predicate Logged(s: State, s': State, actor: string, id: Id, now: nat) {
    exists action :: s'.events == s.events + [AuditEvent(actor, action, id, now)]
  }

  /**
   * What a newly recorded outcome writes: status and answer time of the application, reason and notes where they are
   * given, and the status of the same name at the vacancy.
   */
  lemma OutcomeLaw(s: State, caller: Option<Id>, id: Id, status: A.ApplicationStatus, reason: string, notes: string,
                   actor: string, now: Instant)
    requires id in s.applications && s.applications[id].id == id && s.applications[id].status != status
    requires RecordOutcome(s, caller, id, Some(status), reason, notes, actor, now).reply.Done?
    ensures var s' := RecordOutcome(s, caller, id, Some(status), reason, notes, actor, now).state;
            var before := s.applications[id];
            && before.vacancyId in s.vacancies && OnlyThese(s, s', id, before.vacancyId)
            && Logged(s, s', actor, id, now)
            && var after := s'.applications[id];
            && after == Application(id, before.vacancyId, before.profileId, before.resumeId, status, before.preparedAt,
                                    before.approvedAt, before.submittedAt, Some(now), after.rejectionReason,
                                    after.notes, before.createdAt)
            && (if status == A.Rejected && reason != "" then after.rejectionReason == reason
                else after.rejectionReason == before.rejectionReason)
            && (if notes == "" then after.notes == before.notes else after.notes == notes)
            && var v, v' := s.vacancies[before.vacancyId], s'.vacancies[before.vacancyId];
            && v' == v.(status := v'.status) && A.SameName(status, v'.status)
  {
  }

  /** After a reply to an outcome call, a changed application's vacancy has the status of the same name. */
  ghost predicate Named(s: State, s': State, id: Id, status: Option<A.ApplicationStatus>) {
    status.Some? && id in s.applications && s.applications[id].status != status.value ==>
      var v := s.applications[id].vacancyId;
      v in s'.vacancies && A.SameName(status.value, s'.vacancies[v].status)
  }

  lemma OutcomeIsNamed(s: State, caller: Option<Id>, id: Id, status: Option<A.ApplicationStatus>, reason: string,
                       notes: string, actor: string, now: Instant)
    requires IdsMatch(s) && RecordOutcome(s, caller, id, status, reason, notes, actor, now).reply.Done?
    ensures Named(s, RecordOutcome(s, caller, id, status, reason, notes, actor, now).state, id, status)
  {
    if status.Some? && id in s.applications && s.applications[id].status != status.value {
      OutcomeLaw(s, caller, id, status.value, reason, notes, actor, now);
    }
  }

  /** What a new submission writes: status and submission time of the application, SUBMITTED at the vacancy. */
  lemma SubmissionLaw(s: State, caller: Option<Id>, id: Id, actor: string, now: Instant)
    requires id in s.applications && s.applications[id].id == id && s.applications[id].status != A.Submitted
    requires MarkSubmitted(s, caller, id, actor, now).reply.Done?
    ensures var s' := MarkSubmitted(s, caller, id, actor, now).state;
            var before := s.applications[id];
            && before.vacancyId in s.vacancies && OnlyThese(s, s', id, before.vacancyId)
            && s'.events == s.events + [AuditEvent(actor, MarkedSubmitted, id, now)]
            && s'.applications[id] == before.(status := A.Submitted, submittedAt := Some(now))
            && s'.vacancies[before.vacancyId] == s.vacancies[before.vacancyId].(status := V.Submitted)
  {
  }

  // ---- the calls that leave the vacancy alone ----

  /** What an approval writes: the time, unless an APPROVED row has one already, and MANUAL_ACTION_REQUIRED. */
  lemma ApprovalLaw(s: State, caller: Option<Id>, id: Id, actor: string, now: Instant, auditNow: Instant)
    requires id in s.applications && s.applications[id].id == id && s.applications[id].status != A.ManualActionRequired
    requires Approve(s, caller, id, actor, now, auditNow).reply.Done?
    ensures var a := s.applications[id];
            var time := if a.status == A.Approved && a.approvedAt.Some? then a.approvedAt else Some(now);
            Approve(s, caller, id, actor, now, auditNow).state
            == s.(applications := s.applications[id := a.(status := A.ManualActionRequired, approvedAt := time)],
                  events := s.events + [AuditEvent(actor, AuditAction.Approved, id, auditNow)])
  {
  }

  /** What a cancellation writes: the status, and nothing else of the application. */
  lemma CancellationLaw(s: State, caller: Option<Id>, id: Id, actor: string, now: Instant)
    requires id in s.applications && s.applications[id].id == id && s.applications[id].status != A.Cancelled
    requires Cancel(s, caller, id, actor, now).reply.Done?
    ensures Cancel(s, caller, id, actor, now).state
            == s.(applications := s.applications[id := s.applications[id].(status := A.Cancelled)],
                  events := s.events + [AuditEvent(actor, AuditAction.Cancelled, id, now)])
  {
  }

  // ---- importing a posting that is already stored ----

  /** What filter and score make of a posting. */
  predicate AsJudged(status: V.VacancyStatus, m: Verdict) {
    status == if !m.passed then V.FilteredOut else if m.recommendation != Skip then V.Recommended else V.Normalized
  }

  lemma StoredRow(env: Env, sourceId: Id, raw: RawVacancy, company: Company, existing: Vacancy, verdict: Verdict,
                  now: Instant, freshId: Id, pick: Option<Id>)
    ensures var v := VacancyRow(env, sourceId, raw, company, Some(existing), verdict, now, freshId, pick);
            && v.id == existing.id && v.duplicateOf.None? && v.dedupReason.None?
            && if existing.status in {V.Discovered, V.Normalized, V.Duplicate, V.FilteredOut, V.Recommended}
               then AsJudged(v.status, verdict) else v.status == existing.status
  {
  }

  lemma StoredIsFound(s: State, id: Id, sourceId: Id, externalId: string)
    requires VacanciesKeyed(s.vacancies) && UniqueVacancies(s.vacancies) && IsVacancyAt(s, id, sourceId, externalId)
    ensures VacancyAt(s, sourceId, externalId) == Some(id) && s.vacancies[id].id == id
  {
    var at := VacancyAt(s, sourceId, externalId);
    assert SameKey(s.vacancies[at.value], s.vacancies[id]);
  }

  /**
   * The row of a posting that is already stored keeps its ID, loses its link, and its status is judged afresh while it
   * is one of the five intake statuses; any other status stays.
   */
  lemma ReimportLaw(env: Env, s: State, profile: CandidateProfile, sourceId: Id, raw: RawVacancy, now: Instant,
                    ids: FreshIds, pick: Option<Id>, id: Id)
    requires VacanciesKeyed(s.vacancies) && UniqueVacancies(s.vacancies)
    requires IsVacancyAt(s, id, sourceId, raw.externalId)
    ensures var r, before := Import(env, s, profile, sourceId, raw, now, ids, pick), s.vacancies[id];
            && r.vacancy.id == id && r.state.vacancies == s.vacancies[id := r.vacancy]
            && r.vacancy.duplicateOf.None? && r.vacancy.dedupReason.None?
            && r.vacancyMatch.verdict == env.evaluate(profile, env.details(raw), r.company, now)
            && if before.status in {V.Discovered, V.Normalized, V.Duplicate, V.FilteredOut, V.Recommended}
               then AsJudged(r.vacancy.status, r.vacancyMatch.verdict)
               else r.vacancy.status == before.status
  {
    StoredIsFound(s, id, sourceId, raw.externalId);
    var r := Import(env, s, profile, sourceId, raw, now, ids, pick);
    StoredRow(env, sourceId, raw, r.company, s.vacancies[id], r.vacancyMatch.verdict, now, ids.vacancy, pick);
  }

  /** What an import returns for a posting that was already stored. */
  ghost predicate Rejudged(s: State, sourceId: Id, externalId: string, v: Vacancy, m: Verdict) {
    forall id :: IsVacancyAt(s, id, sourceId, externalId) ==>
      && v.id == id && v.duplicateOf.None?
      && if s.vacancies[id].status in {V.Discovered, V.Normalized, V.Duplicate, V.FilteredOut, V.Recommended}
         then AsJudged(v.status, m) else v.status == s.vacancies[id].status
  }

  lemma ImportRejudges(env: Env, s: State, profile: CandidateProfile, sourceId: Id, raw: RawVacancy, now: Instant,
                       ids: FreshIds, pick: Option<Id>)
    requires Reachable(env, s)
    ensures var r := Import(env, s, profile, sourceId, raw, now, ids, pick);
            Rejudged(s, sourceId, raw.externalId, r.vacancy, r.vacancyMatch.verdict)
  {
    WorkflowRuns.ReachableIsFine(env, s);
    forall id | IsVacancyAt(s, id, sourceId, raw.externalId)
      ensures var r := Import(env, s, profile, sourceId, raw, now, ids, pick);
              && r.vacancy.id == id && r.vacancy.duplicateOf.None?
              && if s.vacancies[id].status in {V.Discovered, V.Normalized, V.Duplicate, V.FilteredOut, V.Recommended}
                 then AsJudged(r.vacancy.status, r.vacancyMatch.verdict) else r.vacancy.status == s.vacancies[id].status
    {
      ReimportLaw(env, s, profile, sourceId, raw, now, ids, pick, id);
    }
  }
}
