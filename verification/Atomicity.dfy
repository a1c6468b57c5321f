/**
 * What transactions are for: the services that write before they check, with and without a rollback, and PATCH, which
 * has no transaction at all. Where atomicity fails, it is said exactly when.
 */
module Atomicity {
  import opened Basics
  import opened Entities
  import opened Workflow
  import opened WorkflowInvariants
  import opened WorkflowRuns
  import V = VacancyStatuses
  import A = ApplicationStatuses

  // ---- with and without a transaction ----

  lemma SaveAndMoveIsRolledBack(s: State, a: Application, to: V.VacancyStatus, event: AuditEvent)
    ensures SaveAndMove(s, a, to, event) == RolledBack(s, SaveAndMoveInPlace(s, a, to, event))
  {
  }

  lemma SubmitIsRolledBack(s: State, caller: Option<Id>, id: Id, actor: string, now: Instant)
    ensures MarkSubmitted(s, caller, id, actor, now) == RolledBack(s, MarkSubmittedInPlace(s, caller, id, actor, now))
  {
    if id in s.applications {
      var a := s.applications[id];
      SaveAndMoveIsRolledBack(s, a.(status := A.Submitted, submittedAt := Some(now)), V.Submitted,
                              AuditEvent(actor, MarkedSubmitted, a.id, now));
    }
  }

  lemma OutcomeIsRolledBack(s: State, caller: Option<Id>, id: Id, status: Option<A.ApplicationStatus>, reason: string,
                            notes: string, actor: string, now: Instant)
    ensures RecordOutcome(s, caller, id, status, reason, notes, actor, now)
            == RolledBack(s, RecordOutcomeInPlace(s, caller, id, status, reason, notes, actor, now))
  {
    if WritesOutcome(s, caller, id, status) {
      var a := s.applications[id];
      SaveAndMoveIsRolledBack(s, WithOutcome(a, status.value, reason, notes, now), A.Mirror(status.value),
                              AuditEvent(actor, OutcomeAction(status.value), a.id, now));
    }
  }

  /** A refused call that changed the store all the same. */
  ghost predicate Torn(s: State, o: Outcome) {
    o.reply.Refused? && o.state != s
  }

  /** The vacancy's table refuses what the application's table allows. */
  ghost predicate VacancyRefuses(s: State, id: Id, to: V.VacancyStatus) {
    && id in s.applications && s.applications[id].vacancyId in s.vacancies
    && !V.CanTransition(s.vacancies[s.applications[id].vacancyId].status, to)
  }

  lemma RefusedAfterSaving(s: State, id: Id, a': Application, to: V.VacancyStatus, event: AuditEvent)
    requires VacancyRefuses(s, id, to) && s.applications[id].Active() && ActiveUnique(s.applications)
    requires a'.id == id && s.applications[id].id == id && s.applications[id].SamePair(a') && a' != s.applications[id]
    ensures var o := SaveAndMoveInPlace(s, a', to, event);
            o.reply.Refused? && o.state == s.(applications := s.applications[id := a']) && o.state != s
  {
    ActiveNeverConflicts(s, id, a');
    assert s.applications[id := a'][id] == a';
  }

  lemma SaveAndMoveInPlaceIsTornIff(s: State, id: Id, a': Application, to: V.VacancyStatus, event: AuditEvent)
    requires StoreInv(s) && ActiveUnique(s.applications) && id in s.applications && s.applications[id].Active()
    requires a'.id == id && s.applications[id].SamePair(a') && a'.resumeId == s.applications[id].resumeId
    requires a' != s.applications[id]
    ensures var o := SaveAndMoveInPlace(s, a', to, event);
            && (Torn(s, o) <==> VacancyRefuses(s, id, to))
            && (Torn(s, o) ==> o.state == s.(applications := s.applications[id := a']))
  {
    if VacancyRefuses(s, id, to) {
      RefusedAfterSaving(s, id, a', to, event);
    } else {
      SaveAndMoveSucceeds(s, id, a', to, event);
      SaveAndMoveIsRolledBack(s, a', to, event);
    }
  }

  lemma StaleLogDoesNotReplay(s: State, a': Application)
    requires LogReplays(s.events, s.applications) && a'.id in s.applications
             && a'.status != s.applications[a'.id].status
    ensures !LogReplays(s.events, s.applications[a'.id := a'])
  {
    assert Replay(s.events, a'.id) == At(s.applications[a'.id].status);
    assert s.applications[a'.id := a'][a'.id] == a';
  }

  /**
   * The in-memory store runs the body of a transaction without rolling back. There marking submitted is refused and yet
   * leaves SUBMITTED and its timestamp behind, against the audit log, exactly when the vacancy's table refuses
   * SUBMITTED to an application that awaits manual action.
   */
  lemma InMemorySubmitIsTornIff(env: Env, s: State, caller: Option<Id>, id: Id, actor: string, now: Instant)
    requires Reachable(env, s)
    ensures var o := MarkSubmittedInPlace(s, caller, id, actor, now);
            && (Torn(s, o) <==> caller.Some? && VacancyRefuses(s, id, V.Submitted)
                                && s.applications[id].status == A.ManualActionRequired)
            && (Torn(s, o) ==> id in o.state.applications && o.state.applications[id].submittedAt == Some(now)
                               && !LogReplays(o.state.events, o.state.applications))
  {
    ReachableIsFine(env, s);
    if caller.Some? && id in s.applications && s.applications[id].status == A.ManualActionRequired {
      var a := s.applications[id];
      var a' := a.(status := A.Submitted, submittedAt := Some(now));
      SaveAndMoveInPlaceIsTornIff(s, id, a', V.Submitted, AuditEvent(actor, MarkedSubmitted, a.id, now));
      StaleLogDoesNotReplay(s, a');
    } else {
      RefusedSubmitChangesNothing(s, caller, id, actor, now);
    }
  }

  lemma RefusedSubmitChangesNothing(s: State, caller: Option<Id>, id: Id, actor: string, now: Instant)
    ensures !Torn(s, MarkSubmitted(s, caller, id, actor, now))
  {
  }

  /** The vacancy's table does not let the status of the outcome's name come next. */
  ghost predicate OutcomeBlocked(s: State, id: Id, status: A.ApplicationStatus) {
    && id in s.applications && s.applications[id].vacancyId in s.vacancies
    && !VacancyAllows(s.vacancies[s.applications[id].vacancyId].status, status)
  }

  lemma BlockedMeansRefused(s: State, id: Id, status: A.ApplicationStatus)
    requires A.IsOutcome(status)
    ensures OutcomeBlocked(s, id, status) <==> VacancyRefuses(s, id, A.Mirror(status))
  {
    if id in s.applications && s.applications[id].vacancyId in s.vacancies {
      MirrorDecides(s.vacancies[s.applications[id].vacancyId].status, status);
    }
  }

  /** Likewise for an outcome that the application's table allows and the vacancy's table refuses. */
  lemma InMemoryOutcomeIsTornIff(env: Env, s: State, caller: Option<Id>, id: Id, status: Option<A.ApplicationStatus>,
                                 reason: string, notes: string, actor: string, now: Instant)
    requires Reachable(env, s)
    ensures var o := RecordOutcomeInPlace(s, caller, id, status, reason, notes, actor, now);
            && (Torn(s, o) <==> WritesOutcome(s, caller, id, status) && OutcomeBlocked(s, id, status.value))
            && (Torn(s, o) ==> id in o.state.applications && o.state.applications[id].status == status.value
                               && !LogReplays(o.state.events, o.state.applications))
  {
    ReachableIsFine(env, s);
    if WritesOutcome(s, caller, id, status) {
      var a := s.applications[id];
      var a' := WithOutcome(a, status.value, reason, notes, now);
      ActiveOrDone(a, status.value);
      BlockedMeansRefused(s, id, status.value);
      SaveAndMoveInPlaceIsTornIff(s, id, a', A.Mirror(status.value),
                                  AuditEvent(actor, OutcomeAction(status.value), a.id, now));
      StaleLogDoesNotReplay(s, a');
    } else {
      RefusedOutcomeChangesNothing(s, caller, id, status, reason, notes, actor, now);
    }
  }

  lemma RefusedOutcomeChangesNothing(s: State, caller: Option<Id>, id: Id, status: Option<A.ApplicationStatus>,
                                     reason: string, notes: string, actor: string, now: Instant)
    ensures !Torn(s, RecordOutcome(s, caller, id, status, reason, notes, actor, now))
  {
  }

  lemma ArchivedVacancyRefuses(s: State, id: Id)
    requires id in s.applications && s.applications[id].vacancyId in s.vacancies
    ensures var archived := PatchVacancy(s, s.applications[id].vacancyId, V.Archived).0;
            archived.applications == s.applications && VacancyRefuses(archived, id, V.Submitted)
  {
    V.AllRoadsLeadToArchived(s.vacancies[s.applications[id].vacancyId].status);
  }

  lemma ArchivingIsAStep(env: Env, s: State, id: Id)
    requires Reachable(env, s)
    ensures Reachable(env, PatchVacancy(s, id, V.Archived).0)
  {
    ReachableStep(env, s, PatchStatus(id, V.Archived));
  }

  /**
   * A history: archive the vacancy of an application that awaits manual action, then mark the application submitted.
   */
  lemma ArchivingTearsInMemorySubmit(env: Env, s: State, caller: Id, id: Id, actor: string, now: Instant)
    requires Reachable(env, s) && id in s.applications && s.applications[id].status == A.ManualActionRequired
    ensures var archived := PatchVacancy(s, s.applications[id].vacancyId, V.Archived).0;
            Reachable(env, archived) && Torn(archived, MarkSubmittedInPlace(archived, Some(caller), id, actor, now))
  {
    var archived := PatchVacancy(s, s.applications[id].vacancyId, V.Archived).0;
    ViewsNeverFail(env, s, id);
    ArchivedVacancyRefuses(s, id);
    ArchivingIsAStep(env, s, s.applications[id].vacancyId);
    InMemorySubmitIsTornIff(env, archived, Some(caller), id, actor, now);
  }

  // ---- PATCH, which is no transaction ----

  lemma PatchedIsReachable(env: Env, s: State, id: Id, status: V.VacancyStatus, fails: Schedule, n: nat)
    requires Reachable(env, s)
    ensures Reachable(env, PatchWithFaults(s, id, status, fails, n).0)
  {
    ReachableStep(env, s, PatchStatus(id, status));
  }

  /** Without a failing operation PATCH is its atomic step. */
  lemma PatchWithoutFaults(s: State, id: Id, status: V.VacancyStatus, fails: Schedule, n: nat)
    requires forall k :: n <= k < n + 5 ==> !fails(k)
    ensures PatchWithFaults(s, id, status, fails, n) == PatchVacancy(s, id, status)
  {
    assert !fails(n) && !fails(n + 1) && !fails(n + 2) && !fails(n + 3) && !fails(n + 4);
  }

  /**
   * Exactly when PATCH reports an error although the vacancy has changed: one of the three reads after the write fails.
   */
  lemma PatchErrsAfterWritingIff(env: Env, s: State, id: Id, status: V.VacancyStatus, fails: Schedule, n: nat)
    requires Reachable(env, s)
    ensures var (s', r) := PatchWithFaults(s, id, status, fails, n);
            r.Some? && s' != s
            <==> && id in s.vacancies && V.CanTransition(s.vacancies[id].status, status)
                 && status != s.vacancies[id].status
                 && !fails(n) && !fails(n + 1) && (fails(n + 2) || fails(n + 3) || fails(n + 4))
  {
    ReachableIsFine(env, s);
    if id in s.vacancies { MovedIff(s, id, status); }
  }

  lemma MovedIff(s: State, id: Id, status: V.VacancyStatus)
    requires id in s.vacancies
    ensures MoveVacancy(s, id, status) == s <==> status == s.vacancies[id].status
  {
    assert MoveVacancy(s, id, status).vacancies[id].status == status;
    if status == s.vacancies[id].status { assert MoveVacancy(s, id, status).vacancies == s.vacancies; }
  }

  /** A history: import one posting into the empty store, then archive it while the third operation fails. */
  lemma PatchFailsAfterWriting(env: Env, profile: CandidateProfile, sourceId: Id, raw: RawVacancy, now: Instant,
                               ids: FreshIds)
    requires ids.vacancy != "" && ids.vacancyMatch != ""
    ensures var s := Import(env, EMPTY, profile, sourceId, raw, now, ids, None).state;
            var (s', r) := PatchWithFaults(s, ids.vacancy, V.Archived, k => k == 2, 0);
            && Reachable(env, s) && r == Some(Unavailable)
            && ids.vacancy in s.vacancies && ids.vacancy in s'.vacancies
            && s.vacancies[ids.vacancy].status != V.Archived && s'.vacancies[ids.vacancy].status == V.Archived
  {
    EmptyIsReachable(env);
    ReachableStep(env, EMPTY, ImportVacancy(profile, sourceId, raw, now, ids, None));
    assert VacancyAt(EMPTY, sourceId, raw.externalId).None?;
    var r := Import(env, EMPTY, profile, sourceId, raw, now, ids, None);
    assert r.vacancy.id == ids.vacancy && V.Intake(r.vacancy.status);
    V.AllRoadsLeadToArchived(r.vacancy.status);
  }
}
