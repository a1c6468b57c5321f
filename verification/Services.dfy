/**
 * The application services (internal/app/applications.go, internal/app/app.go) as they are written: reads, writes and
 * checks in sequence inside a transaction that commits or rolls back. Each refines its atomic step in Workflow.dfy.
 */
module Services {
  import opened Basics
  import opened Entities
  import opened Workflow
  import opened WorkflowInvariants
  import Atomicity
  import StatusLaws
  import WorkflowRuns
  import opened Stores
  import V = VacancyStatuses
  import A = ApplicationStatuses
  import Normalization
  import ResumeSelection

  /** Every application write so far created a WAITING_APPROVAL row or followed an edge of the application table. */
  predicate OnlyEdges(writes: seq<StatusWrite>) {
    forall i :: 0 <= i < |writes| ==>
      match writes[i].before
      case None => writes[i].after == A.WaitingApproval
      case Some(status) => writes[i].after in A.Transitions(status)
  }

  class App {
    const st: Store
    const env: Env
    const text: Normalization.Text

    constructor (st: Store, env: Env, text: Normalization.Text)
      ensures this.st == st && this.env == env && this.text == text
      ensures st.State() == EMPTY ==> Reachable(env, st.State())
    {
      this.st, this.env, this.text := st, env, text;
      new;
      WorkflowRuns.EmptyIsReachable(env);
    }

    // ---- shared pieces ----

    /** buildApplicationView */
    method BuildApplicationView(a: Application, created: bool) returns (r: Reply)
      modifies st`calls
      ensures Counted(st.fails, old(st.calls), st.calls, r == Refused(Unavailable))
      ensures r == Refused(Unavailable)
              || r == match BuildView(st.State(), a) case Ok(view) => Done(view, created) case Err(e) => Refused(e)
    {
      var resume := st.GetResume(a.resumeId);
      if resume.Err? { return Refused(resume.error); }
      var vacancy := st.GetVacancy(a.vacancyId);
      if vacancy.Err? { return Refused(vacancy.error); }
      var company := st.GetCompanyById(vacancy.value.companyId);
      if company.Err? { return Refused(company.error); }
      var found := st.GetVacancyMatch(vacancy.value.id);
      if found.Err? { return Refused(found.error); }
      r := Done(View(a, resume.value, vacancy.value, company.value, found.value), created);
    }

    /** The audit event and the view that end every successful change. */
    method LogAndView(ghost logged: State, a: Application, event: AuditEvent, created: bool) returns (r: Reply)
      requires logged == st.State().(events := st.State().events + [event])
      modifies st
      ensures Counted(st.fails, old(st.calls), st.calls, r == Refused(Unavailable))
      ensures r != Refused(Unavailable) ==> st.State() == logged
      ensures r == Refused(Unavailable)
              || r == match BuildView(logged, a) case Ok(view) => Done(view, created) case Err(e) => Refused(e)
      ensures st.writes == old(st.writes)
    {
      var failed := st.CreateAuditEvent(event);
      if failed.Some? { return Refused(failed.value); }
      r := BuildApplicationView(a, created);
    }

    /**
     * What a transaction body promises: a success is the specified step, an orderly refusal is the specified refusal.
     */
    static predicate Follows(before: State, after: State, r: Reply, spec: Outcome) {
      r != Refused(Unavailable) ==> r == spec.reply && (r.Done? ==> after == spec.state)
    }

    /** Commit or roll back: all or nothing, even when the database fails at the commit itself. */
    method EndTransaction(snapshot: State, r: Reply) returns (reply: Reply)
      modifies st
      ensures Counted(st.fails, old(st.calls), st.calls, r.Done? && reply == Refused(Unavailable))
      ensures reply == r || (r.Done? && reply == Refused(Unavailable))
      ensures st.State() == if reply.Refused? then snapshot else old(st.State())
      ensures st.writes == old(st.writes)
    {
      reply := r;
      if reply.Done? {
        var failed := st.Commit();
        if failed.Some? { reply := Refused(failed.value); }
      }
      if reply.Refused? { st.Rollback(snapshot); }
    }

    /** Upsert the application, append the event, build the view. */
    method SaveWithEvent(a: Application, event: AuditEvent, created: bool) returns (r: Reply)
      requires OnlyEdges(st.writes)
      requires if a.id in st.applications then a.status in A.Transitions(st.applications[a.id].status)
               else a.status == A.WaitingApproval
      modifies st
      ensures Counted(st.fails, old(st.calls), st.calls, r == Refused(Unavailable))
      ensures Follows(old(st.State()), st.State(), r, SaveApplication(old(st.State()), a, event, created))
      ensures OnlyEdges(st.writes)
    {
      var failed := st.UpsertApplication(a);
      if failed.Some? { return Refused(failed.value); }
      r := FinishSave(old(st.State()), a, event, created);
    }

    /** After the application write: the event, the view, and with them the specified step. */
    method FinishSave(ghost before: State, a: Application, event: AuditEvent, created: bool) returns (r: Reply)
      requires st.State() == before.(applications := before.applications[a.id := a]) && !Conflicts(before, a)
      modifies st
      ensures Counted(st.fails, old(st.calls), st.calls, r == Refused(Unavailable))
      ensures Follows(before, st.State(), r, SaveApplication(before, a, event, created))
      ensures st.writes == old(st.writes)
    {
      r := LogAndView(Write(before, a, event), a, event, created);
    }

    // ---- approve ----

    /** Two writes: APPROVED, then MANUAL_ACTION_REQUIRED. */
    method WriteApproval(application: Application, now: Instant) returns (r: Result<Application, Error>)
      requires OnlyEdges(st.writes) && application.id in st.applications
               && st.applications[application.id] == application
      requires application.status == A.WaitingApproval
      modifies st
      ensures Counted(st.fails, old(st.calls), st.calls, r == Err(Unavailable))
      ensures var a := application.(status := A.ManualActionRequired, approvedAt := Some(now));
              && (r.Ok? ==> r.value == a && !Conflicts(old(st.State()), a)
                            && st.State() == old(st.State()).(applications := old(st.State()).applications[a.id := a]))
              && (r.Err? ==> r.error == Unavailable || (r.error == Conflict && Conflicts(old(st.State()), a)))
      ensures OnlyEdges(st.writes)
    {
      var a := application.(status := A.Approved, approvedAt := Some(now));
      var failed := st.UpsertApplication(a);
      if failed.Some? { return Err(failed.value); }
      a := a.(status := A.ManualActionRequired);
      failed := st.UpsertApplication(a);
      if failed.Some? { return Err(failed.value); }
      assert st.State().applications == old(st.State()).applications[a.id := a];
      r := Ok(a);
    }

    method ApproveBody(caller: Option<Id>, id: Id, actor: string, now: Instant, auditNow: Instant) returns (r: Reply)
      requires IdsMatch(st.State()) && OnlyEdges(st.writes)
      modifies st
      ensures Counted(st.fails, old(st.calls), st.calls, r == Refused(Unavailable))
      ensures Follows(old(st.State()), st.State(), r, Approve(old(st.State()), caller, id, actor, now, auditNow))
      ensures OnlyEdges(st.writes)
    {
      if caller.None? { return Refused(ProfileNotConfigured); }
      var found := st.GetApplication(id);
      if found.Err? { return Refused(found.error); }
      var a := found.value;
      match a.status {
        case WaitingApproval =>
          var written := WriteApproval(a, now);
          if written.Err? { return Refused(written.error); }
          a := written.value;
          r := FinishSave(old(st.State()), a, AuditEvent(actor, AuditAction.Approved, a.id, auditNow), false);
        case Approved =>
          if a.approvedAt.None? { a := a.(approvedAt := Some(now)); }
          a := a.(status := A.ManualActionRequired);
          r := SaveWithEvent(a, AuditEvent(actor, AuditAction.Approved, a.id, auditNow), false);
        case ManualActionRequired =>
          r := BuildApplicationView(a, false);
        case _ =>
          r := Refused(InvalidTransition);
      }
    }

    method ApproveApplication(caller: Option<Id>, id: Id, actor: string, now: Instant, auditNow: Instant)
      returns (r: Reply)
      requires Reachable(env, st.State()) && OnlyEdges(st.writes)
      modifies st
      ensures Counted(st.fails, old(st.calls), st.calls, r == Refused(Unavailable))
      ensures r.Refused? ==> st.State() == old(st.State())
      ensures r != Refused(Unavailable) ==>
                Outcome(st.State(), r) == Approve(old(st.State()), caller, id, actor, now, auditNow)
      ensures Reachable(env, st.State()) && OnlyEdges(st.writes)
    {
      var begun := st.BeginTx();
      if begun.Err? { return Refused(begun.error); }
      var snapshot := begun.value;
      WorkflowRuns.ReachableIdsMatch(env, snapshot);
      WorkflowRuns.ApproveIsAStep(env, snapshot, caller, id, actor, now, auditNow);
      r := ApproveBody(caller, id, actor, now, auditNow);
      r := EndTransaction(snapshot, r);
    }

    // ---- cancel ----

    method CancelBody(caller: Option<Id>, id: Id, actor: string, now: Instant) returns (r: Reply)
      requires IdsMatch(st.State()) && OnlyEdges(st.writes)
      modifies st
      ensures Counted(st.fails, old(st.calls), st.calls, r == Refused(Unavailable))
      ensures Follows(old(st.State()), st.State(), r, Cancel(old(st.State()), caller, id, actor, now))
      ensures OnlyEdges(st.writes)
    {
      if caller.None? { return Refused(ProfileNotConfigured); }
      var found := st.GetApplication(id);
      if found.Err? { return Refused(found.error); }
      var a := found.value;
      if a.status == A.Cancelled {
        r := BuildApplicationView(a, false);
      } else if a.status in {A.Rejected, A.Submitted, A.HRContact, A.Interview, A.Offer} {
        r := Refused(InvalidTransition);
      } else {
        a := a.(status := A.Cancelled);
        r := SaveWithEvent(a, AuditEvent(actor, AuditAction.Cancelled, a.id, now), false);
      }
    }

    method CancelApplication(caller: Option<Id>, id: Id, actor: string, now: Instant) returns (r: Reply)
      requires Reachable(env, st.State()) && OnlyEdges(st.writes)
      modifies st
      ensures Counted(st.fails, old(st.calls), st.calls, r == Refused(Unavailable))
      ensures r.Refused? ==> st.State() == old(st.State())
      ensures r != Refused(Unavailable) ==> Outcome(st.State(), r) == Cancel(old(st.State()), caller, id, actor, now)
      ensures Reachable(env, st.State()) && OnlyEdges(st.writes)
    {
      var begun := st.BeginTx();
      if begun.Err? { return Refused(begun.error); }
      var snapshot := begun.value;
      WorkflowRuns.ReachableIdsMatch(env, snapshot);
      WorkflowRuns.CancelIsAStep(env, snapshot, caller, id, actor, now);
      r := CancelBody(caller, id, actor, now);
      r := EndTransaction(snapshot, r);
    }

    // ---- mark submitted, record outcome ----

    /** The application is written before its vacancy is even read; the transaction makes up for it. */
    method SaveThenMove(a: Application, to: V.VacancyStatus, event: AuditEvent) returns (r: Reply)
      requires IdsMatch(st.State()) && OnlyEdges(st.writes)
      requires a.id in st.applications && a.status in A.Transitions(st.applications[a.id].status)
      modifies st
      ensures Counted(st.fails, old(st.calls), st.calls, r == Refused(Unavailable))
      ensures r != Refused(Unavailable) ==> Outcome(st.State(), r) == SaveAndMoveInPlace(old(st.State()), a, to, event)
      ensures OnlyEdges(st.writes)
    {
      var failed := st.UpsertApplication(a);
      if failed.Some? { return Refused(failed.value); }
      r := MoveSaved(old(st.State()), a, to, event);
    }

    lemma MovedThenLogged(before: State, a: Application, to: V.VacancyStatus, event: AuditEvent)
      requires a.vacancyId in before.vacancies
      ensures var saved := before.(applications := before.applications[a.id := a]);
              Write(MoveVacancy(before, a.vacancyId, to), a, event)
              == MoveVacancy(saved, a.vacancyId, to).(events := before.events + [event])
    {
    }

    /** After the application write: the vacancy, its status, the event and the view. */
    method MoveSaved(ghost before: State, a: Application, to: V.VacancyStatus, event: AuditEvent) returns (r: Reply)
      requires VacanciesKeyed(before.vacancies) && !Conflicts(before, a)
      requires st.State() == before.(applications := before.applications[a.id := a])
      modifies st
      ensures Counted(st.fails, old(st.calls), st.calls, r == Refused(Unavailable))
      ensures r != Refused(Unavailable) ==> Outcome(st.State(), r) == SaveAndMoveInPlace(before, a, to, event)
      ensures st.writes == old(st.writes)
    {
      var vacancy := st.GetVacancy(a.vacancyId);
      if vacancy.Err? { return Refused(vacancy.error); }
      var v := vacancy.value;
      if !V.CanTransition(v.status, to) { return Refused(InvalidTransition); }
      var failed := st.UpdateVacancyStatus(v.id, to, v.duplicateOf, v.dedupReason);
      if failed.Some? { return Refused(failed.value); }
      MovedThenLogged(before, a, to, event);
      r := LogAndView(Write(MoveVacancy(before, a.vacancyId, to), a, event), a, event, false);
    }

    method MarkSubmittedBody(caller: Option<Id>, id: Id, actor: string, now: Instant) returns (r: Reply)
      requires IdsMatch(st.State()) && OnlyEdges(st.writes)
      modifies st
      ensures Counted(st.fails, old(st.calls), st.calls, r == Refused(Unavailable))
      ensures r != Refused(Unavailable) ==>
                Outcome(st.State(), r) == MarkSubmittedInPlace(old(st.State()), caller, id, actor, now)
      ensures OnlyEdges(st.writes)
    {
      if caller.None? { return Refused(ProfileNotConfigured); }
      var found := st.GetApplication(id);
      if found.Err? { return Refused(found.error); }
      var a := found.value;
      match a.status {
        case Submitted =>
          r := BuildApplicationView(a, false);
        case ManualActionRequired =>
          a := a.(status := A.Submitted, submittedAt := Some(now));
          r := SaveThenMove(a, V.Submitted, AuditEvent(actor, MarkedSubmitted, a.id, now));
        case _ =>
          r := Refused(InvalidTransition);
      }
    }

    method MarkApplicationSubmitted(caller: Option<Id>, id: Id, actor: string, now: Instant) returns (r: Reply)
      requires Reachable(env, st.State()) && OnlyEdges(st.writes)
      modifies st
      ensures Counted(st.fails, old(st.calls), st.calls, r == Refused(Unavailable))
      ensures r.Refused? ==> st.State() == old(st.State())
      ensures r != Refused(Unavailable) ==>
                Outcome(st.State(), r) == MarkSubmitted(old(st.State()), caller, id, actor, now)
      ensures Reachable(env, st.State()) && OnlyEdges(st.writes)
    {
      var begun := st.BeginTx();
      if begun.Err? { return Refused(begun.error); }
      var snapshot := begun.value;
      WorkflowRuns.ReachableIdsMatch(env, snapshot);
      r := MarkSubmittedBody(caller, id, actor, now);
      Atomicity.SubmitIsRolledBack(snapshot, caller, id, actor, now);
      r := EndTransaction(snapshot, r);
      if r.Done? { WorkflowRuns.ReachableStep(env, snapshot, Action.MarkApplicationSubmitted(caller, id, actor, now)); }
    }

    method RecordOutcomeBody(caller: Option<Id>, id: Id, status: Option<A.ApplicationStatus>, reason: string,
                             notes: string, actor: string, now: Instant)
      returns (r: Reply)
      requires IdsMatch(st.State()) && OnlyEdges(st.writes)
      modifies st
      ensures Counted(st.fails, old(st.calls), st.calls, r == Refused(Unavailable))
      ensures r != Refused(Unavailable) ==>
                Outcome(st.State(), r)
                == RecordOutcomeInPlace(old(st.State()), caller, id, status, reason, notes, actor, now)
      ensures OnlyEdges(st.writes)
    {
      if caller.None? { return Refused(ProfileNotConfigured); }
      if status.None? { return Refused(InvalidStatus); }
      if !A.IsOutcome(status.value) { return Refused(InvalidTransition); }
      var found := st.GetApplication(id);
      if found.Err? { return Refused(found.error); }
      var a := found.value;
      if a.status == status.value {
        r := BuildApplicationView(a, false);
        return;
      }
      if !A.CanTransition(a.status, status.value) { return Refused(InvalidTransition); }
      a := a.(status := status.value, responseReceivedAt := Some(now));
      if status.value == A.Rejected && reason != "" { a := a.(rejectionReason := reason); }
      if notes != "" { a := a.(notes := notes); }
      r := SaveThenMove(a, A.Mirror(status.value), AuditEvent(actor, OutcomeAction(status.value), a.id, now));
    }

    method UpdateApplicationOutcome(caller: Option<Id>, id: Id, status: Option<A.ApplicationStatus>, reason: string,
                                    notes: string, actor: string, now: Instant) returns (r: Reply)
      requires Reachable(env, st.State()) && OnlyEdges(st.writes)
      modifies st
      ensures Counted(st.fails, old(st.calls), st.calls, r == Refused(Unavailable))
      ensures r.Refused? ==> st.State() == old(st.State())
      ensures r != Refused(Unavailable) ==>
                Outcome(st.State(), r) == RecordOutcome(old(st.State()), caller, id, status, reason, notes, actor, now)
      ensures r.Done? ==> StatusLaws.Named(old(st.State()), st.State(), id, status)
      ensures Reachable(env, st.State()) && OnlyEdges(st.writes)
    {
      var begun := st.BeginTx();
      if begun.Err? { return Refused(begun.error); }
      var snapshot := begun.value;
      WorkflowRuns.ReachableIdsMatch(env, snapshot);
      r := RecordOutcomeBody(caller, id, status, reason, notes, actor, now);
      Atomicity.OutcomeIsRolledBack(snapshot, caller, id, status, reason, notes, actor, now);
      r := EndTransaction(snapshot, r);
      if r.Done? {
        StatusLaws.OutcomeIsNamed(snapshot, caller, id, status, reason, notes, actor, now);
        WorkflowRuns.ReachableStep(env, snapshot, UpdateOutcome(caller, id, status, reason, notes, actor, now));
      }
    }

    // ---- resumes ----

    /** Storing a resume; checking and parsing its text are left out. */
    method SaveResume(resume: Resume) returns (r: Option<Error>)
      requires Reachable(env, st.State()) && OnlyEdges(st.writes)
      modifies st
      ensures Counted(st.fails, old(st.calls), st.calls, r.Some?)
      ensures r.Some? ==> st.State() == old(st.State())
      ensures r.None? ==> st.State() == Step(env, old(st.State()), Action.SaveResume(resume))
      ensures Reachable(env, st.State()) && OnlyEdges(st.writes)
    {
      WorkflowRuns.ReachableStep(env, st.State(), Action.SaveResume(resume));
      r := st.UpsertResume(resume);
    }

    // ---- prepare ----

    /** Which resume the selector picks from the caller's resumes, if the call gets that far. */
    ghost predicate ChoiceOk(s: State, profileId: Id, manualId: Id, v: Vacancy, reasons: seq<string>,
                             choice: Result<Id, ResumeSelection.SelectionError>)
      reads this
    {
      exists listing, picked ::
        && (forall x :: x in listing <==> x in s.resumes.Values && (profileId == "" || x.profileId == profileId))
        && ResumeSelection.IsSelection(text, manualId, v.details, reasons, listing, picked)
        && choice == match picked case Ok(resume) => Ok(resume.id) case Err(e) => Err(e)
    }

    lemma ChoiceMade(s: State, profileId: Id, manualId: Id, v: Vacancy, reasons: seq<string>, listing: seq<Resume>,
                     picked: Result<Resume, ResumeSelection.SelectionError>)
      requires ResumesKeyed(s.resumes)
      requires forall x :: x in listing <==> x in s.resumes.Values && (profileId == "" || x.profileId == profileId)
      requires ResumeSelection.IsSelection(text, manualId, v.details, reasons, listing, picked)
      ensures ChoiceOk(s, profileId, manualId, v, reasons,
                       match picked case Ok(resume) => Ok(resume.id) case Err(e) => Err(e))
      ensures picked.Ok? ==> picked.value.id in s.resumes
    {
    }

    method ChooseResume(profileId: Id, manualId: Id, v: Vacancy, reasons: seq<string>) returns (r: Result<Id, Error>)
      requires ResumesKeyed(st.resumes)
      modifies st`calls
      ensures Counted(st.fails, old(st.calls), st.calls, r == Err(Unavailable))
      ensures r.Err? ==> r.error == Unavailable
                         || (r.error.Unselectable?
                             && ChoiceOk(st.State(), profileId, manualId, v, reasons, Err(r.error.selection)))
      ensures r.Ok? ==> r.value in st.resumes && ChoiceOk(st.State(), profileId, manualId, v, reasons, Ok(r.value))
    {
      var listing := st.ListResumes(profileId);
      if listing.Err? { return Err(listing.error); }
      var picked := ResumeSelection.Select(text, manualId, v.details, reasons, listing.value);
      ChoiceMade(st.State(), profileId, manualId, v, reasons, listing.value, picked);
      match picked
      case Ok(resume) => r := Ok(resume.id);
      case Err(e) => r := Err(Unselectable(e));
    }

    lemma OneActive(s: State, id: Id, vacancyId: Id, profileId: Id)
      requires ActiveUnique(s.applications) && IsActiveFor(s, id, vacancyId, profileId)
      ensures forall x :: IsActiveFor(s, x, vacancyId, profileId) ==> x == id
    {
      forall x | IsActiveFor(s, x, vacancyId, profileId) ensures x == id {
        assert BothActive(s.applications[x], s.applications[id]);
      }
    }

    /** No active application exists: choose a resume and create one. */
    method PrepareNew(profileId: Id, v: Vacancy, manualId: Id, reasons: seq<string>, id: Id, actor: string,
                      now: Instant)
      returns (r: Reply, ghost choice: Result<Id, ResumeSelection.SelectionError>)
      requires IdsMatch(st.State()) && OnlyEdges(st.writes) && id !in st.applications
      requires v.id in st.vacancies && st.vacancies[v.id] == v && v.status != V.Archived && v.id in st.matches
      requires forall x :: !IsActiveFor(st.State(), x, v.id, profileId)
      modifies st
      ensures Counted(st.fails, old(st.calls), st.calls, r == Refused(Unavailable))
      ensures choice.Ok? ==> choice.value in old(st.resumes)
      ensures (r.Done? && r.created) || (r.Refused? && r.error.Unselectable?) ==>
                ChoiceOk(old(st.State()), profileId, manualId, v, reasons, choice)
      ensures Follows(old(st.State()), st.State(), r,
                      Prepare(old(st.State()), Some(profileId), v.id, choice, id, actor, now))
      ensures OnlyEdges(st.writes)
    {
      choice := Err(ResumeSelection.NoSuitableResume);
      var chosen := ChooseResume(profileId, manualId, v, reasons);
      if chosen.Err? {
        if chosen.error.Unselectable? { choice := Err(chosen.error.selection); }
        return Refused(chosen.error), choice;
      }
      choice := Ok(chosen.value);
      var company := st.GetCompanyById(v.companyId);
      if company.Err? { return Refused(company.error), choice; }
      var a := Application(id, v.id, profileId, chosen.value, A.WaitingApproval, now, None, None, None, "", "", now);
      r := SaveWithEvent(a, AuditEvent(actor, Prepared, a.id, now), true);
    }

    /** What the selector has to do with a reply of Prepare. */
    ghost predicate ChoiceUsed(s: State, caller: Option<Id>, vacancyId: Id, manualId: Id, reasons: seq<string>,
                               r: Reply, choice: Result<Id, ResumeSelection.SelectionError>)
      reads this
    {
      && (choice.Ok? ==> choice.value in s.resumes)
      && ((r.Done? && r.created) || (r.Refused? && r.error.Unselectable?) ==>
            caller.Some? && vacancyId in s.vacancies
            && ChoiceOk(s, caller.value, manualId, s.vacancies[vacancyId], reasons, choice))
    }

    /** The vacancy may be applied for: hand back the active application or create one. */
    method PrepareFor(profileId: Id, v: Vacancy, manualId: Id, reasons: seq<string>, id: Id, actor: string,
                      now: Instant)
      returns (r: Reply, ghost choice: Result<Id, ResumeSelection.SelectionError>)
      requires ActiveUnique(st.applications) && IdsMatch(st.State()) && OnlyEdges(st.writes) && id !in st.applications
      requires v.id in st.vacancies && st.vacancies[v.id] == v && v.status != V.Archived && v.id in st.matches
      modifies st
      ensures Counted(st.fails, old(st.calls), st.calls, r == Refused(Unavailable))
      ensures ChoiceUsed(old(st.State()), Some(profileId), v.id, manualId, reasons, r, choice)
      ensures Follows(old(st.State()), st.State(), r,
                      Prepare(old(st.State()), Some(profileId), v.id, choice, id, actor, now))
      ensures OnlyEdges(st.writes)
    {
      choice := Err(ResumeSelection.NoSuitableResume);
      var existing := st.FindActiveApplication(v.id, profileId);
      match existing
      case Ok(a) =>
        OneActive(st.State(), a.id, v.id, profileId);
        r := BuildApplicationView(a, false);
      case Err(e) =>
        if e != NotFound { return Refused(e), choice; }
        r, choice := PrepareNew(profileId, v, manualId, reasons, id, actor, now);
    }

    /**
     * `reasons` are the match's positive reasons; `choice` and `freshId` report the answers of the selector and of
     * NewID.
     */
    method PrepareBody(caller: Option<Id>, vacancyId: Id, manualId: Id, reasons: seq<string>, actor: string,
                       now: Instant)
      returns (r: Reply, ghost choice: Result<Id, ResumeSelection.SelectionError>, ghost freshId: Id)
      requires ActiveUnique(st.applications) && IdsMatch(st.State()) && OnlyEdges(st.writes)
      modifies st
      ensures Counted(st.fails, old(st.calls), st.calls, r == Refused(Unavailable))
      ensures freshId !in old(st.applications)
      ensures ChoiceUsed(old(st.State()), caller, vacancyId, manualId, reasons, r, choice)
      ensures Follows(old(st.State()), st.State(), r,
                      Prepare(old(st.State()), caller, vacancyId, choice, freshId, actor, now))
      ensures OnlyEdges(st.writes)
    {
      choice := Err(ResumeSelection.NoSuitableResume);
      var id := st.NewId();
      freshId := id;
      if caller.None? { return Refused(ProfileNotConfigured), choice, freshId; }
      var vacancy := st.GetVacancy(vacancyId);
      if vacancy.Err? { return Refused(vacancy.error), choice, freshId; }
      var v := vacancy.value;
      if v.status == V.Archived { return Refused(VacancyArchived), choice, freshId; }
      var scored := st.GetVacancyMatch(v.id);
      if scored.Err? { return Refused(scored.error), choice, freshId; }
      r, choice := PrepareFor(caller.value, v, manualId, reasons, id, actor, now);
    }

    method PrepareInTransaction(caller: Option<Id>, vacancyId: Id, manualId: Id, reasons: seq<string>, actor: string,
                                now: Instant)
      returns (r: Reply, ghost choice: Result<Id, ResumeSelection.SelectionError>, ghost freshId: Id)
      requires ActiveUnique(st.applications) && IdsMatch(st.State()) && OnlyEdges(st.writes)
      modifies st
      ensures Counted(st.fails, old(st.calls), st.calls, r == Refused(Unavailable))
      ensures r.Refused? ==> st.State() == old(st.State())
      ensures r != Refused(Unavailable) ==>
                Outcome(st.State(), r) == Prepare(old(st.State()), caller, vacancyId, choice, freshId, actor, now)
      ensures freshId !in old(st.applications)
      ensures ChoiceUsed(old(st.State()), caller, vacancyId, manualId, reasons, r, choice)
      ensures OnlyEdges(st.writes)
    {
      choice := Err(ResumeSelection.NoSuitableResume);
      freshId := st.NewId();
      var begun := st.BeginTx();
      if begun.Err? { return Refused(begun.error), choice, freshId; }
      r, choice, freshId := PrepareBody(caller, vacancyId, manualId, reasons, actor, now);
      r := EndTransaction(begun.value, r);
    }

    method PrepareApplication(caller: Option<Id>, vacancyId: Id, manualId: Id, reasons: seq<string>, actor: string,
                              now: Instant)
      returns (r: Reply, ghost choice: Result<Id, ResumeSelection.SelectionError>, ghost freshId: Id)
      requires Reachable(env, st.State()) && OnlyEdges(st.writes)
      modifies st
      ensures Counted(st.fails, old(st.calls), st.calls, r == Refused(Unavailable))
      ensures r.Refused? ==> st.State() == old(st.State())
      ensures r != Refused(Unavailable) ==>
                Outcome(st.State(), r) == Prepare(old(st.State()), caller, vacancyId, choice, freshId, actor, now)
      ensures freshId !in old(st.applications)
      ensures ChoiceUsed(old(st.State()), caller, vacancyId, manualId, reasons, r, choice)
      ensures Reachable(env, st.State()) && OnlyEdges(st.writes)
    {
      ghost var before := st.State();
      WorkflowRuns.ReachableIdsMatch(env, before);
      WorkflowRuns.ReachableActiveUnique(env, before);
      r, choice, freshId := PrepareInTransaction(caller, vacancyId, manualId, reasons, actor, now);
      WorkflowRuns.ReachableStep(env, before,
                                 Action.PrepareApplication(caller, vacancyId, choice, freshId, actor, now));
    }

    // ---- vacancies ----

    /** GetVacancy, as the reply to a PATCH: a missing match is no error. */
    method ReadBack(id: Id) returns (r: Option<Error>)
      modifies st`calls
      ensures Counted(st.fails, old(st.calls), st.calls, r == Some(Unavailable))
      ensures id in st.vacancies && st.vacancies[id].id == id ==>
                var n := old(st.calls);
                r == if st.fails(n) || st.fails(n + 1) then Some(Unavailable)
                     else if st.vacancies[id].companyId !in st.companies then Some(NotFound)
                     else if st.fails(n + 2) then Some(Unavailable)
                     else None
    {
      var vacancy := st.GetVacancy(id);
      if vacancy.Err? { return Some(vacancy.error); }
      var company := st.GetCompanyById(vacancy.value.companyId);
      if company.Err? { return Some(company.error); }
      var found := st.GetVacancyMatch(vacancy.value.id);
      if found.Err? && found.error != NotFound { return Some(found.error); }
      r := None;
    }

    /** PATCH: read, write, read again, outside any transaction. */
    method PatchBody(id: Id, status: V.VacancyStatus) returns (r: Option<Error>)
      requires IdsMatch(st.State())
      modifies st
      ensures Counted(st.fails, old(st.calls), st.calls, r == Some(Unavailable))
      ensures (st.State(), r) == PatchWithFaults(old(st.State()), id, status, st.fails, old(st.calls))
      ensures st.writes == old(st.writes)
    {
      var found := st.GetVacancy(id);
      if found.Err? { return Some(found.error); }
      var v := found.value;
      if !V.CanTransition(v.status, status) { return Some(InvalidTransition); }
      var failed := st.UpdateVacancyStatus(v.id, status, v.duplicateOf, v.dedupReason);
      if failed.Some? { return failed; }
      assert st.State() == MoveVacancy(old(st.State()), id, status);
      r := ReadBack(id);
    }

    method UpdateVacancyStatus(id: Id, status: V.VacancyStatus) returns (r: Option<Error>)
      requires Reachable(env, st.State()) && OnlyEdges(st.writes)
      modifies st
      ensures Counted(st.fails, old(st.calls), st.calls, r == Some(Unavailable))
      ensures (st.State(), r) == PatchWithFaults(old(st.State()), id, status, st.fails, old(st.calls))
      ensures Reachable(env, st.State()) && OnlyEdges(st.writes)
    {
      WorkflowRuns.ReachableIdsMatch(env, st.State());
      Atomicity.PatchedIsReachable(env, st.State(), id, status, st.fails, st.calls);
      r := PatchBody(id, status);
    }

    lemma CompanyAnswer(s: State, incoming: Company, c: Company)
      requires Reachable(env, s)
      requires || (c == incoming && forall id :: !IsCompanyNamed(s, id, incoming.normalizedName))
               || exists id ::
                    IsCompanyNamed(s, id, incoming.normalizedName) && c == MergeCompany(s.companies[id], incoming)
      ensures c == CompanyAfter(s, incoming)
    {
      WorkflowRuns.ReachableIsFine(env, s);
    }

    /** A search of the vacancies, which the transaction has not touched yet, gives the answer that `s` determines. */
    lemma VacancyAnswer(s: State, s': State, sourceId: Id, externalId: string, found: Option<Vacancy>)
      requires Reachable(env, s) && s'.vacancies == s.vacancies
      requires found.Some? ==> exists id :: IsVacancyAt(s', id, sourceId, externalId) && found.value == s'.vacancies[id]
      requires found.None? ==> forall id :: !IsVacancyAt(s', id, sourceId, externalId)
      ensures VacancyAt(s, sourceId, externalId) == if found.Some? then Some(found.value.id) else None
      ensures found.Some? ==>
                && found.value.id != "" && found.value.id in s.vacancies
                && s.vacancies[found.value.id] == found.value
    {
      WorkflowRuns.ReachableIsFine(env, s);
      var at := VacancyAt(s, sourceId, externalId);
      if found.Some? {
        var id :| IsVacancyAt(s', id, sourceId, externalId) && found.value == s'.vacancies[id];
        assert IsVacancyAt(s, id, sourceId, externalId);
        assert SameKey(s.vacancies[at.value], found.value);
      } else {
        forall id ensures !IsVacancyAt(s, id, sourceId, externalId) {
          assert !IsVacancyAt(s', id, sourceId, externalId);
        }
      }
    }

    /** detectDedup: a vacancy already known by its source is never a duplicate. */
    method DetectDedup(known: bool, hash: string) returns (r: Result<Option<Id>, Error>, ghost pick: Option<Id>)
      modifies st`calls
      ensures Counted(st.fails, old(st.calls), st.calls, r.Err?)
      ensures r.Err? ==> r.error == Unavailable
      ensures r.Ok? ==> PickOk(st.State(), hash, pick) && r.value == if known then None else pick
    {
      if known {
        pick := if exists id :: IsPrimary(st.State(), id, hash) then
                  var id :| IsPrimary(st.State(), id, hash); Some(id)
                else None;
        return Ok(None), pick;
      }
      var primary := st.FindVacancyByContentHash(hash);
      match primary
      case Ok(id) => return Ok(Some(id)), Some(id);
      case Err(e) =>
        if e == NotFound { return Ok(None), None; }
        return Err(e), None;
    }

    /** The lookup's NotFound is no error here. */
    method FindExisting(ghost before: State, sourceId: Id, externalId: string)
      returns (r: Result<Option<Vacancy>, Error>)
      requires Reachable(env, before) && st.vacancies == before.vacancies
      modifies st`calls
      ensures Counted(st.fails, old(st.calls), st.calls, r.Err?)
      ensures r.Err? ==> r.error == Unavailable
      ensures r.Ok? ==>
                VacancyAt(before, sourceId, externalId) == if r.value.Some? then Some(r.value.value.id) else None
      ensures r.Ok? && r.value.Some? ==>
                var v := r.value.value; v.id != "" && v.id in before.vacancies && before.vacancies[v.id] == v
    {
      var found := st.FindVacancyBySourceExternalId(sourceId, externalId);
      match found
      case Ok(v) =>
        VacancyAnswer(before, st.State(), sourceId, externalId, Some(v));
        r := Ok(Some(v));
      case Err(e) =>
        if e == NotFound {
          VacancyAnswer(before, st.State(), sourceId, externalId, None);
          r := Ok(None);
        } else {
          r := Err(e);
        }
    }

    lemma PickReadsVacancies(s: State, s': State, hash: string, pick: Option<Id>)
      requires s.vacancies == s'.vacancies && PickOk(s, hash, pick)
      ensures PickOk(s', hash, pick)
    {
      forall id ensures IsPrimary(s, id, hash) == IsPrimary(s', id, hash) {
      }
    }

    /** The vacancy assembled field by field, its status computed last. */
    method AssembleVacancy(sourceId: Id, raw: RawVacancy, company: Company, existing: Option<Vacancy>, link: Option<Id>,
                           verdict: Verdict, now: Instant) returns (v: Vacancy)
      requires existing.Some? ==> link.None?
      ensures v == VacancyRow(env, sourceId, raw, company, existing, verdict, now, "", link)
    {
      v := Vacancy("", sourceId, raw.externalId, env.details(raw), company.id, env.contentHash(raw), V.Discovered,
                   link, if link.Some? then Some(CONTENT_HASH) else None, 0, 0);
      if link.Some? {
        v := v.(status := V.Duplicate);
      } else if !verdict.passed {
        v := v.(status := V.FilteredOut);
      } else if verdict.recommendation == Apply || verdict.recommendation == Review {
        v := v.(status := V.Recommended);
      } else {
        v := v.(status := V.Normalized);
      }
      var createdAt := 0;
      if existing.Some? {
        if ShouldPreserve(existing.value.status, v.status) { v := v.(status := existing.value.status); }
        v := v.(id := existing.value.id);
        createdAt := existing.value.createdAt;
      }
      if createdAt == 0 { createdAt := now; }
      v := v.(createdAt := createdAt, updatedAt := now);
    }

    /** importVacancyFromRawWithStorage; `ids` and `pick` report the answers of NewID and of the hash lookup. */
    method ImportBody(profile: CandidateProfile, sourceId: Id, raw: RawVacancy, now: Instant)
      returns (r: Result<VacancyWithMatch, Error>, ghost ids: FreshIds, ghost pick: Option<Id>)
      requires Reachable(env, st.State())
      modifies st
      ensures Counted(st.fails, old(st.calls), st.calls, r.Err?)
      ensures r.Err? ==> r.error == Unavailable
      ensures r.Ok? ==> Admissible(env, old(st.State()), ImportVacancy(profile, sourceId, raw, now, ids, pick))
      ensures r.Ok? ==> var i := Import(env, old(st.State()), profile, sourceId, raw, now, ids, pick);
                        st.State() == i.state && r.value == VacancyWithMatch(i.vacancy, i.company, i.vacancyMatch)
      ensures st.writes == old(st.writes)
    {
      var freshId := st.NewId();
      ids, pick := FreshIds(freshId, freshId, freshId), None;
      var company := st.GetOrCreateCompany(IncomingCompany(env, raw, freshId));
      if company.Err? { return Err(company.error), ids, pick; }
      CompanyAnswer(old(st.State()), IncomingCompany(env, raw, freshId), company.value);
      var existing := FindExisting(old(st.State()), sourceId, raw.externalId);
      if existing.Err? { return Err(existing.error), ids, pick; }
      var link;
      link, pick := DetectDedup(existing.value.Some?, env.contentHash(raw));
      if link.Err? { return Err(link.error), ids, pick; }
      PickReadsVacancies(st.State(), old(st.State()), env.contentHash(raw), pick);
      r, ids := StoreImport(old(st.State()), profile, sourceId, raw, now, company.value, existing.value, link.value,
                            freshId, pick);
    }

    /** The two upserts that end an import. */
    method StoreImport(ghost before: State, profile: CandidateProfile, sourceId: Id, raw: RawVacancy, now: Instant,
                       company: Company, existing: Option<Vacancy>, link: Option<Id>, freshId: Id,
                       ghost pick: Option<Id>)
      returns (r: Result<VacancyWithMatch, Error>, ghost ids: FreshIds)
      requires st.State() == before.(companies := before.companies[company.id := company])
      requires company == CompanyAfter(before, IncomingCompany(env, raw, freshId))
      requires VacancyAt(before, sourceId, raw.externalId) == if existing.Some? then Some(existing.value.id) else None
      requires existing.Some? ==> existing.value.id != "" && existing.value.id in before.vacancies
                                  && before.vacancies[existing.value.id] == existing.value
      requires PickOk(before, env.contentHash(raw), pick) && link == if existing.Some? then None else pick
      requires freshId !in before.companies && freshId !in before.vacancies && freshId !in before.matches
               && freshId != ""
      modifies st
      ensures Counted(st.fails, old(st.calls), st.calls, r.Err?)
      ensures r.Err? ==> r.error == Unavailable
      ensures r.Ok? ==> Admissible(env, before, ImportVacancy(profile, sourceId, raw, now, ids, pick))
      ensures r.Ok? ==> var i := Import(env, before, profile, sourceId, raw, now, ids, pick);
                        st.State() == i.state && r.value == VacancyWithMatch(i.vacancy, i.company, i.vacancyMatch)
      ensures st.writes == old(st.writes)
    {
      ids := FreshIds(freshId, freshId, freshId);
      var verdict := env.evaluate(profile, env.details(raw), company, now);
      var v := AssembleVacancy(sourceId, raw, company, existing, link, verdict, now);
      var stored := st.UpsertVacancy(v);
      if stored.Err? { return Err(stored.error), ids; }
      v := stored.value;
      if existing.None? { ids := ids.(vacancy := v.id); }
      var scored := st.UpsertVacancyMatch(VacancyMatch("", v.id, profile.id, verdict, now));
      if scored.Err? { return Err(scored.error), ids; }
      ids := ids.(vacancyMatch := scored.value.id);
      assert v == VacancyRow(env, sourceId, raw, company, existing, verdict, now, ids.vacancy, pick);
      assert scored.value == MatchRow(before, v.id, profile.id, verdict, now, ids.vacancyMatch);
      assert st.State() == PutRows(before, company, v, scored.value);
      r := Ok(VacancyWithMatch(v, company, scored.value));
    }

    method ImportVacancyFromRaw(profile: CandidateProfile, sourceId: Id, raw: RawVacancy, now: Instant)
      returns (r: Result<VacancyWithMatch, Error>, ghost ids: FreshIds, ghost pick: Option<Id>)
      requires Reachable(env, st.State()) && OnlyEdges(st.writes)
      modifies st
      ensures Counted(st.fails, old(st.calls), st.calls, r.Err?)
      ensures r.Err? ==> r.error == Unavailable && st.State() == old(st.State())
      ensures r.Ok? ==> Admissible(env, old(st.State()), ImportVacancy(profile, sourceId, raw, now, ids, pick))
      ensures r.Ok? ==> var i := Import(env, old(st.State()), profile, sourceId, raw, now, ids, pick);
                        st.State() == i.state && r.value == VacancyWithMatch(i.vacancy, i.company, i.vacancyMatch)
      ensures r.Ok? ==> StatusLaws.Rejudged(old(st.State()), sourceId, raw.externalId, r.value.vacancy,
                                            r.value.vacancyMatch.verdict)
      ensures Reachable(env, st.State()) && OnlyEdges(st.writes)
    {
      ids, pick := FreshIds("", "", ""), None;
      var begun := st.BeginTx();
      if begun.Err? { return Err(begun.error), ids, pick; }
      var snapshot := begun.value;
      r, ids, pick := ImportBody(profile, sourceId, raw, now);
      if r.Ok? {
        StatusLaws.ImportRejudges(env, snapshot, profile, sourceId, raw, now, ids, pick);
        WorkflowRuns.ReachableStep(env, snapshot, ImportVacancy(profile, sourceId, raw, now, ids, pick));
        var failed := st.Commit();
        if failed.Some? { r := Err(failed.value); }
      }
      if r.Err? { st.Rollback(snapshot); }
    }
  }
}
