/**
 * Concurrent service calls, one store call at a time. Between its read and its writes a call keeps a copy that other
 * calls make stale, nothing rolls back, and a call may stop anywhere. What still holds is what the store checks in each
 * write.
 */
module Interleaving {
  import opened Basics
  import opened Entities
  import opened Workflow
  import opened WorkflowInvariants
  import WorkflowRuns
  import A = ApplicationStatuses

  /** `pending` are the rows still to be written; the first of them was computed from `seen`. */
  datatype Call =
    | Preparing(vacancyId: Id, profileId: Id)
    | Holding(seen: Application, pending: seq<Application>)

  /** Calls in flight, by number. */
  datatype World = World(s: State, calls: map<nat, Call>)

  datatype Operation =
    | Approve(now: Instant)
    | Cancel
    | Submit(now: Instant)
    | RecordOutcome(status: A.ApplicationStatus, reason: string, notes: string, now: Instant)

  datatype Event =
    | LookUpActive(call: nat, vacancyId: Id, profileId: Id)
    | CreateApplication(call: nat, freshId: Id, resumeId: Id, now: Instant)
    | Load(call: nat, id: Id, operation: Operation)
    | WriteRow(call: nat)
    | Stop(call: nat)

  /** The rows an operation writes after it has read `a`; none when it refuses or has nothing to do. */
  function Plan(operation: Operation, a: Application): seq<Application> {
    match operation
    case Approve(now) =>
      if a.status == A.WaitingApproval then
        [a.(status := A.Approved, approvedAt := Some(now)),
         a.(status := A.ManualActionRequired, approvedAt := Some(now))]
      else if a.status == A.Approved then
        [a.(status := A.ManualActionRequired, approvedAt := if a.approvedAt.None? then Some(now) else a.approvedAt)]
      else []
    case Cancel => if a.status == A.Cancelled || A.WasSubmitted(a.status) then [] else [a.(status := A.Cancelled)]
    case Submit(now) =>
      if a.status == A.ManualActionRequired then [a.(status := A.Submitted, submittedAt := Some(now))] else []
    case RecordOutcome(status, reason, notes, now) =>
      if A.IsOutcome(status) && a.status != status && A.CanTransition(a.status, status)
      then [WithOutcome(a, status, reason, notes, now)]
      else []
  }

  /** UpsertApplication: the uniqueness check and the write under one lock. */
  ghost function Upsert(s: State, a: Application): State {
    if Conflicts(s, a) then s else s.(applications := s.applications[a.id := a])
  }

  ghost function Next(w: World, event: Event): World {
    match event
    case LookUpActive(call, vacancyId, profileId) =>
      if exists id :: IsActiveFor(w.s, id, vacancyId, profileId) then w.(calls := w.calls - {call})
      else w.(calls := w.calls[call := Preparing(vacancyId, profileId)])
    case CreateApplication(call, freshId, resumeId, now) =>
      if call !in w.calls || !w.calls[call].Preparing? then w
      else
        var a := NewApplication(freshId, w.calls[call].vacancyId, w.calls[call].profileId, resumeId, now);
        World(Upsert(w.s, a), w.calls - {call})
    case Load(call, id, operation) =>
      if id !in w.s.applications then w.(calls := w.calls - {call})
      else
        var a := w.s.applications[id];
        w.(calls := w.calls[call := Holding(a, Plan(operation, a))])
    case WriteRow(call) =>
      if call !in w.calls || !w.calls[call].Holding? || w.calls[call].pending == [] then w
      else
        var a := w.calls[call].pending[0];
        World(Upsert(w.s, a),
              if Conflicts(w.s, a) then w.calls - {call} else w.calls[call := Holding(a, w.calls[call].pending[1..])])
    case Stop(call) => w.(calls := w.calls - {call})
  }

  predicate FreshId(w: World, event: Event) {
    event.CreateApplication? ==> event.freshId !in w.s.applications
  }

  ghost function RunAll(w: World, events: seq<Event>): World
    decreases |events|
  {
    if events == [] then w else RunAll(Next(w, events[0]), events[1..])
  }

  ghost predicate AllFresh(w: World, events: seq<Event>)
    decreases |events|
  {
    events == [] || (FreshId(w, events[0]) && AllFresh(Next(w, events[0]), events[1..]))
  }

  // ---- what every interleaving keeps ----

  /** Pending rows follow the table from what the call has seen, and stay on the same application. */
  ghost predicate Chain(seen: Application, pending: seq<Application>)
    decreases |pending|
  {
    pending == []
      || (pending[0].status in A.Transitions(seen.status) && SameRow(seen, pending[0])
          && Chain(pending[0], pending[1..]))
  }

  predicate SameRow(a: Application, b: Application) {
    a.id == b.id && a.SamePair(b)
  }

  ghost predicate IdsAgree(applications: Applications) {
    forall id :: id in applications ==> applications[id].id == id
  }

  ghost predicate CallOk(applications: Applications, call: Call) {
    call.Holding? ==>
      Chain(call.seen, call.pending) && call.seen.id in applications && SameRow(call.seen, applications[call.seen.id])
  }

  ghost predicate CallsOk(applications: Applications, calls: map<nat, Call>) {
    forall call :: call in calls ==> CallOk(applications, calls[call])
  }

  ghost predicate Safe(w: World) {
    IdsAgree(w.s.applications) && ActiveUnique(w.s.applications) && CallsOk(w.s.applications, w.calls)
  }

  /** No row disappears or moves to another vacancy or profile. */
  ghost predicate RowsKept(before: Applications, after: Applications) {
    forall id :: id in before ==> id in after && SameRow(before[id], after[id])
  }

  lemma PlanFollowsTable(operation: Operation, a: Application)
    ensures Chain(a, Plan(operation, a))
  {
  }

  lemma UpsertKeepsUnique(s: State, a: Application)
    requires IdsAgree(s.applications) && ActiveUnique(s.applications)
    ensures IdsAgree(Upsert(s, a).applications) && ActiveUnique(Upsert(s, a).applications)
  {
  }

  lemma UpsertKeepsRows(s: State, a: Application)
    requires IdsAgree(s.applications) && (a.id in s.applications ==> SameRow(a, s.applications[a.id]))
    ensures RowsKept(s.applications, Upsert(s, a).applications)
  {
  }

  lemma RowsKeptKeepsCalls(before: Applications, after: Applications, calls: map<nat, Call>)
    requires CallsOk(before, calls) && RowsKept(before, after)
    ensures CallsOk(after, calls)
  {
  }

  lemma NextKeepsSafe(w: World, event: Event)
    requires Safe(w) && FreshId(w, event)
    ensures Safe(Next(w, event)) && RowsKept(w.s.applications, Next(w, event).s.applications)
  {
    match event
    case LookUpActive(call, vacancyId, profileId) =>
    case CreateApplication(call, freshId, resumeId, now) =>
      if call in w.calls && w.calls[call].Preparing? {
        var a := NewApplication(freshId, w.calls[call].vacancyId, w.calls[call].profileId, resumeId, now);
        UpsertKeepsUnique(w.s, a);
        UpsertKeepsRows(w.s, a);
        RowsKeptKeepsCalls(w.s.applications, Upsert(w.s, a).applications, w.calls);
      }
    case Load(call, id, operation) =>
      if id in w.s.applications { PlanFollowsTable(operation, w.s.applications[id]); }
    case WriteRow(call) => WriteRowKeepsSafe(w, call);
    case Stop(call) =>
  }

  lemma WriteRowKeepsSafe(w: World, call: nat)
    requires Safe(w)
    ensures Safe(Next(w, WriteRow(call))) && RowsKept(w.s.applications, Next(w, WriteRow(call)).s.applications)
  {
    if call in w.calls && w.calls[call].Holding? && w.calls[call].pending != [] {
      assert CallOk(w.s.applications, w.calls[call]);
      var a := w.calls[call].pending[0];
      UpsertKeepsUnique(w.s, a);
      UpsertKeepsRows(w.s, a);
      RowsKeptKeepsCalls(w.s.applications, Upsert(w.s, a).applications, w.calls);
    }
  }

  lemma {:induction false} RunKeepsSafe(w: World, events: seq<Event>)
    requires Safe(w) && AllFresh(w, events)
    ensures Safe(RunAll(w, events)) && RowsKept(w.s.applications, RunAll(w, events).s.applications)
    decreases |events|
  {
    if events != [] {
      NextKeepsSafe(w, events[0]);
      RunKeepsSafe(Next(w, events[0]), events[1..]);
    }
  }

  /**
   * From any store the serial steps can produce, any number of calls, however interleaved and wherever they stop, leave
   * at most one active application per vacancy and profile: the map iteration of FindActiveApplicationByVacancyProfile
   * has one possible answer.
   */
  lemma ActiveAnswerIsUnique(env: Env, s: State, events: seq<Event>, x: Id, y: Id, vacancyId: Id, profileId: Id)
    requires Reachable(env, s) && AllFresh(World(s, map[]), events)
    requires var s' := RunAll(World(s, map[]), events).s;
             IsActiveFor(s', x, vacancyId, profileId) && IsActiveFor(s', y, vacancyId, profileId)
    ensures x == y
  {
    WorkflowRuns.ReachableIsFine(env, s);
    RunKeepsSafe(World(s, map[]), events);
    var applications := RunAll(World(s, map[]), events).s.applications;
    assert BothActive(applications[x], applications[y]);
  }

  /**
   * Of the prepare calls that all saw no active application, exactly the one that writes while there is none creates
   * one.
   */
  lemma PrepareWinsIffNoneActive(w: World, call: nat, freshId: Id, resumeId: Id, now: Instant)
    requires Safe(w) && call in w.calls && w.calls[call].Preparing? && freshId !in w.s.applications
    ensures var c := w.calls[call];
            var s' := Next(w, CreateApplication(call, freshId, resumeId, now)).s;
            if exists id :: IsActiveFor(w.s, id, c.vacancyId, c.profileId) then s' == w.s
            else IsActiveFor(s', freshId, c.vacancyId, c.profileId)
  {
    var c := w.calls[call];
    var a := NewApplication(freshId, c.vacancyId, c.profileId, resumeId, now);
    if id :| IsActiveFor(w.s, id, c.vacancyId, c.profileId) {
      assert w.s.applications[id].id != a.id && w.s.applications[id].SamePair(a);
    } else if Conflicts(w.s, a) {
      var id :| id in w.s.applications && w.s.applications[id].id != a.id && w.s.applications[id].SamePair(a)
                && w.s.applications[id].Active();
      assert IsActiveFor(w.s, id, c.vacancyId, c.profileId);
    }
  }

  /**
   * A write whose copy is not stale is an edge of the application table, and is never refused unless it reactivates.
   */
  lemma FreshCopyWritesAnEdge(w: World, call: nat)
    requires Safe(w) && call in w.calls && w.calls[call].Holding? && w.calls[call].pending != []
    requires var seen := w.calls[call].seen; w.s.applications[seen.id].status == seen.status
    ensures var id := w.calls[call].seen.id;
            var s' := Next(w, WriteRow(call)).s;
            && s'.applications[id].status in A.Transitions(w.s.applications[id].status)
            && s' == w.s.(applications := w.s.applications[id := w.calls[call].pending[0]])
  {
    assert CallOk(w.s.applications, w.calls[call]);
    var id, a := w.calls[call].seen.id, w.calls[call].pending[0];
    assert w.s.applications[id].Active();
    WorkflowRuns.ActiveNeverConflicts(w.s, id, a);
  }

  // ---- the link to the serial steps ----

  ghost function WriteAll(s: State, rows: seq<Application>): State
    decreases |rows|
  {
    if rows == [] then s else WriteAll(Upsert(s, rows[0]), rows[1..])
  }

  ghost function Serial(s: State, operation: Operation, caller: Id, id: Id, actor: string, auditNow: Instant): Outcome {
    match operation
    case Approve(now) => Workflow.Approve(s, Some(caller), id, actor, now, auditNow)
    case Cancel => Workflow.Cancel(s, Some(caller), id, actor, auditNow)
    case Submit(now) => Workflow.MarkSubmitted(s, Some(caller), id, actor, now)
    case RecordOutcome(status, reason, notes, now) =>
      Workflow.RecordOutcome(s, Some(caller), id, Some(status), reason, notes, actor, now)
  }

  function LastRow(applications: Applications, id: Id, rows: seq<Application>): Applications {
    if rows == [] then applications else applications[id := rows[|rows| - 1]]
  }

  lemma SavingWritesTheRow(s: State, a: Application, event: AuditEvent, created: bool)
    requires SaveApplication(s, a, event, created).reply.Done?
    ensures SaveApplication(s, a, event, created).state.applications == s.applications[a.id := a]
  {
  }

  lemma ApproveWritesTheLastRow(s: State, caller: Id, id: Id, actor: string, now: Instant, auditNow: Instant)
    requires IdsAgree(s.applications) && id in s.applications
    requires Workflow.Approve(s, Some(caller), id, actor, now, auditNow).reply.Done?
    ensures Workflow.Approve(s, Some(caller), id, actor, now, auditNow).state.applications
            == LastRow(s.applications, id, Plan(Approve(now), s.applications[id]))
  {
    var a := s.applications[id];
    if a.status == A.WaitingApproval || a.status == A.Approved {
      var plan := Plan(Approve(now), a);
      SavingWritesTheRow(s, plan[|plan| - 1], AuditEvent(actor, AuditAction.Approved, id, auditNow), false);
    }
  }

  lemma OutcomeWritesTheLastRow(s: State, caller: Id, id: Id, status: A.ApplicationStatus, reason: string,
                                notes: string, actor: string, now: Instant)
    requires IdsAgree(s.applications) && id in s.applications
    requires Workflow.RecordOutcome(s, Some(caller), id, Some(status), reason, notes, actor, now).reply.Done?
    ensures Workflow.RecordOutcome(s, Some(caller), id, Some(status), reason, notes, actor, now).state.applications
            == LastRow(s.applications, id, Plan(RecordOutcome(status, reason, notes, now), s.applications[id]))
  {
  }

  lemma SerialWritesTheLastRow(s: State, operation: Operation, caller: Id, id: Id, actor: string, auditNow: Instant)
    requires IdsAgree(s.applications) && id in s.applications
    requires Serial(s, operation, caller, id, actor, auditNow).reply.Done?
    ensures Serial(s, operation, caller, id, actor, auditNow).state.applications
            == LastRow(s.applications, id, Plan(operation, s.applications[id]))
  {
    match operation
    case Approve(now) => ApproveWritesTheLastRow(s, caller, id, actor, now, auditNow);
    case Cancel =>
    case Submit(now) =>
    case RecordOutcome(status, reason, notes, now) =>
      OutcomeWritesTheLastRow(s, caller, id, status, reason, notes, actor, now);
  }

  lemma {:induction false} ChainWritesTheLastRow(s: State, id: Id, rows: seq<Application>)
    requires IdsAgree(s.applications) && ActiveUnique(s.applications) && id in s.applications
    requires Chain(s.applications[id], rows)
    ensures WriteAll(s, rows).applications == LastRow(s.applications, id, rows)
    decreases |rows|
  {
    if rows != [] {
      var row := rows[0];
      assert s.applications[id].Active();
      WorkflowRuns.ActiveNeverConflicts(s, id, row);
      UpsertKeepsUnique(s, row);
      ChainWritesTheLastRow(Upsert(s, row), id, rows[1..]);
    }
  }

  /** A call nobody interferes with writes exactly the application rows of its serial step. */
  lemma AloneIsSerial(s: State, operation: Operation, caller: Id, id: Id, actor: string, auditNow: Instant)
    requires IdsAgree(s.applications) && ActiveUnique(s.applications) && id in s.applications
    requires Serial(s, operation, caller, id, actor, auditNow).reply.Done?
    ensures WriteAll(s, Plan(operation, s.applications[id])).applications
            == Serial(s, operation, caller, id, actor, auditNow).state.applications
  {
    PlanFollowsTable(operation, s.applications[id]);
    ChainWritesTheLastRow(s, id, Plan(operation, s.applications[id]));
    SerialWritesTheLastRow(s, operation, caller, id, actor, auditNow);
  }

  /** So does a prepare call: it looks for an active application and creates one if there is none. */
  lemma PrepareAloneIsSerial(w: World, call: nat, profileId: Id, vacancyId: Id, resumeId: Id, freshId: Id,
                             actor: string, now: Instant)
    requires Safe(w) && freshId !in w.s.applications
    requires Prepare(w.s, Some(profileId), vacancyId, Ok(resumeId), freshId, actor, now).reply.Done?
    ensures var looked := Next(w, LookUpActive(call, vacancyId, profileId));
            var end := if call !in looked.calls then looked
                       else Next(looked, CreateApplication(call, freshId, resumeId, now));
            end.s.applications
            == Prepare(w.s, Some(profileId), vacancyId, Ok(resumeId), freshId, actor, now).state.applications
  {
    var a := NewApplication(freshId, vacancyId, profileId, resumeId, now);
    if !exists id :: IsActiveFor(w.s, id, vacancyId, profileId) {
      SavingWritesTheRow(w.s, a, AuditEvent(actor, Prepared, freshId, now), true);
    }
  }

  // ---- what interleaving costs ----

  /**
   * The table is not kept under interleaving: an approval that has read the application before a cancellation writes
   * over it and brings the application back.
   */
  lemma StaleApprovalRevives(w: World, a: Application, approver: nat, canceller: nat, now: Instant)
    requires Safe(w) && approver != canceller && a.id in w.s.applications && w.s.applications[a.id] == a
    requires a.status == A.WaitingApproval
    ensures var loaded := Next(Next(w, Load(approver, a.id, Approve(now))), Load(canceller, a.id, Cancel));
            var cancelled := Next(loaded, WriteRow(canceller));
            && cancelled.s.applications == w.s.applications[a.id := a.(status := A.Cancelled)]
            && A.Approved !in A.Transitions(A.Cancelled)
            && Next(cancelled, WriteRow(approver)).s.applications
               == w.s.applications[a.id := a.(status := A.Approved, approvedAt := Some(now))]
  {
    var w1 := Next(w, Load(approver, a.id, Approve(now)));
    var w2 := Next(w1, Load(canceller, a.id, Cancel));
    var off := a.(status := A.Cancelled);
    var w3 := Next(w2, WriteRow(canceller));
    assert w3.s == w.s.(applications := w.s.applications[a.id := off]) by {
      assert w2.calls[canceller] == Holding(a, [off]) && !Conflicts(w.s, off);
    }
    assert w3.calls[approver] == Holding(a, Plan(Approve(now), a));
    var on := a.(status := A.Approved, approvedAt := Some(now));
    WorkflowRuns.ActiveNeverConflicts(w.s, a.id, on);
    assert !Conflicts(w3.s, on);
    assert w3.s.applications[a.id := on] == w.s.applications[a.id := on];
  }

  /** Whatever a stale copy would reactivate, the store refuses exactly when another application has become active. */
  lemma RevivalIsRefusedIffAnotherIsActive(w: World, call: nat)
    requires Safe(w) && call in w.calls && w.calls[call].Holding? && w.calls[call].pending != []
    requires w.calls[call].pending[0].Active()
    ensures var a := w.calls[call].pending[0];
            if exists id :: id != a.id && IsActiveFor(w.s, id, a.vacancyId, a.profileId)
            then Next(w, WriteRow(call)) == World(w.s, w.calls - {call})
            else Next(w, WriteRow(call)).s.applications[a.id] == a
  {
    var a := w.calls[call].pending[0];
    if id :| id != a.id && IsActiveFor(w.s, id, a.vacancyId, a.profileId) {
      assert w.s.applications[id].id != a.id && w.s.applications[id].SamePair(a);
    } else if Conflicts(w.s, a) {
      var id :| id in w.s.applications && w.s.applications[id].id != a.id && w.s.applications[id].SamePair(a)
                && w.s.applications[id].Active();
      assert IsActiveFor(w.s, id, a.vacancyId, a.profileId);
    }
  }

  predicate CanWrite(w: World, call: nat) {
    call in w.calls && w.calls[call].Holding? && w.calls[call].pending != []
      && w.calls[call].seen.id in w.s.applications
  }

  function Stored(w: World, call: nat): Application
    requires CanWrite(w, call)
  {
    w.s.applications[w.calls[call].seen.id]
  }

  function Pending(w: World, call: nat): Application
    requires CanWrite(w, call)
  {
    w.calls[call].pending[0]
  }

  /** The stored row as it is after the call's next write. */
  ghost function Written(w: World, call: nat): Application
    requires Safe(w) && CanWrite(w, call)
  {
    NextKeepsSafe(w, WriteRow(call));
    Next(w, WriteRow(call)).s.applications[w.calls[call].seen.id]
  }

  /** Which stored statuses still allow a pending one, when the call has seen `seen`. */
  predicate StillAllows(seen: A.ApplicationStatus, stored: A.ApplicationStatus, pending: A.ApplicationStatus) {
    match pending
    case Cancelled => A.IsActive(stored) && !A.WasSubmitted(stored)
    case Interview => stored == A.Submitted || stored == A.HRContact
    case Rejected => A.WasSubmitted(stored) && stored != A.Offer && stored != A.Rejected
    case _ => stored == seen
  }

  /**
   * Whatever other calls have done to the row, the pending write is an edge of the table iff the row still allows it.
   */
  lemma PendingIsAnEdgeIff(w: World, call: nat)
    requires Safe(w) && CanWrite(w, call)
    ensures Pending(w, call).status in A.Transitions(Stored(w, call).status)
            <==> StillAllows(w.calls[call].seen.status, Stored(w, call).status, Pending(w, call).status)
  {
    assert CallOk(w.s.applications, w.calls[call]);
  }

  /** The store refuses a write iff it would make a second application of the pair active. */
  ghost predicate Refused(w: World, call: nat)
    requires CanWrite(w, call)
  {
    var a := Pending(w, call);
    a.Active() && exists id :: id != a.id && IsActiveFor(w.s, id, a.vacancyId, a.profileId)
  }

  lemma WrittenUnlessRefused(w: World, call: nat)
    requires Safe(w) && CanWrite(w, call)
    ensures Written(w, call) == if Refused(w, call) then Stored(w, call) else Pending(w, call)
  {
    assert CallOk(w.s.applications, w.calls[call]);
    if Pending(w, call).Active() { RevivalIsRefusedIffAnotherIsActive(w, call); }
  }

  /**
   * A call breaks the application table exactly when the row no longer allows its pending status, does not have it
   * already, and no other active application makes the store refuse.
   */
  lemma TableIsBrokenIff(w: World, call: nat)
    requires Safe(w) && CanWrite(w, call)
    ensures !A.CanTransition(Stored(w, call).status, Written(w, call).status)
            <==> && !StillAllows(w.calls[call].seen.status, Stored(w, call).status, Pending(w, call).status)
                 && Pending(w, call).status != Stored(w, call).status && !Refused(w, call)
  {
    PendingIsAnEdgeIff(w, call);
    WrittenUnlessRefused(w, call);
  }

  /**
   * A cancelled or rejected application comes back iff an active status is pending and no other one of the pair is
   * active.
   */
  lemma RevivedIff(w: World, call: nat)
    requires Safe(w) && CanWrite(w, call) && !Stored(w, call).Active()
    ensures Written(w, call).Active() <==> Pending(w, call).Active() && !Refused(w, call)
  {
    WrittenUnlessRefused(w, call);
  }
}
