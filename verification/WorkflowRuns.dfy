/** What holds in every reachable store and over every run. */
module WorkflowRuns {
  import opened Basics
  import opened Entities
  import V = VacancyStatuses
  import A = ApplicationStatuses
  import opened Workflow
  import opened WorkflowInvariants
  import ResumeSelection

  lemma {:induction false} RunKeepsInv(env: Env, s: State, actions: seq<Action>)
    requires Inv(s) && ValidRun(env, s, actions)
    ensures Inv(Run(env, s, actions))
    decreases |actions|
  {
    if actions != [] {
      StepKeepsInv(env, s, actions[0]);
      RunKeepsInv(env, Step(env, s, actions[0]), actions[1..]);
    }
  }

  lemma ReachableIsFine(env: Env, s: State)
    requires Reachable(env, s)
    ensures Inv(s)
  {
    var actions :| ValidRun(env, EMPTY, actions) && s == Run(env, EMPTY, actions);
    EmptyStoreIsFine();
    RunKeepsInv(env, EMPTY, actions);
  }

  lemma ReachableIdsMatch(env: Env, s: State)
    requires Reachable(env, s)
    ensures IdsMatch(s)
  {
    ReachableIsFine(env, s);
  }

  lemma ReachableActiveUnique(env: Env, s: State)
    requires Reachable(env, s)
    ensures ActiveUnique(s.applications)
  {
    ReachableIsFine(env, s);
  }

  lemma {:induction false} RunSnoc(env: Env, s: State, actions: seq<Action>, action: Action)
    requires ValidRun(env, s, actions) && Admissible(env, Run(env, s, actions), action)
    ensures ValidRun(env, s, actions + [action])
    ensures Run(env, s, actions + [action]) == Step(env, Run(env, s, actions), action)
    decreases |actions|
  {
    var longer := actions + [action];
    if |actions| == 0 {
      assert longer == [action] && longer[1..] == [];
    } else {
      assert longer[0] == actions[0] && longer[1..] == actions[1..] + [action];
      RunSnoc(env, Step(env, s, actions[0]), actions[1..], action);
    }
  }

  lemma ReachableStep(env: Env, s: State, action: Action)
    requires Reachable(env, s) && Admissible(env, s, action)
    ensures Reachable(env, Step(env, s, action))
  {
    var actions :| ValidRun(env, EMPTY, actions) && s == Run(env, EMPTY, actions);
    RunSnoc(env, EMPTY, actions, action);
  }

  lemma ApproveIsAStep(env: Env, s: State, caller: Option<Id>, id: Id, actor: string, now: Instant, auditNow: Instant)
    requires Reachable(env, s)
    ensures Reachable(env, Approve(s, caller, id, actor, now, auditNow).state)
  {
    ReachableStep(env, s, ApproveApplication(caller, id, actor, now, auditNow));
  }

  lemma CancelIsAStep(env: Env, s: State, caller: Option<Id>, id: Id, actor: string, now: Instant)
    requires Reachable(env, s)
    ensures Reachable(env, Cancel(s, caller, id, actor, now).state)
  {
    ReachableStep(env, s, CancelApplication(caller, id, actor, now));
  }

  lemma EmptyIsReachable(env: Env)
    ensures Reachable(env, EMPTY)
  {
    assert ValidRun(env, EMPTY, []);
  }

  // ---- what one step does ----

  datatype Effect =
    | Nothing
    | Writes(application: Application, event: AuditEvent)
    | Moves(id: Id, to: V.VacancyStatus)
    | WritesAndMoves(application: Application, event: AuditEvent, to: V.VacancyStatus)
    | Imports(company: Company, vacancy: Vacancy, vacancyMatch: VacancyMatch)
    | Saves(resume: Resume)

  function Perform(s: State, effect: Effect): State {
    match effect
    case Nothing => s
    case Writes(a, e) => Write(s, a, e)
    case Moves(id, to) => if id in s.vacancies then MoveVacancy(s, id, to) else s
    case WritesAndMoves(a, e, to) =>
      if a.vacancyId in s.vacancies then Write(MoveVacancy(s, a.vacancyId, to), a, e) else s
    case Imports(c, v, m) => PutRows(s, c, v, m)
    case Saves(r) => s.(resumes := s.resumes[r.id := r])
  }

  /** A new application, or a proper status change with the one event that names it; timestamps are frozen once set. */
  predicate GoodChange(applications: Applications, a: Application, e: AuditEvent, now: nat) {
    && e.entityId == a.id && a.status == ActionTarget(e.action) && Shape(a)
    && if a.id in applications
       then e.action != Prepared && a.status != applications[a.id].status && Stamped(applications[a.id], a, now)
       else e.action == Prepared && a.preparedAt == now && a.approvedAt.None?
  }

  predicate Stamped(before: Application, a: Application, now: nat) {
    && a.SamePair(before) && a.resumeId == before.resumeId && a.preparedAt == before.preparedAt
    && (a.approvedAt == before.approvedAt
        || (before.approvedAt.None? && a.approvedAt == Some(now) && a.submittedAt.None?))
    && (a.submittedAt == before.submittedAt
        || (before.submittedAt.None? && a.submittedAt == Some(now) && a.responseReceivedAt.None?))
    && (a.responseReceivedAt == before.responseReceivedAt || a.responseReceivedAt == Some(now))
  }

  predicate GoodImport(s: State, c: Company, v: Vacancy, m: VacancyMatch) {
    && (c.id in s.companies ==> s.companies[c.id].normalizedName == c.normalizedName
                                && (s.companies[c.id].blacklisted ==> c.blacklisted))
    && (v.id in s.vacancies ==>
          && SameKey(s.vacancies[v.id], v) && v.createdAt == s.vacancies[v.id].createdAt && v.duplicateOf.None?
          && (V.Intake(s.vacancies[v.id].status) ==> V.Intake(v.status))
          && (!V.Intake(s.vacancies[v.id].status) ==> v.status == s.vacancies[v.id].status))
    && (v.id in s.matches ==> m.id == s.matches[v.id].id)
  }

  predicate GoodEffect(s: State, effect: Effect, now: nat) {
    match effect
    case Nothing => true
    case Writes(a, e) => GoodChange(s.applications, a, e, now) && a.submittedAt.None?
    case Moves(id, to) => id in s.vacancies && V.CanTransition(s.vacancies[id].status, to)
    case WritesAndMoves(a, e, to) =>
      && GoodChange(s.applications, a, e, now) && A.WasSubmitted(a.status) && to == A.Mirror(a.status)
      && a.vacancyId in s.vacancies && V.CanTransition(s.vacancies[a.vacancyId].status, to)
    case Imports(c, v, m) => GoodImport(s, c, v, m)
    case Saves(_) => true
  }

  /** The clock reading a step stamps applications with. */
  function NowOf(action: Action): nat {
    match action
    case ImportVacancy(_, _, _, now, _, _) => now
    case PatchStatus(_, _) => 0
    case SaveResume(_) => 0
    case PrepareApplication(_, _, _, _, _, now) => now
    case ApproveApplication(_, _, _, now, _) => now
    case CancelApplication(_, _, _, now) => now
    case MarkApplicationSubmitted(_, _, _, now) => now
    case UpdateOutcome(_, _, _, _, _, _, now) => now
  }

  ghost predicate ApplicationsOk(s: State) {
    Shaped(s.applications) && forall id :: id in s.applications ==> s.applications[id].id == id
  }

  lemma SaveEffect(s: State, a: Application, event: AuditEvent, created: bool, now: nat) returns (effect: Effect)
    requires GoodChange(s.applications, a, event, now) && a.submittedAt.None?
    ensures !effect.Imports?
    ensures GoodEffect(s, effect, now) && SaveApplication(s, a, event, created).state == Perform(s, effect)
    ensures effect.Nothing? || effect == Writes(a, event)
  {
    effect := if Conflicts(s, a) || BuildView(Write(s, a, event), a).Err? then Nothing else Writes(a, event);
  }

  lemma SaveAndMoveEffect(s: State, a: Application, to: V.VacancyStatus, event: AuditEvent, now: nat)
    returns (effect: Effect)
    requires GoodChange(s.applications, a, event, now) && A.WasSubmitted(a.status) && to == A.Mirror(a.status)
    ensures !effect.Imports?
    ensures GoodEffect(s, effect, now) && SaveAndMove(s, a, to, event).state == Perform(s, effect)
    ensures effect.Nothing? || effect == WritesAndMoves(a, event, to)
  {
    if Conflicts(s, a) || a.vacancyId !in s.vacancies || !V.CanTransition(s.vacancies[a.vacancyId].status, to)
       || BuildView(Write(MoveVacancy(s, a.vacancyId, to), a, event), a).Err? {
      effect := Nothing;
    } else {
      effect := WritesAndMoves(a, event, to);
    }
  }

  lemma PrepareEffect(s: State, caller: Option<Id>, vacancyId: Id, choice: Result<Id, ResumeSelection.SelectionError>,
                      freshId: Id, actor: string, now: Instant) returns (effect: Effect)
    requires freshId !in s.applications
    ensures !effect.Imports?
    ensures GoodEffect(s, effect, now) && Prepare(s, caller, vacancyId, choice, freshId, actor, now).state
            == Perform(s, effect)
  {
    effect := Nothing;
    if caller.Some? && choice.Ok? && Prepare(s, caller, vacancyId, choice, freshId, actor, now).state != s {
      effect := SaveEffect(s, NewApplication(freshId, vacancyId, caller.value, choice.value, now),
                           AuditEvent(actor, Prepared, freshId, now), true, now);
    }
  }

  lemma ApproveEffect(s: State, caller: Option<Id>, id: Id, actor: string, now: Instant, auditNow: Instant)
    returns (effect: Effect)
    requires ApplicationsOk(s)
    ensures !effect.Imports?
    ensures GoodEffect(s, effect, now) && Approve(s, caller, id, actor, now, auditNow).state == Perform(s, effect)
  {
    effect := Nothing;
    if caller.Some? && id in s.applications && s.applications[id].status == A.WaitingApproval {
      assert Shape(s.applications[id]);
      effect := SaveEffect(s, s.applications[id].(status := A.ManualActionRequired, approvedAt := Some(now)),
                           AuditEvent(actor, AuditAction.Approved, id, auditNow), false, now);
    } else if id in s.applications {
      assert Shape(s.applications[id]);
    }
  }

  lemma CancelEffect(s: State, caller: Option<Id>, id: Id, actor: string, now: Instant) returns (effect: Effect)
    requires ApplicationsOk(s)
    ensures !effect.Imports?
    ensures GoodEffect(s, effect, now) && Cancel(s, caller, id, actor, now).state == Perform(s, effect)
  {
    effect := Nothing;
    if caller.Some? && id in s.applications && s.applications[id].status != A.Cancelled
       && !A.WasSubmitted(s.applications[id].status) {
      assert Shape(s.applications[id]);
      effect := SaveEffect(s, s.applications[id].(status := A.Cancelled),
                           AuditEvent(actor, AuditAction.Cancelled, id, now),
                           false, now);
    }
  }

  lemma SubmitEffect(s: State, caller: Option<Id>, id: Id, actor: string, now: Instant) returns (effect: Effect)
    requires ApplicationsOk(s)
    ensures !effect.Imports?
    ensures GoodEffect(s, effect, now) && MarkSubmitted(s, caller, id, actor, now).state == Perform(s, effect)
  {
    effect := Nothing;
    if caller.Some? && id in s.applications && s.applications[id].status == A.ManualActionRequired {
      assert Shape(s.applications[id]);
      effect := SaveAndMoveEffect(s, s.applications[id].(status := A.Submitted, submittedAt := Some(now)), V.Submitted,
                                  AuditEvent(actor, MarkedSubmitted, id, now), now);
    }
  }

  lemma OutcomeEffect(s: State, caller: Option<Id>, id: Id, status: Option<A.ApplicationStatus>, reason: string,
                      notes: string, actor: string, now: Instant)
    returns (effect: Effect)
    requires ApplicationsOk(s)
    ensures !effect.Imports?
    ensures GoodEffect(s, effect, now)
    ensures RecordOutcome(s, caller, id, status, reason, notes, actor, now).state == Perform(s, effect)
  {
    effect := Nothing;
    if caller.Some? && status.Some? && A.IsOutcome(status.value) && id in s.applications
       && s.applications[id].status != status.value && A.CanTransition(s.applications[id].status, status.value) {
      assert Shape(s.applications[id]);
      effect := SaveAndMoveEffect(s, WithOutcome(s.applications[id], status.value, reason, notes, now),
                                  A.Mirror(status.value),
                                  AuditEvent(actor, OutcomeAction(status.value), id, now), now);
    }
  }

  lemma ImportEffect(env: Env, s: State, profile: CandidateProfile, sourceId: Id, raw: RawVacancy, now: Instant,
                     ids: FreshIds, pick: Option<Id>)
    returns (effect: Effect)
    requires StoreInv(s) && Admissible(env, s, ImportVacancy(profile, sourceId, raw, now, ids, pick))
    ensures GoodEffect(s, effect, now)
    ensures Import(env, s, profile, sourceId, raw, now, ids, pick).state == Perform(s, effect)
  {
    CompanyAfterFacts(s, IncomingCompany(env, raw, ids.company));
    ImportFacts(env, s, profile, sourceId, raw, now, ids, pick);
    var r := Import(env, s, profile, sourceId, raw, now, ids, pick);
    effect := Imports(r.company, r.vacancy, r.vacancyMatch);
  }

  lemma StepEffect(env: Env, s: State, action: Action) returns (effect: Effect)
    requires Inv(s) && Admissible(env, s, action)
    ensures effect.Imports? ==> action.ImportVacancy?
    ensures GoodEffect(s, effect, NowOf(action)) && Step(env, s, action) == Perform(s, effect)
  {
    match action
    case ImportVacancy(profile, sourceId, raw, now, ids, pick) =>
      effect := ImportEffect(env, s, profile, sourceId, raw, now, ids, pick);
    case PatchStatus(id, status) =>
      effect := if id in s.vacancies && V.CanTransition(s.vacancies[id].status, status) then Moves(id, status)
        else Nothing;
    case SaveResume(resume) => effect := Saves(resume);
    case PrepareApplication(caller, id, choice, freshId, actor, now) =>
      effect := PrepareEffect(s, caller, id, choice, freshId, actor, now);
    case ApproveApplication(caller, id, actor, now, auditNow) =>
      effect := ApproveEffect(s, caller, id, actor, now, auditNow);
    case CancelApplication(caller, id, actor, now) => effect := CancelEffect(s, caller, id, actor, now);
    case MarkApplicationSubmitted(caller, id, actor, now) => effect := SubmitEffect(s, caller, id, actor, now);
    case UpdateOutcome(caller, id, status, reason, notes, actor, now) =>
      effect := OutcomeEffect(s, caller, id, status, reason, notes, actor, now);
  }

  // ---- the audit log ----

  /** One application changed, and one event says so. */
  ghost predicate ChangedOnce(s: State, s': State, a: Application, e: AuditEvent) {
    && s'.events == s.events + [e] && e.entityId == a.id && a.status == ActionTarget(e.action)
    && s'.applications == s.applications[a.id := a]
    && (a.id in s.applications ==> s.applications[a.id].status != a.status)
  }

  ghost predicate LogFollows(s: State, s': State) {
    || (s'.applications == s.applications && s'.events == s.events)
    || exists a, e :: ChangedOnce(s, s', a, e)
  }

  lemma EffectIsLogged(s: State, effect: Effect, now: nat)
    requires GoodEffect(s, effect, now)
    ensures LogFollows(s, Perform(s, effect))
  {
    match effect
    case Writes(a, e) => assert ChangedOnce(s, Perform(s, effect), a, e);
    case WritesAndMoves(a, e, to) => assert ChangedOnce(s, Perform(s, effect), a, e);
    case _ =>
  }

  /** Every step either leaves applications and log alone or changes one application's status and appends one event. */
  lemma OneEventPerChange(env: Env, s: State, action: Action)
    requires Inv(s) && Admissible(env, s, action)
    ensures LogFollows(s, Step(env, s, action))
  {
    var effect := StepEffect(env, s, action);
    EffectIsLogged(s, effect, NowOf(action));
  }

  /** Folding an application's events gives exactly its stored status, in every reachable store. */
  lemma AuditLogReplays(env: Env, s: State, id: Id)
    requires Reachable(env, s)
    ensures Replay(s.events, id) == if id in s.applications then At(s.applications[id].status) else Absent
  {
    ReachableIsFine(env, s);
  }

  // ---- what no step ever takes back ----

  predicate ApplicationKept(a: Application, a': Application) {
    && a.SamePair(a') && a.resumeId == a'.resumeId && a.preparedAt == a'.preparedAt
    && (a.approvedAt.Some? ==> a'.approvedAt == a.approvedAt)
    && (a.submittedAt.Some? ==> a'.submittedAt == a.submittedAt)
  }

  ghost predicate ApplicationsKept(before: Applications, after: Applications) {
    forall id :: id in before ==> id in after && ApplicationKept(before[id], after[id])
  }

  ghost predicate VacanciesKept(before: Vacancies, after: Vacancies) {
    forall id :: id in before ==>
      id in after && SameKey(before[id], after[id]) && before[id].createdAt == after[id].createdAt
  }

  ghost predicate CompaniesKept(before: Companies, after: Companies) {
    forall id :: id in before ==>
      id in after && before[id].normalizedName == after[id].normalizedName
        && (before[id].blacklisted ==> after[id].blacklisted)
  }

  ghost predicate MatchesKept(before: Matches, after: Matches) {
    forall id :: id in before ==> id in after && before[id].id == after[id].id
  }

  ghost predicate Kept(s: State, s': State) {
    && ApplicationsKept(s.applications, s'.applications) && VacanciesKept(s.vacancies, s'.vacancies)
    && CompaniesKept(s.companies, s'.companies) && MatchesKept(s.matches, s'.matches) && s.events <= s'.events
  }

  lemma EffectKeeps(s: State, effect: Effect, now: nat)
    requires GoodEffect(s, effect, now)
    ensures Kept(s, Perform(s, effect))
  {
  }

  lemma KeptTransitive(r: State, s: State, t: State)
    requires Kept(r, s) && Kept(s, t)
    ensures Kept(r, t)
  {
  }

  lemma StepKeeps(env: Env, s: State, action: Action)
    requires Inv(s) && Admissible(env, s, action)
    ensures Kept(s, Step(env, s, action))
  {
    var effect := StepEffect(env, s, action);
    EffectKeeps(s, effect, NowOf(action));
  }

  lemma KeptThroughFirstStep(env: Env, s: State, actions: seq<Action>)
    requires Inv(s) && ValidRun(env, s, actions) && actions != []
    requires Kept(Step(env, s, actions[0]), Run(env, Step(env, s, actions[0]), actions[1..]))
    ensures Kept(s, Run(env, s, actions))
  {
    StepKeeps(env, s, actions[0]);
    KeptTransitive(s, Step(env, s, actions[0]), Run(env, s, actions));
  }

  /** Identities, first timestamps, blacklisting and the log survive any run. */
  lemma {:induction false} RunKeeps(env: Env, s: State, actions: seq<Action>)
    requires Inv(s) && ValidRun(env, s, actions)
    ensures Kept(s, Run(env, s, actions))
    decreases |actions|
  {
    if actions != [] {
      StepKeepsInv(env, s, actions[0]);
      RunKeeps(env, Step(env, s, actions[0]), actions[1..]);
      KeptThroughFirstStep(env, s, actions);
    }
  }

  // ---- main results about applications ----

  /**
   * At most one application of a vacancy and profile ever has SubmittedAt set: if one has it at some moment and one has
   * it at any later moment, they are the same application.
   */
  lemma NeverSubmittedTwice(env: Env, s: State, later: seq<Action>, x: Id, y: Id)
    requires Reachable(env, s) && ValidRun(env, s, later)
    requires var s' := Run(env, s, later);
             && x in s.applications && y in s'.applications && s.applications[x].submittedAt.Some?
             && s'.applications[y].submittedAt.Some? && s.applications[x].SamePair(s'.applications[y])
    ensures x == y
  {
    ReachableIsFine(env, s);
    RunKeeps(env, s, later);
    RunKeepsInv(env, s, later);
    assert BothSubmitted(Run(env, s, later).applications[x], Run(env, s, later).applications[y]);
  }

  /** Once submitted, an application's vacancy only moves forward from the mirroring status. */
  lemma SubmittedApplicationsAreMirrored(env: Env, s: State, id: Id)
    requires Reachable(env, s) && id in s.applications && A.WasSubmitted(s.applications[id].status)
    ensures s.applications[id].vacancyId in s.vacancies
    ensures V.Reaches(A.Mirror(s.applications[id].status), s.vacancies[s.applications[id].vacancyId].status)
    ensures s.vacancies[s.applications[id].vacancyId].status in V.POST_SUBMISSION
  {
    ReachableIsFine(env, s);
    var a := s.applications[id];
    assert CoupledTo(a, s.vacancies[a.vacancyId]);
    A.MirrorIsPostSubmission(a.status);
    V.ReachableAfterSubmission(A.Mirror(a.status), s.vacancies[a.vacancyId].status);
  }

  /** The index answers "which application is active?" uniquely, whatever order the map is searched in. */
  lemma ActiveApplicationIsUnique(env: Env, s: State, x: Id, y: Id, vacancyId: Id, profileId: Id)
    requires Reachable(env, s) && IsActiveFor(s, x, vacancyId, profileId) && IsActiveFor(s, y, vacancyId, profileId)
    ensures x == y
  {
    ReachableIsFine(env, s);
    assert BothActive(s.applications[x], s.applications[y]);
  }

  /** Every application's resume, vacancy, company and match exist. */
  lemma ViewsNeverFail(env: Env, s: State, id: Id)
    requires Reachable(env, s) && id in s.applications
    ensures BuildView(s, s.applications[id]).Ok?
  {
    ReachableIsFine(env, s);
    ViewsExist(s, s.applications[id]);
  }

  /** Moving an active application along never meets the unique index. */
  lemma ActiveNeverConflicts(s: State, id: Id, a': Application)
    requires ActiveUnique(s.applications) && id in s.applications && s.applications[id].Active()
    requires a'.id == s.applications[id].id && s.applications[id].SamePair(a')
    ensures !Conflicts(s, a')
  {
  }

  /** With the uniqueness check and the view out of the way, only the vacancy's table can refuse. */
  lemma SaveAndMoveSucceeds(s: State, id: Id, a': Application, to: V.VacancyStatus, event: AuditEvent)
    requires StoreInv(s) && ActiveUnique(s.applications) && id in s.applications && s.applications[id].Active()
    requires a'.id == id && s.applications[id].SamePair(a') && a'.resumeId == s.applications[id].resumeId
    ensures a'.vacancyId in s.vacancies
    ensures var reply := SaveAndMove(s, a', to, event).reply;
            if V.CanTransition(s.vacancies[a'.vacancyId].status, to) then reply.Done? && reply.view.application == a'
            else reply == Refused(InvalidTransition)
  {
    ViewsExist(s, a');
    ActiveNeverConflicts(s, id, a');
  }

  lemma SaveSucceeds(s: State, id: Id, a': Application, event: AuditEvent)
    requires StoreInv(s) && ActiveUnique(s.applications) && id in s.applications && s.applications[id].Active()
    requires a'.id == id && s.applications[id].SamePair(a') && a'.resumeId == s.applications[id].resumeId
    ensures var reply := SaveApplication(s, a', event, false).reply;
            reply.Done? && reply.view.application == a'
  {
    ViewsExist(s, a');
    ActiveNeverConflicts(s, id, a');
  }

  /** Approval succeeds exactly where the table leads to MANUAL_ACTION_REQUIRED through at most APPROVED. */
  lemma WhenApprovalSucceeds(s: State, caller: Id, id: Id, actor: string, now: Instant, auditNow: Instant)
    requires StoreInv(s) && ActiveUnique(s.applications)
    ensures var reply := Approve(s, Some(caller), id, actor, now, auditNow).reply;
            if id !in s.applications then reply == Refused(NotFound)
            else
              var next := A.Transitions(s.applications[id].status);
              if s.applications[id].status == A.ManualActionRequired || A.ManualActionRequired in next
                || A.Approved in next
              then reply.Done? && reply.view.application.status == A.ManualActionRequired
              else reply == Refused(InvalidTransition)
  {
    if id in s.applications {
      var a := s.applications[id];
      A.SwitchesFollowTable(a.status);
      match a.status {
        case WaitingApproval =>
          SaveSucceeds(s, id, a.(status := A.ManualActionRequired, approvedAt := Some(now)),
                       AuditEvent(actor, AuditAction.Approved, id, auditNow));
        case Approved =>
          var approvedAt := if a.approvedAt.None? then Some(now) else a.approvedAt;
          SaveSucceeds(s, id, a.(status := A.ManualActionRequired, approvedAt := approvedAt),
                       AuditEvent(actor, AuditAction.Approved, id, auditNow));
        case _ => ViewsExist(s, a);
      }
    }
  }

  /** Cancellation succeeds exactly where the table has CANCELLED as a next status, or it has already happened. */
  lemma WhenCancellationSucceeds(s: State, caller: Id, id: Id, actor: string, now: Instant)
    requires StoreInv(s) && ActiveUnique(s.applications)
    ensures var reply := Cancel(s, Some(caller), id, actor, now).reply;
            if id !in s.applications then reply == Refused(NotFound)
            else if A.CanTransition(s.applications[id].status, A.Cancelled)
            then reply.Done? && reply.view.application.status == A.Cancelled
            else reply == Refused(InvalidTransition)
  {
    if id in s.applications {
      var a := s.applications[id];
      A.SwitchesFollowTable(a.status);
      if a.status != A.Cancelled && !A.WasSubmitted(a.status) {
        SaveSucceeds(s, id, a.(status := A.Cancelled), AuditEvent(actor, Cancelled, id, now));
      } else {
        ViewsExist(s, a);
      }
    }
  }

  lemma SubmittingManually(s: State, caller: Id, id: Id, actor: string, now: Instant)
    requires StoreInv(s) && ActiveUnique(s.applications) && id in s.applications
    requires s.applications[id].status == A.ManualActionRequired
    ensures var reply := MarkSubmitted(s, Some(caller), id, actor, now).reply;
            if V.CanTransition(s.vacancies[s.applications[id].vacancyId].status, V.Submitted)
            then reply.Done? && reply.view.application.status == A.Submitted
            else reply == Refused(InvalidTransition)
  {
    var a := s.applications[id];
    var a' := a.(status := A.Submitted, submittedAt := Some(now));
    SaveAndMoveSucceeds(s, id, a', V.Submitted, AuditEvent(actor, MarkedSubmitted, id, now));
  }

  /** Exactly when marking submitted succeeds, and what is refused otherwise. */
  lemma WhenSubmissionSucceeds(s: State, caller: Id, id: Id, actor: string, now: Instant)
    requires StoreInv(s) && ActiveUnique(s.applications)
    ensures var reply := MarkSubmitted(s, Some(caller), id, actor, now).reply;
            if id !in s.applications then reply == Refused(NotFound)
            else
              var a := s.applications[id];
              var open := a.status == A.ManualActionRequired
                          && V.CanTransition(s.vacancies[a.vacancyId].status, V.Submitted);
              if a.status == A.Submitted || open then reply.Done? && reply.view.application.status == A.Submitted
              else reply == Refused(InvalidTransition)
  {
    if id in s.applications {
      if s.applications[id].status == A.ManualActionRequired {
        SubmittingManually(s, caller, id, actor, now);
      } else {
        ViewsExist(s, s.applications[id]);
      }
    }
  }

  lemma PrepareHandsBackTheActive(s: State, caller: Id, vacancyId: Id,
                                  choice: Result<Id, ResumeSelection.SelectionError>, freshId: Id, actor: string,
                                  now: Instant)
    requires StoreInv(s) && vacancyId in s.vacancies && s.vacancies[vacancyId].status != V.Archived
    requires exists id :: IsActiveFor(s, id, vacancyId, caller)
    ensures var r := Prepare(s, Some(caller), vacancyId, choice, freshId, actor, now).reply;
            r.Done? && !r.created && exists id ::
              IsActiveFor(s, id, vacancyId, caller) && r.view.application == s.applications[id]
  {
  }

  lemma PrepareCreates(s: State, caller: Id, vacancyId: Id, resumeId: Id, freshId: Id, actor: string, now: Instant)
    requires StoreInv(s) && vacancyId in s.vacancies && s.vacancies[vacancyId].status != V.Archived
    requires freshId !in s.applications && resumeId in s.resumes && forall id :: !IsActiveFor(s, id, vacancyId, caller)
    ensures var r := Prepare(s, Some(caller), vacancyId, Ok(resumeId), freshId, actor, now).reply;
            r.Done? && r.created && r.view.application == NewApplication(freshId, vacancyId, caller, resumeId, now)
  {
    var a := NewApplication(freshId, vacancyId, caller, resumeId, now);
    ViewsExist(s, a);
    if Conflicts(s, a) {
      var id :| id in s.applications && s.applications[id].id != a.id && s.applications[id].SamePair(a)
        && s.applications[id].Active();
      assert IsActiveFor(s, id, vacancyId, caller);
    }
  }

  /** Exactly when preparing creates an application, hands back the active one, or is refused. */
  lemma WhenPrepareSucceeds(s: State, caller: Id, vacancyId: Id, choice: Result<Id, ResumeSelection.SelectionError>,
                            freshId: Id, actor: string, now: Instant)
    requires StoreInv(s) && freshId !in s.applications && (choice.Ok? ==> choice.value in s.resumes)
    ensures var r := Prepare(s, Some(caller), vacancyId, choice, freshId, actor, now).reply;
            if vacancyId !in s.vacancies then r == Refused(NotFound)
            else if s.vacancies[vacancyId].status == V.Archived then r == Refused(VacancyArchived)
            else if exists id :: IsActiveFor(s, id, vacancyId, caller) then
              && r.Done? && !r.created
              && exists id :: IsActiveFor(s, id, vacancyId, caller) && r.view.application == s.applications[id]
            else if choice.Err? then r == Refused(Unselectable(choice.error))
            else
              && r.Done? && r.created
              && r.view.application == Application(freshId, vacancyId, caller, choice.value, A.WaitingApproval, now,
                                                   None, None, None, "", "", now)
  {
    if vacancyId in s.vacancies && s.vacancies[vacancyId].status != V.Archived {
      if exists id :: IsActiveFor(s, id, vacancyId, caller) {
        PrepareHandsBackTheActive(s, caller, vacancyId, choice, freshId, actor, now);
      } else if choice.Ok? {
        PrepareCreates(s, caller, vacancyId, choice.value, freshId, actor, now);
      }
    }
  }

  lemma RecordingAnEdge(s: State, caller: Id, id: Id, status: A.ApplicationStatus, reason: string, notes: string,
                        actor: string, now: Instant)
    requires StoreInv(s) && ActiveUnique(s.applications) && A.IsOutcome(status)
    requires id in s.applications && s.applications[id].status != status
    requires A.CanTransition(s.applications[id].status, status)
    ensures var reply := RecordOutcome(s, Some(caller), id, Some(status), reason, notes, actor, now).reply;
            if V.CanTransition(s.vacancies[s.applications[id].vacancyId].status, A.Mirror(status))
            then reply.Done? && reply.view.application.status == status
            else reply == Refused(InvalidTransition)
  {
    var a := s.applications[id];
    ActiveOrDone(a, status);
    SaveAndMoveSucceeds(s, id, WithOutcome(a, status, reason, notes, now), A.Mirror(status),
                        AuditEvent(actor, OutcomeAction(status), a.id, now));
  }

  /** The vacancy's table lets the status of the same name come next. */
  ghost predicate VacancyAllows(v: V.VacancyStatus, status: A.ApplicationStatus) {
    exists to :: A.SameName(status, to) && V.CanTransition(v, to)
  }

  lemma MirrorDecides(v: V.VacancyStatus, status: A.ApplicationStatus)
    requires A.IsOutcome(status)
    ensures VacancyAllows(v, status) <==> V.CanTransition(v, A.Mirror(status))
  {
    A.MirrorHasSameName(status, A.Mirror(status));
    if to :| A.SameName(status, to) && V.CanTransition(v, to) { A.MirrorHasSameName(status, to); }
  }

  /** Exactly when an outcome is recorded: the application's table and the vacancy's table must both allow it. */
  lemma WhenOutcomeSucceeds(s: State, caller: Id, id: Id, status: A.ApplicationStatus, reason: string, notes: string,
                            actor: string, now: Instant)
    requires StoreInv(s) && ActiveUnique(s.applications)
    ensures var reply := RecordOutcome(s, Some(caller), id, Some(status), reason, notes, actor, now).reply;
            if !A.IsOutcome(status) then reply == Refused(InvalidTransition)
            else if id !in s.applications then reply == Refused(NotFound)
            else
              var a := s.applications[id];
              var open := status in A.Transitions(a.status) && VacancyAllows(s.vacancies[a.vacancyId].status, status);
              if a.status == status || open then reply.Done? && reply.view.application.status == status
              else reply == Refused(InvalidTransition)
  {
    if A.IsOutcome(status) && id in s.applications {
      var a := s.applications[id];
      if a.status == status {
        ViewsExist(s, a);
      } else if A.CanTransition(a.status, status) {
        RecordingAnEdge(s, caller, id, status, reason, notes, actor, now);
        MirrorDecides(s.vacancies[a.vacancyId].status, status);
      }
    }
  }

  lemma ActiveOrDone(a: Application, status: A.ApplicationStatus)
    requires A.CanTransition(a.status, status)
    ensures a.status == status || a.Active()
  {
  }

  // ---- repeated calls ----

  /** Calling again, at any later time and by anyone, changes nothing. */
  lemma RepeatedApproveChangesNothing(s: State, caller: Id, again: Id, id: Id, actor: string, actor': string,
                                      now: Instant, audit: Instant, now': Instant, audit': Instant)
    requires ApplicationsOk(s)
    ensures var once := Approve(s, Some(caller), id, actor, now, audit);
            once.reply.Done? ==> Approve(once.state, Some(again), id, actor', now', audit') == once
  {
  }

  lemma RepeatedCancelChangesNothing(s: State, caller: Id, again: Id, id: Id, actor: string, actor': string,
                                     now: Instant, now': Instant)
    requires ApplicationsOk(s)
    ensures var once := Cancel(s, Some(caller), id, actor, now);
            once.reply.Done? ==> Cancel(once.state, Some(again), id, actor', now') == once
  {
  }

  lemma RepeatedSubmitChangesNothing(s: State, caller: Id, again: Id, id: Id, actor: string, actor': string,
                                     now: Instant, now': Instant)
    requires ApplicationsOk(s)
    ensures var once := MarkSubmitted(s, Some(caller), id, actor, now);
            once.reply.Done? ==> MarkSubmitted(once.state, Some(again), id, actor', now') == once
  {
  }

  lemma RepeatedOutcomeChangesNothing(s: State, caller: Id, id: Id, status: A.ApplicationStatus, reason: string,
                                      notes: string, reason': string, notes': string, actor: string, now: Instant,
                                      now': Instant)
    requires ApplicationsOk(s)
    ensures var once := RecordOutcome(s, Some(caller), id, Some(status), reason, notes, actor, now);
            once.reply.Done? ==>
              RecordOutcome(once.state, Some(caller), id, Some(status), reason', notes', actor, now') == once
  {
  }

  // ---- timestamps ----

  predicate TimesOk(a: Application, t: nat) {
    && a.preparedAt <= t
    && (a.approvedAt.Some? ==> a.preparedAt <= a.approvedAt.value <= t)
    && (a.submittedAt.Some? ==> a.approvedAt.Some? && a.approvedAt.value <= a.submittedAt.value <= t)
    && (a.responseReceivedAt.Some? ==> a.submittedAt.Some? && a.submittedAt.value <= a.responseReceivedAt.value <= t)
  }

  ghost predicate Timed(applications: Applications, t: nat) {
    forall id :: id in applications ==> TimesOk(applications[id], t)
  }

  /** The clock after a step; steps that stamp nothing do not advance it. */
  function Tick(action: Action, t: nat): nat {
    if NowOf(action) == 0 then t else NowOf(action)
  }

  function EndOf(actions: seq<Action>, t: nat): nat {
    if actions == [] then t else EndOf(actions[1..], Tick(actions[0], t))
  }

  /** The clock never runs backwards along the run. */
  predicate Monotone(actions: seq<Action>, t: nat) {
    actions == [] || (t <= Tick(actions[0], t) && Monotone(actions[1..], Tick(actions[0], t)))
  }

  lemma EffectKeepsTimed(s: State, effect: Effect, t: nat, now: nat)
    requires GoodEffect(s, effect, now) && Timed(s.applications, t) && t <= now
    ensures Timed(Perform(s, effect).applications, now)
  {
  }

  lemma UntimedStepsKeepApplications(env: Env, s: State, action: Action)
    requires Admissible(env, s, action) && NowOf(action) == 0
    ensures Step(env, s, action).applications == s.applications
  {
  }

  lemma StepKeepsTimed(env: Env, s: State, action: Action, t: nat)
    requires Inv(s) && Admissible(env, s, action) && Timed(s.applications, t) && t <= Tick(action, t)
    ensures Timed(Step(env, s, action).applications, Tick(action, t))
  {
    if NowOf(action) == 0 {
      UntimedStepsKeepApplications(env, s, action);
    } else {
      var effect := StepEffect(env, s, action);
      EffectKeepsTimed(s, effect, t, NowOf(action));
    }
  }

  /** PreparedAt <= ApprovedAt <= SubmittedAt <= ResponseReceivedAt, in every store a forward clock produces. */
  lemma {:induction false} TimestampsStayOrdered(env: Env, s: State, actions: seq<Action>, t: nat)
    requires Inv(s) && ValidRun(env, s, actions) && Timed(s.applications, t) && Monotone(actions, t)
    ensures Timed(Run(env, s, actions).applications, EndOf(actions, t))
    decreases |actions|
  {
    if actions != [] {
      StepKeepsTimed(env, s, actions[0], t);
      StepKeepsInv(env, s, actions[0]);
      TimestampsStayOrdered(env, Step(env, s, actions[0]), actions[1..], Tick(actions[0], t));
    }
  }

  // ---- the vacancy status law ----

  predicate StatusLaw(from: V.VacancyStatus, to: V.VacancyStatus) {
    V.CanTransition(from, to) || (V.Intake(from) && V.Intake(to))
  }

  /** Every change of a vacancy's status is a table edge or stays among the intake statuses. */
  lemma VacancyStatusLaw(env: Env, s: State, action: Action, id: Id)
    requires Inv(s) && Admissible(env, s, action) && id in s.vacancies
    ensures id in Step(env, s, action).vacancies
    ensures StatusLaw(s.vacancies[id].status, Step(env, s, action).vacancies[id].status)
  {
    var effect := StepEffect(env, s, action);
    EffectFollowsLaw(s, effect, NowOf(action), id);
  }

  lemma EffectFollowsLaw(s: State, effect: Effect, now: nat, id: Id)
    requires GoodEffect(s, effect, now) && id in s.vacancies
    ensures id in Perform(s, effect).vacancies
    ensures StatusLaw(s.vacancies[id].status, Perform(s, effect).vacancies[id].status)
  {
  }

  /** How often a run changes a vacancy's status. */
  ghost function Changes(env: Env, s: State, actions: seq<Action>, id: Id): nat
    decreases |actions|
  {
    if actions == [] then 0
    else
      var s' := Step(env, s, actions[0]);
      (if id in s.vacancies && id in s'.vacancies && s.vacancies[id].status != s'.vacancies[id].status then 1 else 0)
      + Changes(env, s', actions[1..], id)
  }

  /**
   * Past intake a vacancy never returns to it, and its rank pays for every further change: at most
   * MAX_RANK - Rank changes are left, none once it is ARCHIVED.
   */
  lemma {:induction false} NoReturnToIntake(env: Env, s: State, actions: seq<Action>, id: Id)
    requires Inv(s) && ValidRun(env, s, actions) && id in s.vacancies && !V.Intake(s.vacancies[id].status)
    ensures id in Run(env, s, actions).vacancies
    ensures !V.Intake(Run(env, s, actions).vacancies[id].status)
    ensures Changes(env, s, actions, id)
         <= V.Rank(Run(env, s, actions).vacancies[id].status) - V.Rank(s.vacancies[id].status)
         <= V.MAX_RANK - V.Rank(s.vacancies[id].status)
    decreases |actions|
  {
    if actions != [] {
      var s' := Step(env, s, actions[0]);
      VacancyStatusLaw(env, s, actions[0], id);
      StepKeepsInv(env, s, actions[0]);
      if s'.vacancies[id].status != s.vacancies[id].status {
        V.TransitionsClimb(s.vacancies[id].status, s'.vacancies[id].status);
      }
      NoReturnToIntake(env, s', actions[1..], id);
    }
  }

  // ---- duplicate links ----

  /** Links have depth one, come with a reason, and while one stands the vacancy is parked. */
  lemma LinksHaveDepthOne(env: Env, s: State, id: Id)
    requires Reachable(env, s) && id in s.vacancies
    ensures s.vacancies[id].duplicateOf.Some? <==> s.vacancies[id].dedupReason.Some?
    ensures s.vacancies[id].duplicateOf.Some? ==>
              var target := s.vacancies[id].duplicateOf.value;
              && target in s.vacancies && target != id && s.vacancies[target].duplicateOf.None?
              && s.vacancies[id].status in {V.Duplicate, V.Archived}
  {
    ReachableIsFine(env, s);
    assert LinkOk(s.vacancies, s.vacancies[id]);
  }

  ghost predicate LinkedUnsubmitted(applications: Applications, vacancies: Vacancies) {
    forall x :: x in applications && applications[x].submittedAt.Some? && applications[x].vacancyId in vacancies ==>
      vacancies[applications[x].vacancyId].duplicateOf.None?
  }

  lemma EffectKeepsLinkedUnsubmitted(s: State, effect: Effect, now: nat)
    requires Linked(s.vacancies) && ApplicationsClosed(s.applications, s.resumes, s.vacancies)
    requires LinkedUnsubmitted(s.applications, s.vacancies) && GoodEffect(s, effect, now)
    ensures LinkedUnsubmitted(Perform(s, effect).applications, Perform(s, effect).vacancies)
  {
    match effect
    case WritesAndMoves(a, e, to) =>
      assert LinkOk(s.vacancies, s.vacancies[a.vacancyId]);
      assert s.vacancies[a.vacancyId].duplicateOf.None?;
    case _ =>
  }

  lemma {:induction false} RunKeepsLinkedUnsubmitted(env: Env, s: State, actions: seq<Action>)
    requires Inv(s) && LinkedUnsubmitted(s.applications, s.vacancies) && ValidRun(env, s, actions)
    ensures LinkedUnsubmitted(Run(env, s, actions).applications, Run(env, s, actions).vacancies)
    decreases |actions|
  {
    if actions != [] {
      var effect := StepEffect(env, s, actions[0]);
      EffectKeepsLinkedUnsubmitted(s, effect, NowOf(actions[0]));
      StepKeepsInv(env, s, actions[0]);
      RunKeepsLinkedUnsubmitted(env, Step(env, s, actions[0]), actions[1..]);
    }
  }

  lemma ReachableLinkedUnsubmitted(env: Env, s: State)
    requires Reachable(env, s)
    ensures LinkedUnsubmitted(s.applications, s.vacancies)
  {
    var actions :| ValidRun(env, EMPTY, actions) && s == Run(env, EMPTY, actions);
    EmptyStoreIsFine();
    RunKeepsLinkedUnsubmitted(env, EMPTY, actions);
  }

  lemma SubmittedHasTimestamp(env: Env, s: State, id: Id)
    requires Reachable(env, s) && id in s.applications && A.WasSubmitted(s.applications[id].status)
    ensures s.applications[id].submittedAt.Some?
  {
    ReachableIsFine(env, s);
    assert Shape(s.applications[id]);
  }

  /** A linked vacancy never has an application that was submitted. */
  lemma LinkedVacanciesHaveNoSubmission(env: Env, s: State, id: Id)
    requires Reachable(env, s) && id in s.applications && s.applications[id].vacancyId in s.vacancies
    requires s.vacancies[s.applications[id].vacancyId].duplicateOf.Some?
    ensures s.applications[id].submittedAt.None? && !A.WasSubmitted(s.applications[id].status)
  {
    ReachableLinkedUnsubmitted(env, s);
    if A.WasSubmitted(s.applications[id].status) { SubmittedHasTimestamp(env, s, id); }
  }

  /** Nor can one become submitted. */
  lemma LinkedVacanciesBlockSubmission(env: Env, s: State, caller: Option<Id>, id: Id, actor: string, now: Instant)
    requires Reachable(env, s) && id in s.applications
    requires var v := s.applications[id].vacancyId; v in s.vacancies && s.vacancies[v].duplicateOf.Some?
    ensures MarkSubmitted(s, caller, id, actor, now).state == s
            && MarkSubmitted(s, caller, id, actor, now).reply.Refused?
  {
    LinksHaveDepthOne(env, s, s.applications[id].vacancyId);
    LinkedVacanciesHaveNoSubmission(env, s, id);
    ParkedVacanciesBlockSubmission(s, caller, id, actor, now);
  }

  lemma ParkedVacanciesBlockSubmission(s: State, caller: Option<Id>, id: Id, actor: string, now: Instant)
    requires id in s.applications && s.applications[id].vacancyId in s.vacancies
    requires s.vacancies[s.applications[id].vacancyId].status in {V.Duplicate, V.Archived}
    requires s.applications[id].status != A.Submitted
    ensures MarkSubmitted(s, caller, id, actor, now).state == s
            && MarkSubmitted(s, caller, id, actor, now).reply.Refused?
  {
  }

  // ---- import identity ----

  /** After any run, the vacancy of a source and external ID is the one its first import created. */
  lemma ImportIdentity(env: Env, s: State, profile: CandidateProfile, sourceId: Id, raw: RawVacancy, now: Instant,
                       ids: FreshIds, pick: Option<Id>, later: seq<Action>, id: Id)
    requires Inv(s) && Admissible(env, s, ImportVacancy(profile, sourceId, raw, now, ids, pick))
    requires ValidRun(env, Import(env, s, profile, sourceId, raw, now, ids, pick).state, later)
    ensures var r := Import(env, s, profile, sourceId, raw, now, ids, pick);
            var end := Run(env, r.state, later);
            && (IsVacancyAt(end, id, sourceId, raw.externalId) <==> id == r.vacancy.id)
            && r.vacancy.id in end.vacancies && end.vacancies[r.vacancy.id].createdAt == r.vacancy.createdAt
            && r.vacancy.id in end.matches && end.matches[r.vacancy.id].id == r.vacancyMatch.id
            && (r.vacancy.id !in s.vacancies ==> r.vacancy.createdAt == now)
            && (r.vacancy.id in s.vacancies ==> r.vacancy.createdAt == s.vacancies[r.vacancy.id].createdAt)
  {
    var r := Import(env, s, profile, sourceId, raw, now, ids, pick);
    ImportFacts(env, s, profile, sourceId, raw, now, ids, pick);
    ImportKeepsInv(env, s, profile, sourceId, raw, now, ids, pick);
    RunKeeps(env, r.state, later);
    RunKeepsInv(env, r.state, later);
    var end := Run(env, r.state, later);
    assert SameKey(r.vacancy, end.vacancies[r.vacancy.id]);
    if IsVacancyAt(end, id, sourceId, raw.externalId) {
      assert SameKey(end.vacancies[id], end.vacancies[r.vacancy.id]);
    }
  }

  /** One company per normalised name; its blacklist flag is never cleared. */
  lemma CompanyIdentity(env: Env, s: State, later: seq<Action>, x: Id, y: Id)
    requires Reachable(env, s) && ValidRun(env, s, later) && x in s.companies && y in Run(env, s, later).companies
    requires s.companies[x].normalizedName == Run(env, s, later).companies[y].normalizedName
    ensures x == y && (s.companies[x].blacklisted ==> Run(env, s, later).companies[y].blacklisted)
  {
    ReachableIsFine(env, s);
    RunKeeps(env, s, later);
    RunKeepsInv(env, s, later);
  }

  /** The company an import leaves carries everything a second import of it would merge in. */
  lemma CompanyAgain(s: State, incoming: Company, incoming': Company, end: State)
    requires CompaniesKeyed(s.companies) && UniqueNames(s.companies) && incoming.id !in s.companies
    requires incoming' == incoming.(id := incoming'.id) && !incoming.blacklisted
    requires UniqueNames(end.companies)
    requires var c := CompanyAfter(s, incoming); c.id in end.companies && end.companies[c.id] == c
    ensures CompanyAfter(end, incoming') == CompanyAfter(s, incoming)
  {
    CompanyAfterFacts(s, incoming);
    CompanyFoundAgain(end, CompanyAfter(s, incoming));
  }

  /** What the import left is still there; only the vacancy's status may have moved. */
  ghost predicate RowsStand(r: Imported, end: State) {
    && r.company.id in end.companies && end.companies[r.company.id] == r.company
    && r.vacancy.id in end.matches && end.matches[r.vacancy.id] == r.vacancyMatch
    && r.vacancy.id in end.vacancies
    && end.vacancies[r.vacancy.id] == r.vacancy.(status := end.vacancies[r.vacancy.id].status)
  }

  /**
   * A second import keeps this status of an unlinked vacancy: past intake always, inside intake only if filter and
   * score say so again.
   */
  predicate Survives(status: V.VacancyStatus, verdict: Verdict) {
    status in {V.Discovered, V.Normalized, V.Duplicate, V.FilteredOut, V.Recommended} ==>
      status == if !verdict.passed then V.FilteredOut else if verdict.recommendation != Skip then V.Recommended
                else V.Normalized
  }

  lemma RowAgain(env: Env, sourceId: Id, raw: RawVacancy, company: Company, existing: Option<Vacancy>, verdict: Verdict,
                 now: Instant, freshId: Id, pick: Option<Id>, status: V.VacancyStatus, freshId': Id, pick': Option<Id>)
    ensures var v := VacancyRow(env, sourceId, raw, company, existing, verdict, now, freshId, pick);
            var moved := v.(status := status);
            && (VacancyRow(env, sourceId, raw, company, Some(moved), verdict, now, freshId', pick') == moved
                <==> v.duplicateOf.None? && Survives(status, verdict))
            && (v.duplicateOf.None? ==> Survives(v.status, verdict))
  {
  }

  /** A second import meets the rows the first one wrote. */
  lemma SecondImport(env: Env, s: State, profile: CandidateProfile, sourceId: Id, raw: RawVacancy, now: Instant,
                     ids: FreshIds, pick: Option<Id>, end: State, ids': FreshIds, pick': Option<Id>)
    requires Inv(s) && Admissible(env, s, ImportVacancy(profile, sourceId, raw, now, ids, pick))
    requires StoreInv(end) && RowsStand(Import(env, s, profile, sourceId, raw, now, ids, pick), end)
    ensures var first := Import(env, s, profile, sourceId, raw, now, ids, pick);
            var second := Import(env, end, profile, sourceId, raw, now, ids', pick');
            var status := end.vacancies[first.vacancy.id].status;
            && second.company == first.company && second.vacancy.id == first.vacancy.id
            && second.vacancyMatch == first.vacancyMatch
            && (second.vacancy == end.vacancies[first.vacancy.id]
                <==> first.vacancy.duplicateOf.None? && Survives(status, first.vacancyMatch.verdict))
            && (first.vacancy.duplicateOf.None? ==> Survives(first.vacancy.status, first.vacancyMatch.verdict))
  {
    var first := Import(env, s, profile, sourceId, raw, now, ids, pick);
    ImportFacts(env, s, profile, sourceId, raw, now, ids, pick);
    CompanyAgain(s, IncomingCompany(env, raw, ids.company), IncomingCompany(env, raw, ids'.company), end);
    VacancyFoundAgain(end, end.vacancies[first.vacancy.id]);
    var at := VacancyAt(s, sourceId, raw.externalId);
    RowAgain(env, sourceId, raw, first.company, if at.Some? then Some(s.vacancies[at.value]) else None,
             first.vacancyMatch.verdict, now, ids.vacancy, pick, end.vacancies[first.vacancy.id].status, ids'.vacancy,
             pick');
  }

  lemma PuttingBackIsNoOpIff(s: State, c: Company, v: Vacancy, m: VacancyMatch)
    requires c.id in s.companies && s.companies[c.id] == c && v.id in s.vacancies && v.id in s.matches
             && s.matches[v.id] == m
    ensures PutRows(s, c, v, m) == s <==> s.vacancies[v.id] == v
  {
    assert s.companies[c.id := c] == s.companies && s.matches[v.id := m] == s.matches;
    assert s.vacancies[v.id := v][v.id] == v;
    if s.vacancies[v.id] == v { assert s.vacancies[v.id := v] == s.vacancies; }
  }

  /**
   * Importing the same posting again at the same clock reading, after any other steps that leave its rows standing,
   * changes nothing iff the vacancy carries no duplicate link and its status is either outside intake or what filter
   * and score say.
   */
  lemma ReimportIsNoOpIff(env: Env, s: State, profile: CandidateProfile, sourceId: Id, raw: RawVacancy, now: Instant,
                          ids: FreshIds, pick: Option<Id>, later: seq<Action>, ids': FreshIds, pick': Option<Id>)
    requires Inv(s) && Admissible(env, s, ImportVacancy(profile, sourceId, raw, now, ids, pick))
    requires ValidRun(env, Import(env, s, profile, sourceId, raw, now, ids, pick).state, later)
    requires var first := Import(env, s, profile, sourceId, raw, now, ids, pick);
             RowsStand(first, Run(env, first.state, later))
    ensures var first := Import(env, s, profile, sourceId, raw, now, ids, pick);
            var end := Run(env, first.state, later);
            Import(env, end, profile, sourceId, raw, now, ids', pick').state == end
            <==> && first.vacancy.duplicateOf.None?
                 && Survives(end.vacancies[first.vacancy.id].status, first.vacancyMatch.verdict)
  {
    var first := Import(env, s, profile, sourceId, raw, now, ids, pick);
    var end := Run(env, first.state, later);
    ImportKeepsInv(env, s, profile, sourceId, raw, now, ids, pick);
    RunKeepsInv(env, first.state, later);
    SecondImport(env, s, profile, sourceId, raw, now, ids, pick, end, ids', pick');
    var second := Import(env, end, profile, sourceId, raw, now, ids', pick');
    PuttingBackIsNoOpIff(end, second.company, second.vacancy, second.vacancyMatch);
  }

  /** In particular, when no other step has touched the rows: a no-op iff the vacancy carries no link. */
  lemma ReimportIsNoOpIffUnlinked(env: Env, s: State, profile: CandidateProfile, sourceId: Id, raw: RawVacancy,
                                  now: Instant, ids: FreshIds, pick: Option<Id>, later: seq<Action>, ids': FreshIds,
                                  pick': Option<Id>)
    requires Inv(s) && Admissible(env, s, ImportVacancy(profile, sourceId, raw, now, ids, pick))
    requires ValidRun(env, Import(env, s, profile, sourceId, raw, now, ids, pick).state, later)
    requires var first := Import(env, s, profile, sourceId, raw, now, ids, pick);
             var end := Run(env, first.state, later);
             RowsStand(first, end) && end.vacancies[first.vacancy.id] == first.vacancy
    ensures var first := Import(env, s, profile, sourceId, raw, now, ids, pick);
            var end := Run(env, first.state, later);
            Import(env, end, profile, sourceId, raw, now, ids', pick').state == end <==> first.vacancy.duplicateOf.None?
  {
    var first := Import(env, s, profile, sourceId, raw, now, ids, pick);
    var end := Run(env, first.state, later);
    ReimportIsNoOpIff(env, s, profile, sourceId, raw, now, ids, pick, later, ids', pick');
    ImportKeepsInv(env, s, profile, sourceId, raw, now, ids, pick);
    RunKeepsInv(env, first.state, later);
    SecondImport(env, s, profile, sourceId, raw, now, ids, pick, end, ids', pick');
  }

  /** And when the second import follows at once, the rows do stand. */
  lemma ReimportAtOnce(env: Env, s: State, profile: CandidateProfile, sourceId: Id, raw: RawVacancy, now: Instant,
                       ids: FreshIds, pick: Option<Id>, ids': FreshIds, pick': Option<Id>)
    requires Inv(s) && Admissible(env, s, ImportVacancy(profile, sourceId, raw, now, ids, pick))
    ensures var first := Import(env, s, profile, sourceId, raw, now, ids, pick);
            Import(env, first.state, profile, sourceId, raw, now, ids', pick').state == first.state
            <==> first.vacancy.duplicateOf.None?
  {
    ReimportIsNoOpIffUnlinked(env, s, profile, sourceId, raw, now, ids, pick, [], ids', pick');
  }

  lemma CompanyFoundAgain(s: State, c: Company)
    requires UniqueNames(s.companies) && c.id in s.companies && s.companies[c.id] == c
    ensures CompanyNamed(s, c.normalizedName) == Some(c.id)
  {
    assert IsCompanyNamed(s, c.id, c.normalizedName);
  }

  lemma VacancyFoundAgain(s: State, v: Vacancy)
    requires UniqueVacancies(s.vacancies) && v.id in s.vacancies && s.vacancies[v.id] == v
    ensures VacancyAt(s, v.sourceId, v.externalId) == Some(v.id)
  {
    assert IsVacancyAt(s, v.id, v.sourceId, v.externalId);
    var at := VacancyAt(s, v.sourceId, v.externalId);
    assert SameKey(s.vacancies[at.value], v);
  }
}
