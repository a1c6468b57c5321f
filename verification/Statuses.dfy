/** The vacancy transition table (internal/core/types.go) and what it makes reachable. */
module VacancyStatuses {
  datatype VacancyStatus =
    | Discovered | Normalized | Duplicate | FilteredOut | Recommended
    | ApplicationPrepared | WaitingApproval | Submitted | Viewed
    | HRContact | Interview | Offer | Rejected | Archived

  function Transitions(from: VacancyStatus): set<VacancyStatus> {
    match from
    case Discovered => {Normalized, Duplicate, FilteredOut, Recommended, Archived}
    case Normalized => {Duplicate, FilteredOut, Recommended, Archived}
    case Duplicate => {Archived}
    case FilteredOut => {Archived}
    case Recommended =>
      {ApplicationPrepared, WaitingApproval, Submitted, Viewed, HRContact, Interview, Offer, Rejected, Archived}
    case ApplicationPrepared => {WaitingApproval, Archived}
    case WaitingApproval => {Submitted, Archived}
    case Submitted => {Viewed, HRContact, Interview, Offer, Rejected, Archived}
    case Viewed => {HRContact, Interview, Offer, Rejected, Archived}
    case HRContact => {Interview, Offer, Rejected, Archived}
    case Interview => {Offer, Rejected, Archived}
    case Offer => {Archived}
    case Rejected => {Archived}
    case Archived => {}
  }

  predicate CanTransition(from: VacancyStatus, to: VacancyStatus) {
    from == to || to in Transitions(from)
  }

  /** The statuses an import may compute or overwrite. */
  predicate Intake(s: VacancyStatus) {
    s in {Discovered, Normalized, Duplicate, FilteredOut, Recommended}
  }

  const MAX_RANK: nat := 10

  /** Every proper transition climbs this rank. */
  function Rank(s: VacancyStatus): nat {
    match s
    case Discovered => 0
    case Normalized => 1
    case Duplicate => 2
    case FilteredOut => 2
    case Recommended => 2
    case ApplicationPrepared => 3
    case WaitingApproval => 4
    case Submitted => 5
    case Viewed => 6
    case HRContact => 7
    case Interview => 8
    case Offer => 9
    case Rejected => 9
    case Archived => 10
  }

  lemma TransitionsClimb(from: VacancyStatus, to: VacancyStatus)
    requires CanTransition(from, to) && from != to
    ensures Rank(from) < Rank(to)
    ensures !Intake(from) ==> !Intake(to)
  {
  }

  /** Archiving is always possible, final, and the only way on from DUPLICATE, FILTERED_OUT, OFFER and REJECTED. */
  lemma AllRoadsLeadToArchived(s: VacancyStatus)
    ensures CanTransition(s, Archived)
    ensures s == Archived <==> Transitions(s) == {}
    ensures s in {Duplicate, FilteredOut, Offer, Rejected} <==> Transitions(s) == {Archived}
  {
  }

  /**
   * The table by ranks: intake moves up within intake, the two preparation statuses go one step, RECOMMENDED and
   * everything from SUBMITTED on may skip ahead, and ARCHIVED is always open.
   */
  lemma TransitionsByRank(from: VacancyStatus, to: VacancyStatus)
    ensures to in Transitions(from)
            <==> from != Archived
                 && (|| to == Archived
                     || (from in {Discovered, Normalized} && Rank(from) < Rank(to) <= Rank(Recommended))
                     || (from in {ApplicationPrepared, WaitingApproval} && Rank(to) == Rank(from) + 1)
                     || (from in {Recommended, Submitted, Viewed, HRContact, Interview} && Rank(from) < Rank(to)))
  {
  }

  // ---- reflexive-transitive closure ----

  ghost predicate IsPath(p: seq<VacancyStatus>, from: VacancyStatus, to: VacancyStatus) {
    && p != [] && p[0] == from && p[|p| - 1] == to
    && forall i :: 0 <= i < |p| - 1 ==> CanTransition(p[i], p[i + 1])
  }

  ghost predicate Reaches(from: VacancyStatus, to: VacancyStatus) {
    exists p :: IsPath(p, from, to)
  }

  lemma ReachesItself(s: VacancyStatus)
    ensures Reaches(s, s)
  {
    assert IsPath([s], s, s);
  }

  lemma ReachesFurther(from: VacancyStatus, mid: VacancyStatus, to: VacancyStatus)
    requires Reaches(from, mid) && CanTransition(mid, to)
    ensures Reaches(from, to)
  {
    var p :| IsPath(p, from, mid);
    assert IsPath(p + [to], from, to);
  }

  /** A set closed under the table holds everything reachable from its members. */
  lemma {:induction false} ClosedUnderPath(closed: set<VacancyStatus>, p: seq<VacancyStatus>, from: VacancyStatus,
                                           to: VacancyStatus)
    requires forall s :: s in closed ==> Transitions(s) <= closed
    requires IsPath(p, from, to) && from in closed
    ensures to in closed
  {
    if |p| > 1 {
      assert CanTransition(p[0], p[1]);
      ClosedUnderPath(closed, p[1..], p[1], to);
    }
  }

  lemma ReachableFromRejected(to: VacancyStatus)
    requires Reaches(Rejected, to)
    ensures to == Rejected || to == Archived
  {
    var p :| IsPath(p, Rejected, to);
    ClosedUnderPath({Rejected, Archived}, p, Rejected, to);
  }

  /** From SUBMITTED on, a vacancy is out of the import's hands. */
  const POST_SUBMISSION: set<VacancyStatus> := {Submitted, Viewed, HRContact, Interview, Offer, Rejected, Archived}

  lemma ReachableAfterSubmission(from: VacancyStatus, to: VacancyStatus)
    requires from in POST_SUBMISSION && Reaches(from, to)
    ensures to in POST_SUBMISSION && !Intake(to)
  {
    var p :| IsPath(p, from, to);
    ClosedUnderPath(POST_SUBMISSION, p, from, to);
  }
}

/** The application transition table (internal/core/application.go). */
module ApplicationStatuses {
  import V = VacancyStatuses

  datatype ApplicationStatus =
    | Draft | WaitingApproval | Approved | ManualActionRequired | Submitted | Cancelled
    | HRContact | Interview | Offer | Rejected

  function Transitions(from: ApplicationStatus): set<ApplicationStatus> {
    match from
    case Draft => {WaitingApproval, Cancelled}
    case WaitingApproval => {Approved, Cancelled}
    case Approved => {ManualActionRequired, Cancelled}
    case ManualActionRequired => {Submitted, Cancelled}
    case Submitted => {HRContact, Interview, Rejected}
    case HRContact => {Interview, Rejected}
    case Interview => {Offer, Rejected}
    case Offer => {}
    case Rejected => {}
    case Cancelled => {}
  }

  predicate CanTransition(from: ApplicationStatus, to: ApplicationStatus) {
    from == to || to in Transitions(from)
  }

  predicate IsActive(s: ApplicationStatus) {
    s != Cancelled && s != Rejected
  }

  predicate IsOutcome(s: ApplicationStatus) {
    s in {HRContact, Interview, Offer, Rejected}
  }

  /** The application has left the user's hands. */
  predicate WasSubmitted(s: ApplicationStatus) {
    s == Submitted || IsOutcome(s)
  }

  /** vacancyStatusForOutcome, extended to SUBMITTED. */
  function Mirror(s: ApplicationStatus): V.VacancyStatus {
    match s
    case Submitted => V.Submitted
    case HRContact => V.HRContact
    case Interview => V.Interview
    case Offer => V.Offer
    case Rejected => V.Rejected
    case _ => V.Recommended
  }

  /** The vacancy status of the same name. */
  predicate SameName(s: ApplicationStatus, v: V.VacancyStatus) {
    || (s == Submitted && v == V.Submitted) || (s == HRContact && v == V.HRContact)
    || (s == Interview && v == V.Interview) || (s == Offer && v == V.Offer) || (s == Rejected && v == V.Rejected)
  }

  lemma MirrorHasSameName(s: ApplicationStatus, v: V.VacancyStatus)
    requires WasSubmitted(s)
    ensures SameName(s, v) <==> v == Mirror(s)
  {
  }

  predicate IsTerminal(s: ApplicationStatus) {
    s in {Cancelled, Rejected, Offer}
  }

  /** The hand-written predicates and switches agree with the table. */
  lemma SwitchesFollowTable(s: ApplicationStatus)
    ensures IsTerminal(s) <==> Transitions(s) == {}
    ensures IsActive(s) <==> s == Offer || Transitions(s) != {}
    ensures IsOutcome(s) <==> s != Submitted && WasSubmitted(s)
    ensures s != Cancelled ==> (!WasSubmitted(s) <==> Cancelled in Transitions(s))
    ensures s == ManualActionRequired <==> Submitted in Transitions(s)
    ensures s in {WaitingApproval, Approved} <==> ManualActionRequired in Transitions(s) || Approved in Transitions(s)
  {
  }

  function Stage(s: ApplicationStatus): nat {
    match s
    case Draft => 0
    case WaitingApproval => 1
    case Approved => 2
    case ManualActionRequired => 3
    case Submitted => 4
    case HRContact => 5
    case Interview => 6
    case Offer => 7
    case Rejected => 8
    case Cancelled => 8
  }

  /** One stage at a time, but that HR contact may be skipped; cancelled until submitted, rejected after that. */
  lemma TransitionsByStage(from: ApplicationStatus, to: ApplicationStatus)
    ensures to in Transitions(from)
            <==> || (to == Cancelled && Stage(from) < Stage(Submitted))
                 || (to == Rejected && Stage(Submitted) <= Stage(from) < Stage(Offer))
                 || (to !in {Cancelled, Rejected} && Stage(to) == Stage(from) + 1)
                 || (from == Submitted && to == Interview)
  {
  }

  /** Whatever the application table lets follow a submission, the vacancy table lets its mirror image follow too. */
  lemma TablesAgreeOnOutcomes(from: ApplicationStatus, to: ApplicationStatus)
    requires WasSubmitted(from) && CanTransition(from, to)
    ensures WasSubmitted(to) && V.CanTransition(Mirror(from), Mirror(to))
    ensures forall v, v' :: SameName(from, v) && SameName(to, v') ==> V.CanTransition(v, v')
  {
  }

  lemma MirrorIsPostSubmission(s: ApplicationStatus)
    requires WasSubmitted(s)
    ensures Mirror(s) in V.POST_SUBMISSION
  {
  }
}
