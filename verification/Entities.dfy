/** The records of internal/core/types.go, application.go, resume.go and audit.go. */
module Entities {
  import opened Basics
  import V = VacancyStatuses
  import A = ApplicationStatuses

  type Id = string

  /** A clock reading. Instant 0 stands for Go's zero time, which no clock returns. */
  type Instant = t: nat | 0 < t witness 1

  datatype RawVacancy = RawVacancy(
    externalId: string, sourceUrl: string, canonicalUrl: string, title: string, companyName: string,
    description: string, requirements: string, responsibilities: string,
    location: string, remoteType: string, employmentType: string, grade: string,
    salaryFrom: Option<int>, salaryTo: Option<int>, currency: string,
    skills: seq<string>, languageRequirements: seq<string>, workAuthorizationRequirements: seq<string>,
    publishedAt: nat, collectedAt: nat)

  /** The descriptive columns of a vacancy. */
  datatype VacancyDetails = VacancyDetails(
    sourceUrl: string, canonicalUrl: string, title: string, normalizedTitle: string,
    description: string, requirements: string, responsibilities: string,
    location: string, remoteType: string, employmentType: string, grade: string,
    salaryFrom: Option<int>, salaryTo: Option<int>, currency: string,
    skills: seq<string>, languageRequirements: seq<string>, workAuthorizationRequirements: seq<string>,
    publishedAt: nat, collectedAt: nat)

  datatype Vacancy = Vacancy(
    id: Id, sourceId: Id, externalId: string, details: VacancyDetails, companyId: Id, contentHash: string,
    status: V.VacancyStatus, duplicateOf: Option<Id>, dedupReason: Option<string>, createdAt: nat, updatedAt: nat)

  datatype Company = Company(
    id: Id, normalizedName: string, displayName: string, website: string, careerPage: string,
    blacklisted: bool, notes: string)

  datatype CandidateProfile = CandidateProfile(
    id: Id, desiredRoles: seq<string>, desiredGrades: seq<string>,
    primarySkills: seq<string>, secondarySkills: seq<string>, excludedSkills: seq<string>,
    desiredLocations: seq<string>, remoteAllowed: bool, relocationAllowed: bool,
    minimumSalary: Option<int>, currencies: seq<string>, employmentTypes: seq<string>,
    yearsOfCommercialExperience: int, languages: seq<string>, workAuthorization: seq<string>)

  datatype Recommendation = Apply | Review | Skip

  /** The part of the scoring and filter results that the import stores and branches on. */
  datatype Verdict = Verdict(passed: bool, recommendation: Recommendation, total: int)

  datatype VacancyMatch = VacancyMatch(id: Id, vacancyId: Id, profileId: Id, verdict: Verdict, calculatedAt: nat)

  datatype TargetRole = GoBackend | PythonBackend | SystemAnalyst | GeneralBackend

  datatype Resume = Resume(id: Id, profileId: Id, targetRole: TargetRole, skills: seq<string>, isActive: bool,
                           createdAt: nat)

  datatype Application = Application(
    id: Id, vacancyId: Id, profileId: Id, resumeId: Id, status: A.ApplicationStatus,
    preparedAt: nat, approvedAt: Option<nat>, submittedAt: Option<nat>, responseReceivedAt: Option<nat>,
    rejectionReason: string, notes: string, createdAt: nat)
  {
    predicate Active() { A.IsActive(status) }

    predicate SamePair(other: Application) { vacancyId == other.vacancyId && profileId == other.profileId }
  }

  datatype AuditAction = Prepared | Approved | Cancelled | MarkedSubmitted | HRContact | Interview | Offer | Rejected

  datatype AuditEvent = AuditEvent(actor: string, action: AuditAction, entityId: Id, createdAt: nat)
}
