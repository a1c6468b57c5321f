/**
 * The store (internal/store/memory/memory.go) with the transaction rule of internal/store/postgres/postgres.go.
 * The schedule `fails` says which operations fail; such an operation answers Unavailable and does nothing.
 */
module Stores {
  import opened Basics
  import opened Entities
  import opened Ordering
  import ResumeSelection
  import opened Workflow
  import V = VacancyStatuses
  import A = ApplicationStatuses

  /** One application row as it was and as it was written. */
  datatype StatusWrite = StatusWrite(id: Id, before: Option<A.ApplicationStatus>, after: A.ApplicationStatus)

  /** Oldest first, then by ID. */
  function ByAge(): (Resume, Resume) -> bool {
    (a: Resume, b: Resume) => a.createdAt < b.createdAt || (a.createdAt == b.createdAt && AtMost()(a.id, b.id))
  }

  lemma ByAgeIsTotalPreorder()
    ensures TotalPreorder(ByAge())
  {
    AtMostIsTotalPreorder();
    forall a: Resume, b: Resume ensures ByAge()(a, b) || ByAge()(b, a) {
      assert AtMost()(a.id, b.id) || AtMost()(b.id, a.id);
    }
    forall a: Resume, b: Resume, c: Resume | ByAge()(a, b) && ByAge()(b, c) ensures ByAge()(a, c) {
      if a.createdAt == b.createdAt == c.createdAt { assert AtMost()(a.id, b.id) && AtMost()(b.id, c.id); }
    }
  }

  /** With distinct IDs there is only one listing, whatever the map order and the sort. */
  lemma ListingIsUnique(xs: seq<Resume>, ys: seq<Resume>)
    requires SortedBy(ByAge(), xs) && SortedBy(ByAge(), ys) && multiset(xs) == multiset(ys)
    requires ResumeSelection.DistinctIds(xs)
    ensures xs == ys
  {
    forall i, j | 0 <= i < |xs| && 0 <= j < |xs| && ByAge()(xs[i], xs[j]) && ByAge()(xs[j], xs[i])
      ensures xs[i] == xs[j]
    {
      assert AtMost()(xs[i].id, xs[j].id) && AtMost()(xs[j].id, xs[i].id);
      LessIsStrictAndTotal(xs[i].id, xs[j].id);
      assert xs[i] in xs && xs[j] in xs;
    }
    SortedIsUnique(ByAge(), xs, ys);
  }

  ghost predicate OldestFirst(resumes: seq<Resume>) {
    forall i, j :: 0 <= i < j < |resumes| ==>
      || resumes[i].createdAt < resumes[j].createdAt
      || (resumes[i].createdAt == resumes[j].createdAt && !Less(resumes[j].id, resumes[i].id))
  }

  lemma SortedByAgeIsOldestFirst(resumes: seq<Resume>)
    requires SortedBy(ByAge(), resumes)
    ensures OldestFirst(resumes)
  {
    forall i, j | 0 <= i < j < |resumes|
      ensures || resumes[i].createdAt < resumes[j].createdAt
              || (resumes[i].createdAt == resumes[j].createdAt && !Less(resumes[j].id, resumes[i].id))
    {
      assert ByAge()(resumes[i], resumes[j]);
      assert resumes[i].createdAt == resumes[j].createdAt ==> AtMost()(resumes[i].id, resumes[j].id);
    }
  }

  class Store {
    const fails: Schedule
    var calls: nat  // operations so far
    var companies: map<Id, Company>
    var vacancies: map<Id, Vacancy>
    var matches: map<Id, VacancyMatch>
    var resumes: map<Id, Resume>
    var applications: map<Id, Application>
    var auditEvents: seq<AuditEvent>
    ghost var writes: seq<StatusWrite>  // every successful UpsertApplication, committed or not

    constructor (fails: Schedule)
      ensures this.fails == fails && calls == 0 && State() == EMPTY && writes == []
    {
      this.fails, calls := fails, 0;
      companies, vacancies, matches, resumes, applications, auditEvents := map[], map[], map[], map[], map[], [];
      writes := [];
    }

    function State(): State
      reads `companies, `vacancies, `matches, `resumes, `applications, `auditEvents
    {
      Workflow.State(companies, vacancies, matches, resumes, applications, auditEvents)
    }

    /** One operation was tried, and it failed or not as the schedule says. */
    ghost predicate Tried(before: nat, after: nat, failed: bool) {
      after == before + 1 && failed == fails(before) && Counted(fails, before, after, failed)
    }

    method Try() returns (failed: bool)
      modifies this`calls
      ensures Tried(old(calls), calls, failed)
    {
      failed := fails(calls);
      calls := calls + 1;
    }

    method BeginTx() returns (r: Result<State, Error>)
      modifies this`calls
      ensures Tried(old(calls), calls, r.Err?)
      ensures r == if r.Err? then Err(Unavailable) else Ok(State())
    {
      var failed := Try();
      r := if failed then Err(Unavailable) else Ok(State());
    }

    /** A commit that fails has not happened; the caller rolls back. */
    method Commit() returns (r: Option<Error>)
      modifies this`calls
      ensures Tried(old(calls), calls, r.Some?) && (r.Some? ==> r.value == Unavailable)
    {
      var failed := Try();
      r := if failed then Some(Unavailable) else None;
    }

    /** tx.Rollback: back to the state at BeginTx. */
    method Rollback(snapshot: State)
      modifies this
      ensures State() == snapshot && writes == old(writes) && calls == old(calls)
    {
      companies, vacancies, matches := snapshot.companies, snapshot.vacancies, snapshot.matches;
      resumes, applications, auditEvents := snapshot.resumes, snapshot.applications, snapshot.events;
    }

    /** core.NewID: some identifier that nothing uses. */
    method NewId() returns (id: Id)
      ensures id !in companies && id !in vacancies && id !in matches && id !in applications && id != ""
    {
      var todo := companies.Keys + vacancies.Keys + matches.Keys + applications.Keys;
      var longest: nat := 0;
      ghost var used := todo;
      while todo != {}
        invariant todo <= used && forall x :: x in used - todo ==> |x| <= longest
        decreases |todo|
      {
        var x :| x in todo;
        if |x| > longest { longest := |x|; }
        todo := todo - {x};
      }
      id := seq(longest + 1, _ => 'x');
      assert forall x :: x in used ==> |x| <= longest;
    }

    // ---- reads ----

    method GetCompanyById(id: Id) returns (r: Result<Company, Error>)
      modifies this`calls
      ensures Tried(old(calls), calls, r == Err(Unavailable))
      ensures r == Err(Unavailable) || r == if id in companies then Ok(companies[id]) else Err(NotFound)
    {
      var failed := Try();
      if failed { return Err(Unavailable); }
      r := if id in companies then Ok(companies[id]) else Err(NotFound);
    }

    method GetVacancy(id: Id) returns (r: Result<Vacancy, Error>)
      modifies this`calls
      ensures Tried(old(calls), calls, r == Err(Unavailable))
      ensures r == Err(Unavailable) || r == if id in vacancies then Ok(vacancies[id]) else Err(NotFound)
    {
      var failed := Try();
      if failed { return Err(Unavailable); }
      r := if id in vacancies then Ok(vacancies[id]) else Err(NotFound);
    }

    method GetVacancyMatch(vacancyId: Id) returns (r: Result<VacancyMatch, Error>)
      modifies this`calls
      ensures Tried(old(calls), calls, r == Err(Unavailable))
      ensures r == Err(Unavailable) || r == if vacancyId in matches then Ok(matches[vacancyId]) else Err(NotFound)
    {
      var failed := Try();
      if failed { return Err(Unavailable); }
      r := if vacancyId in matches then Ok(matches[vacancyId]) else Err(NotFound);
    }

    method GetResume(id: Id) returns (r: Result<Resume, Error>)
      modifies this`calls
      ensures Tried(old(calls), calls, r == Err(Unavailable))
      ensures r == Err(Unavailable) || r == if id in resumes then Ok(resumes[id]) else Err(NotFound)
    {
      var failed := Try();
      if failed { return Err(Unavailable); }
      r := if id in resumes then Ok(resumes[id]) else Err(NotFound);
    }

    method GetApplication(id: Id) returns (r: Result<Application, Error>)
      modifies this`calls
      ensures Tried(old(calls), calls, r == Err(Unavailable))
      ensures r == Err(Unavailable) || r == if id in applications then Ok(applications[id]) else Err(NotFound)
    {
      var failed := Try();
      if failed { return Err(Unavailable); }
      r := if id in applications then Ok(applications[id]) else Err(NotFound);
    }

    /** Without a profile every resume is listed. */
    function Listed(profileId: Id): set<Resume>
      reads `resumes
    {
      set x | x in resumes.Values && (profileId == "" || x.profileId == profileId)
    }

    /** Each listed resume once, in order. */
    method ListResumes(profileId: Id) returns (r: Result<seq<Resume>, Error>)
      modifies this`calls
      ensures Tried(old(calls), calls, r == Err(Unavailable))
      ensures r.Err? ==> r.error == Unavailable
      ensures r.Ok? ==> SortedBy(ByAge(), r.value) && multiset(r.value) == multiset(Listed(profileId))
      ensures r.Ok? ==> forall x :: x in r.value <==> x in Listed(profileId)
      ensures r.Ok? ==> OldestFirst(r.value)
    {
      var failed := Try();
      if failed { return Err(Unavailable); }
      var todo, out := resumes.Values, [];
      ghost var done: set<Resume> := {};
      while todo != {}
        invariant todo <= resumes.Values && multiset(out) == multiset(done)
        invariant forall x :: x in done <==> x in Listed(profileId) && x !in todo
        decreases |todo|
      {
        var x :| x in todo;
        if profileId == "" || x.profileId == profileId { out, done := out + [x], done + {x}; }
        todo := todo - {x};
      }
      assert done == Listed(profileId);
      ByAgeIsTotalPreorder();
      SortSorts(ByAge(), out);
      r := Ok(Sort(ByAge(), out));
      assert forall x :: x in r.value <==> x in multiset(r.value);
      SortedByAgeIsOldestFirst(r.value);
    }

    /** The map may be searched in any order; every hit is acceptable. */
    method FindVacancyBySourceExternalId(sourceId: Id, externalId: string) returns (r: Result<Vacancy, Error>)
      modifies this`calls
      ensures Tried(old(calls), calls, r == Err(Unavailable))
      ensures r.Err? ==> r.error == Unavailable
                         || (r.error == NotFound && forall id :: !IsVacancyAt(State(), id, sourceId, externalId))
      ensures r.Ok? ==> exists id :: IsVacancyAt(State(), id, sourceId, externalId) && r.value == vacancies[id]
    {
      var failed := Try();
      if failed { return Err(Unavailable); }
      var todo := vacancies.Keys;
      while todo != {}
        invariant todo <= vacancies.Keys
        invariant forall id :: id in vacancies.Keys - todo ==> !IsVacancyAt(State(), id, sourceId, externalId)
        decreases |todo|
      {
        var id :| id in todo;
        if vacancies[id].sourceId == sourceId && vacancies[id].externalId == externalId {
          assert IsVacancyAt(State(), id, sourceId, externalId);
          return Ok(vacancies[id]);
        }
        todo := todo - {id};
      }
      r := Err(NotFound);
    }

    method FindVacancyByContentHash(hash: string) returns (r: Result<Id, Error>)
      modifies this`calls
      ensures Tried(old(calls), calls, r == Err(Unavailable))
      ensures r.Err? ==> r.error == Unavailable || (r.error == NotFound && PickOk(State(), hash, None))
      ensures r.Ok? ==> PickOk(State(), hash, Some(r.value))
    {
      var failed := Try();
      if failed { return Err(Unavailable); }
      var todo := vacancies.Keys;
      while todo != {}
        invariant todo <= vacancies.Keys
        invariant forall id :: id in vacancies.Keys - todo ==> !IsPrimary(State(), id, hash)
        decreases |todo|
      {
        var id :| id in todo;
        if vacancies[id].contentHash == hash && vacancies[id].duplicateOf.None? { return Ok(id); }
        todo := todo - {id};
      }
      r := Err(NotFound);
    }

    method FindActiveApplication(vacancyId: Id, profileId: Id) returns (r: Result<Application, Error>)
      modifies this`calls
      ensures Tried(old(calls), calls, r == Err(Unavailable))
      ensures r.Err? ==> r.error == Unavailable
                         || (r.error == NotFound && forall id :: !IsActiveFor(State(), id, vacancyId, profileId))
      ensures r.Ok? ==> exists id :: IsActiveFor(State(), id, vacancyId, profileId) && r.value == applications[id]
    {
      var failed := Try();
      if failed { return Err(Unavailable); }
      var todo := applications.Keys;
      while todo != {}
        invariant todo <= applications.Keys
        invariant forall id :: id in applications.Keys - todo ==> !IsActiveFor(State(), id, vacancyId, profileId)
        decreases |todo|
      {
        var id :| id in todo;
        if applications[id].vacancyId == vacancyId && applications[id].profileId == profileId
          && applications[id].Active() {
          assert IsActiveFor(State(), id, vacancyId, profileId);
          return Ok(applications[id]);
        }
        todo := todo - {id};
      }
      r := Err(NotFound);
    }

    // ---- writes ----

    method GetOrCreateCompany(company: Company) returns (r: Result<Company, Error>)
      modifies this
      ensures Tried(old(calls), calls, r == Err(Unavailable))
      ensures r.Err? ==> r.error == Unavailable && State() == old(State())
      ensures r.Ok? ==> State() == old(State()).(companies := old(companies)[r.value.id := r.value])
      ensures r.Ok? ==>
                || (r.value == company && forall id :: !IsCompanyNamed(old(State()), id, company.normalizedName))
                || exists id :: IsCompanyNamed(old(State()), id, company.normalizedName)
                                && r.value == MergeCompany(old(companies)[id], company)
      ensures writes == old(writes)
    {
      var failed := Try();
      if failed { return Err(Unavailable); }
      var todo := companies.Keys;
      while todo != {}
        invariant todo <= companies.Keys && State() == old(State())
        invariant forall id :: id in companies.Keys - todo ==> !IsCompanyNamed(State(), id, company.normalizedName)
        decreases |todo|
      {
        var id :| id in todo;
        if companies[id].normalizedName == company.normalizedName {
          var existing := companies[id];
          assert IsCompanyNamed(old(State()), id, company.normalizedName);
          existing := existing.(displayName := company.displayName, website := company.website,
                                careerPage := company.careerPage);
          existing := existing.(blacklisted := existing.blacklisted || company.blacklisted, notes := company.notes);
          companies := companies[existing.id := existing];
          return Ok(existing);
        }
        todo := todo - {id};
      }
      companies := companies[company.id := company];
      r := Ok(company);
    }

    /** Assigns an identifier to a new row. */
    method UpsertVacancy(vacancy: Vacancy) returns (r: Result<Vacancy, Error>)
      modifies this
      ensures Tried(old(calls), calls, r == Err(Unavailable))
      ensures r.Err? ==> r.error == Unavailable && State() == old(State())
      ensures r.Ok? ==>
                && r.value == vacancy.(id := r.value.id)
                && (vacancy.id != "" ==> r.value.id == vacancy.id)
                && r.value.id != ""
                  && (vacancy.id == "" ==> r.value.id !in old(vacancies) && r.value.id !in old(matches))
                && State() == old(State()).(vacancies := old(vacancies)[r.value.id := r.value])
      ensures writes == old(writes)
    {
      var failed := Try();
      if failed { return Err(Unavailable); }
      var row := vacancy;
      if row.id == "" {
        var id := NewId();
        row := row.(id := id);
      }
      vacancies := vacancies[row.id := row];
      r := Ok(row);
    }

    method UpdateVacancyStatus(id: Id, status: V.VacancyStatus, duplicateOf: Option<Id>, dedupReason: Option<string>)
      returns (r: Option<Error>)
      modifies this
      ensures Tried(old(calls), calls, r == Some(Unavailable))
      ensures r.Some? ==>
                && State() == old(State())
                && (r.value == Unavailable || (r.value == NotFound && id !in old(vacancies)))
      ensures r.None? ==> id in old(vacancies)
                          && State() == old(State()).(vacancies := old(vacancies)[id :=
                               old(vacancies)[id].(status := status, duplicateOf := duplicateOf,
                                                   dedupReason := dedupReason)])
      ensures writes == old(writes)
    {
      var failed := Try();
      if failed { return Some(Unavailable); }
      if id !in vacancies { return Some(NotFound); }
      vacancies := vacancies[id := vacancies[id].(status := status, duplicateOf := duplicateOf,
                                                  dedupReason := dedupReason)];
      r := None;
    }

    /** Keeps the identifier of the vacancy's existing match. */
    method UpsertVacancyMatch(row: VacancyMatch) returns (r: Result<VacancyMatch, Error>)
      modifies this
      ensures Tried(old(calls), calls, r == Err(Unavailable))
      ensures r.Err? ==> r.error == Unavailable && State() == old(State())
      ensures r.Ok? ==>
                && r.value == row.(id := r.value.id)
                && r.value.id != "" && (row.id != "" ==> r.value.id == row.id)
                && (row.id == "" && row.vacancyId in old(matches) && old(matches)[row.vacancyId].id != "" ==>
                      r.value.id == old(matches)[row.vacancyId].id)
                && State() == old(State()).(matches := old(matches)[row.vacancyId := r.value])
      ensures writes == old(writes)
    {
      var failed := Try();
      if failed { return Err(Unavailable); }
      var out := row;
      if out.id == "" && out.vacancyId in matches { out := out.(id := matches[out.vacancyId].id); }
      if out.id == "" {
        var id := NewId();
        out := out.(id := id);
      }
      matches := matches[out.vacancyId := out];
      r := Ok(out);
    }

    /** Refuses a second active application of the same vacancy and profile. */
    method UpsertApplication(application: Application) returns (r: Option<Error>)
      modifies this
      ensures Tried(old(calls), calls, r == Some(Unavailable))
      ensures r.Some? ==> State() == old(State()) && writes == old(writes)
                          && (r.value == Unavailable || (r.value == Conflict && Conflicts(old(State()), application)))
      ensures r.None? ==> !Conflicts(old(State()), application)
                          && State() == old(State()).(applications := old(applications)[application.id := application])
                          && writes == old(writes) + [StatusWrite(application.id,
                               if application.id in old(applications)
                                 then Some(old(applications)[application.id].status) else None,
                               application.status)]
    {
      var failed := Try();
      if failed { return Some(Unavailable); }
      if application.Active() {
        var todo := applications.Keys;
        while todo != {}
          invariant todo <= applications.Keys && State() == old(State())
          invariant forall id :: id in applications.Keys - todo ==>
                      !(applications[id].id != application.id && applications[id].SamePair(application)
                        && applications[id].Active())
          decreases |todo|
        {
          var id :| id in todo;
          if applications[id].id != application.id && applications[id].SamePair(application)
            && applications[id].Active() {
            return Some(Conflict);
          }
          todo := todo - {id};
        }
      }
      writes := writes + [StatusWrite(application.id,
                  if application.id in applications then Some(applications[application.id].status) else None,
                  application.status)];
      applications := applications[application.id := application];
      r := None;
    }

    method CreateAuditEvent(event: AuditEvent) returns (r: Option<Error>)
      modifies this
      ensures Tried(old(calls), calls, r == Some(Unavailable))
      ensures r.Some? ==> r.value == Unavailable && State() == old(State())
      ensures r.None? ==> State() == old(State()).(events := old(auditEvents) + [event])
      ensures writes == old(writes)
    {
      var failed := Try();
      if failed { return Some(Unavailable); }
      auditEvents := auditEvents + [event];
      r := None;
    }

    method UpsertResume(resume: Resume) returns (r: Option<Error>)
      modifies this
      ensures Tried(old(calls), calls, r == Some(Unavailable))
      ensures r.Some? ==> r.value == Unavailable && State() == old(State())
      ensures r.None? ==> State() == old(State()).(resumes := old(resumes)[resume.id := resume])
      ensures writes == old(writes)
    {
      var failed := Try();
      if failed { return Some(Unavailable); }
      resumes := resumes[resume.id := resume];
      r := None;
    }
  }
}
