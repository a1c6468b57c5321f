/** The deterministic resume selector (internal/core/resume.go). */
module ResumeSelection {
  import opened Basics
  import opened Entities
  import opened Normalization
  import opened Ordering
  import Scoring

  datatype SelectionError = ResumeNotFound | NoSuitableResume

  predicate MentionsAny(t: Text, blob: string, needles: seq<string>) {
    exists needle :: needle in needles && Scoring.Contains(NormalizeText(t, blob), NormalizeText(t, needle))
  }

  function InferTargetRole(t: Text, v: VacancyDetails, positiveReasons: seq<string>): TargetRole {
    var blob := Join([NormalizeText(t, v.normalizedTitle), NormalizeText(t, v.title), NormalizeText(t, v.description),
                      NormalizeText(t, v.requirements), NormalizeText(t, v.responsibilities),
                      Join(NormalizedList(t, v.skills), " ")], " ") + Reasons(t, positiveReasons);
    if MentionsAny(t, blob, ["system analyst", "systems analyst", "системный аналитик", "business analyst",
                          "business system analyst"]) then SystemAnalyst
    else if MentionsAny(t, blob, ["python", "django", "flask", "fastapi", "pandas", "sqlalchemy"]) then PythonBackend
    else if MentionsAny(t, blob, ["go", "golang", "grpc", "microservice", "microservices"]) then GoBackend
    else GeneralBackend
  }

  function Reasons(t: Text, reasons: seq<string>): string {
    if reasons == [] then [] else Reasons(t, reasons[..|reasons| - 1]) + " " + NormalizeText(t, reasons[|reasons| - 1])
  }

  // ---- the reference definition ----

  predicate Candidate(r: Resume, role: TargetRole) {
    r.isActive && r.targetRole == role
  }

  /** The role searched: the inferred one, or GENERAL_BACKEND when no active resume has it. */
  ghost function SearchedRole(resumes: seq<Resume>, role: TargetRole): TargetRole {
    if exists r :: r in resumes && Candidate(r, role) then role else GeneralBackend
  }

  /** Normalised skills that the resume and the vacancy share. */
  function SharedSkills(t: Text, v: VacancyDetails, r: Resume): set<string> {
    set x | x in Items(t, r.skills) && x in Items(t, v.skills)
  }

  /** Most shared skills first, then the oldest, then the smallest ID. */
  predicate Before(t: Text, v: VacancyDetails, a: Resume, b: Resume) {
    var x, y := |SharedSkills(t, v, a)|, |SharedSkills(t, v, b)|;
    x > y || (x == y && (a.createdAt < b.createdAt || (a.createdAt == b.createdAt && !Less(b.id, a.id))))
  }

  ghost predicate IsBest(t: Text, v: VacancyDetails, resumes: seq<Resume>, role: TargetRole, best: Resume) {
    && best in resumes && Candidate(best, role)
    && forall r :: r in resumes && Candidate(r, role) ==> Before(t, v, best, r)
  }

  ghost predicate DistinctIds(resumes: seq<Resume>) {
    forall a, b :: a in resumes && b in resumes && a.id == b.id ==> a == b
  }

  lemma BestIsUnique(t: Text, v: VacancyDetails, resumes: seq<Resume>, role: TargetRole, a: Resume, b: Resume)
    requires DistinctIds(resumes) && IsBest(t, v, resumes, role, a) && IsBest(t, v, resumes, role, b)
    ensures a == b
  {
    LessIsStrictAndTotal(a.id, b.id);
  }

  // ---- the loops of the source ----

  method FilterByRole(resumes: seq<Resume>, role: TargetRole) returns (out: seq<Resume>)
    ensures forall r :: r in out <==> r in resumes && Candidate(r, role)
  {
    out := [];
    for i := 0 to |resumes|
      invariant forall r :: r in out <==> r in resumes[..i] && Candidate(r, role)
    {
      if resumes[i].isActive && resumes[i].targetRole == role {
        out := out + [resumes[i]];
      }
    }
  }

  /** overlapCount: a counter over the canonical list, which has no repeats. */
  method OverlapCount(t: Text, values: seq<string>, offered: set<string>) returns (score: nat)
    ensures score == |set x | x in Items(t, values) && x in offered|
  {
    var list := NormalizeStringList(t, values);
    ghost var counted: set<string> := {};
    score := 0;
    for i := 0 to |list|
      invariant forall x :: x in counted <==> x in list[..i] && x in offered
      invariant score == |counted|
    {
      if list[i] in offered {
        assert list[i] !in list[..i] by { EarlierItemsDiffer(list, i); }
        counted := counted + {list[i]};
        score := score + 1;
      }
    }
    assert counted == (set x | x in Items(t, values) && x in offered) by {
      assert list[..|list|] == list;
    }
  }

  lemma EarlierItemsDiffer(list: seq<string>, i: nat)
    requires StrictlySorted(list) && i < |list|
    ensures list[i] !in list[..i]
  {
    forall j | 0 <= j < i ensures list[j] != list[i] { LessIsStrictAndTotal(list[j], list[i]); }
  }

  datatype Scored = Scored(resume: Resume, score: nat)

  function Ranking(): (Scored, Scored) -> bool {
    (a: Scored, b: Scored) =>
      a.score > b.score || (a.score == b.score && (a.resume.createdAt < b.resume.createdAt
      || (a.resume.createdAt == b.resume.createdAt && !Less(b.resume.id, a.resume.id))))
  }

  lemma RankingIsTotalPreorder()
    ensures TotalPreorder(Ranking())
  {
    AtMostIsTotalPreorder();
    var idOrder := AtMost();
    forall a: Scored, b: Scored ensures Ranking()(a, b) || Ranking()(b, a) {
      assert idOrder(a.resume.id, b.resume.id) || idOrder(b.resume.id, a.resume.id);
    }
    forall a: Scored, b: Scored, c: Scored | Ranking()(a, b) && Ranking()(b, c) ensures Ranking()(a, c) {
      assert idOrder(a.resume.id, b.resume.id) && idOrder(b.resume.id, c.resume.id) ==>
        idOrder(a.resume.id, c.resume.id);
    }
  }

  /** What Select may answer for these resumes. */
  ghost predicate IsSelection(t: Text, manualId: Id, v: VacancyDetails, positiveReasons: seq<string>,
                              resumes: seq<Resume>, r: Result<Resume, SelectionError>)
  {
    if manualId != "" then
      match r
      case Ok(resume) => resume in resumes && resume.id == manualId
      case Err(e) => e == ResumeNotFound && forall x :: x in resumes ==> x.id != manualId
    else
      var role := SearchedRole(resumes, InferTargetRole(t, v, positiveReasons));
      match r
      case Ok(resume) => IsBest(t, v, resumes, role, resume)
      case Err(e) => e == NoSuitableResume && forall x :: x in resumes ==> !Candidate(x, role)
  }

  /** Select: the manual resume if one is named, otherwise the best candidate of the searched role. */
  method Select(t: Text, manualId: Id, v: VacancyDetails, positiveReasons: seq<string>, resumes: seq<Resume>)
    returns (r: Result<Resume, SelectionError>)
    ensures IsSelection(t, manualId, v, positiveReasons, resumes, r)
  {
    if manualId != "" {
      for i := 0 to |resumes|
        invariant forall j :: 0 <= j < i ==> resumes[j].id != manualId
      {
        if resumes[i].id == manualId { return Ok(resumes[i]); }
      }
      return Err(ResumeNotFound);
    }
    var role := InferTargetRole(t, v, positiveReasons);
    var candidates := FilterByRole(resumes, role);
    if |candidates| == 0 && role != GeneralBackend {
      candidates := FilterByRole(resumes, GeneralBackend);
    }
    if |candidates| == 0 { return Err(NoSuitableResume); }
    ghost var searched := SearchedRole(resumes, role);
    assert forall x :: x in candidates <==> x in resumes && Candidate(x, searched) by {
      assert candidates[0] in candidates;
    }
    var best := PickBest(t, v, candidates);
    return Ok(best);
  }

  ghost predicate ScoredAs(t: Text, v: VacancyDetails, candidates: seq<Resume>, scored: seq<Scored>) {
    && |scored| == |candidates|
    && forall j :: 0 <= j < |scored| ==> scored[j] == ScoreOf(t, v, candidates[j])
  }

  function ScoreOf(t: Text, v: VacancyDetails, r: Resume): Scored {
    Scored(r, |SharedSkills(t, v, r)|)
  }

  method ScoreResume(t: Text, v: VacancyDetails, r: Resume) returns (scored: Scored)
    ensures scored == ScoreOf(t, v, r)
  {
    var score := OverlapCount(t, r.skills, Items(t, v.skills));
    scored := Scored(r, score);
  }

  method ScoreAll(t: Text, v: VacancyDetails, candidates: seq<Resume>) returns (scored: seq<Scored>)
    ensures ScoredAs(t, v, candidates, scored)
  {
    scored := [];
    for i := 0 to |candidates|
      invariant |scored| == i
      invariant forall j :: 0 <= j < i ==> scored[j] == ScoreOf(t, v, candidates[j])
    {
      var next := ScoreResume(t, v, candidates[i]);
      scored := scored + [next];
    }
  }

  lemma HeadIsBest(t: Text, v: VacancyDetails, candidates: seq<Resume>, scored: seq<Scored>, sorted: seq<Scored>)
    requires ScoredAs(t, v, candidates, scored) && candidates != []
    requires SortedBy(Ranking(), sorted) && multiset(sorted) == multiset(scored)
    ensures sorted != [] && sorted[0].resume in candidates
    ensures forall r :: r in candidates ==> Before(t, v, sorted[0].resume, r)
  {
    assert |multiset(sorted)| == |multiset(scored)|;
    assert sorted[0] in multiset(sorted);
    assert sorted[0] in multiset(scored);
    var i :| 0 <= i < |scored| && scored[i] == sorted[0];
    assert sorted[0].resume == candidates[i];
    forall r | r in candidates ensures Before(t, v, sorted[0].resume, r) {
      var j :| 0 <= j < |candidates| && candidates[j] == r;
      assert scored[j] in multiset(scored);
      HeadIsLeast(Ranking(), sorted, scored[j]);
      if sorted[0] == scored[j] { LessIsStrictAndTotal(r.id, r.id); }
    }
  }

  /** Scores every candidate, sorts, and takes the head. */
  method PickBest(t: Text, v: VacancyDetails, candidates: seq<Resume>) returns (best: Resume)
    requires candidates != []
    ensures best in candidates && forall r :: r in candidates ==> Before(t, v, best, r)
  {
    var scored := ScoreAll(t, v, candidates);
    var sorted := Sort(Ranking(), scored);
    RankingIsTotalPreorder();
    SortSorts(Ranking(), scored);
    HeadIsBest(t, v, candidates, scored, sorted);
    best := sorted[0].resume;
  }

  /** Without a manual ID, and with distinct IDs, every listing of the same resumes gets the same answer. */
  lemma SelectionIgnoresOrder(t: Text, v: VacancyDetails, positiveReasons: seq<string>, xs: seq<Resume>,
                              ys: seq<Resume>, a: Result<Resume, SelectionError>, b: Result<Resume, SelectionError>)
    requires (forall r :: r in xs <==> r in ys) && DistinctIds(xs)
    requires IsSelection(t, "", v, positiveReasons, xs, a) && IsSelection(t, "", v, positiveReasons, ys, b)
    ensures a == b
  {
    var role := InferTargetRole(t, v, positiveReasons);
    assert SearchedRole(xs, role) == SearchedRole(ys, role);
    if a.Ok? && b.Ok? { BestIsUnique(t, v, xs, SearchedRole(xs, role), a.value, b.value); }
  }
}
