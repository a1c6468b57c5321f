/** The HeadHunter search loop (internal/app/app.go): pages, items, and the counters that sum them up. */
module Search {
  import opened Basics
  import opened Entities
  import opened Workflow
  import opened Services
  import V = VacancyStatuses

  datatype ItemFetch = DetailsFailed | Details(raw: RawVacancy)

  datatype PageFetch = PageFailed | Page(found: int, pages: int, items: seq<ItemFetch>)

  /** What became of one visited item. */
  datatype ItemResult = NotFetched | NotImported | ImportedAs(status: V.VacancyStatus, verdict: Verdict)

  datatype Counters = Counters(found: int, imported: int, duplicates: int, filtered: int, recommended: int, errors: int)

  const ZERO: Counters := Counters(0, 0, 0, 0, 0, 0)

  class SearchSummary {
    var found: int
    var imported: int
    var duplicates: int
    var filtered: int
    var recommended: int
    var errors: int

    constructor ()
      ensures Value() == ZERO
    {
      found, imported, duplicates, filtered, recommended, errors := 0, 0, 0, 0, 0, 0;
    }

    function Value(): Counters
      reads this
    {
      Counters(found, imported, duplicates, filtered, recommended, errors)
    }

    /** Only the first page's total is added. */
    method AddFound(page: nat, total: int)
      modifies this
      ensures Value() == WithFound(old(Value()), if page == 0 then total else 0)
    {
      if page == 0 { found := found + total; }
    }

    /** The counting of one item. */
    method Record(result: ItemResult, reviewThreshold: int)
      modifies this
      ensures Value() == Plus(old(Value()), CountOne(result, reviewThreshold))
    {
      match result
      case NotFetched => errors := errors + 1;
      case NotImported => errors := errors + 1;
      case ImportedAs(status, verdict) =>
        imported := imported + 1;
        if status == V.Duplicate { duplicates := duplicates + 1; }
        if status == V.FilteredOut { filtered := filtered + 1; }
        if verdict.passed && verdict.total >= reviewThreshold { recommended := recommended + 1; }
    }
  }

  function Plus(a: Counters, b: Counters): Counters {
    Counters(a.found + b.found, a.imported + b.imported, a.duplicates + b.duplicates, a.filtered + b.filtered,
             a.recommended + b.recommended, a.errors + b.errors)
  }

  function CountOne(result: ItemResult, reviewThreshold: int): Counters {
    match result
    case NotFetched => ZERO.(errors := 1)
    case NotImported => ZERO.(errors := 1)
    case ImportedAs(status, verdict) =>
      Counters(0, 1, if status == V.Duplicate then 1 else 0, if status == V.FilteredOut then 1 else 0,
               if verdict.passed && verdict.total >= reviewThreshold then 1 else 0, 0)
  }

  function Count(results: seq<ItemResult>, reviewThreshold: int): Counters {
    if |results| == 0 then ZERO
    else Plus(Count(results[..|results| - 1], reviewThreshold), CountOne(results[|results| - 1], reviewThreshold))
  }

  /** FILTERED_OUT is only ever computed, and only for postings the hard filter rejected. */
  predicate Honest(result: ItemResult) {
    result.ImportedAs? && result.status == V.FilteredOut ==> !result.verdict.passed
  }

  /** Conservation, for every sequence of fetch and import outcomes. */
  lemma {:induction false} CountersAreConserved(results: seq<ItemResult>, reviewThreshold: int)
    requires forall i :: 0 <= i < |results| ==> Honest(results[i])
    ensures var c := Count(results, reviewThreshold);
            && c.imported + c.errors == |results| && c.found == 0
            && 0 <= c.duplicates && 0 <= c.filtered && 0 <= c.recommended && 0 <= c.errors
            && c.duplicates + c.filtered <= c.imported && c.filtered + c.recommended <= c.imported
  {
    if |results| > 0 {
      CountersAreConserved(results[..|results| - 1], reviewThreshold);
      assert Honest(results[|results| - 1]);
    }
  }

  /** The results of one kind. */
  ghost function Where(results: seq<ItemResult>, kind: ItemResult -> bool): set<nat> {
    set i: nat | i < |results| && kind(results[i])
  }

  lemma WhereSnoc(results: seq<ItemResult>, kind: ItemResult -> bool)
    requires |results| > 0
    ensures var n := |results| - 1;
            |Where(results, kind)| == |Where(results[..n], kind)| + if kind(results[n]) then 1 else 0
  {
    var n := |results| - 1;
    var before, after := Where(results[..n], kind), Where(results, kind);
    forall i: nat ensures i in after <==> i in before || (i == n && kind(results[n])) {
      if i < n { assert results[..n][i] == results[i]; }
    }
    if kind(results[n]) {
      assert after == before + {n};
    } else {
      assert after == before;
    }
  }

  function Succeeded(): ItemResult -> bool {
    (result: ItemResult) => result.ImportedAs?
  }

  function Lost(): ItemResult -> bool {
    (result: ItemResult) => result.NotFetched? || result.NotImported?
  }

  function HasStatus(status: V.VacancyStatus): ItemResult -> bool {
    (result: ItemResult) => result.ImportedAs? && result.status == status
  }

  function Promising(reviewThreshold: int): ItemResult -> bool {
    (result: ItemResult) => result.ImportedAs? && result.verdict.passed && result.verdict.total >= reviewThreshold
  }

  /** Each counter is the number of results of its kind. */
  lemma {:induction false} CountersCount(results: seq<ItemResult>, reviewThreshold: int)
    ensures var c := Count(results, reviewThreshold);
            && c.imported == |Where(results, Succeeded())|
            && c.errors == |Where(results, Lost())|
            && c.duplicates == |Where(results, HasStatus(V.Duplicate))|
            && c.filtered == |Where(results, HasStatus(V.FilteredOut))|
            && c.recommended == |Where(results, Promising(reviewThreshold))|
  {
    if |results| > 0 {
      CountersCount(results[..|results| - 1], reviewThreshold);
      WhereSnoc(results, Succeeded());
      WhereSnoc(results, Lost());
      WhereSnoc(results, HasStatus(V.Duplicate));
      WhereSnoc(results, HasStatus(V.FilteredOut));
      WhereSnoc(results, Promising(reviewThreshold));
    }
  }

  // ---- which pages and items a search visits ----

  function Visited(fetch: nat -> PageFetch, page: nat, maxPages: int): seq<ItemFetch>
    decreases maxPages - page
  {
    if page >= maxPages then []
    else
      match fetch(page)
      case PageFailed => []
      case Page(_, pages, items) =>
        if |items| == 0 || page + 1 >= pages then items else items + Visited(fetch, page + 1, maxPages)
  }

  function PagesRequested(fetch: nat -> PageFetch, page: nat, maxPages: int): nat
    decreases maxPages - page
  {
    if page >= maxPages then 0
    else
      match fetch(page)
      case PageFailed => 1
      case Page(_, pages, items) =>
        if |items| == 0 || page + 1 >= pages then 1 else 1 + PagesRequested(fetch, page + 1, maxPages)
  }

  lemma {:induction false} AtMostMaxPages(fetch: nat -> PageFetch, page: nat, maxPages: int)
    ensures PagesRequested(fetch, page, maxPages) <= if maxPages <= page then 0 else maxPages - page
    decreases maxPages - page
  {
    if page < maxPages { AtMostMaxPages(fetch, page + 1, maxPages); }
  }

  /** This answer to a request for `page` has items and announces a page after it. */
  predicate GoesOn(response: PageFetch, page: nat) {
    response.Page? && |response.items| > 0 && page + 1 < response.pages
  }

  function ItemsOn(fetch: nat -> PageFetch, page: nat, end: nat): seq<ItemFetch>
    decreases end - page
  {
    if page >= end then []
    else (match fetch(page) case PageFailed => [] case Page(_, _, items) => items) + ItemsOn(fetch, page + 1, end)
  }

  /**
   * Every requested page but the last answered with items and announced more pages; the last one did not, or the limit
   * is reached; and the items visited are those of the requested pages, in order.
   */
  lemma {:induction false} PagesLaw(fetch: nat -> PageFetch, page: nat, maxPages: int)
    ensures var n := PagesRequested(fetch, page, maxPages);
            && (n == 0 <==> page >= maxPages)
            && (forall i :: page <= i < page + n - 1 ==> GoesOn(fetch(i), i))
            && (0 < n && page + n < maxPages ==>
                  !GoesOn(fetch(page + n - 1), page + n - 1))
            && Visited(fetch, page, maxPages) == ItemsOn(fetch, page, page + n)
    decreases maxPages - page
  {
    if page < maxPages {
      PagesLaw(fetch, page + 1, maxPages);
      assert ItemsOn(fetch, page + 1, page + 1) == [];
    }
  }

  ghost predicate Matches(visited: seq<ItemFetch>, results: seq<ItemResult>) {
    && |results| == |visited|
    && forall i :: 0 <= i < |results| ==> Honest(results[i]) && (visited[i].DetailsFailed? <==> results[i].NotFetched?)
  }

  /** No import was lost; true of a search exactly when no operation of the store failed. */
  predicate NoneLost(results: seq<ItemResult>) {
    NotImported !in results
  }

  ghost predicate LostIffFaulty(fails: Schedule, before: nat, after: nat, results: seq<ItemResult>) {
    && FaultsBefore(fails, before) <= FaultsBefore(fails, after)
    && (FaultsBefore(fails, before) == FaultsBefore(fails, after) <==> NoneLost(results))
  }

  lemma LossesAdd(fails: Schedule, before: nat, mid: nat, after: nat, results: seq<ItemResult>, more: seq<ItemResult>)
    requires LostIffFaulty(fails, before, mid, results) && LostIffFaulty(fails, mid, after, more)
    ensures LostIffFaulty(fails, before, after, results + more)
  {
  }

  /** An import that ends up FILTERED_OUT was rejected by the hard filter. */
  lemma ImportsAreHonest(env: Env, s: State, profile: CandidateProfile, sourceId: Id, raw: RawVacancy, now: Instant,
                         ids: FreshIds, pick: Option<Id>)
    ensures var i := Import(env, s, profile, sourceId, raw, now, ids, pick);
            Honest(ImportedAs(i.vacancy.status, i.vacancyMatch.verdict))
  {
  }

  /** What an item does to the store: the specified import, whose outcome is the result, or nothing. */
  ghost predicate ItemStep(env: Env, profile: CandidateProfile, sourceId: Id, now: Instant, s: State, item: ItemFetch,
                           result: ItemResult, s': State)
  {
    if result.ImportedAs? then
      && item.Details?
      && exists ids, pick :: ImportsAs(env, profile, sourceId, now, s, item.raw, ids, pick, result, s')
    else
      s' == s
  }

  ghost predicate ImportsAs(env: Env, profile: CandidateProfile, sourceId: Id, now: Instant, s: State, raw: RawVacancy,
                            ids: FreshIds, pick: Option<Id>, result: ItemResult, s': State)
  {
    var i := Import(env, s, profile, sourceId, raw, now, ids, pick);
    && Admissible(env, s, ImportVacancy(profile, sourceId, raw, now, ids, pick))
    && s' == i.state && result == ImportedAs(i.vacancy.status, i.vacancyMatch.verdict)
  }

  /** The items one after the other take the store from `s` to `s'`. */
  ghost predicate ItemSteps(env: Env, profile: CandidateProfile, sourceId: Id, now: Instant, s: State,
                            items: seq<ItemFetch>, results: seq<ItemResult>, s': State)
    decreases |items|
  {
    if |items| == 0 || |results| != |items| then |results| == |items| && s' == s
    else
      var n := |items| - 1;
      exists mid :: ItemSteps(env, profile, sourceId, now, s, items[..n], results[..n], mid)
                    && ItemStep(env, profile, sourceId, now, mid, items[n], results[n], s')
  }

  lemma ItemStepsSnoc(env: Env, profile: CandidateProfile, sourceId: Id, now: Instant, s: State, items: seq<ItemFetch>,
                      results: seq<ItemResult>, mid: State, item: ItemFetch, result: ItemResult, s': State)
    requires ItemSteps(env, profile, sourceId, now, s, items, results, mid)
    requires ItemStep(env, profile, sourceId, now, mid, item, result, s')
    ensures ItemSteps(env, profile, sourceId, now, s, items + [item], results + [result], s')
  {
    var xs, rs := items + [item], results + [result];
    assert xs[..|items|] == items && rs[..|results|] == results;
  }

  lemma {:induction false} ItemStepsCompose(env: Env, profile: CandidateProfile, sourceId: Id, now: Instant, s: State,
                                            xs: seq<ItemFetch>, rs: seq<ItemResult>, mid: State, ys: seq<ItemFetch>,
                                            qs: seq<ItemResult>, s': State)
    requires ItemSteps(env, profile, sourceId, now, s, xs, rs, mid)
    requires ItemSteps(env, profile, sourceId, now, mid, ys, qs, s')
    ensures ItemSteps(env, profile, sourceId, now, s, xs + ys, rs + qs, s')
    decreases |ys|
  {
    if |ys| == 0 {
      assert xs + ys == xs && rs + qs == rs;
    } else {
      var n := |ys| - 1;
      var last :| ItemSteps(env, profile, sourceId, now, mid, ys[..n], qs[..n], last)
                  && ItemStep(env, profile, sourceId, now, last, ys[n], qs[n], s');
      ItemStepsCompose(env, profile, sourceId, now, s, xs, rs, mid, ys[..n], qs[..n], last);
      ItemStepsSnoc(env, profile, sourceId, now, s, xs + ys[..n], rs + qs[..n], last, ys[n], qs[n], s');
      LastApart(xs, ys);
      LastApart(rs, qs);
    }
  }

  /** One item: fetched or not, imported or not, and counted. */
  method ImportItem(app: App, profile: CandidateProfile, sourceId: Id, item: ItemFetch, reviewThreshold: int,
                    now: Instant, summary: SearchSummary)
    returns (result: ItemResult)
    requires Reachable(app.env, app.st.State()) && OnlyEdges(app.st.writes)
    modifies app.st, summary
    ensures Reachable(app.env, app.st.State()) && OnlyEdges(app.st.writes)
    ensures Honest(result) && (item.DetailsFailed? <==> result.NotFetched?)
    ensures LostIffFaulty(app.st.fails, old(app.st.calls), app.st.calls, [result])
    ensures ItemStep(app.env, profile, sourceId, now, old(app.st.State()), item, result, app.st.State())
    ensures summary.Value() == Plus(old(summary.Value()), CountOne(result, reviewThreshold))
  {
    result := NotFetched;
    if item.Details? {
      result := NotImported;
      ghost var before := app.st.State();
      var imported, ids, pick := app.ImportVacancyFromRaw(profile, sourceId, item.raw, now);
      if imported.Ok? {
        ImportsAreHonest(app.env, before, profile, sourceId, item.raw, now, ids, pick);
        result := ImportedAs(imported.value.vacancy.status, imported.value.vacancyMatch.verdict);
        assert ImportsAs(app.env, profile, sourceId, now, before, item.raw, ids, pick, result, app.st.State());
      }
    }
    summary.Record(result, reviewThreshold);
  }

  lemma ItemMatches(items: seq<ItemFetch>, i: nat, results: seq<ItemResult>, result: ItemResult)
    requires i < |items| && Matches(items[..i], results)
    requires Honest(result) && (items[i].DetailsFailed? <==> result.NotFetched?)
    ensures Matches(items[..i + 1], results + [result])
  {
  }

  lemma ItemCounts(results: seq<ItemResult>, result: ItemResult, reviewThreshold: int, initial: Counters)
    ensures Plus(Plus(initial, Count(results, reviewThreshold)), CountOne(result, reviewThreshold))
            == Plus(initial, Count(results + [result], reviewThreshold))
  {
    CountSnoc(results, result, reviewThreshold);
    PlusAssociates(initial, Count(results, reviewThreshold), CountOne(result, reviewThreshold));
  }

  /** The inner loop: one failed item is counted and skipped. */
  method ImportItems(app: App, profile: CandidateProfile, sourceId: Id, items: seq<ItemFetch>, reviewThreshold: int,
                     now: Instant, summary: SearchSummary)
    returns (ghost results: seq<ItemResult>)
    requires Reachable(app.env, app.st.State()) && OnlyEdges(app.st.writes)
    modifies app.st, summary
    ensures Reachable(app.env, app.st.State()) && OnlyEdges(app.st.writes)
    ensures Matches(items, results) && LostIffFaulty(app.st.fails, old(app.st.calls), app.st.calls, results)
    ensures ItemSteps(app.env, profile, sourceId, now, old(app.st.State()), items, results, app.st.State())
    ensures summary.Value() == Plus(old(summary.Value()), Count(results, reviewThreshold))
  {
    results := [];
    for i := 0 to |items|
      invariant Reachable(app.env, app.st.State()) && OnlyEdges(app.st.writes)
      invariant Matches(items[..i], results) && LostIffFaulty(app.st.fails, old(app.st.calls), app.st.calls, results)
      invariant ItemSteps(app.env, profile, sourceId, now, old(app.st.State()), items[..i], results, app.st.State())
      invariant summary.Value() == Plus(old(summary.Value()), Count(results, reviewThreshold))
    {
      ghost var mid, between := app.st.calls, app.st.State();
      var result := ImportItem(app, profile, sourceId, items[i], reviewThreshold, now, summary);
      ItemMatches(items, i, results, result);
      ItemStepsSnoc(app.env, profile, sourceId, now, old(app.st.State()), items[..i], results, between, items[i],
                    result,
                    app.st.State());
      TakeOneMore(items, i);
      LossesAdd(app.st.fails, old(app.st.calls), mid, app.st.calls, results, [result]);
      ItemCounts(results, result, reviewThreshold, old(summary.Value()));
      results := results + [result];
    }
    assert items[..|items|] == items;
  }

  /** The results so far belong to a prefix of `all`, and `rest` is still to come. */
  ghost predicate Accounted(all: seq<ItemFetch>, rest: seq<ItemFetch>, results: seq<ItemResult>) {
    |results| <= |all| && all[|results|..] == rest && Matches(all[..|results|], results)
  }

  ghost predicate Summed(initial: Counters, found: int, results: seq<ItemResult>, reviewThreshold: int,
                         summary: Counters)
  {
    summary == Plus(WithFound(initial, found), Count(results, reviewThreshold))
  }

  function FoundBefore(fetch: nat -> PageFetch, page: nat, maxPages: int): int {
    if page == 0 then 0 else FirstFound(fetch, maxPages)
  }

  lemma PageAdds(fetch: nat -> PageFetch, page: nat, maxPages: int, initial: Counters, results: seq<ItemResult>,
                 more: seq<ItemResult>, reviewThreshold: int, before: Counters, after: Counters)
    requires page < maxPages && fetch(page).Page?
    requires Summed(initial, FoundBefore(fetch, page, maxPages), results, reviewThreshold, before)
    requires after == Plus(WithFound(before, if page == 0 then fetch(page).found else 0), Count(more, reviewThreshold))
    ensures Summed(initial, FirstFound(fetch, maxPages), results + more, reviewThreshold, after)
  {
    var first, second := Count(results, reviewThreshold), Count(more, reviewThreshold);
    var total := Count(results + more, reviewThreshold);
    assert total == Plus(first, second) by {
      CountAdds(results, more, reviewThreshold);
    }
    FoundFirst(initial, FoundBefore(fetch, page, maxPages), if page == 0 then fetch(page).found else 0, first, second);
  }

  lemma FoundFirst(initial: Counters, f: int, g: int, first: Counters, second: Counters)
    ensures Plus(WithFound(Plus(WithFound(initial, f), first), g), second)
            == Plus(WithFound(initial, f + g), Plus(first, second))
  {
  }

  predicate LastPage(fetch: nat -> PageFetch, page: nat)
    requires fetch(page).Page?
  {
    |fetch(page).items| == 0 || page + 1 >= fetch(page).pages
  }

  /** One answered page: its total if it is the first, then its items. */
  method ImportPage(app: App, profile: CandidateProfile, sourceId: Id, response: PageFetch, page: nat,
                    reviewThreshold: int, now: Instant, summary: SearchSummary)
    returns (ghost results: seq<ItemResult>)
    requires response.Page?
    requires Reachable(app.env, app.st.State()) && OnlyEdges(app.st.writes)
    modifies app.st, summary
    ensures Reachable(app.env, app.st.State()) && OnlyEdges(app.st.writes)
    ensures Matches(response.items, results) && LostIffFaulty(app.st.fails, old(app.st.calls), app.st.calls, results)
    ensures ItemSteps(app.env, profile, sourceId, now, old(app.st.State()), response.items, results, app.st.State())
    ensures summary.Value() == Plus(WithFound(old(summary.Value()), if page == 0 then response.found else 0),
                                    Count(results, reviewThreshold))
  {
    summary.AddFound(page, response.found);
    results := ImportItems(app, profile, sourceId, response.items, reviewThreshold, now, summary);
  }

  /** What the loop of runHeadhunterSource knows before it asks for `page`. */
  ghost predicate Progress(fetch: nat -> PageFetch, page: nat, maxPages: int, requested: nat, results: seq<ItemResult>)
  {
    && PagesRequested(fetch, 0, maxPages) == requested + PagesRequested(fetch, page, maxPages)
    && Accounted(Visited(fetch, 0, maxPages), Visited(fetch, page, maxPages), results)
  }

  ghost predicate Finished(fetch: nat -> PageFetch, maxPages: int, requested: nat, results: seq<ItemResult>) {
    requested == PagesRequested(fetch, 0, maxPages) && Matches(Visited(fetch, 0, maxPages), results)
  }

  lemma PageAdvances(fetch: nat -> PageFetch, page: nat, maxPages: int, requested: nat, results: seq<ItemResult>,
                     more: seq<ItemResult>)
    requires page < maxPages && fetch(page).Page? && Matches(fetch(page).items, more) && !LastPage(fetch, page)
    requires Progress(fetch, page, maxPages, requested, results)
    ensures Progress(fetch, page + 1, maxPages, requested + 1, results + more)
  {
  }

  lemma LastPageEnds(fetch: nat -> PageFetch, page: nat, maxPages: int, requested: nat, results: seq<ItemResult>,
                     more: seq<ItemResult>)
    requires page < maxPages && fetch(page).Page? && Matches(fetch(page).items, more) && LastPage(fetch, page)
    requires Progress(fetch, page, maxPages, requested, results)
    ensures Finished(fetch, maxPages, requested + 1, results + more)
  {
  }

  lemma NoPageEnds(fetch: nat -> PageFetch, page: nat, maxPages: int, requested: nat, results: seq<ItemResult>)
    requires page >= maxPages || fetch(page).PageFailed?
    requires Progress(fetch, page, maxPages, requested, results)
    ensures Finished(fetch, maxPages, if page >= maxPages then requested else requested + 1, results)
    ensures FoundBefore(fetch, page, maxPages) == FirstFound(fetch, maxPages)
  {
  }

  /** Everything a search is known to have done when it has asked for the pages before `page`. */
  ghost predicate Searched(fetch: nat -> PageFetch, page: nat, maxPages: int, reviewThreshold: int,
                           results: seq<ItemResult>, initial: Counters, summary: Counters)
  {
    && Progress(fetch, page, maxPages, page, results) && (page > 0 ==> fetch(page - 1).Page?)
    && Summed(initial, FoundBefore(fetch, page, maxPages), results, reviewThreshold, summary)
  }

  /** And when it is over. */
  ghost predicate Over(fetch: nat -> PageFetch, maxPages: int, reviewThreshold: int, requested: nat, failed: bool,
                       results: seq<ItemResult>, initial: Counters, summary: Counters)
  {
    && Finished(fetch, maxPages, requested, results)
    && (failed <==> requested > 0 && fetch(requested - 1).PageFailed?)
    && Summed(initial, FirstFound(fetch, maxPages), results, reviewThreshold, summary)
  }

  lemma PageSearched(fetch: nat -> PageFetch, page: nat, maxPages: int, reviewThreshold: int, results: seq<ItemResult>,
                     more: seq<ItemResult>, initial: Counters, before: Counters, after: Counters)
    requires Searched(fetch, page, maxPages, reviewThreshold, results, initial, before)
    requires page < maxPages && fetch(page).Page? && Matches(fetch(page).items, more)
    requires after == Plus(WithFound(before, if page == 0 then fetch(page).found else 0), Count(more, reviewThreshold))
    ensures if LastPage(fetch, page) then
              Over(fetch, maxPages, reviewThreshold, page + 1, false, results + more, initial, after)
            else
              Searched(fetch, page + 1, maxPages, reviewThreshold, results + more, initial, after)
  {
    PageAdds(fetch, page, maxPages, initial, results, more, reviewThreshold, before, after);
    if LastPage(fetch, page) {
      LastPageEnds(fetch, page, maxPages, page, results, more);
    } else {
      PageAdvances(fetch, page, maxPages, page, results, more);
    }
  }

  lemma SearchEnds(fetch: nat -> PageFetch, page: nat, maxPages: int, reviewThreshold: int, results: seq<ItemResult>,
                   initial: Counters, summary: Counters)
    requires Searched(fetch, page, maxPages, reviewThreshold, results, initial, summary)
    requires page >= maxPages || fetch(page).PageFailed?
    ensures var failed := page < maxPages;
            Over(fetch, maxPages, reviewThreshold, if failed then page + 1 else page, failed, results, initial, summary)
  {
    NoPageEnds(fetch, page, maxPages, page, results);
  }

  lemma SearchStarts(fetch: nat -> PageFetch, maxPages: int, reviewThreshold: int, initial: Counters)
    ensures Searched(fetch, 0, maxPages, reviewThreshold, [], initial, initial)
  {
  }

  /** One round of the loop, after the page has answered. */
  method SearchPage(app: App, profile: CandidateProfile, sourceId: Id, fetch: nat -> PageFetch, page: nat,
                    maxPages: int, reviewThreshold: int, now: Instant, summary: SearchSummary, ghost initial: Counters,
                    ghost results: seq<ItemResult>)
    returns (last: bool, ghost more: seq<ItemResult>)
    requires Reachable(app.env, app.st.State()) && OnlyEdges(app.st.writes)
    requires Searched(fetch, page, maxPages, reviewThreshold, results, initial, summary.Value())
    requires page < maxPages && fetch(page).Page?
    modifies app.st, summary
    ensures Reachable(app.env, app.st.State()) && OnlyEdges(app.st.writes)
    ensures LostIffFaulty(app.st.fails, old(app.st.calls), app.st.calls, more)
    ensures ItemSteps(app.env, profile, sourceId, now, old(app.st.State()), fetch(page).items, more, app.st.State())
    ensures if last
            then Over(fetch, maxPages, reviewThreshold, page + 1, false, results + more, initial, summary.Value())
            else Searched(fetch, page + 1, maxPages, reviewThreshold, results + more, initial, summary.Value())
  {
    var response := fetch(page);
    ghost var before := summary.Value();
    more := ImportPage(app, profile, sourceId, response, page, reviewThreshold, now, summary);
    PageSearched(fetch, page, maxPages, reviewThreshold, results, more, initial, before, summary.Value());
    last := |response.items| == 0 || page + 1 >= response.pages;
  }

  /** The visited items so far take the store from `s` to `s'`. */
  ghost predicate VisitedSteps(env: Env, profile: CandidateProfile, sourceId: Id, now: Instant, fetch: nat -> PageFetch,
                               maxPages: int, s: State, results: seq<ItemResult>, s': State)
  {
    var all := Visited(fetch, 0, maxPages);
    |results| <= |all| && ItemSteps(env, profile, sourceId, now, s, all[..|results|], results, s')
  }

  lemma PageSteps(env: Env, profile: CandidateProfile, sourceId: Id, now: Instant, fetch: nat -> PageFetch, page: nat,
                  maxPages: int, s: State, results: seq<ItemResult>, mid: State, more: seq<ItemResult>, s': State)
    requires page < maxPages && fetch(page).Page? && |more| == |fetch(page).items|
    requires Accounted(Visited(fetch, 0, maxPages), Visited(fetch, page, maxPages), results)
    requires VisitedSteps(env, profile, sourceId, now, fetch, maxPages, s, results, mid)
    requires ItemSteps(env, profile, sourceId, now, mid, fetch(page).items, more, s')
    ensures VisitedSteps(env, profile, sourceId, now, fetch, maxPages, s, results + more, s')
  {
    var all, items := Visited(fetch, 0, maxPages), fetch(page).items;
    assert items <= Visited(fetch, page, maxPages);
    assert all[..|results + more|] == all[..|results|] + items;
    ItemStepsCompose(env, profile, sourceId, now, s, all[..|results|], results, mid, items, more, s');
  }

  lemma AllSteps(env: Env, profile: CandidateProfile, sourceId: Id, now: Instant, fetch: nat -> PageFetch,
                 maxPages: int, s: State, results: seq<ItemResult>, s': State)
    requires VisitedSteps(env, profile, sourceId, now, fetch, maxPages, s, results, s')
    requires |results| == |Visited(fetch, 0, maxPages)|
    ensures ItemSteps(env, profile, sourceId, now, s, Visited(fetch, 0, maxPages), results, s')
  {
    assert Visited(fetch, 0, maxPages)[..|results|] == Visited(fetch, 0, maxPages);
  }

  /** runHeadhunterSource; `fetch` is what the search endpoint answers, item details included. */
  method RunHeadhunterSource(app: App, profile: CandidateProfile, sourceId: Id, fetch: nat -> PageFetch, maxPages: int,
                             reviewThreshold: int, now: Instant, summary: SearchSummary)
    returns (failed: bool, requested: nat, ghost results: seq<ItemResult>)
    requires Reachable(app.env, app.st.State()) && OnlyEdges(app.st.writes)
    modifies app.st, summary
    ensures Reachable(app.env, app.st.State()) && OnlyEdges(app.st.writes)
    ensures Over(fetch, maxPages, reviewThreshold, requested, failed, results, old(summary.Value()), summary.Value())
    ensures LostIffFaulty(app.st.fails, old(app.st.calls), app.st.calls, results)
    ensures ItemSteps(app.env, profile, sourceId, now, old(app.st.State()), Visited(fetch, 0, maxPages), results,
                      app.st.State())
  {
    results, requested, failed := [], 0, false;
    var page: nat := 0;
    var last := false;
    ghost var initial, before, start := summary.Value(), app.st.State(), app.st.calls;
    SearchStarts(fetch, maxPages, reviewThreshold, initial);
    while page < maxPages && !last
      invariant Reachable(app.env, app.st.State()) && OnlyEdges(app.st.writes)
      invariant LostIffFaulty(app.st.fails, start, app.st.calls, results)
      invariant VisitedSteps(app.env, profile, sourceId, now, fetch, maxPages, before, results, app.st.State())
      invariant page == requested
      invariant if last then Over(fetch, maxPages, reviewThreshold, requested, false, results, initial, summary.Value())
                else Searched(fetch, page, maxPages, reviewThreshold, results, initial, summary.Value())
      decreases maxPages - page
    {
      if fetch(page).PageFailed? {
        failed := true;
        break;
      }
      ghost var mid, between, more := app.st.calls, app.st.State(), [];
      last, more := SearchPage(app, profile, sourceId, fetch, page, maxPages, reviewThreshold, now, summary, initial,
                               results);
      LossesAdd(app.st.fails, start, mid, app.st.calls, results, more);
      PageSteps(app.env, profile, sourceId, now, fetch, page, maxPages, before, results, between, more, app.st.State());
      results, page, requested := results + more, page + 1, requested + 1;
    }
    if !last { SearchEnds(fetch, page, maxPages, reviewThreshold, results, initial, summary.Value()); }
    if failed { requested := requested + 1; }
    AllSteps(app.env, profile, sourceId, now, fetch, maxPages, before, results, app.st.State());
  }

  function WithFound(c: Counters, found: int): Counters {
    c.(found := c.found + found)
  }

  /** Only the first page's total is added. */
  function FirstFound(fetch: nat -> PageFetch, maxPages: int): int {
    if maxPages > 0 && fetch(0).Page? then fetch(0).found else 0
  }

  lemma CountSnoc(xs: seq<ItemResult>, y: ItemResult, reviewThreshold: int)
    ensures Count(xs + [y], reviewThreshold) == Plus(Count(xs, reviewThreshold), CountOne(y, reviewThreshold))
  {
  }

  lemma {:induction false} CountAdds(xs: seq<ItemResult>, ys: seq<ItemResult>, reviewThreshold: int)
    ensures Count(xs + ys, reviewThreshold) == Plus(Count(xs, reviewThreshold), Count(ys, reviewThreshold))
  {
    if |ys| == 0 {
      assert xs + ys == xs;
      PlusZero(Count(xs, reviewThreshold));
    } else {
      var front, last := ys[..|ys| - 1], ys[|ys| - 1];
      CountAdds(xs, front, reviewThreshold);
      LastApart(xs, ys);
      CountSnoc(xs + front, last, reviewThreshold);
      PlusAssociates(Count(xs, reviewThreshold), Count(front, reviewThreshold), CountOne(last, reviewThreshold));
    }
  }

  lemma LastApart<T>(xs: seq<T>, ys: seq<T>)
    requires |ys| > 0
    ensures xs + ys == (xs + ys[..|ys| - 1]) + [ys[|ys| - 1]]
  {
  }

  lemma PlusZero(a: Counters)
    ensures Plus(a, ZERO) == a
  {
  }

  lemma PlusAssociates(a: Counters, b: Counters, c: Counters)
    ensures Plus(Plus(a, b), c) == Plus(a, Plus(b, c))
  {
  }
}
