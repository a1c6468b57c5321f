/**
 * The migration runner (internal/migrate/migrate.go): discovery, one sequential run of Up, and any number of runners
 * racing on one database, each of which may stop anywhere and start over.
 */
module Migrations {
  import opened Basics
  import opened Ordering

  datatype Migration = Migration(version: string, name: string)

  // ---- discovery ----

  datatype DirEntry = DirEntry(name: string, isDir: bool)

  datatype Listing = Missing | Unreadable | Entries(entries: seq<DirEntry>)

  predicate HasSuffix(s: string, suffix: string) {
    |s| >= |suffix| && s[|s| - |suffix|..] == suffix
  }

  lemma SuffixMeans(s: string, suffix: string)
    ensures HasSuffix(s, suffix) <==> exists x :: s == x + suffix
  {
    if HasSuffix(s, suffix) { assert s == s[..|s| - |suffix|] + suffix; }
  }

  /** `<version>_<name>.sql`, cut at the first underscore; down migrations and other files are not migrations. */
  function ParseName(file: string): (r: Option<Migration>)
    ensures r.Some? ==> '_' !in r.value.version && file == r.value.version + "_" + r.value.name + ".sql"
  {
    if !HasSuffix(file, ".sql") || HasSuffix(file, ".down.sql") then None
    else
      var base := file[..|file| - 4];
      var k := IndexOf(base, '_');
      if k == |base| then None
      else
        assert base == base[..k] + "_" + base[k + 1..];
        Some(Migration(base[..k], base[k + 1..]))
  }

  /** ParseName recognises every `<version>_<name>.sql` that is not a down migration. */
  lemma ParseNameIsComplete(m: Migration)
    requires '_' !in m.version
    ensures var file := m.version + "_" + m.name + ".sql";
            ParseName(file) == if exists x :: file == x + ".down.sql" then None else Some(m)
  {
    SuffixMeans(m.version + "_" + m.name + ".sql", ".down.sql");
    var base := m.version + ['_'] + m.name;
    var file := base + ".sql";
    assert m.version + "_" + m.name + ".sql" == file;
    assert file[|file| - 4..] == ".sql" && file[..|file| - 4] == base;
    IndexOfFirst(m.version, '_', m.name);
    assert base[..|m.version|] == m.version && base[|m.version| + 1..] == m.name;
  }

  function ByVersion(): (Migration, Migration) -> bool {
    (a: Migration, b: Migration) => AtMost()(a.version, b.version)
  }

  lemma ByVersionIsTotalPreorder()
    ensures TotalPreorder(ByVersion())
  {
    AtMostIsTotalPreorder();
    forall a: Migration, b: Migration ensures ByVersion()(a, b) || ByVersion()(b, a) {
      assert AtMost()(a.version, b.version) || AtMost()(b.version, a.version);
    }
    forall a: Migration, b: Migration, c: Migration | ByVersion()(a, b) && ByVersion()(b, c) ensures ByVersion()(a, c) {
      assert AtMost()(a.version, b.version) && AtMost()(b.version, c.version);
    }
  }

  function Parsed(entry: DirEntry): Option<Migration> {
    if entry.isDir then None else ParseName(entry.name)
  }

  function AllParsed(entries: seq<DirEntry>): seq<Migration> {
    if entries == [] then []
    else AllParsed(entries[..|entries| - 1]) + match Parsed(entries[|entries| - 1]) case Some(m) => [m] case None => []
  }

  /** The directory's migrations in version order. */
  function Files(listing: Listing): seq<Migration> {
    if listing.Entries? then Sort(ByVersion(), AllParsed(listing.entries)) else []
  }

  /** `m` is what the name of some file in the directory says. */
  ghost predicate Named(entries: seq<DirEntry>, m: Migration) {
    exists e :: e in entries && !e.isDir && ParseName(e.name) == Some(m)
  }

  lemma {:induction false} ParsedMeansNamed(entries: seq<DirEntry>, m: Migration)
    ensures m in AllParsed(entries) <==> Named(entries, m)
  {
    if |entries| > 0 {
      var n := |entries| - 1;
      ParsedMeansNamed(entries[..n], m);
      assert entries == entries[..n] + [entries[n]];
      assert forall e :: e in entries <==> e in entries[..n] || e == entries[n];
    }
  }

  ghost predicate InVersionOrder(ms: seq<Migration>) {
    forall i, j :: 0 <= i < j < |ms| ==> !Less(ms[j].version, ms[i].version)
  }

  lemma FilesAreOrdered(listing: Listing)
    ensures InVersionOrder(Files(listing))
    ensures listing.Entries? ==> forall m :: m in Files(listing) <==> Named(listing.entries, m)
  {
    if listing.Entries? {
      var found, files := AllParsed(listing.entries), Files(listing);
      ByVersionIsTotalPreorder();
      SortSorts(ByVersion(), found);
      forall i, j | 0 <= i < j < |files| ensures !Less(files[j].version, files[i].version) {
        assert ByVersion()(files[i], files[j]);
        assert AtMost()(files[i].version, files[j].version);
      }
      forall m ensures m in files <==> Named(listing.entries, m) {
        ParsedMeansNamed(listing.entries, m);
        assert m in files <==> m in multiset(files);
      }
    }
  }

  /** discover: None when the directory cannot be read; a missing directory holds no migrations. */
  method Discover(listing: Listing) returns (r: Option<seq<Migration>>)
    ensures r.None? <==> listing.Unreadable?
    ensures listing.Missing? ==> r == Some([])
    ensures listing.Entries? ==>
              SortedBy(ByVersion(), r.value) && multiset(r.value) == multiset(AllParsed(listing.entries))
    ensures listing.Entries? ==> forall m :: m in r.value <==> Named(listing.entries, m)
    ensures r.Some? ==> r.value == Files(listing) && InVersionOrder(r.value)
  {
    FilesAreOrdered(listing);
    match listing
    case Missing => return Some([]);
    case Unreadable => return None;
    case Entries(entries) =>
      var found: seq<Migration> := [];
      for i := 0 to |entries|
        invariant found == AllParsed(entries[..i])
      {
        assert entries[..i + 1][..i] == entries[..i];
        var m := Parsed(entries[i]);
        if m.Some? { found := found + [m.value]; }
      }
      assert entries[..|entries|] == entries;
      ByVersionIsTotalPreorder();
      SortSorts(ByVersion(), found);
      r := Some(Sort(ByVersion(), found));
  }

  ghost predicate DistinctVersions(ms: seq<Migration>) {
    forall i, j :: 0 <= i < j < |ms| ==> ms[i].version != ms[j].version
  }

  lemma DistinctVersionsHaveNoTies(ms: seq<Migration>)
    requires DistinctVersions(ms)
    ensures TiesAreEqual(ByVersion(), ms)
  {
    forall i, j | 0 <= i < |ms| && 0 <= j < |ms| && ByVersion()(ms[i], ms[j]) && ByVersion()(ms[j], ms[i])
      ensures ms[i] == ms[j]
    {
      assert AtMost()(ms[i].version, ms[j].version) && AtMost()(ms[j].version, ms[i].version);
      LessIsStrictAndTotal(ms[i].version, ms[j].version);
    }
  }

  /** With distinct versions every sort, stable or not, arranges the directory's migrations as `Files`. */
  lemma EverySortGivesFiles(entries: seq<DirEntry>, sorted: seq<Migration>)
    requires SortedBy(ByVersion(), sorted) && multiset(sorted) == multiset(AllParsed(entries))
             && DistinctVersions(sorted)
    ensures sorted == Files(Entries(entries))
  {
    ByVersionIsTotalPreorder();
    SortSorts(ByVersion(), AllParsed(entries));
    DistinctVersionsHaveNoTies(sorted);
    SortedIsUnique(ByVersion(), sorted, Files(Entries(entries)));
  }

  lemma {:induction false} AllParsedAdds(xs: seq<DirEntry>, ys: seq<DirEntry>)
    ensures AllParsed(xs + ys) == AllParsed(xs) + AllParsed(ys)
  {
    if |ys| == 0 {
      assert xs + ys == xs;
    } else {
      var n := |ys| - 1;
      AllParsedAdds(xs, ys[..n]);
      assert (xs + ys)[..|xs + ys| - 1] == xs + ys[..n];
    }
  }

  lemma {:induction false} ParsedMultiset(xs: seq<DirEntry>, ys: seq<DirEntry>)
    requires multiset(xs) == multiset(ys)
    ensures multiset(AllParsed(xs)) == multiset(AllParsed(ys))
  {
    assert |xs| == |multiset(xs)| == |multiset(ys)| == |ys|;
    if |xs| > 0 {
      var n := |xs| - 1;
      assert xs == xs[..n] + [xs[n]];
      assert xs[n] in multiset(ys);
      var k :| 0 <= k < |ys| && ys[k] == xs[n];
      assert ys == ys[..k] + ([ys[k]] + ys[k + 1..]);
      var rest := ys[..k] + ys[k + 1..];
      assert multiset(rest) == multiset(ys) - multiset{ys[k]};
      assert multiset(xs[..n]) == multiset(xs) - multiset{xs[n]};
      ParsedMultiset(xs[..n], rest);
      AllParsedAdds(xs[..n], [xs[n]]);
      AllParsedAdds(ys[..k], [ys[k]] + ys[k + 1..]);
      AllParsedAdds([ys[k]], ys[k + 1..]);
      AllParsedAdds(ys[..k], ys[k + 1..]);
    }
  }

  /** So the order in which the directory is read does not matter. */
  lemma FilesIgnoreOrder(xs: seq<DirEntry>, ys: seq<DirEntry>)
    requires multiset(xs) == multiset(ys) && DistinctVersions(Files(Entries(xs)))
    ensures Files(Entries(xs)) == Files(Entries(ys))
  {
    ByVersionIsTotalPreorder();
    SortSorts(ByVersion(), AllParsed(xs));
    ParsedMultiset(xs, ys);
    EverySortGivesFiles(ys, Files(Entries(xs)));
  }

  // ---- runners on one database ----

  /** Where a runner is; `applied` is its one snapshot of the version table, `next` the migration it is at. */
  datatype Phase =
    | Starting
    | Ready
    | Scanning(applied: set<string>, next: nat)
    | Executed(applied: set<string>, next: nat)  // body run in an open transaction
    | Inserted(applied: set<string>, next: nat)  // and its version row inserted there
    | Succeeded
    | Failed

  /** `committed`: the version rows, each committed together with its body, in order of commit. */
  datatype World = World(committed: seq<Migration>, phases: map<nat, Phase>)

  datatype Event =
    | EnsureTable(runner: nat)
    | Snapshot(runner: nat)
    | Skip(runner: nat)
    | ExecuteBody(runner: nat)
    | InsertVersion(runner: nat)
    | Commit(runner: nat)
    | CommitUnseen(runner: nat)  // committed, but the runner gets an error
    | Finish(runner: nat)
    | Crash(runner: nat)         // any failure: the open transaction rolls back
    | Restart(runner: nat)

  function Versions(ms: seq<Migration>): set<string> {
    set m | m in ms :: m.version
  }

  function PhaseOf(w: World, runner: nat): Phase {
    if runner in w.phases then w.phases[runner] else Starting
  }

  /** Another runner holds the same primary key in a transaction that is still open. */
  ghost predicate Blocked(files: seq<Migration>, w: World, runner: nat, version: string) {
    exists other :: other != runner && other in w.phases && w.phases[other].Inserted?
                    && w.phases[other].next < |files| && files[w.phases[other].next].version == version
  }

  ghost predicate Enabled(files: seq<Migration>, w: World, event: Event) {
    var p := PhaseOf(w, event.runner);
    match event
    case EnsureTable(_) => p.Starting?
    case Snapshot(_) => p.Ready?
    case Skip(_) => p.Scanning? && p.next < |files| && files[p.next].version in p.applied
    case ExecuteBody(_) => p.Scanning? && p.next < |files| && files[p.next].version !in p.applied
    case InsertVersion(_) => p.Executed? && p.next < |files| && !Blocked(files, w, event.runner, files[p.next].version)
    case Commit(_) => p.Inserted? && p.next < |files|
    case CommitUnseen(_) => p.Inserted? && p.next < |files|
    case Finish(_) => p.Scanning? && p.next == |files|
    case Crash(_) => true
    case Restart(_) => p.Succeeded? || p.Failed?
  }

  ghost function NextPhase(files: seq<Migration>, w: World, event: Event): Phase
    requires Enabled(files, w, event)
  {
    var p := PhaseOf(w, event.runner);
    match event
    case EnsureTable(_) => Ready
    case Snapshot(_) => Scanning(Versions(w.committed), 0)
    case Skip(_) => Scanning(p.applied, p.next + 1)
    case ExecuteBody(_) => Executed(p.applied, p.next)
    case InsertVersion(_) =>
      if files[p.next].version in Versions(w.committed) then Failed else Inserted(p.applied, p.next)
    case Commit(_) => Scanning(p.applied, p.next + 1)
    case CommitUnseen(_) => Failed
    case Finish(_) => Succeeded
    case Crash(_) => Failed
    case Restart(_) => Starting
  }

  ghost function Next(files: seq<Migration>, w: World, event: Event): World
    requires Enabled(files, w, event)
  {
    World(if event.Commit? || event.CommitUnseen? then w.committed + [files[PhaseOf(w, event.runner).next]]
          else w.committed,
          w.phases[event.runner := NextPhase(files, w, event)])
  }

  ghost predicate ValidRun(files: seq<Migration>, w: World, events: seq<Event>)
    decreases |events|
  {
    events == [] || (Enabled(files, w, events[0]) && ValidRun(files, Next(files, w, events[0]), events[1..]))
  }

  ghost function Run(files: seq<Migration>, w: World, events: seq<Event>): World
    requires ValidRun(files, w, events)
    decreases |events|
  {
    if events == [] then w else Run(files, Next(files, w, events[0]), events[1..])
  }

  // ---- what every run keeps ----

  /** No version is committed twice, and open inserts hold different versions that nobody has committed. */
  ghost predicate KeysHold(files: seq<Migration>, w: World) {
    && DistinctVersions(w.committed)
    && (forall r :: r in w.phases && w.phases[r].Inserted? ==>
          w.phases[r].next < |files| && files[w.phases[r].next].version !in Versions(w.committed))
    && (forall r, q :: r in w.phases && q in w.phases && r != q && w.phases[r].Inserted? && w.phases[q].Inserted? ==>
          w.phases[r].next < |files| && w.phases[q].next < |files|
          && files[w.phases[r].next].version != files[w.phases[q].next].version)
  }

  predicate InLoop(p: Phase) {
    p.Scanning? || p.Executed? || p.Inserted?
  }

  /** A runner is past a migration only if it is committed, and its snapshot only names committed versions. */
  ghost predicate RunnerHolds(files: seq<Migration>, committed: seq<Migration>, p: Phase) {
    && (InLoop(p) ==> p.next <= |committed| && p.applied <= Versions(committed))
    && (p.Succeeded? ==> |committed| == |files|)
  }

  ghost predicate RunnersHold(files: seq<Migration>, w: World) {
    forall r :: r in w.phases ==> RunnerHolds(files, w.committed, w.phases[r])
  }

  ghost predicate Good(files: seq<Migration>, w: World) {
    w.committed <= files && KeysHold(files, w) && RunnersHold(files, w)
  }

  /** The step at which everything is decided: the row a runner commits is the next file. */
  lemma CommitIsNext(files: seq<Migration>, w: World, runner: nat)
    requires DistinctVersions(files) && Good(files, w) && PhaseOf(w, runner).Inserted?
    ensures PhaseOf(w, runner).next == |w.committed| < |files|
  {
  }

  lemma NextKeepsKeys(files: seq<Migration>, w: World, event: Event)
    requires KeysHold(files, w) && Enabled(files, w, event)
    ensures KeysHold(files, Next(files, w, event))
  {
    var p := PhaseOf(w, event.runner);
    if event.Commit? || event.CommitUnseen? {
      var m := files[p.next];
      forall v ensures v in Versions(w.committed + [m]) <==> v in Versions(w.committed) || v == m.version {
        if v in Versions(w.committed) {
          var x :| x in w.committed && x.version == v;
          assert x in w.committed + [m];
        }
        assert m in w.committed + [m];
      }
      forall i | 0 <= i < |w.committed| ensures w.committed[i].version != m.version {
        assert w.committed[i] in w.committed;
      }
    }
  }

  lemma NextKeepsRunners(files: seq<Migration>, w: World, event: Event)
    requires DistinctVersions(files) && Good(files, w) && Enabled(files, w, event)
    ensures Next(files, w, event).committed <= files && RunnersHold(files, Next(files, w, event))
  {
  }

  /**
   * For any number of runners, any interleaving and any failures, on a directory of distinct versions: what is
   * committed is a prefix of the sorted files (so every body at most once, and in order), it only grows, and a runner
   * that reports success leaves nothing unapplied.
   */
  lemma {:induction false} RunsCommitPrefixes(files: seq<Migration>, w: World, events: seq<Event>)
    requires DistinctVersions(files) && Good(files, w) && ValidRun(files, w, events)
    ensures var w' := Run(files, w, events);
            && Good(files, w') && w.committed <= w'.committed <= files
            && forall r :: r in w'.phases && w'.phases[r].Succeeded? ==> w'.committed == files
    decreases |events|
  {
    if events != [] {
      NextKeepsKeys(files, w, events[0]);
      NextKeepsRunners(files, w, events[0]);
      RunsCommitPrefixes(files, Next(files, w, events[0]), events[1..]);
    }
  }

  /** A runner that has nothing left to do. */
  predicate Idle(files: seq<Migration>, p: Phase) {
    p.Starting? || p.Ready? || p.Succeeded? || p.Failed?
      || (p.Scanning? && forall m :: m in files ==> m.version in p.applied)
  }

  /** Once everything is applied, an Up that starts later runs no body: it can only skip, finish, or fail. */
  lemma {:induction false} LaterUpIsNoOp(files: seq<Migration>, w: World, events: seq<Event>, runner: nat)
    requires DistinctVersions(files) && Good(files, w) && w.committed == files && ValidRun(files, w, events)
    requires Idle(files, PhaseOf(w, runner))
    ensures Run(files, w, events).committed == files && Idle(files, PhaseOf(Run(files, w, events), runner))
    decreases |events|
  {
    if events != [] {
      RunsCommitPrefixes(files, w, events[..1]);
      NextKeepsKeys(files, w, events[0]);
      NextKeepsRunners(files, w, events[0]);
      LaterUpIsNoOp(files, Next(files, w, events[0]), events[1..], runner);
    }
  }

  // ---- runs put together ----

  lemma {:induction false} RunsCompose(files: seq<Migration>, w: World, first: seq<Event>, second: seq<Event>)
    requires ValidRun(files, w, first) && ValidRun(files, Run(files, w, first), second)
    ensures ValidRun(files, w, first + second)
    ensures Run(files, w, first + second) == Run(files, Run(files, w, first), second)
    decreases |first|
  {
    if first == [] {
      assert first + second == second;
    } else {
      assert (first + second)[1..] == first[1..] + second;
      RunsCompose(files, Next(files, w, first[0]), first[1..], second);
    }
  }

  lemma OneMore(files: seq<Migration>, w: World, events: seq<Event>, event: Event)
    requires ValidRun(files, w, events) && Enabled(files, Run(files, w, events), event)
    ensures ValidRun(files, w, events + [event])
    ensures Run(files, w, events + [event]) == Next(files, Run(files, w, events), event)
  {
    assert [event][1..] == [];
    assert ValidRun(files, Run(files, w, events), [event]);
    RunsCompose(files, w, events, [event]);
  }

  // ---- one runner, as it is written ----

  /**
   * What the loop of Up does when nothing fails: from file `i` on, skip what `applied` names and commit the rest, until
   * a version turns out to be taken.
   */
  function ApplyFrom(files: seq<Migration>, applied: set<string>, committed: seq<Migration>,
                     i: nat): (seq<Migration>, bool)
    decreases |files| - i
  {
    if i >= |files| then (committed, true)
    else if files[i].version in applied then ApplyFrom(files, applied, committed, i + 1)
    else if files[i].version in Versions(committed) then (committed, false)
    else ApplyFrom(files, applied, committed + [files[i]], i + 1)
  }

  function UpWithoutFaults(listing: Listing, committed: seq<Migration>): (seq<Migration>, bool) {
    if listing.Unreadable? then (committed, false)
    else ApplyFrom(Files(listing), Versions(committed), committed, 0)
  }

  /** How far one application of a file got. */
  datatype Attempt = NotStarted | BodyRun | Taken | AnswerLost | Applied

  class Database {
    const fails: Schedule
    var calls: nat  // operations on the database and the directory so far
    var committed: seq<Migration>
    var hasTable: bool

    constructor (fails: Schedule)
      ensures this.fails == fails && calls == 0 && committed == [] && !hasTable
    {
      this.fails, calls, committed, hasTable := fails, 0, [], false;
    }

    method Try() returns (failed: bool)
      modifies this`calls
      ensures Counted(fails, old(calls), calls, failed)
    {
      failed := fails(calls);
      calls := calls + 1;
    }

    method EnsureTable() returns (ok: bool)
      modifies this`calls, this`hasTable
      ensures Counted(fails, old(calls), calls, !ok) && (ok ==> hasTable)
    {
      var failed := Try();
      if failed { return false; }
      hasTable, ok := true, true;
    }

    /** One query; a failing row scan gives up. */
    method AppliedVersions() returns (r: Option<set<string>>)
      modifies this`calls
      ensures Counted(fails, old(calls), calls, r.None?)
      ensures r.Some? ==> r.value == Versions(committed)
    {
      var failed := Try();
      if failed { return None; }
      var out: set<string> := {};
      for i := 0 to |committed|
        invariant Counted(fails, old(calls), calls, false)
        invariant out == Versions(committed[..i])
      {
        failed := Try();
        if failed { return None; }
        TakeOneMore(committed, i);
        out := out + {committed[i].version};
      }
      assert committed[..|committed|] == committed;
      failed := Try();
      if failed { return None; }
      r := Some(out);
    }

    /** Read, begin, run the body, insert the version, commit. The insert alone can be refused without a failure. */
    method ApplyOne(m: Migration, ghost files: seq<Migration>, ghost w: World, ghost applied: set<string>, ghost i: nat)
      returns (ok: bool, ghost story: seq<Event>)
      requires i < |files| && files[i] == m && m.version !in applied
      requires w == World(committed, map[0 := Scanning(applied, i)])
      modifies this`committed, this`calls
      ensures FaultsBefore(fails, old(calls)) <= FaultsBefore(fails, calls)
      ensures ok ==> FaultsBefore(fails, old(calls)) == FaultsBefore(fails, calls)
      ensures FaultsBefore(fails, old(calls)) == FaultsBefore(fails, calls) ==>
                (committed, ok) == if m.version in Versions(old(committed)) then (old(committed), false)
                                   else (old(committed) + [m], true)
      ensures committed == old(committed)
              || (m.version !in Versions(old(committed)) && committed == old(committed) + [m])
      ensures ValidRun(files, w, story)
      ensures Run(files, w, story) == World(committed, map[0 := if ok then Scanning(applied, i + 1) else Failed])
    {
      ok := false;
      ghost var end := NotStarted;
      var failed := Try();  // read the file
      if !failed { failed := Try(); }  // begin
      if !failed {
        end := BodyRun;
        failed := Try();  // the body
        if !failed { failed := Try(); }  // the insert, which may find the version taken
        if !failed && m.version in Versions(committed) {
          end := Taken;
        } else if !failed {
          failed := Try();  // the commit
          if !failed {
            committed, ok, end := committed + [m], true, Applied;
          } else if * {  // it happened, but its answer is lost
            committed, end := committed + [m], AnswerLost;
          }
        }
      }
      story := StoryOf(files, w, applied, i, end);
    }

    /** One round of the loop: what the snapshot names is skipped, the rest applied. */
    method ApplyIfPending(files: seq<Migration>, applied: set<string>, i: nat, ghost w: World)
      returns (ok: bool, ghost story: seq<Event>)
      requires i < |files| && w == World(committed, map[0 := Scanning(applied, i)])
      modifies this`committed, this`calls
      ensures FaultsBefore(fails, old(calls)) <= FaultsBefore(fails, calls)
      ensures ok ==> FaultsBefore(fails, old(calls)) == FaultsBefore(fails, calls)
      ensures FaultsBefore(fails, old(calls)) == FaultsBefore(fails, calls) ==>
                ApplyFrom(files, applied, old(committed), i)
                == if ok then ApplyFrom(files, applied, committed, i + 1) else (committed, false)
      ensures ValidRun(files, w, story)
      ensures Run(files, w, story) == World(committed, map[0 := if ok then Scanning(applied, i + 1) else Failed])
    {
      if files[i].version in applied {
        SkipIsARun(files, w);
        return true, [Skip(0)];
      }
      ok, story := ApplyOne(files[i], files, w, applied, i);
    }

    /** The loop of Up: the first failure ends it. */
    method ApplyPending(files: seq<Migration>, applied: set<string>, ghost w: World)
      returns (ok: bool, ghost events: seq<Event>)
      requires w == World(committed, map[0 := Scanning(applied, 0)])
      modifies this`committed, this`calls
      ensures ok ==> FaultsBefore(fails, old(calls)) == FaultsBefore(fails, calls)
      ensures FaultsBefore(fails, old(calls)) <= FaultsBefore(fails, calls)
      ensures FaultsBefore(fails, old(calls)) == FaultsBefore(fails, calls) ==>
                (committed, ok) == ApplyFrom(files, applied, old(committed), 0)
      ensures ValidRun(files, w, events) && Run(files, w, events).committed == committed
      ensures ok ==> Run(files, w, events) == World(committed, map[0 := Succeeded])
    {
      events, ok := [], true;
      ghost var now := w;
      for i := 0 to |files|
        invariant FaultsBefore(fails, old(calls)) == FaultsBefore(fails, calls)
        invariant ApplyFrom(files, applied, committed, i) == ApplyFrom(files, applied, old(committed), 0)
        invariant ValidRun(files, w, events) && Run(files, w, events) == now
        invariant ok && now == World(committed, map[0 := Scanning(applied, i)])
      {
        ghost var story;
        ok, story := ApplyIfPending(files, applied, i, now);
        RunsCompose(files, w, events, story);
        events, now := events + story, Run(files, now, story);
        if !ok { return; }
      }
      OneMore(files, w, events, Finish(0));
      events := events + [Finish(0)];
    }

    /**
     * Up refines one runner: whatever it does to the database, some run of that runner does. Without a failing
     * operation it does exactly what UpWithoutFaults says.
     */
    method Up(listing: Listing) returns (ok: bool, ghost events: seq<Event>)
      modifies this
      ensures ok ==> FaultsBefore(fails, old(calls)) == FaultsBefore(fails, calls)
      ensures FaultsBefore(fails, old(calls)) == FaultsBefore(fails, calls) ==>
                (committed, ok) == UpWithoutFaults(listing, old(committed))
      ensures ValidRun(Files(listing), World(old(committed), map[]), events)
      ensures var w := Run(Files(listing), World(old(committed), map[]), events);
              w.committed == committed && (ok ==> PhaseOf(w, 0).Succeeded? && !listing.Unreadable?)
    {
      events, ok := [], false;
      var created := EnsureTable();
      if !created { return; }
      var applied := AppliedVersions();
      if applied.None? { return; }
      var migrations := Discover(listing);
      if migrations.None? { return; }
      ghost var w := World(committed, map[]);
      ghost var start := StartingUp(Files(listing), w);
      ok, events := ApplyPending(migrations.value, applied.value, Run(Files(listing), w, start));
      RunsCompose(Files(listing), w, start, events);
      events := start + events;
    }
  }

  lemma StoryOf(files: seq<Migration>, w: World, applied: set<string>, i: nat, end: Attempt) returns (story: seq<Event>)
    requires i < |files| && files[i].version !in applied && w == World(w.committed, map[0 := Scanning(applied, i)])
    requires end.Taken? ==> files[i].version in Versions(w.committed)
    requires end.AnswerLost? || end.Applied? ==> files[i].version !in Versions(w.committed)
    ensures ValidRun(files, w, story)
    ensures Run(files, w, story)
            == World(if end.AnswerLost? || end.Applied? then w.committed + [files[i]] else w.committed,
                                          map[0 := if end.Applied? then Scanning(applied, i + 1) else Failed])
  {
    story := [];
    if end.NotStarted? {
      OneMore(files, w, [], Crash(0));
      story := [] + [Crash(0)];
      return;
    }
    OneMore(files, w, story, ExecuteBody(0));
    story := story + [ExecuteBody(0)];
    var third := if end.BodyRun? then Crash(0) else InsertVersion(0);
    OneMore(files, w, story, third);
    story := story + [third];
    if end.AnswerLost? || end.Applied? {
      var fourth := if end.Applied? then Commit(0) else CommitUnseen(0);
      OneMore(files, w, story, fourth);
      story := story + [fourth];
    }
  }

  /** The files that the snapshot does not name have versions of their own. */
  ghost predicate PendingDistinct(files: seq<Migration>, applied: set<string>, i: nat) {
    forall j, k :: i <= j < k < |files| && files[j].version == files[k].version ==> files[j].version in applied
  }

  ghost predicate PendingUntaken(files: seq<Migration>, applied: set<string>, committed: seq<Migration>, i: nat) {
    forall j :: i <= j < |files| && files[j].version !in applied ==> files[j].version !in Versions(committed)
  }

  lemma VersionsSnoc(ms: seq<Migration>, m: Migration)
    ensures Versions(ms + [m]) == Versions(ms) + {m.version}
  {
    assert forall x :: x in ms + [m] <==> x in ms || x == m;
    forall v ensures v in Versions(ms + [m]) <==> v in Versions(ms) + {m.version} {
      if v in Versions(ms) {
        var x :| x in ms && x.version == v;
        assert x in ms + [m];
      }
      assert m in ms + [m];
    }
  }

  lemma {:induction false} ApplyFromSucceedsIff(files: seq<Migration>, applied: set<string>, committed: seq<Migration>,
                                                i: nat)
    ensures ApplyFrom(files, applied, committed, i).1
            <==> PendingDistinct(files, applied, i) && PendingUntaken(files, applied, committed, i)
    decreases |files| - i
  {
    if i < |files| {
      if files[i].version in applied {
        ApplyFromSucceedsIff(files, applied, committed, i + 1);
      } else if files[i].version !in Versions(committed) {
        ApplyFromSucceedsIff(files, applied, committed + [files[i]], i + 1);
        VersionsSnoc(committed, files[i]);
      }
    }
  }

  /** Without a failing operation Up succeeds iff the directory is readable and no two pending files share a version. */
  lemma UpSucceedsIff(listing: Listing, committed: seq<Migration>)
    ensures UpWithoutFaults(listing, committed).1
            <==> !listing.Unreadable? && PendingDistinct(Files(listing), Versions(committed), 0)
  {
    ApplyFromSucceedsIff(Files(listing), Versions(committed), committed, 0);
  }

  lemma VersionsGrow(ms: seq<Migration>, more: seq<Migration>)
    requires ms <= more
    ensures Versions(ms) <= Versions(more)
  {
    forall v | v in Versions(ms) ensures v in Versions(more) {
      var m :| m in ms && m.version == v;
      var k :| 0 <= k < |ms| && ms[k] == m;
      assert more[k] == m;
    }
  }

  lemma {:induction false} ApplyFromApplies(files: seq<Migration>, applied: set<string>, committed: seq<Migration>,
                                            i: nat)
    requires applied <= Versions(committed)
    ensures var (after, ok) := ApplyFrom(files, applied, committed, i);
            && committed <= after
            && (forall m :: m in after ==> m in committed || (m in files && m.version !in applied))
            && (ok ==> forall j :: i <= j < |files| ==> files[j].version in Versions(after))
    decreases |files| - i
  {
    if i < |files| {
      var m := files[i];
      if m.version in applied {
        ApplyFromApplies(files, applied, committed, i + 1);
        VersionsGrow(committed, ApplyFrom(files, applied, committed, i).0);
      } else if m.version !in Versions(committed) {
        VersionsSnoc(committed, m);
        ApplyFromApplies(files, applied, committed + [m], i + 1);
        VersionsGrow(committed + [m], ApplyFrom(files, applied, committed, i).0);
      }
    }
  }

  /**
   * What Up does without a failing operation: it only adds, and only pending files of the directory; and when it
   * succeeds nothing is pending any more.
   */
  lemma UpAppliesPending(listing: Listing, committed: seq<Migration>)
    ensures var (after, ok) := UpWithoutFaults(listing, committed);
            && committed <= after
            && (forall m :: m in after ==> m in committed || (m in Files(listing) && m.version !in Versions(committed)))
            && (ok ==> forall m :: m in Files(listing) ==> m.version in Versions(after))
  {
    ApplyFromApplies(Files(listing), Versions(committed), committed, 0);
  }

  lemma SkipIsARun(files: seq<Migration>, w: World)
    requires Enabled(files, w, Skip(0))
    ensures ValidRun(files, w, [Skip(0)]) && Run(files, w, [Skip(0)]) == Next(files, w, Skip(0))
  {
  }

  lemma StartingUp(files: seq<Migration>, w: World) returns (start: seq<Event>)
    requires PhaseOf(w, 0).Starting?
    ensures ValidRun(files, w, start)
    ensures Run(files, w, start) == World(w.committed, w.phases[0 := Scanning(Versions(w.committed), 0)])
  {
    start := [EnsureTable(0)];
    OneMore(files, w, [], EnsureTable(0));
    assert [] + start == start;
    OneMore(files, w, start, Snapshot(0));
    start := start + [Snapshot(0)];
  }

  // ---- exactly when success means that everything is applied ----

  const FRESH: World := World([], map[])

  lemma PrefixIsGood(files: seq<Migration>, committed: seq<Migration>)
    requires DistinctVersions(files) && committed <= files
    ensures Good(files, World(committed, map[]))
  {
  }

  ghost predicate SuccessMeansApplied(files: seq<Migration>) {
    forall events, runner, m ::
      ValidRun(files, FRESH, events) && PhaseOf(Run(files, FRESH, events), runner).Succeeded? && m in files ==>
        m in Run(files, FRESH, events).committed
  }

  /**
   * Two files of one version: the second can never be applied, yet once the first is, Up reports success. So a success
   * means that every file is applied iff no two files share a version.
   */
  lemma SuccessMeansAppliedIffVersionsDiffer(files: seq<Migration>)
    requires forall i, j :: 0 <= i < j < |files| ==> files[i] != files[j]
    ensures SuccessMeansApplied(files) <==> DistinctVersions(files)
  {
    if DistinctVersions(files) {
      PrefixIsGood(files, []);
      forall events, runner, m | ValidRun(files, FRESH, events) && PhaseOf(Run(files, FRESH, events), runner).Succeeded?
        && m in files
        ensures m in Run(files, FRESH, events).committed
      {
        RunsCommitPrefixes(files, FRESH, events);
      }
    } else {
      var i, j :| 0 <= i < j < |files| && files[i].version == files[j].version;
      var events := SuccessIsPossible(files);
      RunKeepsKeys(files, FRESH, events);
      var committed := Run(files, FRESH, events).committed;
      if files[i] in committed && files[j] in committed {
        TwoOfOneVersion(committed, files[i], files[j]);
      }
      var missing := if files[i] in committed then files[j] else files[i];
      assert missing in files && missing !in committed;
      assert PhaseOf(Run(files, FRESH, events), 0).Succeeded?;
    }
  }

  lemma TwoOfOneVersion(committed: seq<Migration>, a: Migration, b: Migration)
    requires DistinctVersions(committed) && a in committed && b in committed && a.version == b.version
    ensures a == b
  {
  }

  lemma {:induction false} RunKeepsKeys(files: seq<Migration>, w: World, events: seq<Event>)
    requires KeysHold(files, w) && ValidRun(files, w, events)
    ensures KeysHold(files, Run(files, w, events))
    decreases |events|
  {
    if events != [] {
      NextKeepsKeys(files, w, events[0]);
      RunKeepsKeys(files, Next(files, w, events[0]), events[1..]);
    }
  }

  ghost predicate Covers(committed: seq<Migration>, files: seq<Migration>, k: nat) {
    forall i :: 0 <= i < k && i < |files| ==> files[i].version in Versions(committed)
  }

  predicate AtRest(w: World) {
    w.phases == map[] || w.phases == map[0 := Failed]
  }

  lemma {:induction false} SkipMany(files: seq<Migration>, committed: seq<Migration>, k: nat)
    returns (events: seq<Event>)
    requires k <= |files| && Covers(committed, files, k)
    ensures var w := World(committed, map[0 := Scanning(Versions(committed), 0)]);
            ValidRun(files, w, events) && Run(files, w, events)
              == World(committed, map[0 := Scanning(Versions(committed), k)])
  {
    events := [];
    if k > 0 {
      var w := World(committed, map[0 := Scanning(Versions(committed), 0)]);
      events := SkipMany(files, committed, k - 1);
      OneMore(files, w, events, Skip(0));
      events := events + [Skip(0)];
    }
  }

  /** A runner at rest can get to file `k` when everything before it is applied. */
  lemma ReachFile(files: seq<Migration>, w: World, k: nat) returns (events: seq<Event>)
    requires AtRest(w) && k <= |files| && Covers(w.committed, files, k)
    ensures ValidRun(files, w, events)
    ensures Run(files, w, events) == World(w.committed, map[0 := Scanning(Versions(w.committed), k)])
  {
    events := [Crash(0)];
    OneMore(files, w, [], Crash(0));
    assert [] + events == events;
    OneMore(files, w, events, Restart(0));
    events := events + [Restart(0)];
    assert Run(files, w, events) == World(w.committed, map[0 := Starting]);
    var up := StartingUp(files, Run(files, w, events));
    RunsCompose(files, w, events, up);
    events := events + up;
    assert Run(files, w, events) == World(w.committed, map[0 := Scanning(Versions(w.committed), 0)]);
    var skips := SkipMany(files, w.committed, k);
    RunsCompose(files, w, events, skips);
    events := events + skips;
  }

  /** It applies that file and stops. */
  lemma ApplyFile(files: seq<Migration>, w: World, k: nat) returns (events: seq<Event>)
    requires k < |files| && w == World(w.committed, map[0 := Scanning(Versions(w.committed), k)])
    requires files[k].version !in Versions(w.committed)
    ensures ValidRun(files, w, events) && Run(files, w, events) == World(w.committed + [files[k]], map[0 := Failed])
  {
    events := [ExecuteBody(0)];
    OneMore(files, w, [], ExecuteBody(0));
    assert [] + events == events;
    OneMore(files, w, events, InsertVersion(0));
    events := events + [InsertVersion(0)];
    OneMore(files, w, events, CommitUnseen(0));
    events := events + [CommitUnseen(0)];
  }

  /** From a world that covers `k` files to one that covers `k + 1`. */
  lemma CoverOneMore(files: seq<Migration>, w: World, k: nat) returns (events: seq<Event>)
    requires AtRest(w) && k < |files| && Covers(w.committed, files, k)
    ensures ValidRun(files, w, events)
    ensures AtRest(Run(files, w, events)) && Covers(Run(files, w, events).committed, files, k + 1)
  {
    events := [];
    if files[k].version !in Versions(w.committed) {
      events := ReachFile(files, w, k);
      var apply := ApplyFile(files, Run(files, w, events), k);
      RunsCompose(files, w, events, apply);
      events := events + apply;
      CoversMore(w.committed, files, k);
    }
  }

  lemma {:induction false} CoverAll(files: seq<Migration>, k: nat) returns (events: seq<Event>)
    requires k <= |files|
    ensures ValidRun(files, FRESH, events)
    ensures AtRest(Run(files, FRESH, events)) && Covers(Run(files, FRESH, events).committed, files, k)
  {
    events := [];
    if k > 0 {
      events := CoverAll(files, k - 1);
      var more := CoverOneMore(files, Run(files, FRESH, events), k - 1);
      RunsCompose(files, FRESH, events, more);
      events := events + more;
    }
  }

  lemma CoversMore(committed: seq<Migration>, files: seq<Migration>, k: nat)
    requires k < |files| && Covers(committed, files, k)
    ensures Covers(committed + [files[k]], files, k + 1)
  {
  }

  lemma SuccessIsPossible(files: seq<Migration>) returns (events: seq<Event>)
    ensures ValidRun(files, FRESH, events) && PhaseOf(Run(files, FRESH, events), 0).Succeeded?
  {
    events := CoverAll(files, |files|);
    var w := Run(files, FRESH, events);
    var there := ReachFile(files, w, |files|);
    OneMore(files, w, there, Finish(0));
    RunsCompose(files, FRESH, events, there + [Finish(0)]);
    events := events + (there + [Finish(0)]);
  }
}
