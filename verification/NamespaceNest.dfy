/**
 A concrete run in which mounts nest: a removal planned for a file deletes the entry of a directory that took its
 name, so the directory above looks empty and may become a mount although the lost one below it is a mount.
 */
module NamespaceNest {
  import opened Options
  import opened NamespaceTables
  import opened NamespaceProtocol
  import opened NamespaceRuns
  import opened NamespaceSafety

  const ROOT: DirectoryId := 0
  const UPPER: DirectoryId := 1
  const LOWER: DirectoryId := 2
  const DRIVER: Driver := 5
  const OTHER: Driver := 7
  const FILE := FileSubject(1)

  function RootRow(k: nat): Directory { Directory(None, "", true, k + 1) }

  function UpperRow(k: nat): Directory { Directory(Some(ROOT), "a", true, k) }

  const LOWER_ROW := Directory(Some(UPPER), "n", true, 1)

  function RootEntries(k: nat): map<string, Entry> { map["a" := Entry(DirectorySubject(UPPER), k)] }

  /** The upper directory below the root, after `k` mutations of it, with what it holds. */
  function Tree(k: nat, here: map<string, Entry>, files: map<FileId, File>): Namespace {
    Namespace(ROOT, map[ROOT := RootRow(k), UPPER := UpperRow(k)], map[ROOT := RootEntries(k), UPPER := here], files,
              map[ROOT := DRIVER, UPPER := DRIVER], map[ROOT := Mount(DRIVER, Default)], map[ROOT := 2, UPPER := 2])
  }

  /** The same with the lower directory, which is empty; `upper` and `lower` are their drivers. */
  function Deep(k: nat, here: map<string, Entry>, upper: Driver, lower: Driver): Namespace {
    Namespace(ROOT, map[ROOT := RootRow(k), UPPER := UpperRow(k), LOWER := LOWER_ROW],
              map[ROOT := RootEntries(k), UPPER := here, LOWER := map[]], map[1 := File(false, DRIVER)],
              map[ROOT := DRIVER, UPPER := upper, LOWER := lower], Mounts(upper, lower),
              map[ROOT := 2, UPPER := Placed(upper), LOWER := Placed(lower)])
  }

  function Mounts(upper: Driver, lower: Driver): map<DirectoryId, Mount> {
    map[ROOT := Mount(DRIVER, Default)] + (if lower == DRIVER then map[] else map[LOWER := Mount(lower, Explicit)])
    + (if upper == DRIVER then map[] else map[UPPER := Mount(upper, Explicit)])
  }

  function Placed(driver: Driver): nat { if driver == DRIVER then 2 else 4 }

  function PlanAt(k: nat, here: map<string, Entry>): Plan {
    map[UPPER := Row(UpperRow(k), here), ROOT := Row(RootRow(k), RootEntries(k))]
  }

  // ---------------------------------------------------------------- one mutation of the upper directory

  /** The shape that `k` mutations leave, with or without the lower directory. */
  predicate IsAt(ns: Namespace, k: nat, here: map<string, Entry>) {
    ns == Tree(k, here, ns.files) || ns == Deep(k, here, DRIVER, DRIVER)
  }

  lemma RowsAt(ns: Namespace, k: nat, here: map<string, Entry>)
    requires IsAt(ns, k, here)
    ensures IsActive(ns, ROOT) && ns.directories[ROOT] == RootRow(k) && ns.entries[ROOT] == RootEntries(k)
    ensures IsActive(ns, UPPER) && ns.directories[UPPER] == UpperRow(k) && ns.entries[UPPER] == here
  {
  }

  lemma ReadsUpper(ns: Namespace, request: Request, k: nat, here: map<string, Entry>)
    requires IsAt(ns, k, here) && Start(request) == UPPER
    ensures Read(ns, Restart(request)) == Walking(request, map[UPPER := Row(UpperRow(k), here)], {UPPER}, ROOT, false)
  {
    hide PlanAccepted, IsAt, RootEntries;
    RowsAt(ns, k, here);
    assert map[][UPPER := Row(UpperRow(k), here)] == map[UPPER := Row(UpperRow(k), here)];
    assert {} + {UPPER} == {UPPER};
  }

  lemma ReadsRoot(ns: Namespace, request: Request, k: nat, here: map<string, Entry>)
    requires IsAt(ns, k, here) && !request.Rename? && PlanAccepted(request, PlanAt(k, here), {UPPER, ROOT})
    ensures Read(ns, Walking(request, map[UPPER := Row(UpperRow(k), here)], {UPPER}, ROOT, false))
            == Planned(request, PlanAt(k, here), {UPPER, ROOT})
  {
    hide PlanAccepted, IsAt, RootEntries;
    RowsAt(ns, k, here);
    assert map[UPPER := Row(UpperRow(k), here)][ROOT := Row(RootRow(k), RootEntries(k))] == PlanAt(k, here);
    assert {UPPER} + {ROOT} == {UPPER, ROOT};
  }

  lemma ReadsBoth(s: System, w: nat, request: Request, k: nat, here: map<string, Entry>)
    requires IsAt(s.ns, k, here) && WorkerAt(s, w) == Restart(request) && Start(request) == UPPER && !request.Rename?
    requires PlanAccepted(request, PlanAt(k, here), {UPPER, ROOT})
    ensures Execute(Execute(s, ReadStep(w)), ReadStep(w)) == Goto(s, w, Planned(request, PlanAt(k, here), {UPPER, ROOT}))
  {
    hide PlanAccepted, Read, IsAt;
    ReadsUpper(s.ns, request, k, here);
    ReadsRoot(s.ns, request, k, here);
    GotoTwice(s, w, Walking(request, map[UPPER := Row(UpperRow(k), here)], {UPPER}, ROOT, false),
              Planned(request, PlanAt(k, here), {UPPER, ROOT}));
  }

  lemma LinksOfPlan(k: nat, here: map<string, Entry>)
    ensures LinksShown(PlanAt(k, here)) && UPPER in PlanAt(k, here) && PlanAt(k, here)[UPPER].entries == here
  {
  }

  lemma LinksMove(k: nat, read: map<string, Entry>, here: map<string, Entry>)
    ensures BumpedLinks(here, UPPER, PlanAt(k, read)) == here && BumpedLinks(map[], LOWER, PlanAt(k, read)) == map[]
    ensures BumpedLinks(RootEntries(k), ROOT, PlanAt(k, read)) == RootEntries(k + 1)
  {
    forall name | name in here ensures !LinkPlanned(PlanAt(k, read), UPPER, name, here[name]) {}
    assert LinkPlanned(PlanAt(k, read), ROOT, "a", Entry(DirectorySubject(UPPER), k));
  }

  lemma PlanKeys(k: nat, read: map<string, Entry>)
    ensures PlanAt(k, read).Keys == {UPPER, ROOT}
  {
  }

  /** `t` is what the bump makes of `ns`, row by row. */
  lemma BumpIs(ns: Namespace, plan: Plan, t: Namespace)
    requires t == ns.(directories := t.directories, entries := t.entries)
    requires t.directories.Keys == ns.directories.Keys && t.entries.Keys == ns.entries.Keys
    requires forall d | d in ns.directories ::
               t.directories[d] == if d in plan then ns.directories[d].(revision := ns.directories[d].revision + 1)
                                   else ns.directories[d]
    requires forall d | d in ns.entries :: t.entries[d] == BumpedLinks(ns.entries[d], d, plan)
    ensures Bump(ns, plan) == t
  {
    hide BumpedLinks;
    assert Bump(ns, plan).directories == t.directories;
    assert Bump(ns, plan).entries == t.entries;
  }

  /** The bump moves both rows and the link between them. */
  lemma BumpsTree(k: nat, read: map<string, Entry>, here: map<string, Entry>, files: map<FileId, File>)
    ensures Bump(Tree(k, here, files), PlanAt(k, read)) == Tree(k + 1, here, files)
  {
    hide BumpedLinks, Bump, RootEntries, PlanAt;
    LinksMove(k, read, here);
    PlanKeys(k, read);
    BumpIs(Tree(k, here, files), PlanAt(k, read), Tree(k + 1, here, files));
  }

  lemma BumpsDeep(k: nat, read: map<string, Entry>, here: map<string, Entry>)
    ensures Bump(Deep(k, here, DRIVER, DRIVER), PlanAt(k, read)) == Deep(k + 1, here, DRIVER, DRIVER)
  {
    hide BumpedLinks, Bump, RootEntries, PlanAt, Mounts, Placed;
    LinksMove(k, read, here);
    PlanKeys(k, read);
    BumpIs(Deep(k, here, DRIVER, DRIVER), PlanAt(k, read), Deep(k + 1, here, DRIVER, DRIVER));
  }

  lemma FenceIsAt(ns: Namespace, k: nat, here: map<string, Entry>)
    requires IsAt(ns, k, here)
    ensures FenceHolds(ns, PlanAt(k, here))
  {
    hide IsAt, RootEntries;
    RowsAt(ns, k, here);
  }

  /** A restarted mutation that nobody interrupts: two reads and its batch. */
  lemma Mutates(s: System, w: nat, request: Request, k: nat, here: map<string, Entry>, t: Namespace)
    requires IsAt(s.ns, k, here) && WorkerAt(s, w) == Restart(request) && Start(request) == UPPER && !request.Rename?
    requires PlanAccepted(request, PlanAt(k, here), {UPPER, ROOT})
    requires Commits(s.ns, request, PlanAt(k, here)) && Commit(s.ns, request, PlanAt(k, here)) == t
    ensures Run(s, [ReadStep(w), ReadStep(w), CommitStep(w)]) == Goto(s, w, Idle).(ns := t)
  {
    hide PlanAccepted, Read, IsAt, Commits, Commit, Run;
    RunThree(s, ReadStep(w), ReadStep(w), CommitStep(w));
    ReadsBoth(s, w, request, k, here);
    GotoTwice(s, w, Planned(request, PlanAt(k, here), {UPPER, ROOT}), Idle);
  }

  // ---------------------------------------------------------------- the batches of the run

  const PUT := PutNew(UPPER, "n", 1, DRIVER)
  const REMOVE := Remove(UPPER, "n", FILE, 1)
  const MKDIR := Request.Mkdir(UPPER, "n", LOWER)
  const WITH_FILE := map["n" := Entry(FILE, 1)]
  const WITH_LOWER := map["n" := Entry(DirectorySubject(LOWER), 1)]
  const LIVE := map[1 := File(true, DRIVER)]
  const GONE := map[1 := File(false, DRIVER)]

  lemma PutBatch()
    ensures Commits(Tree(1, map[], map[]), PUT, PlanAt(1, map[]))
    ensures Commit(Tree(1, map[], map[]), PUT, PlanAt(1, map[])) == Tree(2, WITH_FILE, LIVE)
  {
    hide Bump, FenceHolds;
    FenceIsAt(Tree(1, map[], map[]), 1, map[]);
    assert ApplyPutNew(Tree(1, map[], map[]), UPPER, "n", 1) == Tree(1, WITH_FILE, LIVE);
    BumpsTree(1, map[], WITH_FILE, LIVE);
  }

  lemma RemoveBatch()
    ensures Commits(Tree(2, WITH_FILE, LIVE), REMOVE, PlanAt(2, WITH_FILE))
    ensures Commit(Tree(2, WITH_FILE, LIVE), REMOVE, PlanAt(2, WITH_FILE)) == Tree(3, map[], GONE)
  {
    hide Bump, FenceHolds;
    FenceIsAt(Tree(2, WITH_FILE, LIVE), 2, WITH_FILE);
    assert WITH_FILE - {"n"} == map[];
    assert ApplyRemove(Tree(2, WITH_FILE, LIVE), UPPER, "n", FILE) == Tree(2, map[], GONE);
    BumpsTree(2, WITH_FILE, map[], GONE);
  }

  lemma MkdirMakesLower()
    ensures MkdirCommits(Tree(3, map[], GONE), UPPER, "n", LOWER)
    ensures ApplyMkdir(Tree(3, map[], GONE), UPPER, "n", LOWER) == Deep(3, WITH_LOWER, DRIVER, DRIVER)
  {
  }

  lemma MkdirBatch()
    ensures Commits(Tree(3, map[], GONE), MKDIR, PlanAt(3, map[]))
    ensures Commit(Tree(3, map[], GONE), MKDIR, PlanAt(3, map[])) == Deep(4, WITH_LOWER, DRIVER, DRIVER)
  {
    hide Bump, FenceHolds;
    FenceIsAt(Tree(3, map[], GONE), 3, map[]);
    MkdirMakesLower();
    hide ApplyMkdir, MkdirCommits, Tree, Deep;
    BumpsDeep(3, map[], WITH_LOWER);
  }

  /** The removal of the file that is gone deletes the entry of the lower directory. */
  lemma SwappedBatch()
    ensures Commits(Deep(4, WITH_LOWER, DRIVER, DRIVER), REMOVE, PlanAt(4, WITH_LOWER))
    ensures Commit(Deep(4, WITH_LOWER, DRIVER, DRIVER), REMOVE, PlanAt(4, WITH_LOWER)) == Deep(5, map[], DRIVER, DRIVER)
  {
    hide Bump, FenceHolds;
    FenceIsAt(Deep(4, WITH_LOWER, DRIVER, DRIVER), 4, WITH_LOWER);
    assert WITH_LOWER - {"n"} == map[];
    assert ApplyRemove(Deep(4, WITH_LOWER, DRIVER, DRIVER), UPPER, "n", FILE) == Deep(4, map[], DRIVER, DRIVER);
    BumpsDeep(4, WITH_LOWER, map[]);
  }

  // ---------------------------------------------------------------- the upper directory

  const BARE := Bootstrap(ROOT, Some(DRIVER))
  const MKDIR_UPPER := Request.Mkdir(ROOT, "a", UPPER)
  const BARE_PLAN: Plan := map[ROOT := Row(Directory(None, "", true, 1), map[])]

  lemma UpperBatch()
    ensures Commits(BARE, MKDIR_UPPER, BARE_PLAN) && Commit(BARE, MKDIR_UPPER, BARE_PLAN) == Tree(1, map[], map[])
  {
    hide Bump;
    var made := ApplyMkdir(BARE, ROOT, "a", UPPER);
    var t := Tree(1, map[], map[]);
    assert BumpedLinks(RootEntries(1), ROOT, BARE_PLAN) == RootEntries(1);
    assert BumpedLinks(map[], UPPER, BARE_PLAN) == map[];
    hide BumpedLinks;
    BumpIs(made, BARE_PLAN, t);
  }

  const MAKE_UPPER := [BeginStep(0, MKDIR_UPPER), AdmitStep(0), AdmitStep(0)] + [ReadStep(0), CommitStep(0)]

  lemma UpperRead(s: System)
    requires s.ns == BARE && WorkerAt(s, 0) == Restart(MKDIR_UPPER)
    ensures Execute(s, ReadStep(0)) == Goto(s, 0, Planned(MKDIR_UPPER, BARE_PLAN, {ROOT}))
  {
    assert map[][ROOT := Row(BARE.directories[ROOT], BARE.entries[ROOT])] == BARE_PLAN;
    assert {} + {ROOT} == {ROOT};
    assert PlanAccepted(MKDIR_UPPER, BARE_PLAN, {ROOT});
  }

  lemma MakesUpper(s: System)
    requires s.ns == BARE && WorkerAt(s, 0).Idle?
    ensures Run(s, MAKE_UPPER) == Goto(s, 0, Idle).(ns := Tree(1, map[], map[]))
  {
    hide Read, Run, Commits, Commit;
    var steps := [BeginStep(0, MKDIR_UPPER), AdmitStep(0), AdmitStep(0)];
    AdmitsMkdir(s, MKDIR_UPPER);
    var s1 := Run(s, steps);
    RunConcat(s, steps, [ReadStep(0), CommitStep(0)]);
    RunTwo(s1, ReadStep(0), CommitStep(0));
    UpperRead(s1);
    UpperBatch();
    GotoTwice(s, 0, Restart(MKDIR_UPPER), Planned(MKDIR_UPPER, BARE_PLAN, {ROOT}));
    GotoTwice(s, 0, Planned(MKDIR_UPPER, BARE_PLAN, {ROOT}), Idle);
  }

  /** A mkdir below a directory that is active and has a driver is admitted. */
  lemma AdmitsMkdir(s: System, request: Request)
    requires WorkerAt(s, 0).Idle? && request.Mkdir? && IsActive(s.ns, request.parent) && request.parent in s.ns.drivers
    ensures Run(s, [BeginStep(0, request), AdmitStep(0), AdmitStep(0)]) == Goto(s, 0, Restart(request))
  {
    hide Run;
    RunThree(s, BeginStep(0, request), AdmitStep(0), AdmitStep(0));
    GotoTwice(s, 0, Admitting(request, 0), Admitting(request, 1));
    GotoTwice(s, 0, Admitting(request, 1), Restart(request));
  }

  // ---------------------------------------------------------------- the run up to the lost entry

  function Reads(w: nat): seq<Step> {
    [ReadStep(w), ReadStep(w), CommitStep(w)]
  }

  /** Worker 0 puts a file; worker 1 loads its removal; worker 0 removes it and makes a directory of that name. */
  const LOSE_ENTRY :=
    ([BeginStep(0, PUT)] + Reads(0)) + [BeginStep(1, REMOVE), AdmitStep(1)]
    + ([BeginStep(0, REMOVE), AdmitStep(0)] + Reads(0))
    + ([BeginStep(0, MKDIR), AdmitStep(0), AdmitStep(0)] + Reads(0)) + Reads(1)

  lemma Puts(s: System)
    requires s.ns == Tree(1, map[], map[]) && WorkerAt(s, 0).Idle?
    ensures Run(s, [BeginStep(0, PUT)] + Reads(0)) == Goto(s, 0, Idle).(ns := Tree(2, WITH_FILE, LIVE))
  {
    hide Run, Commits, Commit;
    RunFirst(s, BeginStep(0, PUT), Reads(0));
    LinksOfPlan(1, map[]);
    PutBatch();
    Mutates(Goto(s, 0, Restart(PUT)), 0, PUT, 1, map[], Tree(2, WITH_FILE, LIVE));
    GotoTwice(s, 0, Restart(PUT), Idle);
  }

  lemma AdmitsRemove(s: System, w: nat)
    requires s.ns == Tree(2, WITH_FILE, LIVE) && WorkerAt(s, w).Idle?
    ensures Run(s, [BeginStep(w, REMOVE), AdmitStep(w)]) == Goto(s, w, Restart(REMOVE))
  {
    hide Run;
    RunTwo(s, BeginStep(w, REMOVE), AdmitStep(w));
    GotoTwice(s, w, Admitting(REMOVE, 0), Restart(REMOVE));
  }

  lemma Removes(s: System)
    requires s.ns == Tree(2, WITH_FILE, LIVE) && WorkerAt(s, 0).Idle?
    ensures Run(s, [BeginStep(0, REMOVE), AdmitStep(0)] + Reads(0)) == Goto(s, 0, Idle).(ns := Tree(3, map[], GONE))
  {
    hide Run, Commits, Commit;
    RunConcat(s, [BeginStep(0, REMOVE), AdmitStep(0)], Reads(0));
    AdmitsRemove(s, 0);
    LinksOfPlan(2, WITH_FILE);
    RemoveBatch();
    Mutates(Goto(s, 0, Restart(REMOVE)), 0, REMOVE, 2, WITH_FILE, Tree(3, map[], GONE));
    GotoTwice(s, 0, Restart(REMOVE), Idle);
  }

  lemma MakesLower(s: System)
    requires s.ns == Tree(3, map[], GONE) && WorkerAt(s, 0).Idle?
    ensures Run(s, [BeginStep(0, MKDIR), AdmitStep(0), AdmitStep(0)] + Reads(0))
            == Goto(s, 0, Idle).(ns := Deep(4, WITH_LOWER, DRIVER, DRIVER))
  {
    hide Run, Commits, Commit;
    RunConcat(s, [BeginStep(0, MKDIR), AdmitStep(0), AdmitStep(0)], Reads(0));
    AdmitsMkdir(s, MKDIR);
    LinksOfPlan(3, map[]);
    MkdirBatch();
    Mutates(Goto(s, 0, Restart(MKDIR)), 0, MKDIR, 3, map[], Deep(4, WITH_LOWER, DRIVER, DRIVER));
    GotoTwice(s, 0, Restart(MKDIR), Idle);
  }

  lemma SwappedRemoval(s: System)
    requires s.ns == Deep(4, WITH_LOWER, DRIVER, DRIVER) && WorkerAt(s, 1) == Restart(REMOVE)
    ensures Run(s, Reads(1)) == Goto(s, 1, Idle).(ns := Deep(5, map[], DRIVER, DRIVER))
  {
    hide Run, Commits, Commit;
    LinksOfPlan(4, WITH_LOWER);
    SwappedBatch();
    Mutates(s, 1, REMOVE, 4, WITH_LOWER, Deep(5, map[], DRIVER, DRIVER));
  }

  lemma LosesEntry(s: System)
    requires s.ns == Tree(1, map[], map[]) && WorkerAt(s, 0).Idle? && WorkerAt(s, 1).Idle?
    ensures var t := Run(s, LOSE_ENTRY);
            t.ns == Deep(5, map[], DRIVER, DRIVER) && WorkerAt(t, 0).Idle? && WorkerAt(t, 1).Idle?
  {
    hide Run, Reads, Tree, Deep;
    var a := [BeginStep(0, PUT)] + Reads(0);
    var b: seq<Step> := [BeginStep(1, REMOVE), AdmitStep(1)];
    var c := [BeginStep(0, REMOVE), AdmitStep(0)] + Reads(0);
    var d := [BeginStep(0, MKDIR), AdmitStep(0), AdmitStep(0)] + Reads(0);
    RunConcat(s, a + b + c + d, Reads(1));
    RunConcat(s, a + b + c, d);
    RunConcat(s, a + b, c);
    RunConcat(s, a, b);
    Puts(s);
    AdmitsRemove(Run(s, a), 1);
    Removes(Run(s, a + b));
    MakesLower(Run(s, a + b + c));
    SwappedRemoval(Run(s, a + b + c + d));
  }

  // ---------------------------------------------------------------- the two mounts

  function Mounting(d: DirectoryId): seq<Step> {
    [BeginPlacementStep(0, d, OTHER, 2), PlacementReadStep(0), PlacementReadStep(0)]
    + [PlacementReadStep(0), CommitPlacementStep(0)]
  }

  /** No directory with entries lies below the root. */
  lemma NothingBelowRoot(ns: Namespace, d: DirectoryId)
    requires ns.directories.Keys == {ROOT, UPPER, LOWER} && ns.directories[ROOT].parent == None && d != ROOT
    requires UPPER in ns.entries && ns.entries[UPPER] == map[] && LOWER in ns.entries && ns.entries[LOWER] == map[]
    ensures !SubtreeHasEntries(ns, d)
  {
    forall x | Descends(ns, x, d) ensures x == UPPER || x == LOWER {
      var path: seq<DirectoryId> :| IsDescent(ns, path) && path[0] == x && path[|path| - 1] == d;
      if |path| > 1 { assert ParentIs(ns.directories, path[0], path[1]); }
    }
  }

  /** The only mount there can be lies above nothing. */
  lemma NoMountAbove(ns: Namespace, d: DirectoryId)
    requires forall x :: IsExplicit(ns, x) ==> forall c :: !ParentIs(ns.directories, c, x)
    ensures !UnderMount(ns, d)
  {
    forall c, i | IsChain(ns.directories, c) && c[0] == d && 1 <= i < |c| ensures !IsExplicit(ns, c[i]) {
      assert ParentIs(ns.directories, c[i - 1], c[i]);
    }
  }

  /** A replacement that nobody interrupts. */
  lemma Places(s: System, d: DirectoryId, t: Namespace)
    requires WorkerAt(s, 0).Idle? && IsActive(s.ns, d) && d in s.ns.placements && s.ns.placements[d] == 2
    requires Desired(s.ns, d, OTHER) == Some(ExplicitMount) && ChangeIsSafe(s.ns, d, OTHER) && DriverCount(s.ns, d) == 1
    requires ReplacePlacement(s.ns, d, OTHER, ExplicitMount, 2, 1) == t
    ensures Run(s, Mounting(d)) == Goto(s, 0, Idle).(ns := t)
  {
    hide Run, Desired, ChangeIsSafe, ReplacePlacement;
    var first, last := [BeginPlacementStep(0, d, OTHER, 2), PlacementReadStep(0), PlacementReadStep(0)],
                       [PlacementReadStep(0), CommitPlacementStep(0)];
    RunConcat(s, first, last);
    RunThree(s, first[0], first[1], first[2]);
    RunTwo(Run(s, first), last[0], last[1]);
    var p := Placing(d, OTHER, 2, None, false);
    var q := p.(chosen := Some(ExplicitMount));
    GotoTwice(s, 0, p, q);
    GotoTwice(s, 0, q, q.(safe := true));
    GotoTwice(s, 0, q.(safe := true), PlacementReady(d, OTHER, ExplicitMount, 2, 1));
    GotoTwice(s, 0, PlacementReady(d, OTHER, ExplicitMount, 2, 1), Idle);
  }

  /** The lower directory is mounted first, then the upper one. */
  lemma MayBeMounted(ns: Namespace, d: DirectoryId)
    requires (d == LOWER && ns == Deep(5, map[], DRIVER, DRIVER)) || (d == UPPER && ns == Deep(5, map[], DRIVER, OTHER))
    ensures IsActive(ns, d) && d in ns.placements && ns.placements[d] == 2 && DriverCount(ns, d) == 1
    ensures Desired(ns, d, OTHER) == Some(ExplicitMount) && ChangeIsSafe(ns, d, OTHER)
    ensures PlacementCommits(ns, d, OTHER, ExplicitMount, 2, 1)
  {
    hide SubtreeHasEntries, UnderMount;
    NothingBelowRoot(ns, d);
    NoMountAbove(ns, d);
    UnderFewerMounts(ns, d);
  }

  lemma MountsLower(s: System)
    requires s.ns == Deep(5, map[], DRIVER, DRIVER) && WorkerAt(s, 0).Idle?
    ensures Run(s, Mounting(LOWER)) == Goto(s, 0, Idle).(ns := Deep(5, map[], DRIVER, OTHER))
  {
    hide Run, Desired, ChangeIsSafe, PlacementCommits, Mounting;
    MayBeMounted(s.ns, LOWER);
    assert Mounts(DRIVER, DRIVER)[LOWER := Mount(OTHER, Explicit)] == Mounts(DRIVER, OTHER);
    assert ReplacePlacement(s.ns, LOWER, OTHER, ExplicitMount, 2, 1) == Deep(5, map[], DRIVER, OTHER);
    Places(s, LOWER, Deep(5, map[], DRIVER, OTHER));
  }

  lemma MountsUpper(s: System)
    requires s.ns == Deep(5, map[], DRIVER, OTHER) && WorkerAt(s, 0).Idle?
    ensures Run(s, Mounting(UPPER)) == Goto(s, 0, Idle).(ns := Deep(5, map[], OTHER, OTHER))
  {
    hide Run, Desired, ChangeIsSafe, PlacementCommits, Mounting;
    MayBeMounted(s.ns, UPPER);
    assert Mounts(DRIVER, OTHER)[UPPER := Mount(OTHER, Explicit)] == Mounts(OTHER, OTHER);
    assert ReplacePlacement(s.ns, UPPER, OTHER, ExplicitMount, 2, 1) == Deep(5, map[], OTHER, OTHER);
    Places(s, UPPER, Deep(5, map[], OTHER, OTHER));
  }

  function NestRun(): seq<Step> {
    MAKE_UPPER + LOSE_ENTRY + Mounting(LOWER) + Mounting(UPPER)
  }

  /** After the run both directories are active mounts, one below the other. */
  lemma MountsNest()
    ensures var ns := Run(Initial(ROOT, Some(DRIVER)), NestRun()).ns;
            && IsChain(ns.directories, [LOWER, UPPER, ROOT]) && IsExplicit(ns, LOWER) && IsExplicit(ns, UPPER)
            && IsActive(ns, LOWER) && IsActive(ns, UPPER)
  {
    hide Run, Mounting, Tree, Deep;
    var s := Initial(ROOT, Some(DRIVER));
    RunConcat(s, MAKE_UPPER + LOSE_ENTRY + Mounting(LOWER), Mounting(UPPER));
    RunConcat(s, MAKE_UPPER + LOSE_ENTRY, Mounting(LOWER));
    RunConcat(s, MAKE_UPPER, LOSE_ENTRY);
    MakesUpper(s);
    LosesEntry(Run(s, MAKE_UPPER));
    MountsLower(Run(s, MAKE_UPPER + LOSE_ENTRY));
    MountsUpper(Run(s, MAKE_UPPER + LOSE_ENTRY + Mounting(LOWER)));
    Nested();
  }

  lemma Nested()
    ensures var ns := Deep(5, map[], OTHER, OTHER);
            && IsChain(ns.directories, [LOWER, UPPER, ROOT]) && IsExplicit(ns, LOWER) && IsExplicit(ns, UPPER)
            && IsActive(ns, LOWER) && IsActive(ns, UPPER)
  {
  }
}
