/** What choosing another driver for a directory means, and what it leaves when nobody disturbs it. */
module NamespaceReplacements {
  import opened Options
  import opened NamespaceTables
  import opened NamespaceProtocol
  import opened NamespaceInvariant
  import opened NamespaceMounts
  import opened NamespaceSafety
  import opened NamespaceRuns

  /** On the path up from `d` an explicit mount lies above it. */
  ghost predicate LiesBelowMount(ns: Namespace, d: DirectoryId) {
    exists c: seq<DirectoryId>, i: nat ::
      && IsChain(ns.directories, c) && c[0] == d && 0 < i < |c|
      && c[i] in ns.mounts && ns.mounts[c[i]].kind == Explicit
  }

  /**
   The root takes its default. A directory takes its parent's driver by inheritance, and another one as a mount of
   its own, unless a mount lies above it already.
   */
  lemma DesiredExactly(ns: Namespace, d: DirectoryId, driver: Driver)
    requires DirectoriesOk(ns) && d in ns.directories && ns.directories[d].active
    ensures d == ns.root ==> Desired(ns, d, driver) == Some(RootDefault)
    ensures d != ns.root ==>
              && ns.directories[d].parent.Some? && ns.directories[d].parent.value in ns.drivers
              && (Desired(ns, d, driver) == Some(Inherited) <==> ns.drivers[ns.directories[d].parent.value] == driver)
              && (Desired(ns, d, driver) == Some(ExplicitMount) <==>
                    ns.drivers[ns.directories[d].parent.value] != driver && !LiesBelowMount(ns, d))
              && (Desired(ns, d, driver) == None <==>
                    ns.drivers[ns.directories[d].parent.value] != driver && LiesBelowMount(ns, d))
  {
    hide IsChain, ChainOk;
    assert DirectoryOk(ns, d);
  }

  /** A change strands nothing when the driver stays, or when no active directory below, or the directory itself, has an entry. */
  lemma SafeExactly(ns: Namespace, d: DirectoryId, driver: Driver)
    requires DirectoriesOk(ns) && IsActive(ns, d)
    ensures ChangeIsSafe(ns, d, driver) <==>
              (d in ns.drivers && ns.drivers[d] == driver) || forall name :: name !in ns.entries[d]
  {
    EmptySubtree(ns, d);
  }

  /** The rows after a replacement: the new driver, its mount row if it needs one, and a later revision. */
  ghost predicate IsReplaced(ns: Namespace, t: Namespace, d: DirectoryId, driver: Driver, desired: DesiredMount) {
    && t == ns.(drivers := ns.drivers[d := driver], mounts := t.mounts, placements := t.placements)
    && (forall x | x != d :: (x in t.mounts <==> x in ns.mounts) && (x in t.mounts ==> t.mounts[x] == ns.mounts[x]))
    && (match desired
        case RootDefault => d in t.mounts && t.mounts[d] == Mount(driver, Default)
        case ExplicitMount => d in t.mounts && t.mounts[d] == Mount(driver, Explicit)
        case Inherited => d !in t.mounts)
    && d in ns.placements && d in t.placements && t.placements[d] > ns.placements[d]
    && (forall x | x != d :: (x in t.placements <==> x in ns.placements) && (x in t.placements ==> t.placements[x] == ns.placements[x]))
  }

  function Undisturbed(w: nat, d: DirectoryId, driver: Driver, expected: nat): seq<Step> {
    [BeginPlacementStep(w, d, driver, expected), PlacementReadStep(w)]
    + [PlacementReadStep(w), PlacementReadStep(w), CommitPlacementStep(w)]
  }

  lemma AsksAlone(s: System, w: nat, d: DirectoryId, driver: Driver, desired: DesiredMount)
    requires IsActive(s.ns, d) && d in s.ns.placements && WorkerAt(s, w).Idle?
    requires Desired(s.ns, d, driver) == Some(desired) && ChangeIsSafe(s.ns, d, driver)
    ensures var expected := s.ns.placements[d];
            var s1 := Execute(Execute(s, BeginPlacementStep(w, d, driver, expected)), PlacementReadStep(w));
            Execute(Execute(s1, PlacementReadStep(w)), PlacementReadStep(w))
            == Goto(s, w, PlacementReady(d, driver, desired, expected, DriverCount(s.ns, d)))
  {
    hide Desired, ChangeIsSafe;
    var expected := s.ns.placements[d];
    GotoTwice(s, w, Placing(d, driver, expected, None, false), Placing(d, driver, expected, Some(desired), false));
    GotoTwice(s, w, Placing(d, driver, expected, Some(desired), false), Placing(d, driver, expected, Some(desired), true));
    GotoTwice(s, w, Placing(d, driver, expected, Some(desired), true),
              PlacementReady(d, driver, desired, expected, DriverCount(s.ns, d)));
  }

  lemma ReplacementLeaves(ns: Namespace, d: DirectoryId, driver: Driver, desired: DesiredMount, expected: nat, oldCount: nat)
    requires d in ns.placements && ns.placements[d] == expected
    ensures var t := ReplacePlacement(ns, d, driver, desired, expected, oldCount);
            if PlacementCommits(ns, d, driver, desired, expected, oldCount) then IsReplaced(ns, t, d, driver, desired) else t == ns
  {
    hide PlacementCommits;
  }

  lemma CommitsAlone(ns: Namespace, d: DirectoryId, driver: Driver, desired: DesiredMount)
    requires DirectoriesOk(ns) && IsActive(ns, d) && d in ns.placements
    requires Desired(ns, d, driver) == Some(desired) && ChangeIsSafe(ns, d, driver)
    ensures var t := ReplacePlacement(ns, d, driver, desired, ns.placements[d], DriverCount(ns, d));
            if desired.ExplicitMount? && exists name :: name in ns.entries[d] then t == ns else IsReplaced(ns, t, d, driver, desired)
  {
    ReplacementRefusedExactly(ns, d, driver, desired);
    ReplacementLeaves(ns, d, driver, desired, ns.placements[d], DriverCount(ns, d));
    hide PlacementCommits, DirectoriesOk, Desired, ChangeIsSafe, ReplacePlacement, IsReplaced;
    assert ns.entries[d] == map[] <==> forall name :: name !in ns.entries[d];
  }

  /**
   A replacement that nobody disturbs stores what the operator chose, if the choice exists and strands nothing;
   only a populated mount point cannot be written again.
   */
  lemma UndisturbedReplacementCommits(s: System, w: nat, d: DirectoryId, driver: Driver, desired: DesiredMount)
    requires DirectoriesOk(s.ns) && IsActive(s.ns, d) && d in s.ns.placements && WorkerAt(s, w).Idle?
    requires Desired(s.ns, d, driver) == Some(desired) && ChangeIsSafe(s.ns, d, driver)
    ensures var t := Run(s, Undisturbed(w, d, driver, s.ns.placements[d]));
            && WorkerAt(t, w).Idle? && (forall v | v != w :: WorkerAt(t, v) == WorkerAt(s, v))
            && if desired.ExplicitMount? && exists name :: name in s.ns.entries[d] then t.ns == s.ns
               else IsReplaced(s.ns, t.ns, d, driver, desired)
  {
    hide DirectoriesOk, Desired, ChangeIsSafe, Run, IsReplaced, ReplacePlacement;
    var expected := s.ns.placements[d];
    AsksAlone(s, w, d, driver, desired);
    CommitsAlone(s.ns, d, driver, desired);
    var first := [BeginPlacementStep(w, d, driver, expected), PlacementReadStep(w)];
    var ready := Goto(s, w, PlacementReady(d, driver, desired, expected, DriverCount(s.ns, d)));
    var last := CommitPlacementStep(w);
    assert Execute(ready, last) ==
             Goto(ready, w, Idle).(ns := ReplacePlacement(s.ns, d, driver, desired, expected, DriverCount(s.ns, d)));
    hide Execute;
    RunConcat(s, first, [PlacementReadStep(w), PlacementReadStep(w), last]);
    RunTwo(s, first[0], first[1]);
    RunThree(Run(s, first), PlacementReadStep(w), PlacementReadStep(w), last);
  }

  /** Without a choice, or where a change would strand entries, the handler gives up. */
  lemma OthersGiveUp(s: System, w: nat)
    requires WorkerAt(s, w).Placing?
    requires var p := WorkerAt(s, w);
             if p.chosen.None? then Desired(s.ns, p.directory, p.driver) == None
             else !p.safe && !ChangeIsSafe(s.ns, p.directory, p.driver)
    ensures Execute(s, PlacementReadStep(w)) == Goto(s, w, Idle)
  {
    hide Desired, ChangeIsSafe;
  }

  /** A root bootstrapped without a driver and given one later is the root bootstrapped with it. */
  lemma LateDriverIsBootstrapped(root: DirectoryId, driver: Driver)
    ensures ReplacePlacement(Bootstrap(root, None), root, driver, RootDefault, 1, 0) == Bootstrap(root, Some(driver))
  {
    var ns := Bootstrap(root, None);
    assert ns.entries[root] == map[];
    assert !SubtreeHasEntries(ns, root);
    assert PlacementCommits(ns, root, driver, RootDefault, 1, 0);
  }
}
