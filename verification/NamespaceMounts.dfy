/** Mount points: what the stored driver rows mean, and why replacing one is safe. */
module NamespaceMounts {
  import opened Options
  import opened NamespaceTables
  import opened NamespaceInvariant

  // ---------------------------------------------------------------- resolution along a chain

  /** Walking up from `c[0]`: the nearest explicit mount's driver, or the root's default. */
  function Resolved(ns: Namespace, c: seq<DirectoryId>): Option<Driver>
    decreases |c|
  {
    if c == [] then None
    else if IsExplicit(ns, c[0]) then Some(ns.mounts[c[0]].driver)
    else if |c| == 1 then (if c[0] in ns.mounts then Some(ns.mounts[c[0]].driver) else None)
    else Resolved(ns, c[1..])
  }

  predicate AllActive(ns: Namespace, c: seq<DirectoryId>) {
    forall i :: 0 <= i < |c| ==> c[i] in ns.directories && ns.directories[c[i]].active
  }

  /** A chain from an active directory consists of active directories. */
  lemma {:induction false} ActiveChain(ns: Namespace, c: seq<DirectoryId>)
    requires DirectoriesOk(ns) && IsChain(ns.directories, c) && c[0] in ns.directories && ns.directories[c[0]].active
    ensures AllActive(ns, c) && c[|c| - 1] == ns.root
    decreases |c|
  {
    assert DirectoryOk(ns, c[0]);
    if |c| > 1 {
      assert ParentIs(ns.directories, c[0], c[1]);
      ChainTail(ns.directories, c, 1);
      ActiveChain(ns, c[1..]);
      forall i | 0 <= i < |c| ensures c[i] in ns.directories && ns.directories[c[i]].active {
        if i > 0 { assert c[i] == c[1..][i - 1]; }
      }
    }
  }

  /** The stored driver of an active directory is the one resolved by walking up. */
  lemma {:induction false} StoredIsResolved(ns: Namespace, c: seq<DirectoryId>)
    requires DirectoriesOk(ns) && IsChain(ns.directories, c) && c[0] in ns.directories && ns.directories[c[0]].active
    ensures Resolved(ns, c) == if c[0] in ns.drivers then Some(ns.drivers[c[0]]) else None
    decreases |c|
  {
    hide ChainOk;
    var d := c[0];
    assert DirectoryOk(ns, d) && MountOk(ns, d);
    if |c| == 1 {
      assert d == ns.root;
    } else if !IsExplicit(ns, d) {
      assert ParentIs(ns.directories, d, c[1]);
      assert d !in ns.mounts;
      ChainTail(ns.directories, c, 1);
      StoredIsResolved(ns, c[1..]);
    }
  }

  /** On a chain of an active directory, a directory stores the root's driver exactly when no mount lies on it. */
  lemma {:induction false} RootDriverMeansNoMount(ns: Namespace, c: seq<DirectoryId>)
    requires DirectoriesOk(ns) && IsChain(ns.directories, c) && c[0] in ns.directories && ns.directories[c[0]].active
    requires c[0] in ns.drivers && ns.root in ns.drivers
    ensures ns.drivers[c[0]] == ns.drivers[ns.root] <==> forall i :: 0 <= i < |c| ==> !IsExplicit(ns, c[i])
    decreases |c|
  {
    hide ChainOk;
    var d := c[0];
    assert DirectoryOk(ns, d) && MountOk(ns, d);
    if |c| == 1 {
      assert d == ns.root;
    } else {
      assert ParentIs(ns.directories, d, c[1]);
      ChainTail(ns.directories, c, 1);
      RootDriverMeansNoMount(ns, c[1..]);
      assert (forall i :: 0 <= i < |c| ==> !IsExplicit(ns, c[i])) <==>
             (!IsExplicit(ns, d) && forall i :: 0 <= i < |c[1..]| ==> !IsExplicit(ns, c[1..][i])) by {
        assert forall i :: 1 <= i < |c| ==> c[i] == c[1..][i - 1];
      }
    }
  }

  lemma NoMountAbove(ns: Namespace, c: seq<DirectoryId>, i: nat)
    requires DirectoriesOk(ns) && IsChain(ns.directories, c) && i < |c| && IsExplicit(ns, c[i])
    ensures forall j :: i < j < |c| ==> !IsExplicit(ns, c[j])
  {
    hide ChainOk;
    if i + 1 < |c| {
      assert MountOk(ns, c[i]) && ParentIs(ns.directories, c[i], c[i + 1]) && DirectoryOk(ns, c[i]);
      ChainTail(ns.directories, c, i + 1);
      RootDriverMeansNoMount(ns, c[i + 1..]);
      forall j | i < j < |c| ensures !IsExplicit(ns, c[j]) { assert c[j] == c[i + 1..][j - i - 1]; }
    }
  }

  /** At most one explicit mount lies on any path from a directory to the root. */
  lemma OneMountPerPath(ns: Namespace, c: seq<DirectoryId>, i: nat, j: nat)
    requires DirectoriesOk(ns) && IsChain(ns.directories, c) && i < |c| && j < |c|
    requires IsExplicit(ns, c[i]) && IsExplicit(ns, c[j])
    ensures i == j
  {
    hide DirectoriesOk, IsChain, IsExplicit;
    NoMountAbove(ns, c, i);
    NoMountAbove(ns, c, j);
  }

  // ---------------------------------------------------------------- the answer of `desired`

  /** Lying under a mount shows in the parent's stored driver alone. */
  lemma UnderMountShows(ns: Namespace, d: DirectoryId)
    requires DirectoriesOk(ns) && d in ns.directories && ns.directories[d].active && ns.directories[d].parent.Some?
    ensures var p := ns.directories[d].parent.value;
            p in ns.drivers && ns.root in ns.drivers && (UnderMount(ns, d) <==> ns.drivers[p] != ns.drivers[ns.root])
  {
    var p := ns.directories[d].parent.value;
    assert DirectoryOk(ns, d) && ChainOk(ns, d);
    var c :| IsChain(ns.directories, c) && c[0] == d;
    assert |c| > 1;
    assert ParentIs(ns.directories, d, c[1]);
    ChainTail(ns.directories, c, 1);
    RootDriverMeansNoMount(ns, c[1..]);
    if UnderMount(ns, d) {
      var e, i :| IsChain(ns.directories, e) && e[0] == d && 1 <= i < |e| && IsExplicit(ns, e[i]);
      ChainUnique(ns.directories, c, e);
      assert c[i] == c[1..][i - 1];
    } else {
      forall i | 0 <= i < |c[1..]| ensures !IsExplicit(ns, c[1..][i]) {
        assert c[1..][i] == c[i + 1];
      }
    }
  }

  /** `desired` as a comparison of three stored drivers. */
  function DesiredByDrivers(own: Driver, parent: Driver, root: Driver): Option<DesiredMount> {
    if parent == own then Some(Inherited) else if parent != root then None else Some(ExplicitMount)
  }

  lemma DesiredShows(ns: Namespace, d: DirectoryId, driver: Driver)
    requires DirectoriesOk(ns) && d in ns.directories && ns.directories[d].active
    ensures ns.directories[d].parent == None ==> Desired(ns, d, driver) == Some(RootDefault)
    ensures ns.directories[d].parent.Some? ==>
              var p := ns.directories[d].parent.value;
              && p in ns.drivers && ns.root in ns.drivers
              && Desired(ns, d, driver) == DesiredByDrivers(driver, ns.drivers[p], ns.drivers[ns.root])
  {
    if ns.directories[d].parent.Some? { UnderMountShows(ns, d); }
  }

  lemma DescentEnds(ns: Namespace, path: seq<DirectoryId>)
    requires IsDescent(ns, path) && |path| > 1
    ensures exists c :: ParentIs(ns.directories, c, path[|path| - 1]) && ns.directories[c].active
  {
    assert ParentIs(ns.directories, path[|path| - 2], path[|path| - 1]);
  }

  /** `change_is_safe` asks about a whole subtree, but an empty directory has none. */
  lemma EmptySubtree(ns: Namespace, d: DirectoryId)
    requires DirectoriesOk(ns) && d in ns.entries
    ensures SubtreeHasEntries(ns, d) <==> ns.entries[d] != map[]
  {
    hide ChainOk;
    if ns.entries[d] != map[] {
      assert IsDescent(ns, [d]);
      assert Descends(ns, d, d);
    } else if SubtreeHasEntries(ns, d) {
      var x :| Descends(ns, x, d) && x in ns.entries && ns.entries[x] != map[];
      var path :| IsDescent(ns, path) && path[0] == x && path[|path| - 1] == d;
      EmptyHasNoChildren(ns, d);
      if |path| > 1 { DescentEnds(ns, path); }
    }
  }

  lemma DescentOfChain(ns: Namespace, c: seq<DirectoryId>)
    requires IsChain(ns.directories, c) && AllActive(ns, c)
    ensures IsDescent(ns, c)
  {
    forall i | 0 <= i < |c| - 1 ensures ParentIs(ns.directories, c[i], c[i + 1]) && ns.directories[c[i]].active {
      assert c[i] in ns.directories;
    }
  }

  /** A root without entries stands alone. */
  lemma LonelyRoot(ns: Namespace, d: DirectoryId)
    requires DirectoriesOk(ns) && ns.root in ns.entries && ns.entries[ns.root] == map[]
    requires d in ns.directories && ns.directories[d].active
    ensures d == ns.root
  {
    assert ChainOk(ns, d);
    var c :| IsChain(ns.directories, c) && c[0] == d;
    ActiveChain(ns, c);
    EmptyHasNoChildren(ns, ns.root);
    if |c| > 1 { DescentOfChain(ns, c); DescentEnds(ns, c); }
  }

  // ---------------------------------------------------------------- replacing a driver

  /** The replacement of an unchanged driver only moves the placement revision. */
  lemma SameDriverChangesNothing(ns: Namespace, d: DirectoryId, driver: Driver, desired: DesiredMount)
    requires DirectoriesOk(ns) && IsActive(ns, d) && d in ns.drivers && ns.drivers[d] == driver
    requires Desired(ns, d, driver) == Some(desired)
    ensures ns.drivers[d := driver] == ns.drivers
    ensures ns.mounts == if StoredKind(desired).Some? then ns.mounts[d := Mount(driver, StoredKind(desired).value)]
                         else ns.mounts - {d}
  {
    hide ChainOk;
    DesiredShows(ns, d, driver);
    assert DirectoryOk(ns, d) && MountOk(ns, d);
    assert d == ns.root ==> d in ns.mounts;
  }

  lemma PlacementRevisionIsFree(ns: Namespace, d: DirectoryId, revision: nat)
    requires DirectoriesOk(ns) && d in ns.placements
    ensures DirectoriesOk(ns.(placements := ns.placements[d := revision]))
  {
    hide IsChain, ChainOk;
    var t := ns.(placements := ns.placements[d := revision]);
    forall e ensures DirectoryOk(t, e) && MountOk(t, e) { assert DirectoryOk(ns, e) && MountOk(ns, e); }
    forall p, n ensures EntryOk(t, p, n) { assert EntryOk(ns, p, n); }
    ChainsCarry(ns, t);
  }

  /** The tables after a new driver for an empty directory. */
  function WithDriver(ns: Namespace, d: DirectoryId, driver: Driver, desired: DesiredMount): Namespace {
    ns.(drivers := ns.drivers[d := driver],
        mounts := if StoredKind(desired).Some? then ns.mounts[d := Mount(driver, StoredKind(desired).value)]
                  else ns.mounts - {d})
  }

  lemma NewDriverKeeps(ns: Namespace, d: DirectoryId, driver: Driver, desired: DesiredMount)
    requires DirectoriesOk(ns) && IsActive(ns, d) && ns.entries[d] == map[] && Desired(ns, d, driver) == Some(desired)
    ensures DirectoriesOk(WithDriver(ns, d, driver, desired))
  {
    hide IsChain, ChainOk;
    var t := WithDriver(ns, d, driver, desired);
    DesiredShows(ns, d, driver);
    EmptyHasNoChildren(ns, d);
    forall e ensures DirectoryOk(t, e) && MountOk(t, e) { NewDriverKeepsRow(ns, d, driver, desired, e); }
    forall p, n ensures EntryOk(t, p, n) { assert EntryOk(ns, p, n); }
    assert DirectoryOk(ns, d);
    ChainsCarry(ns, t);
  }

  lemma NewDriverKeepsRow(ns: Namespace, d: DirectoryId, driver: Driver, desired: DesiredMount, e: DirectoryId)
    requires DirectoriesOk(ns) && IsActive(ns, d) && ns.entries[d] == map[] && Desired(ns, d, driver) == Some(desired)
    ensures DirectoryOk(WithDriver(ns, d, driver, desired), e) && MountOk(WithDriver(ns, d, driver, desired), e)
  {
    hide IsChain, ChainOk, Desired;
    DesiredShows(ns, d, driver);
    EmptyHasNoChildren(ns, d);
    assert DirectoryOk(ns, e) && MountOk(ns, e) && DirectoryOk(ns, d);
    if e in ns.directories && ns.directories[e].parent == Some(d) { assert ParentIs(ns.directories, e, d); }
    if d == ns.root && e in ns.directories && ns.directories[e].active { LonelyRoot(ns, e); }
  }

  /** A replacement that commits while the handler's answer still holds keeps the tree in order. */
  lemma PlacementKeeps(ns: Namespace, d: DirectoryId, driver: Driver, desired: DesiredMount, expected: nat, oldCount: nat)
    requires DirectoriesOk(ns) && (IsActive(ns, d) ==> Desired(ns, d, driver) == Some(desired))
    ensures DirectoriesOk(ReplacePlacement(ns, d, driver, desired, expected, oldCount))
  {
    hide DirectoriesOk;
    if PlacementCommits(ns, d, driver, desired, expected, oldCount) {
      if d in ns.drivers && ns.drivers[d] == driver {
        SameDriverChangesNothing(ns, d, driver, desired);
        PlacementRevisionIsFree(ns, d, expected + oldCount + 1);
      } else {
        EmptySubtree(ns, d);
        NewDriverKeeps(ns, d, driver, desired);
        PlacementRevisionIsFree(WithDriver(ns, d, driver, desired), d, expected + oldCount + 1);
      }
    }
  }

  /** Nor does it touch a driver that a file lies on. */
  lemma PlacementKeepsFiles(ns: Namespace, d: DirectoryId, driver: Driver, desired: DesiredMount, expected: nat, oldCount: nat)
    requires TreeOk(ns)
    ensures FilesOk(ReplacePlacement(ns, d, driver, desired, expected, oldCount))
  {
    hide DirectoriesOk, FilesOk;
    if PlacementCommits(ns, d, driver, desired, expected, oldCount) {
      if !(d in ns.drivers && ns.drivers[d] == driver) { EmptySubtree(ns, d); }
      FilesCarry(ns, ReplacePlacement(ns, d, driver, desired, expected, oldCount));
    }
  }

  // ---------------------------------------------------------------- the handler's answer stays true

  /** What decides `desired` for an active directory: its parent's driver and the root's. */
  predicate DriversStay(ns: Namespace, t: Namespace, d: DirectoryId) {
    d in ns.directories && d in t.directories && t.directories[d].active ==>
      && ns.directories[d].active && t.directories[d].parent.Some? == ns.directories[d].parent.Some?
      && (ns.directories[d].parent.Some? ==>
            var p, q := ns.directories[d].parent.value, t.directories[d].parent.value;
            && SameIn(ns, t, p, q) && SameIn(ns, t, ns.root, t.root))
  }

  predicate SameIn(ns: Namespace, t: Namespace, p: DirectoryId, q: DirectoryId) {
    p in ns.drivers && q in t.drivers && ns.drivers[p] == t.drivers[q]
  }

  lemma AppliedKeepsDrivers(ns: Namespace, request: Request, plan: Plan, d: DirectoryId)
    requires DirectoriesOk(ns) && Commits(ns, request, plan)
    ensures DriversStay(ns, Applied(ns, request, plan), d)
  {
    hide IsChain, ChainOk, AtOrAbove, IsFree, NameFree, FenceHolds;
    if d in ns.directories {
      assert DirectoryOk(ns, d);
      match request
      case Mkdir(parent, name, child) => MkdirKeepsDrivers(ns, parent, name, child, d);
      case _ =>
    }
  }

  lemma MkdirKeepsDrivers(ns: Namespace, parent: DirectoryId, name: string, child: DirectoryId, d: DirectoryId)
    requires DirectoriesOk(ns) && MkdirCommits(ns, parent, name, child)
    ensures DriversStay(ns, ApplyMkdir(ns, parent, name, child), d)
  {
    hide IsChain, ChainOk, NameFree;
    assert DirectoryOk(ns, d);
  }

  lemma BumpKeepsDrivers(ns: Namespace, t: Namespace, plan: Plan, d: DirectoryId)
    requires DriversStay(ns, t, d)
    ensures DriversStay(ns, Bump(t, plan), d)
  {
  }

  /** A mutation batch moves no directory between drivers and changes no driver. */
  lemma CommitKeepsDrivers(ns: Namespace, request: Request, plan: Plan, d: DirectoryId)
    requires DirectoriesOk(ns)
    ensures DriversStay(ns, Commit(ns, request, plan), d)
  {
    hide IsChain, ChainOk, Commits, Applied, Bump;
    assert DirectoryOk(ns, d);
    if Commits(ns, request, plan) {
      AppliedKeepsDrivers(ns, request, plan, d);
      BumpKeepsDrivers(ns, Applied(ns, request, plan), plan, d);
    }
  }

  /** Replacing a driver cannot touch the parent of an active directory, nor the root above one. */
  lemma PlacementKeepsDrivers(ns: Namespace, x: DirectoryId, driver: Driver, desired: DesiredMount, expected: nat,
                              oldCount: nat, d: DirectoryId)
    requires DirectoriesOk(ns)
    ensures DriversStay(ns, ReplacePlacement(ns, x, driver, desired, expected, oldCount), d)
  {
    hide IsChain, ChainOk;
    assert DirectoryOk(ns, d);
    if PlacementCommits(ns, x, driver, desired, expected, oldCount) && d in ns.directories && ns.directories[d].active
       && !(x in ns.drivers && ns.drivers[x] == driver) {
      EmptySubtree(ns, x);
      EmptyHasNoChildren(ns, x);
      if x == ns.root { LonelyRoot(ns, d); }
      if ns.directories[d].parent.Some? {
        assert ParentIs(ns.directories, d, ns.directories[d].parent.value);
      }
    }
  }

  /** So the answer computed before the batch is the answer at the batch, as long as the directory is active. */
  lemma DesiredStays(ns: Namespace, t: Namespace, d: DirectoryId, driver: Driver)
    requires DirectoriesOk(ns) && DirectoriesOk(t) && DriversStay(ns, t, d) && d in ns.directories && d in t.directories
    requires t.directories[d].active
    ensures Desired(t, d, driver) == Desired(ns, d, driver)
  {
    hide DirectoriesOk;
    DesiredShows(ns, d, driver);
    DesiredShows(t, d, driver);
  }
}
