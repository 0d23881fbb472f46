/**
 One filesystem's directory tree as its tables hold it, and every batch that rewrites it: mkdir,
 remove, rename, put and the replacement of a directory's driver, each with the guards and triggers
 that make the batch abort. A directory's Merkle root is left out: a row's revision moves with every
 change of its root, so the revision fence implies the root fence.
 */
module NamespaceTables {
  import opened Options

  type DirectoryId = nat
  type FileId = nat
  type Driver = nat

  const MAXIMUM_DIRECTORY_DEPTH := 32

  datatype Subject = FileSubject(file: FileId) | DirectorySubject(directory: DirectoryId)
  datatype Entry = Entry(subject: Subject, revision: nat)
  datatype Directory = Directory(parent: Option<DirectoryId>, name: string, active: bool, revision: nat)
  datatype File = File(active: bool, driver: Driver)
  datatype MountKind = Default | Explicit
  datatype Mount = Mount(driver: Driver, kind: MountKind)

  datatype Namespace = Namespace(
    root: DirectoryId,
    directories: map<DirectoryId, Directory>,
    entries: map<DirectoryId, map<string, Entry>>,
    files: map<FileId, File>,
    drivers: map<DirectoryId, Driver>,
    mounts: map<DirectoryId, Mount>,
    placements: map<DirectoryId, nat>)

  /** What a planner reads of one directory: its row and the entries that its root vouches for. */
  datatype Row = Row(directory: Directory, entries: map<string, Entry>)
  type Plan = map<DirectoryId, Row>

  /** A request with what its handler loaded before planning. */
  datatype Request =
    | Mkdir(parent: DirectoryId, name: string, child: DirectoryId)
    | Remove(directory: DirectoryId, name: string, subject: Subject, revision: nat)
    | Rename(source: DirectoryId, name: string, destination: DirectoryId, newName: string, subject: Subject, revision: nat)
    | PutNew(directory: DirectoryId, name: string, file: FileId, driver: Driver)
    | PutOver(directory: DirectoryId, name: string, file: FileId, driver: Driver, revision: nat)

  /** The bootstrap batch: a root, with its default driver unless that is provisioned later. */
  function Bootstrap(root: DirectoryId, driver: Option<Driver>): Namespace {
    Namespace(root,
              map[root := Directory(None, "", true, 1)], map[root := map[]], map[],
              if driver.Some? then map[root := driver.value] else map[],
              if driver.Some? then map[root := Mount(driver.value, Default)] else map[],
              map[root := if driver.Some? then 2 else 1])
  }

  // ---------------------------------------------------------------- walking up the tree

  predicate ParentIs(directories: map<DirectoryId, Directory>, child: DirectoryId, parent: DirectoryId) {
    child in directories && directories[child].parent == Some(parent)
  }

  /** `c` walks from its first element up to a directory without parent. */
  predicate IsChain(directories: map<DirectoryId, Directory>, c: seq<DirectoryId>) {
    && |c| > 0 && c[|c| - 1] in directories && directories[c[|c| - 1]].parent == None
    && forall i :: 0 <= i < |c| - 1 ==> ParentIs(directories, c[i], c[i + 1])
  }

  predicate IsExplicit(ns: Namespace, d: DirectoryId) {
    d in ns.mounts && ns.mounts[d].kind == Explicit
  }

  /** The recursive `ancestors` query: `a` is `d` or above it. */
  ghost predicate AtOrAbove(ns: Namespace, a: DirectoryId, d: DirectoryId) {
    exists c :: IsChain(ns.directories, c) && c[0] == d && a in c
  }

  ghost predicate UnderMount(ns: Namespace, d: DirectoryId) {
    exists c, i :: IsChain(ns.directories, c) && c[0] == d && 1 <= i < |c| && IsExplicit(ns, c[i])
  }

  /** The recursive `descendants` query: below the first step only active rows are followed. */
  ghost predicate Descends(ns: Namespace, x: DirectoryId, d: DirectoryId) {
    exists path: seq<DirectoryId> :: IsDescent(ns, path) && path[0] == x && path[|path| - 1] == d
  }

  predicate IsDescent(ns: Namespace, path: seq<DirectoryId>) {
    && |path| > 0 && path[|path| - 1] in ns.directories
    && forall i :: 0 <= i < |path| - 1 ==>
         ParentIs(ns.directories, path[i], path[i + 1]) && ns.directories[path[i]].active
  }

  ghost predicate SubtreeHasEntries(ns: Namespace, d: DirectoryId) {
    exists x :: Descends(ns, x, d) && x in ns.entries && ns.entries[x] != map[]
  }

  // ---------------------------------------------------------------- the optimistic fence

  predicate Unchanged(ns: Namespace, plan: Plan, d: DirectoryId)
    requires d in plan
  {
    d in ns.directories && ns.directories[d].revision == plan[d].directory.revision
  }

  predicate FenceHolds(ns: Namespace, plan: Plan) {
    forall d | d in plan :: Unchanged(ns, plan, d)
  }

  predicate LinkPlanned(plan: Plan, p: DirectoryId, name: string, e: Entry) {
    && e.subject.DirectorySubject?
    && var c := e.subject.directory;
       && c in plan && plan[c].directory.parent == Some(p) && plan[c].directory.name == name
       && p in plan && name in plan[p].entries && plan[p].entries[name].revision == e.revision
  }

  function BumpedLinks(entries: map<string, Entry>, p: DirectoryId, plan: Plan): map<string, Entry> {
    map name | name in entries ::
      if LinkPlanned(plan, p, name, entries[name]) then entries[name].(revision := entries[name].revision + 1)
      else entries[name]
  }

  /** The planned directories and the links between them all move to their next revision. */
  function Bump(ns: Namespace, plan: Plan): Namespace {
    ns.(directories := map d | d in ns.directories ::
          if d in plan then ns.directories[d].(revision := ns.directories[d].revision + 1) else ns.directories[d],
        entries := map d | d in ns.entries :: BumpedLinks(ns.entries[d], d, plan))
  }

  /** `UNIQUE (filesystem_id, parent_id, name)`: tombstoned rows count. */
  predicate NameFree(ns: Namespace, parent: DirectoryId, name: string) {
    forall d | d in ns.directories :: !(ns.directories[d].parent == Some(parent) && ns.directories[d].name == name)
  }

  predicate IsActive(ns: Namespace, d: DirectoryId) {
    d in ns.directories && ns.directories[d].active && d in ns.entries
  }

  // ---------------------------------------------------------------- mkdir

  predicate MkdirCommits(ns: Namespace, parent: DirectoryId, name: string, child: DirectoryId) {
    && IsActive(ns, parent) && child !in ns.directories && NameFree(ns, parent, name)
    && name !in ns.entries[parent] && parent in ns.drivers
  }

  function ApplyMkdir(ns: Namespace, parent: DirectoryId, name: string, child: DirectoryId): Namespace
    requires MkdirCommits(ns, parent, name, child)
  {
    ns.(directories := ns.directories[child := Directory(Some(parent), name, true, 1)],
        entries := ns.entries[child := map[]][parent := ns.entries[parent][name := Entry(DirectorySubject(child), 1)]],
        drivers := ns.drivers[child := ns.drivers[parent]],
        placements := ns.placements[child := 2])
  }

  // ---------------------------------------------------------------- remove

  /** The entry named in the request is gone once `DELETE ... AND revision = ?` has run. */
  predicate DeleteMatches(ns: Namespace, d: DirectoryId, name: string, revision: nat)
    requires d in ns.entries
  {
    name in ns.entries[d] ==> ns.entries[d][name].revision == revision
  }

  predicate RemoveCommits(ns: Namespace, d: DirectoryId, name: string, subject: Subject, revision: nat, plan: Plan)
  {
    && d in ns.entries && DeleteMatches(ns, d, name, revision)
    && (subject.DirectorySubject? ==>
          var s := subject.directory;
          && !IsExplicit(ns, s) && s !in plan && s in ns.directories && s in ns.entries && ns.entries[s] == map[])
  }

  function Tombstone(ns: Namespace, subject: Subject): Namespace {
    match subject
    case FileSubject(f) =>
      if f in ns.files then ns.(files := ns.files[f := ns.files[f].(active := false)]) else ns
    case DirectorySubject(s) =>
      if s in ns.directories && ns.directories[s].active then
        ns.(directories := ns.directories[s :=
          ns.directories[s].(active := false, revision := ns.directories[s].revision + 1)])
      else ns
  }

  function ApplyRemove(ns: Namespace, d: DirectoryId, name: string, subject: Subject): Namespace
    requires d in ns.entries
  {
    Tombstone(ns.(entries := ns.entries[d := ns.entries[d] - {name}]), subject)
  }

  // ---------------------------------------------------------------- rename

  predicate SameDriver(ns: Namespace, d: DirectoryId, e: DirectoryId) {
    d in ns.drivers && e in ns.drivers && ns.drivers[d] == ns.drivers[e]
  }

  predicate MoveMatches(ns: Namespace, s: DirectoryId, source: DirectoryId, name: string) {
    s in ns.directories && ns.directories[s].active && ns.directories[s].parent == Some(source) && ns.directories[s].name == name
  }

  /** Nothing else holds an entry of `subject` once the one at `source`, `name` is deleted. */
  predicate IsFree(ns: Namespace, subject: Subject, source: DirectoryId, name: string) {
    forall d, n | d in ns.entries && n in ns.entries[d] && ns.entries[d][n].subject == subject :: d == source && n == name
  }

  /** A row that is not at the source has no statement to move it; its entry is accepted if it is where it should go. */
  ghost predicate RenameCommits(
    ns: Namespace, source: DirectoryId, name: string, destination: DirectoryId, newName: string,
    subject: Subject, revision: nat, plan: Plan)
  {
    && source in ns.entries && destination in ns.entries && SameDriver(ns, source, destination)
    && DeleteMatches(ns, source, name, revision) && newName !in ns.entries[destination] && IsFree(ns, subject, source, name)
    && match subject
       case FileSubject(f) => f in ns.files && ns.files[f].active
       case DirectorySubject(s) =>
         && !IsExplicit(ns, s)
         && (if MoveMatches(ns, s, source, name)
             then s !in plan && NameFree(ns, destination, newName) && !AtOrAbove(ns, s, destination)
             else MoveMatches(ns, s, destination, newName))
  }

  function ApplyRename(
    ns: Namespace, source: DirectoryId, name: string, destination: DirectoryId, newName: string,
    subject: Subject, revision: nat): Namespace
    requires source in ns.entries && destination in ns.entries
  {
    var deleted := ns.entries[source := ns.entries[source] - {name}];
    var moved := ns.(entries := deleted[destination := deleted[destination][newName := Entry(subject, revision + 1)]]);
    if subject.DirectorySubject? && MoveMatches(ns, subject.directory, source, name) then
      var s := subject.directory;
      moved.(directories := ns.directories[s :=
        ns.directories[s].(parent := Some(destination), name := newName, revision := ns.directories[s].revision + 1)])
    else moved
  }

  // ---------------------------------------------------------------- put

  predicate PutNewCommits(ns: Namespace, d: DirectoryId, name: string, f: FileId, driver: Driver) {
    && IsActive(ns, d) && d in ns.drivers && ns.drivers[d] == driver
    && f !in ns.files && name !in ns.entries[d]
  }

  function ApplyPutNew(ns: Namespace, d: DirectoryId, name: string, f: FileId): Namespace
    requires IsActive(ns, d) && d in ns.drivers
  {
    ns.(files := ns.files[f := File(true, ns.drivers[d])],
        entries := ns.entries[d := ns.entries[d][name := Entry(FileSubject(f), 1)]])
  }

  predicate PutOverCommits(ns: Namespace, d: DirectoryId, name: string, f: FileId, driver: Driver, revision: nat) {
    && IsActive(ns, d) && d in ns.drivers && ns.drivers[d] == driver && f in ns.files && ns.files[f].active
    && name in ns.entries[d] && ns.entries[d][name] == Entry(FileSubject(f), revision)
  }

  function ApplyPutOver(ns: Namespace, d: DirectoryId, name: string, f: FileId): Namespace
    requires IsActive(ns, d) && d in ns.drivers && name in ns.entries[d]
  {
    ns.(files := ns.files[f := File(true, ns.drivers[d])],
        entries := ns.entries[d := ns.entries[d][name := Entry(FileSubject(f), ns.entries[d][name].revision + 1)]])
  }

  // ---------------------------------------------------------------- one mutation batch

  ghost predicate Commits(ns: Namespace, request: Request, plan: Plan) {
    FenceHolds(ns, plan) &&
    match request
    case Mkdir(parent, name, child) => MkdirCommits(ns, parent, name, child)
    case Remove(d, name, subject, revision) => RemoveCommits(ns, d, name, subject, revision, plan)
    case Rename(source, name, destination, newName, subject, revision) =>
      RenameCommits(ns, source, name, destination, newName, subject, revision, plan)
    case PutNew(d, name, f, driver) => PutNewCommits(ns, d, name, f, driver)
    case PutOver(d, name, f, driver, revision) => PutOverCommits(ns, d, name, f, driver, revision)
  }

  ghost function Applied(ns: Namespace, request: Request, plan: Plan): Namespace
    requires Commits(ns, request, plan)
  {
    match request
    case Mkdir(parent, name, child) => ApplyMkdir(ns, parent, name, child)
    case Remove(d, name, subject, revision) => ApplyRemove(ns, d, name, subject)
    case Rename(source, name, destination, newName, subject, revision) =>
      ApplyRename(ns, source, name, destination, newName, subject, revision)
    case PutNew(d, name, f, driver) => ApplyPutNew(ns, d, name, f)
    case PutOver(d, name, f, driver, revision) => ApplyPutOver(ns, d, name, f)
  }

  /** One D1 batch: everything, or nothing when a guard or trigger refuses. */
  ghost function Commit(ns: Namespace, request: Request, plan: Plan): Namespace {
    if Commits(ns, request, plan) then Bump(Applied(ns, request, plan), plan) else ns
  }

  // ---------------------------------------------------------------- choosing a directory's driver

  datatype DesiredMount = RootDefault | ExplicitMount | Inherited

  function StoredKind(desired: DesiredMount): Option<MountKind> {
    match desired
    case RootDefault => Some(Default)
    case ExplicitMount => Some(Explicit)
    case Inherited => None
  }

  /** `desired`: default at the root, inheritance for the parent's driver, else a mount unless it would nest. */
  ghost function Desired(ns: Namespace, d: DirectoryId, driver: Driver): Option<DesiredMount> {
    if d !in ns.directories || !ns.directories[d].active then None
    else if ns.directories[d].parent == None then Some(RootDefault)
    else
      var p := ns.directories[d].parent.value;
      if p !in ns.drivers then None
      else if ns.drivers[p] == driver then Some(Inherited)
      else if UnderMount(ns, d) then None
      else Some(ExplicitMount)
  }

  /** `change_is_safe`: the driver stays, or nothing in the subtree would be stranded. */
  ghost predicate ChangeIsSafe(ns: Namespace, d: DirectoryId, driver: Driver) {
    (d in ns.drivers && ns.drivers[d] == driver) || !SubtreeHasEntries(ns, d)
  }

  function DriverCount(ns: Namespace, d: DirectoryId): nat {
    if d in ns.drivers then 1 else 0
  }

  /** The triggers on inserting the mount row. */
  ghost predicate MountRowAllowed(ns: Namespace, d: DirectoryId, kind: MountKind) {
    && IsActive(ns, d) && (kind == Default <==> ns.directories[d].parent == None)
    && (kind == Explicit ==> ns.entries[d] == map[] && !UnderMount(ns, d))
  }

  /** The trigger on committing: the new row is the root's default, the parent's driver, or a mount. */
  predicate ReplacementIsExact(ns: Namespace, d: DirectoryId, driver: Driver, desired: DesiredMount)
    requires d in ns.directories
  {
    var parent := ns.directories[d].parent;
    if parent == None then desired == RootDefault
    else
      || (parent.value in ns.drivers && ns.drivers[parent.value] == driver && desired == Inherited)
      || desired == ExplicitMount
  }

  ghost predicate PlacementCommits(
    ns: Namespace, d: DirectoryId, driver: Driver, desired: DesiredMount, expected: nat, oldCount: nat)
  {
    && IsActive(ns, d) && d in ns.placements && ns.placements[d] == expected
    && ChangeIsSafe(ns, d, driver) && DriverCount(ns, d) == oldCount
    && (StoredKind(desired).Some? ==> MountRowAllowed(ns.(mounts := ns.mounts - {d}), d, StoredKind(desired).value))
    && ReplacementIsExact(ns, d, driver, desired)
  }

  /** The replacement batch: the old mount and driver rows out, the new ones in; each driver row bumps the revision. */
  ghost function ReplacePlacement(
    ns: Namespace, d: DirectoryId, driver: Driver, desired: DesiredMount, expected: nat, oldCount: nat): Namespace
  {
    if !PlacementCommits(ns, d, driver, desired, expected, oldCount) then ns
    else
      ns.(drivers := ns.drivers[d := driver],
          mounts := if StoredKind(desired).Some? then ns.mounts[d := Mount(driver, StoredKind(desired).value)]
                    else ns.mounts - {d},
          placements := ns.placements[d := expected + oldCount + 1])
  }
}
