/** What directories and files of every reachable tree satisfy, proved batch by batch and apart from each other. */
module NamespaceInvariant {
  import opened Options
  import opened NamespaceTables
  import opened NamespaceProtocol

  // ---------------------------------------------------------------- rows and links

  predicate LinkTo(ns: Namespace, p: DirectoryId, name: string, subject: Subject) {
    p in ns.entries && name in ns.entries[p] && ns.entries[p][name].subject == subject
  }

  /** A directory row: linked from an active parent when active, without entries when not. */
  predicate DirectoryOk(ns: Namespace, d: DirectoryId) {
    d in ns.directories ==>
      var row := ns.directories[d];
      && d in ns.entries && d in ns.placements
      && (row.parent == None <==> d == ns.root) && (d == ns.root ==> row.active)
      && (!row.active ==> ns.entries[d] == map[])
      && (row.parent.Some? ==>
            var p := row.parent.value;
            && p in ns.directories && d in ns.drivers && p in ns.drivers && ns.root in ns.drivers
            && (row.active ==> ns.directories[p].active && LinkTo(ns, p, row.name, DirectorySubject(d)))
            && (row.active && d !in ns.mounts ==> ns.drivers[d] == ns.drivers[p]))
  }

  /** What an entry may name: the active child of that name, or an active file on the directory's driver. */
  predicate SubjectOk(ns: Namespace, p: DirectoryId, name: string, subject: Subject) {
    match subject
    case DirectorySubject(c) =>
      c in ns.directories && ns.directories[c].active && ns.directories[c].parent == Some(p) && ns.directories[c].name == name
    case FileSubject(f) =>
      f in ns.files && ns.files[f].active && p in ns.drivers && ns.files[f].driver == ns.drivers[p]
  }

  predicate EntryOk(ns: Namespace, p: DirectoryId, name: string) {
    p in ns.entries && name in ns.entries[p] ==>
      && p in ns.directories && ns.directories[p].active
      && (ns.entries[p][name].subject.DirectorySubject? ==> SubjectOk(ns, p, name, ns.entries[p][name].subject))
  }

  predicate FileEntryOk(ns: Namespace, p: DirectoryId, name: string) {
    p in ns.entries && name in ns.entries[p] && ns.entries[p][name].subject.FileSubject? ==>
      SubjectOk(ns, p, name, ns.entries[p][name].subject)
  }

  predicate OneHome(ns: Namespace, f: FileId, p: DirectoryId, name: string, q: DirectoryId, other: string) {
    LinkTo(ns, p, name, FileSubject(f)) && LinkTo(ns, q, other, FileSubject(f)) ==> p == q && name == other
  }

  /** An active file has an entry. */
  ghost predicate FileOk(ns: Namespace, f: FileId) {
    f in ns.files && ns.files[f].active ==> exists p, name :: LinkTo(ns, p, name, FileSubject(f))
  }

  /** The root's default, or an explicit mount directly below the root's own storage. */
  predicate MountOk(ns: Namespace, d: DirectoryId) {
    d in ns.mounts ==>
      && d in ns.directories && ns.directories[d].active && d in ns.drivers && ns.drivers[d] == ns.mounts[d].driver
      && (ns.mounts[d].kind == Default <==> d == ns.root)
      && (ns.directories[d].parent.Some? ==>
            var p := ns.directories[d].parent.value;
            p in ns.drivers && ns.root in ns.drivers
            && ns.drivers[p] == ns.drivers[ns.root] && ns.drivers[d] != ns.drivers[ns.root])
  }

  ghost predicate ChainOk(ns: Namespace, d: DirectoryId) {
    d in ns.directories ==> exists c :: IsChain(ns.directories, c) && c[0] == d
  }

  /** Rows, links of directories, mounts and chains; files do not matter. */
  ghost predicate DirectoriesOk(ns: Namespace) {
    && ns.root in ns.directories && (ns.root in ns.drivers ==> ns.root in ns.mounts)
    && ns.entries.Keys == ns.directories.Keys
    && (forall d {:trigger DirectoryOk(ns, d)} :: DirectoryOk(ns, d))
    && (forall p, n {:trigger EntryOk(ns, p, n)} :: EntryOk(ns, p, n))
    && (forall d {:trigger MountOk(ns, d)} :: MountOk(ns, d))
    && (forall d {:trigger ChainOk(ns, d)} :: ChainOk(ns, d))
  }

  ghost predicate FilesOk(ns: Namespace) {
    && (forall p, n {:trigger FileEntryOk(ns, p, n)} :: FileEntryOk(ns, p, n))
    && (forall f, p, n, q, m {:trigger OneHome(ns, f, p, n, q, m)} :: OneHome(ns, f, p, n, q, m))
    && (forall f {:trigger FileOk(ns, f)} :: FileOk(ns, f))
  }

  ghost predicate TreeOk(ns: Namespace) {
    DirectoriesOk(ns) && FilesOk(ns)
  }

  lemma BootstrapOk(root: DirectoryId, driver: Option<Driver>)
    ensures TreeOk(Bootstrap(root, driver))
  {
    var ns := Bootstrap(root, driver);
    forall d ensures DirectoryOk(ns, d) && MountOk(ns, d) {}
    forall p, n ensures EntryOk(ns, p, n) && FileEntryOk(ns, p, n) {}
    forall f, p, n, q, m ensures OneHome(ns, f, p, n, q, m) {}
    forall f ensures FileOk(ns, f) {}
    forall d ensures ChainOk(ns, d) {
      if d == root { assert IsChain(ns.directories, [root]); }
    }
  }

  // ---------------------------------------------------------------- chains

  /** A chain depends on the parents of its own elements only. */
  lemma ChainCarries(before: map<DirectoryId, Directory>, after: map<DirectoryId, Directory>, c: seq<DirectoryId>)
    requires IsChain(before, c)
    requires forall i :: 0 <= i < |c| ==> c[i] in after && (c[i] in before ==> after[c[i]].parent == before[c[i]].parent)
    ensures IsChain(after, c)
  {
    forall i | 0 <= i < |c| - 1 ensures ParentIs(after, c[i], c[i + 1]) {
      assert ParentIs(before, c[i], c[i + 1]);
    }
  }

  lemma ChainTail(directories: map<DirectoryId, Directory>, c: seq<DirectoryId>, i: nat)
    requires IsChain(directories, c) && i < |c|
    ensures IsChain(directories, c[i..])
  {
    forall j | 0 <= j < |c[i..]| - 1 ensures ParentIs(directories, c[i..][j], c[i..][j + 1]) {
      assert ParentIs(directories, c[i + j], c[i + j + 1]);
    }
  }

  /** There is one chain from each directory. */
  lemma {:induction false} ChainUnique(directories: map<DirectoryId, Directory>, c: seq<DirectoryId>, e: seq<DirectoryId>)
    requires IsChain(directories, c) && IsChain(directories, e) && c[0] == e[0]
    ensures c == e
    decreases |c|
  {
    if |c| > 1 && |e| > 1 {
      assert ParentIs(directories, c[0], c[1]) && ParentIs(directories, e[0], e[1]);
      ChainTail(directories, c, 1);
      ChainTail(directories, e, 1);
      ChainUnique(directories, c[1..], e[1..]);
      assert c == [c[0]] + c[1..] && e == [e[0]] + e[1..];
    } else {
      assert |c| > 1 ==> ParentIs(directories, c[0], c[1]);
      assert |e| > 1 ==> ParentIs(directories, e[0], e[1]);
    }
  }

  lemma ChainExtends(directories: map<DirectoryId, Directory>, d: DirectoryId, c: seq<DirectoryId>)
    requires IsChain(directories, c) && ParentIs(directories, d, c[0])
    ensures IsChain(directories, [d] + c)
  {
    forall i | 0 <= i < |[d] + c| - 1 ensures ParentIs(directories, ([d] + c)[i], ([d] + c)[i + 1]) {
      if i > 0 { assert ParentIs(directories, c[i - 1], c[i]); }
    }
  }

  /** Chains survive any step that keeps directories and their parents. */
  lemma ChainsCarry(ns: Namespace, t: Namespace)
    requires forall d :: ChainOk(ns, d)
    requires forall d | d in ns.directories :: d in t.directories && t.directories[d].parent == ns.directories[d].parent
    requires forall d | d in t.directories && d !in ns.directories ::
               t.directories[d].parent.Some? && t.directories[d].parent.value in ns.directories
    ensures forall d :: ChainOk(t, d)
  {
    forall d: DirectoryId ensures ChainOk(t, d) {
      if d in t.directories {
        var from := if d in ns.directories then d else t.directories[d].parent.value;
        assert ChainOk(ns, from);
        var c :| IsChain(ns.directories, c) && c[0] == from;
        ChainMembers(ns.directories, c);
        ChainCarries(ns.directories, t.directories, c);
        if d !in ns.directories {
          assert ParentIs(t.directories, d, c[0]);
          ChainExtends(t.directories, d, c);
        }
      }
    }
  }

  lemma ChainMembers(directories: map<DirectoryId, Directory>, c: seq<DirectoryId>)
    requires IsChain(directories, c)
    ensures forall i :: 0 <= i < |c| ==> c[i] in directories
  {
    forall i | 0 <= i < |c| ensures c[i] in directories {
      if i < |c| - 1 { assert ParentIs(directories, c[i], c[i + 1]); }
    }
  }

  predicate DriverStays(ns: Namespace, t: Namespace, p: DirectoryId) {
    p in ns.drivers ==> p in t.drivers && t.drivers[p] == ns.drivers[p]
  }

  /** Files survive any step that keeps them, the links to them and the drivers of directories with entries. */
  lemma FilesCarry(ns: Namespace, t: Namespace)
    requires t.files == ns.files && FilesOk(ns)
    requires forall p, n, f :: LinkTo(t, p, n, FileSubject(f)) == LinkTo(ns, p, n, FileSubject(f))
    requires forall p | p in ns.entries && ns.entries[p] != map[] :: DriverStays(ns, t, p)
    ensures FilesOk(t)
  {
    forall f, p, n, q, m ensures OneHome(t, f, p, n, q, m) { assert OneHome(ns, f, p, n, q, m); }
    forall f ensures FileOk(t, f) {
      assert FileOk(ns, f);
      if f in ns.files && ns.files[f].active {
        var p, n :| LinkTo(ns, p, n, FileSubject(f));
        assert LinkTo(t, p, n, FileSubject(f));
      }
    }
    forall p, n ensures FileEntryOk(t, p, n) {
      assert FileEntryOk(ns, p, n);
      if p in t.entries && n in t.entries[p] && t.entries[p][n].subject.FileSubject? {
        assert LinkTo(ns, p, n, t.entries[p][n].subject);
        assert DriverStays(ns, t, p);
      }
    }
  }

  lemma FilesDoNotMatter(ns: Namespace, files: map<FileId, File>)
    requires DirectoriesOk(ns)
    ensures DirectoriesOk(ns.(files := files))
  {
    hide IsChain;
    var t := ns.(files := files);
    forall d ensures DirectoryOk(t, d) && MountOk(t, d) { assert DirectoryOk(ns, d) && MountOk(ns, d); }
    forall p, n ensures EntryOk(t, p, n) { assert EntryOk(ns, p, n); }
    forall d ensures ChainOk(t, d) { assert ChainOk(ns, d); }
  }

  // ---------------------------------------------------------------- the revision bump

  predicate SameRow(ns: Namespace, t: Namespace, d: DirectoryId) {
    d in ns.directories && d in t.directories ==>
      && t.directories[d].parent == ns.directories[d].parent && t.directories[d].name == ns.directories[d].name
      && t.directories[d].active == ns.directories[d].active
  }

  predicate SameLink(ns: Namespace, t: Namespace, p: DirectoryId, name: string) {
    p in ns.entries && p in t.entries ==>
      && (name in t.entries[p] <==> name in ns.entries[p])
      && (name in ns.entries[p] ==> t.entries[p][name].subject == ns.entries[p][name].subject)
  }

  /** Only revisions differ. */
  ghost predicate SameShape(ns: Namespace, t: Namespace)
    requires t.directories.Keys == ns.directories.Keys && t.entries.Keys == ns.entries.Keys
  {
    && t == ns.(directories := t.directories, entries := t.entries)
    && (forall d {:trigger SameRow(ns, t, d)} :: SameRow(ns, t, d))
    && (forall p, n {:trigger SameLink(ns, t, p, n)} :: SameLink(ns, t, p, n))
  }

  lemma SameShapeKeeps(ns: Namespace, t: Namespace)
    requires t.directories.Keys == ns.directories.Keys && t.entries.Keys == ns.entries.Keys
    requires DirectoriesOk(ns) && SameShape(ns, t)
    ensures DirectoriesOk(t)
  {
    hide IsChain, ChainOk;
    forall d ensures DirectoryOk(t, d) && MountOk(t, d) { SameShapeKeepsRow(ns, t, d); }
    forall p, n ensures EntryOk(t, p, n) {
      assert EntryOk(ns, p, n) && SameRow(ns, t, p) && SameLink(ns, t, p, n);
      if p in ns.entries && n in ns.entries[p] && ns.entries[p][n].subject.DirectorySubject? {
        assert SameRow(ns, t, ns.entries[p][n].subject.directory);
      }
    }
    forall d | d in ns.directories ensures t.directories[d].parent == ns.directories[d].parent { assert SameRow(ns, t, d); }
    ChainsCarry(ns, t);
  }

  lemma SameShapeKeepsRow(ns: Namespace, t: Namespace, d: DirectoryId)
    requires t.directories.Keys == ns.directories.Keys && t.entries.Keys == ns.entries.Keys
    requires DirectoriesOk(ns) && SameShape(ns, t)
    ensures DirectoryOk(t, d) && MountOk(t, d)
  {
    hide IsChain, ChainOk;
    assert DirectoryOk(ns, d) && MountOk(ns, d) && SameRow(ns, t, d);
    if d in ns.directories {
      forall n ensures n !in ns.entries[d] ==> n !in t.entries[d] { assert SameLink(ns, t, d, n); }
      if ns.directories[d].parent.Some? {
        assert SameRow(ns, t, ns.directories[d].parent.value);
        assert SameLink(ns, t, ns.directories[d].parent.value, ns.directories[d].name);
      }
    }
  }

  lemma SameShapeKeepsFiles(ns: Namespace, t: Namespace)
    requires t.directories.Keys == ns.directories.Keys && t.entries.Keys == ns.entries.Keys
    requires FilesOk(ns) && SameShape(ns, t)
    ensures FilesOk(t)
  {
    hide FilesOk;
    forall p, n, f ensures LinkTo(t, p, n, FileSubject(f)) == LinkTo(ns, p, n, FileSubject(f)) {
      assert SameLink(ns, t, p, n);
    }
    FilesCarry(ns, t);
  }

  lemma BumpHasShape(ns: Namespace, plan: Plan)
    ensures var t := Bump(ns, plan);
            && t.directories.Keys == ns.directories.Keys && t.entries.Keys == ns.entries.Keys && SameShape(ns, t)
  {
    var t := Bump(ns, plan);
    forall d ensures SameRow(ns, t, d) {}
    forall p, n ensures SameLink(ns, t, p, n) {}
  }

  /** The bump matters neither to directories nor to files, in either direction. */
  lemma BumpKeeps(ns: Namespace, plan: Plan)
    ensures DirectoriesOk(ns) ==> DirectoriesOk(Bump(ns, plan))
    ensures FilesOk(ns) ==> FilesOk(Bump(ns, plan))
  {
    hide DirectoriesOk, FilesOk, SameShape, Bump;
    BumpHasShape(ns, plan);
    if DirectoriesOk(ns) { SameShapeKeeps(ns, Bump(ns, plan)); }
    if FilesOk(ns) { SameShapeKeepsFiles(ns, Bump(ns, plan)); }
  }

  // ---------------------------------------------------------------- single facts of the invariant

  lemma TreeHas(ns: Namespace, d: DirectoryId, name: string)
    requires DirectoriesOk(ns)
    ensures DirectoryOk(ns, d) && MountOk(ns, d) && EntryOk(ns, d, name) && ChainOk(ns, d)
    ensures ns.entries.Keys == ns.directories.Keys && ns.root in ns.directories
  {
  }

  lemma FilesHave(ns: Namespace, f: FileId, p: DirectoryId, n: string, q: DirectoryId, m: string)
    requires FilesOk(ns)
    ensures FileOk(ns, f) && OneHome(ns, f, p, n, q, m) && FileEntryOk(ns, p, n)
  {
  }

  // ---------------------------------------------------------------- mkdir

  lemma MkdirKeeps(ns: Namespace, parent: DirectoryId, name: string, child: DirectoryId)
    requires DirectoriesOk(ns) && MkdirCommits(ns, parent, name, child)
    ensures DirectoriesOk(ApplyMkdir(ns, parent, name, child))
  {
    hide IsChain, ChainOk, NameFree;
    var t := ApplyMkdir(ns, parent, name, child);
    forall d ensures DirectoryOk(t, d) { MkdirKeepsRow(ns, parent, name, child, d); }
    assert DirectoryOk(ns, child);
    forall d ensures MountOk(t, d) { assert MountOk(ns, d) && DirectoryOk(ns, d); }
    forall p, n ensures EntryOk(t, p, n) { assert EntryOk(ns, p, n); }
    ChainsCarry(ns, t);
  }

  lemma MkdirNewRow(ns: Namespace, parent: DirectoryId, name: string, child: DirectoryId)
    requires DirectoriesOk(ns) && MkdirCommits(ns, parent, name, child)
    ensures DirectoryOk(ApplyMkdir(ns, parent, name, child), child)
  {
    hide IsChain, ChainOk, NameFree, DirectoriesOk;
    TreeHas(ns, parent, name);
    TreeHas(ns, child, name);
  }

  lemma MkdirKeepsRow(ns: Namespace, parent: DirectoryId, name: string, child: DirectoryId, d: DirectoryId)
    requires DirectoriesOk(ns) && MkdirCommits(ns, parent, name, child)
    ensures DirectoryOk(ApplyMkdir(ns, parent, name, child), d)
  {
    hide IsChain, ChainOk, NameFree, DirectoriesOk;
    if d == child {
      MkdirNewRow(ns, parent, name, child);
    } else {
      TreeHas(ns, d, name);
      if d in ns.directories && ns.directories[d].parent.Some? {
        TreeHas(ns, ns.directories[d].parent.value, name);
        assert ns.directories[d].parent.value != child;
      }
    }
  }

  lemma MkdirKeepsFiles(ns: Namespace, parent: DirectoryId, name: string, child: DirectoryId)
    requires TreeOk(ns) && MkdirCommits(ns, parent, name, child)
    ensures FilesOk(ApplyMkdir(ns, parent, name, child))
  {
    hide FilesOk, IsChain, ChainOk, NameFree;
    FilesCarry(ns, ApplyMkdir(ns, parent, name, child));
  }

  // ---------------------------------------------------------------- entries of files

  /** To the directories, an entry that names a file may come or go below any active directory. */
  lemma FileEntryAdded(ns: Namespace, d: DirectoryId, name: string, f: FileId, revision: nat)
    requires DirectoriesOk(ns) && IsActive(ns, d) && (name in ns.entries[d] ==> ns.entries[d][name].subject.FileSubject?)
    ensures DirectoriesOk(ns.(entries := ns.entries[d := ns.entries[d][name := Entry(FileSubject(f), revision)]]))
  {
    hide IsChain, ChainOk;
    var t := ns.(entries := ns.entries[d := ns.entries[d][name := Entry(FileSubject(f), revision)]]);
    forall e ensures DirectoryOk(t, e) && MountOk(t, e) { assert DirectoryOk(ns, e) && MountOk(ns, e); }
    forall p, n ensures EntryOk(t, p, n) { assert EntryOk(ns, p, n); }
    ChainsCarry(ns, t);
  }

  lemma FileEntryDropped(ns: Namespace, d: DirectoryId, name: string)
    requires DirectoriesOk(ns) && d in ns.entries && (name in ns.entries[d] ==> ns.entries[d][name].subject.FileSubject?)
    ensures DirectoriesOk(ns.(entries := ns.entries[d := ns.entries[d] - {name}]))
  {
    hide IsChain, ChainOk;
    var t := ns.(entries := ns.entries[d := ns.entries[d] - {name}]);
    forall e ensures DirectoryOk(t, e) && MountOk(t, e) { assert DirectoryOk(ns, e) && MountOk(ns, e); }
    forall p, n ensures EntryOk(t, p, n) { assert EntryOk(ns, p, n); }
    ChainsCarry(ns, t);
  }

  lemma PutNewKeepsFiles(ns: Namespace, d: DirectoryId, name: string, f: FileId)
    requires FilesOk(ns) && d in ns.drivers && PutNewCommits(ns, d, name, f, ns.drivers[d])
    ensures FilesOk(ApplyPutNew(ns, d, name, f))
  {
    var t := ApplyPutNew(ns, d, name, f);
    forall p, n ensures FileEntryOk(t, p, n) { assert FileEntryOk(ns, p, n); }
    forall p, n ensures !LinkTo(ns, p, n, FileSubject(f)) { assert FileEntryOk(ns, p, n); }
    forall g, p, n, q, m ensures OneHome(t, g, p, n, q, m) {
      assert OneHome(ns, g, p, n, q, m) && !LinkTo(ns, p, n, FileSubject(f)) && !LinkTo(ns, q, m, FileSubject(f));
    }
    forall g ensures FileOk(t, g) {
      assert FileOk(ns, g);
      if g == f {
        assert LinkTo(t, d, name, FileSubject(f));
      } else if g in ns.files && ns.files[g].active {
        var p, n :| LinkTo(ns, p, n, FileSubject(g));
        assert LinkTo(t, p, n, FileSubject(g));
      }
    }
  }

  lemma PutOverKeepsFiles(ns: Namespace, d: DirectoryId, name: string, f: FileId, revision: nat)
    requires FilesOk(ns) && d in ns.drivers && PutOverCommits(ns, d, name, f, ns.drivers[d], revision)
    ensures FilesOk(ApplyPutOver(ns, d, name, f))
  {
    hide FilesOk;
    var t := ApplyPutOver(ns, d, name, f);
    FilesHave(ns, f, d, name, d, name);
    assert t.files == ns.files;
    FilesCarry(ns, t);
  }

  // ---------------------------------------------------------------- remove

  /** Nothing hangs below an active directory without entries. */
  lemma EmptyHasNoChildren(ns: Namespace, d: DirectoryId)
    requires DirectoriesOk(ns) && d in ns.entries && ns.entries[d] == map[]
    ensures forall c | ParentIs(ns.directories, c, d) :: !ns.directories[c].active
  {
    forall c | ParentIs(ns.directories, c, d) ensures !ns.directories[c].active { assert DirectoryOk(ns, c); }
  }

  lemma RemoveDirectoryKeeps(ns: Namespace, d: DirectoryId, name: string, s: DirectoryId)
    requires DirectoriesOk(ns) && LinkTo(ns, d, name, DirectorySubject(s))
    requires s in ns.entries && ns.entries[s] == map[] && !IsExplicit(ns, s)
    ensures DirectoriesOk(ApplyRemove(ns, d, name, DirectorySubject(s)))
  {
    hide IsChain, ChainOk;
    var t := ApplyRemove(ns, d, name, DirectorySubject(s));
    assert EntryOk(ns, d, name) && DirectoryOk(ns, s);
    forall e ensures DirectoryOk(t, e) && MountOk(t, e) { RemoveDirectoryKeepsRow(ns, d, name, s, e); }
    forall p, n ensures EntryOk(t, p, n) { assert EntryOk(ns, p, n); }
    ChainsCarry(ns, t);
  }

  lemma RemoveDirectoryKeepsRow(ns: Namespace, d: DirectoryId, name: string, s: DirectoryId, e: DirectoryId)
    requires DirectoriesOk(ns) && LinkTo(ns, d, name, DirectorySubject(s))
    requires s in ns.entries && ns.entries[s] == map[] && !IsExplicit(ns, s)
    ensures var t := ApplyRemove(ns, d, name, DirectorySubject(s)); DirectoryOk(t, e) && MountOk(t, e)
  {
    hide IsChain, ChainOk;
    assert EntryOk(ns, d, name) && MountOk(ns, s) && DirectoryOk(ns, s);
    EmptyHasNoChildren(ns, s);
    assert DirectoryOk(ns, e) && MountOk(ns, e);
    if e in ns.directories && ns.directories[e].parent.Some? {
      assert ParentIs(ns.directories, e, ns.directories[e].parent.value);
      assert DirectoryOk(ns, ns.directories[e].parent.value);
    }
  }

  /** A removal that deletes a file's entry and retires no active directory. */
  lemma RemoveEntryKeeps(ns: Namespace, d: DirectoryId, name: string, subject: Subject)
    requires DirectoriesOk(ns) && d in ns.entries && (name in ns.entries[d] ==> ns.entries[d][name].subject.FileSubject?)
    requires !IsActiveDirectory(ns, subject)
    ensures DirectoriesOk(ApplyRemove(ns, d, name, subject))
  {
    hide DirectoriesOk;
    FileEntryDropped(ns, d, name);
    var t := ns.(entries := ns.entries[d := ns.entries[d] - {name}]);
    FilesDoNotMatter(t, ApplyRemove(ns, d, name, subject).files);
  }

  lemma RemoveDirectoryKeepsFiles(ns: Namespace, d: DirectoryId, name: string, s: DirectoryId)
    requires FilesOk(ns) && LinkTo(ns, d, name, DirectorySubject(s))
    ensures FilesOk(ApplyRemove(ns, d, name, DirectorySubject(s)))
  {
    hide FilesOk;
    FilesCarry(ns, ApplyRemove(ns, d, name, DirectorySubject(s)));
  }

  lemma RemoveFileKeepsFiles(ns: Namespace, d: DirectoryId, name: string, f: FileId)
    requires FilesOk(ns) && LinkTo(ns, d, name, FileSubject(f))
    ensures FilesOk(ApplyRemove(ns, d, name, FileSubject(f)))
  {
    var t := ApplyRemove(ns, d, name, FileSubject(f));
    forall p, n ensures FileEntryOk(t, p, n) {
      assert FileEntryOk(ns, p, n) && OneHome(ns, f, p, n, d, name);
    }
    forall g, p, n, q, m ensures OneHome(t, g, p, n, q, m) { assert OneHome(ns, g, p, n, q, m); }
    forall g ensures FileOk(t, g) {
      assert FileOk(ns, g);
      if g != f && g in ns.files && ns.files[g].active {
        var p, n :| LinkTo(ns, p, n, FileSubject(g));
        assert LinkTo(t, p, n, FileSubject(g));
      }
    }
  }

  // ---------------------------------------------------------------- rename

  /** To the directories, a renamed file is an entry that goes and one that comes. */
  lemma RenameFileKeeps(ns: Namespace, source: DirectoryId, name: string, destination: DirectoryId, newName: string,
                        f: FileId, revision: nat)
    requires DirectoriesOk(ns) && source in ns.entries && IsActive(ns, destination)
    requires name in ns.entries[source] ==> ns.entries[source][name].subject.FileSubject?
    requires newName !in ns.entries[destination]
    ensures DirectoriesOk(ApplyRename(ns, source, name, destination, newName, FileSubject(f), revision))
  {
    hide DirectoriesOk;
    FileEntryDropped(ns, source, name);
    FileEntryAdded(ns.(entries := ns.entries[source := ns.entries[source] - {name}]), destination, newName, f, revision + 1);
  }

  /** A free file's one entry is the one that is deleted. */
  lemma RenamedFileWasThere(ns: Namespace, source: DirectoryId, name: string, f: FileId)
    requires FilesOk(ns) && f in ns.files && ns.files[f].active && IsFree(ns, FileSubject(f), source, name)
    ensures LinkTo(ns, source, name, FileSubject(f))
  {
    assert FileOk(ns, f);
    var home, at :| LinkTo(ns, home, at, FileSubject(f));
  }

  lemma RenameFileKeepsFiles(ns: Namespace, source: DirectoryId, name: string, destination: DirectoryId, newName: string,
                             f: FileId, revision: nat)
    requires FilesOk(ns) && source in ns.entries && destination in ns.entries && SameDriver(ns, source, destination)
    requires LinkTo(ns, source, name, FileSubject(f)) && newName !in ns.entries[destination]
    ensures FilesOk(ApplyRename(ns, source, name, destination, newName, FileSubject(f), revision))
  {
    var t := ApplyRename(ns, source, name, destination, newName, FileSubject(f), revision);
    forall p, n ensures FileEntryOk(t, p, n) { assert FileEntryOk(ns, p, n) && FileEntryOk(ns, source, name); }
    forall g, p, n, q, m ensures OneHome(t, g, p, n, q, m) {
      assert OneHome(ns, g, p, n, q, m);
      assert OneHome(ns, f, source, name, p, n) && OneHome(ns, f, source, name, q, m);
    }
    forall g ensures FileOk(t, g) {
      assert FileOk(ns, g);
      if g == f {
        assert LinkTo(t, destination, newName, FileSubject(f));
      } else if g in ns.files && ns.files[g].active {
        var p, n :| LinkTo(ns, p, n, FileSubject(g));
        assert LinkTo(t, p, n, FileSubject(g));
      }
    }
  }

  /** After a move, a chain through the subject goes on along the destination's own chain. */
  lemma MovedChains(ns: Namespace, t: Namespace, s: DirectoryId, destination: DirectoryId)
    requires forall d {:trigger ChainOk(ns, d)} :: ChainOk(ns, d)
    requires s in ns.directories && destination in ns.directories && !AtOrAbove(ns, s, destination)
    requires t.directories.Keys == ns.directories.Keys && t.directories[s].parent == Some(destination)
    requires forall d | d in ns.directories && d != s :: t.directories[d].parent == ns.directories[d].parent
    ensures forall d :: ChainOk(t, d)
  {
    assert ChainOk(ns, destination);
    var up :| IsChain(ns.directories, up) && up[0] == destination;
    assert s !in up;
    ChainMembers(ns.directories, up);
    ChainCarries(ns.directories, t.directories, up);
    assert ParentIs(t.directories, s, destination);
    ChainExtends(t.directories, s, up);
    forall d ensures ChainOk(t, d) {
      assert ChainOk(ns, d);
      if d in ns.directories {
        var c :| IsChain(ns.directories, c) && c[0] == d;
        MovedChain(ns.directories, t.directories, s, [s] + up, c);
      }
    }
  }

  lemma {:induction false} MovedChain(
    before: map<DirectoryId, Directory>, after: map<DirectoryId, Directory>, s: DirectoryId,
    moved: seq<DirectoryId>, c: seq<DirectoryId>)
    requires IsChain(before, c) && IsChain(after, moved) && moved[0] == s
    requires after.Keys == before.Keys
    requires forall d | d in before && d != s :: after[d].parent == before[d].parent
    ensures exists e :: IsChain(after, e) && e[0] == c[0]
    decreases |c|
  {
    if c[0] == s {
    } else if |c| == 1 {
      assert IsChain(after, c);
    } else {
      assert ParentIs(before, c[0], c[1]);
      ChainTail(before, c, 1);
      MovedChain(before, after, s, moved, c[1..]);
      var e :| IsChain(after, e) && e[0] == c[1];
      assert ParentIs(after, c[0], e[0]);
      ChainExtends(after, c[0], e);
      assert ([c[0]] + e)[0] == c[0];
    }
  }

  /** A directory that may move has its entry where it is moved from. */
  lemma MovedDirectoryWasThere(ns: Namespace, source: DirectoryId, name: string, s: DirectoryId)
    requires DirectoriesOk(ns) && MoveMatches(ns, s, source, name)
    ensures LinkTo(ns, source, name, DirectorySubject(s))
  {
    assert DirectoryOk(ns, s);
  }

  /** In a tree in order, a directory whose entry may be inserted is one that is moved. */
  lemma RenamedDirectoryMoves(ns: Namespace, s: DirectoryId, source: DirectoryId, name: string, destination: DirectoryId, newName: string)
    requires DirectoriesOk(ns) && destination in ns.entries && newName !in ns.entries[destination]
    requires MoveMatches(ns, s, source, name) || MoveMatches(ns, s, destination, newName)
    ensures MoveMatches(ns, s, source, name)
  {
    assert DirectoryOk(ns, s);
  }

  lemma RenameDirectoryKeepsFiles(ns: Namespace, source: DirectoryId, name: string, destination: DirectoryId,
                                  newName: string, s: DirectoryId, revision: nat)
    requires FilesOk(ns) && LinkTo(ns, source, name, DirectorySubject(s)) && destination in ns.entries
    requires newName !in ns.entries[destination]
    ensures FilesOk(ApplyRename(ns, source, name, destination, newName, DirectorySubject(s), revision))
  {
    hide FilesOk;
    FilesCarry(ns, ApplyRename(ns, source, name, destination, newName, DirectorySubject(s), revision));
  }

  /**
   Same effective driver and a subject that is not itself a mount are enough: no driver, mount or
   file anywhere in the moved subtree is touched, and everything below still fits.
   */
  lemma RenameDirectoryKeeps(ns: Namespace, source: DirectoryId, name: string, destination: DirectoryId, newName: string,
                             s: DirectoryId, revision: nat)
    requires DirectoriesOk(ns) && source in ns.entries && IsActive(ns, destination) && SameDriver(ns, source, destination)
    requires newName !in ns.entries[destination] && !IsExplicit(ns, s) && MoveMatches(ns, s, source, name)
    requires !AtOrAbove(ns, s, destination)
    ensures DirectoriesOk(ApplyRename(ns, source, name, destination, newName, DirectorySubject(s), revision))
  {
    hide IsChain, AtOrAbove, ChainOk;
    var t := ApplyRename(ns, source, name, destination, newName, DirectorySubject(s), revision);
    assert DirectoryOk(ns, s) && MountOk(ns, s) && EntryOk(ns, source, name);
    assert s !in ns.mounts;
    MovedChains(ns, t, s, destination);
    MovedRows(ns, source, name, destination, newName, s, revision);
  }

  lemma MovedRows(ns: Namespace, source: DirectoryId, name: string, destination: DirectoryId, newName: string,
                  s: DirectoryId, revision: nat)
    requires DirectoriesOk(ns) && source in ns.entries && IsActive(ns, destination) && SameDriver(ns, source, destination)
    requires newName !in ns.entries[destination] && s !in ns.mounts && MoveMatches(ns, s, source, name)
    requires LinkTo(ns, source, name, DirectorySubject(s)) && s != ns.root && s in ns.drivers
    requires ns.drivers[s] == ns.drivers[source]
    ensures var t := ApplyRename(ns, source, name, destination, newName, DirectorySubject(s), revision);
            (forall d :: DirectoryOk(t, d) && MountOk(t, d)) && (forall p, n :: EntryOk(t, p, n))
  {
    hide IsChain;
    var t := ApplyRename(ns, source, name, destination, newName, DirectorySubject(s), revision);
    assert DirectoryOk(ns, s);
    forall d ensures DirectoryOk(t, d) && MountOk(t, d) { assert DirectoryOk(ns, d) && MountOk(ns, d); }
    forall p, n ensures EntryOk(t, p, n) { assert EntryOk(ns, p, n); }
  }

  // ---------------------------------------------------------------- what holds whatever is swapped

  predicate SamePlace(a: Directory, b: Directory) {
    a.parent == b.parent && a.name == b.name
  }

  /** `UNIQUE (filesystem_id, parent_id, name)`, tombstoned rows included. */
  predicate OneRow(ns: Namespace, d: DirectoryId, e: DirectoryId) {
    d in ns.directories && e in ns.directories && ns.directories[d].parent.Some? && SamePlace(ns.directories[d], ns.directories[e])
    ==> d == e
  }

  /** Every row has entries and a chain to a root, and no two rows share a place; links do not matter. */
  ghost predicate Rooted(ns: Namespace) {
    && ns.entries.Keys == ns.directories.Keys
    && (forall d {:trigger ChainOk(ns, d)} :: ChainOk(ns, d))
    && (forall d, e {:trigger OneRow(ns, d, e)} :: OneRow(ns, d, e))
  }

  lemma RootedHas(ns: Namespace, d: DirectoryId)
    requires Rooted(ns)
    ensures ChainOk(ns, d) && ns.entries.Keys == ns.directories.Keys
  {
  }

  lemma MkdirRooted(ns: Namespace, parent: DirectoryId, name: string, child: DirectoryId)
    requires Rooted(ns) && MkdirCommits(ns, parent, name, child)
    ensures Rooted(ApplyMkdir(ns, parent, name, child))
  {
    hide IsChain, ChainOk;
    var t := ApplyMkdir(ns, parent, name, child);
    forall d, e ensures OneRow(t, d, e) { assert OneRow(ns, d, e); }
    ChainsCarry(ns, t);
  }

  /** A batch that moves no row. */
  lemma SamePlacesRooted(ns: Namespace, t: Namespace)
    requires Rooted(ns) && t.directories.Keys == ns.directories.Keys && t.entries.Keys == ns.entries.Keys
    requires forall d | d in ns.directories ::
               t.directories[d].parent == ns.directories[d].parent && t.directories[d].name == ns.directories[d].name
    ensures Rooted(t)
  {
    hide IsChain, ChainOk;
    forall d, e ensures OneRow(t, d, e) { assert OneRow(ns, d, e); }
    ChainsCarry(ns, t);
  }

  lemma RemoveRooted(ns: Namespace, d: DirectoryId, name: string, subject: Subject)
    requires Rooted(ns) && d in ns.entries
    ensures Rooted(ApplyRemove(ns, d, name, subject))
  {
    hide Rooted;
    KeysOfRooted(ns);
    SamePlacesRooted(ns, ApplyRemove(ns, d, name, subject));
  }

  lemma PutRooted(ns: Namespace, d: DirectoryId, name: string, f: FileId)
    requires Rooted(ns) && IsActive(ns, d) && d in ns.drivers
    ensures Rooted(ApplyPutNew(ns, d, name, f))
    ensures name in ns.entries[d] ==> Rooted(ApplyPutOver(ns, d, name, f))
  {
    hide Rooted;
    KeysOfRooted(ns);
    SamePlacesRooted(ns, ApplyPutNew(ns, d, name, f));
    if name in ns.entries[d] { SamePlacesRooted(ns, ApplyPutOver(ns, d, name, f)); }
  }

  lemma RenameRooted(ns: Namespace, source: DirectoryId, name: string, destination: DirectoryId, newName: string,
                     subject: Subject, revision: nat, plan: Plan)
    requires Rooted(ns) && RenameCommits(ns, source, name, destination, newName, subject, revision, plan)
    ensures Rooted(ApplyRename(ns, source, name, destination, newName, subject, revision))
  {
    hide IsChain, ChainOk, AtOrAbove, IsFree;
    var t := ApplyRename(ns, source, name, destination, newName, subject, revision);
    if subject.DirectorySubject? && MoveMatches(ns, subject.directory, source, name) {
      var s := subject.directory;
      MovedChains(ns, t, s, destination);
      forall d, e ensures OneRow(t, d, e) { assert OneRow(ns, d, e); }
    } else {
      SamePlacesRooted(ns, t);
    }
  }

  lemma AppliedRooted(ns: Namespace, request: Request, plan: Plan)
    requires Rooted(ns) && Commits(ns, request, plan)
    ensures Rooted(Applied(ns, request, plan))
  {
    hide Rooted, IsChain, AtOrAbove, IsFree, NameFree, FenceHolds, ApplyMkdir, ApplyRemove, ApplyRename, ApplyPutNew, ApplyPutOver;
    match request
    case Mkdir(parent, name, child) => MkdirRooted(ns, parent, name, child);
    case Remove(d, name, subject, revision) => RemoveRooted(ns, d, name, subject);
    case Rename(source, name, destination, newName, subject, revision) =>
      RenameRooted(ns, source, name, destination, newName, subject, revision, plan);
    case PutNew(d, name, f, driver) => PutRooted(ns, d, name, f);
    case PutOver(d, name, f, driver, revision) => PutRooted(ns, d, name, f);
  }

  lemma KeysOfRooted(ns: Namespace)
    requires Rooted(ns)
    ensures ns.entries.Keys == ns.directories.Keys
  {
  }

  lemma BumpRooted(ns: Namespace, plan: Plan)
    requires Rooted(ns)
    ensures Rooted(Bump(ns, plan))
  {
    hide Rooted;
    SamePlacesRooted(ns, Bump(ns, plan));
  }

  /** Every batch keeps this, a swapped removal included. */
  lemma CommitRooted(ns: Namespace, request: Request, plan: Plan)
    requires Rooted(ns)
    ensures Rooted(Commit(ns, request, plan))
  {
    hide Rooted, Commits, Applied, Bump;
    if Commits(ns, request, plan) {
      AppliedRooted(ns, request, plan);
      BumpRooted(Applied(ns, request, plan), plan);
    }
  }

  lemma ReplacementRooted(ns: Namespace, d: DirectoryId, driver: Driver, desired: DesiredMount, expected: nat, oldCount: nat)
    requires Rooted(ns)
    ensures Rooted(ReplacePlacement(ns, d, driver, desired, expected, oldCount))
  {
    hide Rooted, PlacementCommits;
    KeysOfRooted(ns);
    SamePlacesRooted(ns, ReplacePlacement(ns, d, driver, desired, expected, oldCount));
  }

  lemma BootstrapRooted(root: DirectoryId, driver: Option<Driver>)
    ensures Rooted(Bootstrap(root, driver))
  {
    var ns := Bootstrap(root, driver);
    BootstrapOk(root, driver);
    forall d, e ensures OneRow(ns, d, e) {}
    forall d ensures ChainOk(ns, d) { TreeHas(ns, d, ""); }
  }

  // ---------------------------------------------------------------- what a plan knows

  /** A row read earlier is not from the future, and is the row of today when the revision has not moved. */
  predicate RowOk(ns: Namespace, plan: Plan, d: DirectoryId) {
    d in plan ==>
      && d in ns.directories && d in ns.entries && plan[d].directory.active
      && plan[d].directory.revision <= ns.directories[d].revision
      && (plan[d].directory.revision == ns.directories[d].revision ==> plan[d] == Row(ns.directories[d], ns.entries[d]))
  }

  ghost predicate PlanOk(ns: Namespace, plan: Plan) {
    forall d {:trigger RowOk(ns, plan, d)} :: RowOk(ns, plan, d)
  }

  /** The plan covers every directory whose entries the batch rewrites. */
  predicate Covers(request: Request, plan: Plan) {
    && Start(request) in plan
    && (request.Remove? ==> request.name in plan[request.directory].entries)
    && (request.Rename? ==> request.name in plan[request.source].entries && request.destination in plan)
  }

  /** A directory's revision moves with every change of its row or of its entries. */
  predicate Pins(ns: Namespace, t: Namespace, d: DirectoryId) {
    d in ns.directories && d in ns.entries ==>
      && d in t.directories && d in t.entries && ns.directories[d].revision <= t.directories[d].revision
      && (ns.directories[d].revision == t.directories[d].revision ==>
            t.directories[d] == ns.directories[d] && t.entries[d] == ns.entries[d])
  }

  /** Before the bump, planned directories keep their revision and all others are pinned already. */
  predicate PinsOutside(ns: Namespace, t: Namespace, plan: Plan, d: DirectoryId) {
    d in ns.directories && d in ns.entries ==>
      && d in t.directories && d in t.entries
      && (if d in plan then t.directories[d].revision == ns.directories[d].revision else Pins(ns, t, d))
  }

  lemma AppliedPins(ns: Namespace, request: Request, plan: Plan, d: DirectoryId)
    requires Covers(request, plan) && Commits(ns, request, plan)
    ensures PinsOutside(ns, Applied(ns, request, plan), plan, d)
  {
    hide IsChain, AtOrAbove, IsFree, NameFree, FenceHolds;
    match request
    case Mkdir(parent, name, child) =>
    case Remove(dir, name, subject, revision) =>
    case Rename(source, name, destination, newName, subject, revision) =>
    case PutNew(dir, name, f, driver) =>
    case PutOver(dir, name, f, driver, revision) =>
  }

  lemma BumpPins(ns: Namespace, t: Namespace, plan: Plan, d: DirectoryId)
    requires PinsOutside(ns, t, plan, d)
    ensures Pins(ns, Bump(t, plan), d)
  {
    if d in t.entries && d !in plan {
      assert BumpedLinks(t.entries[d], d, plan) == t.entries[d];
    }
  }

  lemma CommitPins(ns: Namespace, request: Request, plan: Plan, d: DirectoryId)
    requires Covers(request, plan)
    ensures Pins(ns, Commit(ns, request, plan), d)
  {
    hide Commits, Applied, Bump;
    if Commits(ns, request, plan) {
      AppliedPins(ns, request, plan, d);
      BumpPins(ns, Applied(ns, request, plan), plan, d);
    }
  }

  lemma PinsKeepsPlan(ns: Namespace, t: Namespace, plan: Plan)
    requires PlanOk(ns, plan) && forall d {:trigger Pins(ns, t, d)} :: Pins(ns, t, d)
    ensures PlanOk(t, plan)
  {
    forall d ensures RowOk(t, plan, d) { assert RowOk(ns, plan, d) && Pins(ns, t, d); }
  }

  // ---------------------------------------------------------------- every mutation batch

  /** What a plan of today shows of the rows that its batch is about. */
  lemma PlannedRows(ns: Namespace, request: Request, plan: Plan)
    requires PlanOk(ns, plan) && Covers(request, plan) && FenceHolds(ns, plan)
    ensures IsActive(ns, Start(request)) && plan[Start(request)] == Row(ns.directories[Start(request)], ns.entries[Start(request)])
    ensures Deletes(request) ==> request.name in ns.entries[Start(request)]
    ensures request.Rename? ==> IsActive(ns, request.destination)
  {
    assert RowOk(ns, plan, Start(request)) && Unchanged(ns, plan, Start(request));
    if request.Rename? { assert RowOk(ns, plan, request.destination) && Unchanged(ns, plan, request.destination); }
  }

  /** A batch that commits and takes no directory's entry for another's keeps the directories in order. */
  lemma CommitKeepsDirectories(ns: Namespace, request: Request, plan: Plan)
    requires DirectoriesOk(ns) && PlanOk(ns, plan) && Covers(request, plan) && KeepsDirectories(ns, request)
    ensures DirectoriesOk(Commit(ns, request, plan))
  {
    hide DirectoriesOk, FilesOk;
    if Commits(ns, request, plan) {
      AppliedKeepsDirectories(ns, request, plan);
      BumpKeeps(Applied(ns, request, plan), plan);
    }
  }

  lemma AppliedKeepsDirectories(ns: Namespace, request: Request, plan: Plan)
    requires DirectoriesOk(ns) && PlanOk(ns, plan) && Covers(request, plan) && KeepsDirectories(ns, request)
    requires Commits(ns, request, plan)
    ensures DirectoriesOk(Applied(ns, request, plan))
  {
    hide DirectoriesOk, PlanOk, IsFree, NameFree, AtOrAbove;
    PlannedRows(ns, request, plan);
    match request
    case Mkdir(parent, name, child) => MkdirKeeps(ns, parent, name, child);
    case Remove(d, name, subject, revision) =>
      TreeHas(ns, d, name);
      if ns.entries[d][name].subject.DirectorySubject? {
        RemoveDirectoryKeeps(ns, d, name, ns.entries[d][name].subject.directory);
      } else {
        RemoveEntryKeeps(ns, d, name, subject);
      }
    case Rename(source, name, destination, newName, subject, revision) =>
      TreeHas(ns, source, name);
      match subject {
        case FileSubject(f) => RenameFileKeeps(ns, source, name, destination, newName, f, revision);
        case DirectorySubject(s) =>
          RenamedDirectoryMoves(ns, s, source, name, destination, newName);
          RenameDirectoryKeeps(ns, source, name, destination, newName, s, revision);
      }
    case PutNew(d, name, f, driver) =>
      FileEntryAdded(ns, d, name, f, 1);
      FilesDoNotMatter(ns.(entries := ApplyPutNew(ns, d, name, f).entries), ApplyPutNew(ns, d, name, f).files);
    case PutOver(d, name, f, driver, revision) =>
      FileEntryAdded(ns, d, name, f, revision + 1);
      FilesDoNotMatter(ns.(entries := ApplyPutOver(ns, d, name, f).entries), ApplyPutOver(ns, d, name, f).files);
  }

  /** In a tree whose files are in order too, a batch that removes its own subject takes no directory's entry. */
  lemma FaithfulIsCareful(ns: Namespace, request: Request, plan: Plan)
    requires TreeOk(ns) && PlanOk(ns, plan) && Covers(request, plan) && RemovesItsSubject(ns, request)
    requires Commits(ns, request, plan)
    ensures KeepsDirectories(ns, request)
    ensures Deletes(request) ==> LinkTo(ns, Start(request), request.name, request.subject)
  {
    hide DirectoriesOk, FilesOk, PlanOk, IsFree, NameFree, AtOrAbove;
    PlannedRows(ns, request, plan);
    if request.Rename? {
      match request.subject
      case FileSubject(f) => RenamedFileWasThere(ns, request.source, request.name, f);
      case DirectorySubject(s) =>
        RenamedDirectoryMoves(ns, s, request.source, request.name, request.destination, request.newName);
        MovedDirectoryWasThere(ns, request.source, request.name, s);
    }
  }

  /** A batch that commits, and removes the subject it loaded if it removes one, keeps the tree in order. */
  lemma CommitKeeps(ns: Namespace, request: Request, plan: Plan)
    requires TreeOk(ns) && PlanOk(ns, plan) && Covers(request, plan) && RemovesItsSubject(ns, request)
    ensures TreeOk(Commit(ns, request, plan))
  {
    hide DirectoriesOk, FilesOk, Commits, Applied, PlanOk, Bump;
    if Commits(ns, request, plan) {
      FaithfulIsCareful(ns, request, plan);
      AppliedKeepsDirectories(ns, request, plan);
      AppliedKeepsFiles(ns, request, plan);
      BumpKeeps(Applied(ns, request, plan), plan);
    }
  }

  lemma AppliedKeepsFiles(ns: Namespace, request: Request, plan: Plan)
    requires TreeOk(ns) && Commits(ns, request, plan)
    requires Deletes(request) ==> LinkTo(ns, Start(request), request.name, request.subject)
    ensures FilesOk(Applied(ns, request, plan))
  {
    hide DirectoriesOk, FilesOk, IsFree, NameFree, AtOrAbove, FenceHolds;
    match request
    case Mkdir(parent, name, child) => MkdirKeepsFiles(ns, parent, name, child);
    case Remove(d, name, subject, revision) =>
      match subject {
        case FileSubject(f) => RemoveFileKeepsFiles(ns, d, name, f);
        case DirectorySubject(s) => RemoveDirectoryKeepsFiles(ns, d, name, s);
      }
    case Rename(source, name, destination, newName, subject, revision) =>
      match subject {
        case FileSubject(f) => RenameFileKeepsFiles(ns, source, name, destination, newName, f, revision);
        case DirectorySubject(s) => RenameDirectoryKeepsFiles(ns, source, name, destination, newName, s, revision);
      }
    case PutNew(d, name, f, driver) => PutNewKeepsFiles(ns, d, name, f);
    case PutOver(d, name, f, driver, revision) => PutOverKeepsFiles(ns, d, name, f, revision);
  }
}
