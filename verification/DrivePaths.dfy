/**
 Which files a drive's walk reports and under which keys, from the names of the folders that lead to them,
 and when two files have the same key.
 */
module DrivePaths {
  import opened Options
  import opened Separators
  import opened AliyunTraversal

  // ---------------------------------------------------------------- the files of a drive

  /** The item's own name, or its file name where it has none. */
  predicate IsNamedAs(item: Item, name: string) {
    if item.name.Some? && item.name.value != "" then item.name.value == name else item.fileName == Some(name)
  }

  /** A page of the folder lists the item. */
  predicate ListsItem(pages: Pages, item: Item) {
    item in ItemsOf(pages.items) || (pages.More? && ListsItem(pages.rest, item))
  }

  predicate ListsSub(contents: Contents, item: Item, folder: Pages) {
    match contents
    case Nil => false
    case Plain(_, rest) => ListsSub(rest, item, folder)
    case Sub(sub, inside, rest) => (sub == item && inside == folder) || ListsSub(rest, item, folder)
  }

  /** A page of the folder lists the item, behind which there is a folder of these pages. */
  predicate ListsFolder(pages: Pages, item: Item, folder: Pages) {
    ListsSub(pages.items, item, folder) || (pages.More? && ListsFolder(pages.rest, item, folder))
  }

  predicate HasId(item: Item) {
    item.fileId.Some? && item.fileId.value != ""
  }

  /** The names lead from the folder to the file: the names of nested folders, then its own. */
  ghost predicate LeadsTo(pages: Pages, names: seq<string>, file: Item)
    decreases |names|
  {
    if names == [] then false
    else if |names| == 1 then
      && ListsItem(pages, file) && HasId(file) && IsNamedAs(file, names[0])
      && file.kind == Some("file") && file.size.Some? && file.size.value >= 0
    else
      exists item, folder :: LeadsThrough(pages, item, folder, names[0]) && LeadsTo(folder, names[1..], file)
  }

  predicate LeadsThrough(pages: Pages, item: Item, folder: Pages, name: string) {
    ListsFolder(pages, item, folder) && HasId(item) && item.kind == Some("folder") && IsNamedAs(item, name)
  }

  // ---------------------------------------------------------------- keys

  /** Names of folders that are empty leave no trace in front of the others. */
  function Trimmed(names: seq<string>): seq<string> {
    if |names| > 1 && names[0] == "" then Trimmed(names[1..]) else names
  }

  function KeyOf(names: seq<string>): string {
    JoinedBy(Trimmed(names), '/')
  }

  /** The key below a path that has been walked already. */
  function KeyBelow(path: string, names: seq<string>): string {
    if path == "" then KeyOf(names) else path + ['/'] + JoinedBy(names, '/')
  }

  lemma KeyThrough(path: string, names: seq<string>)
    requires |names| > 1
    ensures KeyBelow(path, names) == KeyBelow(Joined(path, names[0]), names[1..])
  {
    assert path != "" ==> path + "/" + names[0] + ['/'] + JoinedBy(names[1..], '/')
                          == path + ['/'] + (names[0] + ['/'] + JoinedBy(names[1..], '/'));
  }

  lemma KeyOfOne(path: string, name: string)
    ensures KeyBelow(path, [name]) == Joined(path, name)
  {
  }

  /** The object that a file is reported as. */
  predicate IsReportOf(o: ObservedObject, path: string, names: seq<string>, file: Item) {
    && o.storageKey == KeyBelow(path, names)
    && file.fileId == Some(o.providerVersion) && file.size == Some(o.sizeBytes)
  }

  ghost predicate IsReported(pages: Pages, path: string, o: ObservedObject) {
    exists names, file :: LeadsTo(pages, names, file) && IsReportOf(o, path, names, file)
  }

  // ---------------------------------------------------------------- the walk reports them all

  lemma {:induction false} FilesAreItems(items: seq<Item>, path: string, o: ObservedObject)
    ensures o in Files(items, path) <==> exists i :: 0 <= i < |items| && IsFile(items[i]) && o == ObjectOf(items[i], path)
  {
    if items != [] {
      FilesAreItems(items[1..], path, o);
      if o in Files(items[1..], path) {
        var i :| 0 <= i < |items[1..]| && IsFile(items[1..][i]) && o == ObjectOf(items[1..][i], path);
        assert items[i + 1] == items[1..][i];
      }
      if i :| 0 <= i < |items| && IsFile(items[i]) && o == ObjectOf(items[i], path) {
        if i > 0 { assert items[1..][i - 1] == items[i]; }
      }
    }
  }

  lemma {:induction false} LeadsToFile(pages: Pages, names: seq<string>, file: Item)
    requires LeadsTo(pages, names, file)
    ensures HasId(file) && file.size.Some? && file.size.value >= 0
    decreases |names|
  {
    if |names| > 1 {
      var item, folder :| LeadsThrough(pages, item, folder, names[0]) && LeadsTo(folder, names[1..], file);
      LeadsToFile(folder, names[1..], file);
    }
  }

  lemma NamesAgree(item: Item, name: string)
    ensures IsNamedAs(item, name) <==> NameOf(item) == Some(name)
  {
  }

  /** What a listed file is reported as, is walked. */
  lemma {:induction false} ListedFileIsWalked(pages: Pages, path: string, file: Item)
    requires ListsItem(pages, file) && IsFile(file)
    ensures ObjectOf(file, path) in Walk(pages, path)
    decreases pages
  {
    if file in ItemsOf(pages.items) {
      FilesAreItems(ItemsOf(pages.items), path, ObjectOf(file, path));
    } else {
      ListedFileIsWalked(pages.rest, path, file);
    }
  }

  lemma {:induction false} ListedSubIsWalked(contents: Contents, path: string, item: Item, folder: Pages, o: ObservedObject)
    requires ListsSub(contents, item, folder) && IsFolder(item) && o in Walk(folder, FrameOf(item, path).path)
    ensures o in WalkFolders(contents, path)
    decreases contents
  {
    hide Walk;
    match contents
    case Plain(_, rest) => ListedSubIsWalked(rest, path, item, folder, o);
    case Sub(sub, inside, rest) =>
      if !(sub == item && inside == folder) { ListedSubIsWalked(rest, path, item, folder, o); }
  }

  lemma {:induction false} ListedFolderIsWalked(pages: Pages, path: string, item: Item, folder: Pages, o: ObservedObject)
    requires ListsFolder(pages, item, folder) && IsFolder(item) && o in Walk(folder, FrameOf(item, path).path)
    ensures o in Walk(pages, path)
    decreases pages
  {
    WalkUnfolds(pages, path);
    hide Walk, WalkFolders;
    if ListsSub(pages.items, item, folder) {
      ListedSubIsWalked(pages.items, path, item, folder, o);
    } else {
      ListedFolderIsWalked(pages.rest, path, item, folder, o);
    }
  }

  lemma {:induction false} ReportIsWalked(pages: Pages, path: string, names: seq<string>, file: Item, o: ObservedObject)
    requires LeadsTo(pages, names, file) && IsReportOf(o, path, names, file)
    ensures o in Walk(pages, path)
    decreases |names|
  {
    hide Walk, KeyBelow, ListsItem, ListsFolder;
    NamesAgree(file, names[|names| - 1]);
    if |names| == 1 {
      KeyOfOne(path, names[0]);
      ListedFileIsWalked(pages, path, file);
      assert names == [names[0]] && o == ObjectOf(file, path);
    } else {
      var item, folder :| LeadsThrough(pages, item, folder, names[0]) && LeadsTo(folder, names[1..], file);
      NamesAgree(item, names[0]);
      KeyThrough(path, names);
      ReportIsWalked(folder, Joined(path, names[0]), names[1..], file, o);
      ListedFolderIsWalked(pages, path, item, folder, o);
    }
  }

  // ---------------------------------------------------------------- and nothing else

  /** A file that later pages lead to, the whole folder leads to. */
  lemma LeadsFromLaterPage(pages: Pages, names: seq<string>, file: Item)
    requires pages.More? && LeadsTo(pages.rest, names, file)
    ensures LeadsTo(pages, names, file)
  {
    if |names| > 1 {
      var item, folder :| LeadsThrough(pages.rest, item, folder, names[0]) && LeadsTo(folder, names[1..], file);
      assert LeadsThrough(pages, item, folder, names[0]);
    }
  }

  lemma WalkedFileIsReported(pages: Pages, path: string, o: ObservedObject)
    requires o in Files(ItemsOf(pages.items), path)
    ensures IsReported(pages, path, o)
  {
    FilesAreItems(ItemsOf(pages.items), path, o);
    var items := ItemsOf(pages.items);
    var i :| 0 <= i < |items| && IsFile(items[i]) && o == ObjectOf(items[i], path);
    var name := NameOf(items[i]).value;
    NamesAgree(items[i], name);
    KeyOfOne(path, name);
    assert LeadsTo(pages, [name], items[i]) && IsReportOf(o, path, [name], items[i]);
  }

  lemma FolderLeads(pages: Pages, path: string, item: Item, folder: Pages, o: ObservedObject)
    requires ListsFolder(pages, item, folder) && IsFolder(item) && IsReported(folder, FrameOf(item, path).path, o)
    ensures IsReported(pages, path, o)
  {
    hide ListsFolder, ListsItem, KeyBelow;
    var name := NameOf(item).value;
    NamesAgree(item, name);
    var below, file :| LeadsTo(folder, below, file) && IsReportOf(o, FrameOf(item, path).path, below, file);
    var names := [name] + below;
    assert names[1..] == below;
    KeyThrough(path, names);
    assert LeadsThrough(pages, item, folder, names[0]);
    assert LeadsTo(pages, names, file) && IsReportOf(o, path, names, file);
  }

  lemma {:induction false} WalkIsReported(pages: Pages, path: string, o: ObservedObject)
    requires o in Walk(pages, path)
    ensures IsReported(pages, path, o)
    decreases pages, 1
  {
    WalkUnfolds(pages, path);
    hide Walk, WalkFolders, IsReportOf;
    if o in Files(ItemsOf(pages.items), path) {
      WalkedFileIsReported(pages, path, o);
    } else if o in WalkFolders(pages.items, path) {
      var item, folder := FoldersAreReported(pages.items, path, o);
      FolderLeads(pages, path, item, folder, o);
    } else {
      WalkIsReported(pages.rest, path, o);
      var names, file :| LeadsTo(pages.rest, names, file) && IsReportOf(o, path, names, file);
      LeadsFromLaterPage(pages, names, file);
    }
  }

  lemma {:induction false} FoldersAreReported(contents: Contents, path: string, o: ObservedObject)
    returns (item: Item, folder: Pages)
    requires o in WalkFolders(contents, path)
    ensures ListsSub(contents, item, folder) && IsFolder(item) && IsReported(folder, FrameOf(item, path).path, o)
    decreases contents, 0
  {
    hide Walk, IsReported;
    match contents
    case Plain(_, rest) => item, folder := FoldersAreReported(rest, path, o);
    case Sub(sub, inside, rest) =>
      if IsFolder(sub) && o in Walk(inside, FrameOf(sub, path).path) {
        WalkIsReported(inside, FrameOf(sub, path).path, o);
        item, folder := sub, inside;
      } else {
        item, folder := FoldersAreReported(rest, path, o);
      }
  }

  /** The walk of a drive reports exactly the files that folder names lead to, each under those names. */
  lemma WalkIsTheFiles(drive: Pages, o: ObservedObject)
    ensures o in Walk(drive, "") <==>
              exists names, file ::
                && LeadsTo(drive, names, file) && o.storageKey == KeyOf(names)
                && file.fileId == Some(o.providerVersion) && file.size == Some(o.sizeBytes)
  {
    hide Walk;
    if o in Walk(drive, "") {
      WalkIsReported(drive, "", o);
      var names, file :| LeadsTo(drive, names, file) && IsReportOf(o, "", names, file);
    }
    if names, file :| LeadsTo(drive, names, file) && o.storageKey == KeyOf(names)
                      && file.fileId == Some(o.providerVersion) && file.size == Some(o.sizeBytes) {
      assert IsReportOf(o, "", names, file);
      ReportIsWalked(drive, "", names, file, o);
    }
  }

  // ---------------------------------------------------------------- how many there are

  function FilesListed(items: seq<Item>): nat {
    if items == [] then 0
    else
      var item := items[0];
      (if HasId(item) && item.kind == Some("file") && item.size.Some? && item.size.value >= 0
          && (exists name :: name in [item.name, item.fileName] && name.Some? && IsNamedAs(item, name.value))
       then 1 else 0) + FilesListed(items[1..])
  }

  /** The files that all listings of a folder and the folders below it show, repeated ones as often. */
  function FilesBelow(pages: Pages): nat
    decreases pages
  {
    FilesListed(ItemsOf(pages.items)) + FilesInFolders(pages.items) + if pages.More? then FilesBelow(pages.rest) else 0
  }

  function FilesInFolders(contents: Contents): nat
    decreases contents
  {
    match contents
    case Nil => 0
    case Plain(_, rest) => FilesInFolders(rest)
    case Sub(item, folder, rest) => (if IsFolder(item) then FilesBelow(folder) else 0) + FilesInFolders(rest)
  }

  lemma {:induction false} FilesAreCounted(items: seq<Item>, path: string)
    ensures |Files(items, path)| == FilesListed(items)
  {
    if items != [] {
      FilesAreCounted(items[1..], path);
      var item := items[0];
      if NameOf(item).Some? {
        NamesAgree(item, NameOf(item).value);
        assert NameOf(item) in [item.name, item.fileName];
      }
    }
  }

  /** The walk reports as many objects as the listings show files. */
  lemma {:induction false} WalkCountsFiles(pages: Pages, path: string)
    ensures |Walk(pages, path)| == FilesBelow(pages)
    decreases pages, 1
  {
    hide FilesListed, IsFolder, WalkFolders, FilesInFolders;
    WalkUnfolds(pages, path);
    FilesAreCounted(ItemsOf(pages.items), path);
    FoldersCountFiles(pages.items, path);
    if pages.More? { WalkCountsFiles(pages.rest, path); }
  }

  lemma {:induction false} FoldersCountFiles(contents: Contents, path: string)
    ensures |WalkFolders(contents, path)| == FilesInFolders(contents)
    decreases contents, 0
  {
    hide Walk, FilesBelow;
    match contents
    case Nil =>
    case Plain(_, rest) => FoldersCountFiles(rest, path);
    case Sub(item, folder, rest) =>
      if IsFolder(item) { WalkCountsFiles(folder, FrameOf(item, path).path); }
      FoldersCountFiles(rest, path);
  }

  // ---------------------------------------------------------------- when keys tell files apart

  predicate NoSlashes(names: seq<string>) {
    forall i :: 0 <= i < |names| ==> Lacks(names[i], '/')
  }

  lemma {:induction false} TrimmedIsPart(names: seq<string>)
    requires names != [] && NoSlashes(names)
    ensures Trimmed(names) != [] && NoSlashes(Trimmed(names))
  {
    if |names| > 1 && names[0] == "" { TrimmedIsPart(names[1..]); }
  }

  /** Where no name has a slash, cutting a key at its slashes gives the names back, but for empty ones in front. */
  lemma KeyCutsToNames(names: seq<string>)
    requires names != [] && NoSlashes(names)
    ensures CutAt(KeyOf(names), '/') == Trimmed(names)
    ensures names[0] != "" || |names| == 1 ==> CutAt(KeyOf(names), '/') == names && KeyOf(names) == JoinedBy(names, '/')
  {
    TrimmedIsPart(names);
    CutUndoesJoin(Trimmed(names), '/');
  }

  /** So files on different paths of named folders never share a key. */
  lemma KeysTellFilesApart(names: seq<string>, others: seq<string>)
    requires names != [] && others != [] && NoSlashes(names) && NoSlashes(others)
    ensures KeyOf(names) == KeyOf(others) <==> Trimmed(names) == Trimmed(others)
    ensures names[0] != "" && others[0] != "" && KeyOf(names) == KeyOf(others) ==> names == others
  {
    KeyCutsToNames(names);
    KeyCutsToNames(others);
  }

  lemma {:induction false} TrimmedNotEmpty(names: seq<string>)
    requires names != []
    ensures Trimmed(names) != []
  {
    if |names| > 1 && names[0] == "" { TrimmedNotEmpty(names[1..]); }
  }

  /** With any names: keys are the same exactly when the paths are, once names are cut at their own slashes. */
  lemma KeysCoincideExactly(names: seq<string>, others: seq<string>)
    requires names != [] && others != []
    ensures KeyOf(names) == KeyOf(others) <==> CutEach(Trimmed(names), '/') == CutEach(Trimmed(others), '/')
  {
    TrimmedNotEmpty(names);
    TrimmedNotEmpty(others);
    JoinsAgree(Trimmed(names), Trimmed(others), '/');
  }

  /** For example a file "a/b" has the key of a file "b" in a folder "a", and a folder without a name leaves no trace. */
  lemma SlashesCoincide()
    ensures KeyOf(["a/b"]) == KeyOf(["a", "b"]) && KeyOf(["", "b"]) == KeyOf(["b"])
  {
    assert ["a", "b"][1..] == ["b"] && ["", "b"][1..] == ["b"];
    assert "a" + ['/'] + "b" == "a/b";
  }

  // ---------------------------------------------------------------- what a complete traversal delivers

  /** However its runs are cut, a complete traversal delivers exactly the drive's files, each under its folder names. */
  lemma TraversalDeliversTheFiles(
    remote: Remote, encodedBytes: Cursor -> nat, rootFolder: string, drive: Pages, pages: seq<ProviderPage>, o: ObservedObject)
    requires Serves(remote, rootFolder, "", drive)
    requires Runs(remote, encodedBytes, StackOf(rootFolder, None), pages)
    ensures o in ObjectsOf(pages) <==>
              exists names, file ::
                && LeadsTo(drive, names, file) && o.storageKey == KeyOf(names)
                && file.fileId == Some(o.providerVersion) && file.size == Some(o.sizeBytes)
  {
    hide Walk, Serves, Runs, LeadsTo, ObjectsOf;
    TraversalIsWalk(remote, encodedBytes, rootFolder, drive, pages);
    WalkIsTheFiles(drive, o);
  }
}
