/**
 The resumable traversal of an Aliyun drive: a stack of folders still to list is the whole cursor, and
 one run lists at most eight pages and stops once it has a hundred objects.
 */
module AliyunTraversal {
  import opened Options

  const PAGE_SIZE := 100
  const MAXIMUM_ALIYUN_PAGES_PER_RUN := 8
  const MAXIMUM_ALIYUN_CURSOR_BYTES := 65_536

  datatype Item = Item(fileId: Option<string>, name: Option<string>, fileName: Option<string>,
                       size: Option<int>, kind: Option<string>)
  datatype Listing = Listing(items: seq<Item>, nextMarker: string)

  /** What the provider answers for a folder and a marker. */
  type Remote = (string, string) -> Listing

  datatype Frame = Frame(folder: string, path: string, marker: string)
  type Cursor = seq<Frame>

  datatype ObservedObject = ObservedObject(storageKey: string, providerVersion: string, sizeBytes: int)
  datatype ProviderPage = ProviderPage(objects: seq<ObservedObject>, nextCursor: Option<Cursor>)
  datatype ListError = CursorTooLong

  // ---------------------------------------------------------------- one item

  function NameOf(item: Item): Option<string> {
    if item.name.Some? && item.name.value != "" then item.name else item.fileName
  }

  function Joined(path: string, name: string): string {
    if path == "" then name else path + "/" + name
  }

  predicate IsNamed(item: Item) {
    item.fileId.Some? && item.fileId.value != "" && NameOf(item).Some?
  }

  predicate IsFolder(item: Item) {
    IsNamed(item) && item.kind == Some("folder")
  }

  predicate IsFile(item: Item) {
    IsNamed(item) && item.kind == Some("file") && item.size.Some? && item.size.value >= 0
  }

  function ObjectOf(item: Item, path: string): ObservedObject
    requires IsFile(item)
  {
    ObservedObject(Joined(path, NameOf(item).value), item.fileId.value, item.size.value)
  }

  function FrameOf(item: Item, path: string): Frame
    requires IsFolder(item)
  {
    Frame(item.fileId.value, Joined(path, NameOf(item).value), "")
  }

  function Files(items: seq<Item>, path: string): seq<ObservedObject> {
    if items == [] then []
    else (if IsFile(items[0]) then [ObjectOf(items[0], path)] else []) + Files(items[1..], path)
  }

  function Folders(items: seq<Item>, path: string): seq<Frame> {
    if items == [] then []
    else (if IsFolder(items[0]) then [FrameOf(items[0], path)] else []) + Folders(items[1..], path)
  }

  function Reversed(frames: seq<Frame>): seq<Frame> {
    if frames == [] then [] else Reversed(frames[1..]) + [frames[0]]
  }

  // ---------------------------------------------------------------- the traversal

  /** One listing: the top frame is replaced by its continuation with this page's folders above it. */
  function Advance(remote: Remote, stack: Cursor): (Cursor, seq<ObservedObject>)
    requires stack != []
  {
    var frame, below := stack[|stack| - 1], stack[..|stack| - 1];
    var listing := remote(frame.folder, frame.marker);
    var rest := if listing.nextMarker != "" then below + [Frame(frame.folder, frame.path, listing.nextMarker)] else below;
    (rest + Reversed(Folders(listing.items, frame.path)), Files(listing.items, frame.path))
  }

  function Loop(remote: Remote, stack: Cursor, budget: nat, objects: seq<ObservedObject>): (Cursor, seq<ObservedObject>)
    decreases budget
  {
    if budget == 0 || stack == [] then (stack, objects)
    else
      var (next, found) := Advance(remote, stack);
      if |objects + found| >= PAGE_SIZE then (next, objects + found)
      else Loop(remote, next, budget - 1, objects + found)
  }

  /** One run: it fails when the stack left over does not fit the cursor's size limit. */
  function RunOnce(remote: Remote, encodedBytes: Cursor -> nat, stack: Cursor): Result<ProviderPage, ListError> {
    var (rest, objects) := Loop(remote, stack, MAXIMUM_ALIYUN_PAGES_PER_RUN, []);
    if rest == [] then Ok(ProviderPage(objects, None))
    else if encodedBytes(rest) > MAXIMUM_ALIYUN_CURSOR_BYTES then Err(CursorTooLong)
    else Ok(ProviderPage(objects, Some(rest)))
  }

  function StackOf(rootFolder: string, cursor: Option<Cursor>): Cursor {
    if cursor.Some? then cursor.value else [Frame(rootFolder, "", "")]
  }

  /** Pops one frame, lists its page, pushes its continuation and then its folders, and collects its files. */
  method ListFrame(remote: Remote, stack: Cursor, objects: seq<ObservedObject>)
    returns (next: Cursor, collected: seq<ObservedObject>)
    requires stack != []
    ensures next == Advance(remote, stack).0 && collected == objects + Advance(remote, stack).1
  {
    var frame := stack[|stack| - 1];
    next := stack[..|stack| - 1];
    var listing := remote(frame.folder, frame.marker);
    if listing.nextMarker != "" { next := next + [Frame(frame.folder, frame.path, listing.nextMarker)]; }
    hide Files, Folders, IsFile, IsFolder, IsNamed, ObjectOf, FrameOf;
    var folders: seq<Frame> := [];
    collected := objects;
    NoItems(frame.path);
    for i := 0 to |listing.items|
      invariant folders == Folders(listing.items[..i], frame.path)
      invariant collected == objects + Files(listing.items[..i], frame.path)
    {
      var item := listing.items[i];
      ItemAt(listing.items, i, frame.path);
      if IsFolder(item) {
        folders := folders + [FrameOf(item, frame.path)];
      } else if IsFile(item) {
        collected := collected + [ObjectOf(item, frame.path)];
      }
    }
    assert listing.items[..|listing.items|] == listing.items;
    next := next + Reversed(folders);
  }

  lemma {:induction false} ItemsJoin(a: seq<Item>, b: seq<Item>, path: string)
    ensures Folders(a + b, path) == Folders(a, path) + Folders(b, path)
    ensures Files(a + b, path) == Files(a, path) + Files(b, path)
  {
    hide IsFile, IsFolder, ObjectOf, FrameOf;
    if a == [] {
      assert a + b == b;
      assert [] + Folders(b, path) == Folders(b, path) && [] + Files(b, path) == Files(b, path);
    } else {
      assert (a + b)[1..] == a[1..] + b && (a + b)[0] == a[0];
      ItemsJoin(a[1..], b, path);
      var folder := if IsFolder(a[0]) then [FrameOf(a[0], path)] else [];
      var file := if IsFile(a[0]) then [ObjectOf(a[0], path)] else [];
      assert folder + (Folders(a[1..], path) + Folders(b, path)) == folder + Folders(a[1..], path) + Folders(b, path);
      assert file + (Files(a[1..], path) + Files(b, path)) == file + Files(a[1..], path) + Files(b, path);
    }
  }

  lemma ItemAt(items: seq<Item>, i: nat, path: string)
    requires i < |items|
    ensures Folders(items[..i + 1], path)
            == Folders(items[..i], path) + if IsFolder(items[i]) then [FrameOf(items[i], path)] else []
    ensures Files(items[..i + 1], path)
            == Files(items[..i], path) + if IsFile(items[i]) then [ObjectOf(items[i], path)] else []
    ensures !(IsFolder(items[i]) && IsFile(items[i]))
  {
    assert items[..i + 1] == items[..i] + [items[i]];
    ItemsJoin(items[..i], [items[i]], path);
    NoItems(path);
    assert [items[i]][1..] == [];
  }

  lemma NoItems(path: string)
    ensures Folders([], path) == [] && Files([], path) == []
  {
  }

  method ListAliyunPage(remote: Remote, encodedBytes: Cursor -> nat, rootFolder: string, cursor: Option<Cursor>)
    returns (result: Result<ProviderPage, ListError>)
    ensures result == RunOnce(remote, encodedBytes, StackOf(rootFolder, cursor))
  {
    var stack := match cursor case Some(frames) => frames case None => [Frame(rootFolder, "", "")];
    ghost var start := stack;
    var objects := [];
    var pages := 0;
    var full := false;
    while pages < MAXIMUM_ALIYUN_PAGES_PER_RUN && !full && stack != []
      invariant 0 <= pages <= MAXIMUM_ALIYUN_PAGES_PER_RUN
      invariant Loop(remote, start, MAXIMUM_ALIYUN_PAGES_PER_RUN, [])
                == if full then (stack, objects) else Loop(remote, stack, MAXIMUM_ALIYUN_PAGES_PER_RUN - pages, objects)
    {
      stack, objects := ListFrame(remote, stack, objects);
      full := |objects| >= PAGE_SIZE;
      pages := pages + 1;
    }
    if stack == [] { return Ok(ProviderPage(objects, None)); }
    if encodedBytes(stack) > MAXIMUM_ALIYUN_CURSOR_BYTES { return Err(CursorTooLong); }
    return Ok(ProviderPage(objects, Some(stack)));
  }

  // ---------------------------------------------------------------- what a drive contains

  /** The pages of one folder, each with its items, each subfolder with its own pages. */
  datatype Pages = Last(items: Contents) | More(items: Contents, rest: Pages)
  datatype Contents = Nil | Plain(item: Item, rest: Contents) | Sub(item: Item, folder: Pages, rest: Contents)

  function ItemsOf(contents: Contents): seq<Item> {
    match contents
    case Nil => []
    case Plain(item, rest) => [item] + ItemsOf(rest)
    case Sub(item, _, rest) => [item] + ItemsOf(rest)
  }

  /** The provider serves exactly this finite tree from a folder and marker on. */
  predicate Serves(remote: Remote, folder: string, marker: string, pages: Pages)
    decreases pages
  {
    var listing := remote(folder, marker);
    && listing.items == ItemsOf(pages.items) && ServesContents(remote, pages.items)
    && match pages
       case Last(_) => listing.nextMarker == ""
       case More(_, rest) => listing.nextMarker != "" && Serves(remote, folder, listing.nextMarker, rest)
  }

  predicate ServesContents(remote: Remote, contents: Contents)
    decreases contents
  {
    match contents
    case Nil => true
    case Plain(item, rest) => !IsFolder(item) && ServesContents(remote, rest)
    case Sub(item, folder, rest) =>
      IsFolder(item) && Serves(remote, item.fileId.value, "", folder) && ServesContents(remote, rest)
  }

  /** The unbounded recursive walk: a page's files, then its subfolders, then the next page. */
  function Walk(pages: Pages, path: string): seq<ObservedObject>
    decreases pages
  {
    Files(ItemsOf(pages.items), path) + WalkFolders(pages.items, path)
    + match pages case Last(_) => [] case More(_, rest) => Walk(rest, path)
  }

  function WalkFolders(contents: Contents, path: string): seq<ObservedObject>
    decreases contents
  {
    match contents
    case Nil => []
    case Plain(_, rest) => WalkFolders(rest, path)
    case Sub(item, folder, rest) =>
      (if IsFolder(item) then Walk(folder, FrameOf(item, path).path) else []) + WalkFolders(rest, path)
  }

  /** How many listings are still to come. */
  function PageCount(pages: Pages): (n: nat)
    ensures n >= 1
    decreases pages
  {
    1 + FolderPages(pages.items) + match pages case Last(_) => 0 case More(_, rest) => PageCount(rest)
  }

  function FolderPages(contents: Contents): nat
    decreases contents
  {
    match contents
    case Nil => 0
    case Plain(_, rest) => FolderPages(rest)
    case Sub(_, folder, rest) => PageCount(folder) + FolderPages(rest)
  }

  // ---------------------------------------------------------------- a stack as work still to do

  /** `todo[i]` is what remains to be listed of frame `i`. */
  predicate Stands(remote: Remote, stack: Cursor, todo: seq<Pages>) {
    |stack| == |todo| && forall i :: 0 <= i < |stack| ==> Serves(remote, stack[i].folder, stack[i].marker, todo[i])
  }

  function StackWalk(stack: Cursor, todo: seq<Pages>): seq<ObservedObject>
    requires |stack| == |todo|
  {
    if stack == [] then []
    else
      var n := |stack| - 1;
      Walk(todo[n], stack[n].path) + StackWalk(stack[..n], todo[..n])
  }

  function Remaining(todo: seq<Pages>): nat {
    if todo == [] then 0 else PageCount(todo[|todo| - 1]) + Remaining(todo[..|todo| - 1])
  }

  lemma {:induction false} StackWalkJoins(s: Cursor, t: seq<Pages>, u: Cursor, v: seq<Pages>)
    requires |s| == |t| && |u| == |v|
    ensures StackWalk(s + u, t + v) == StackWalk(u, v) + StackWalk(s, t)
    decreases |u|
  {
    hide Walk, StackWalk, PageCount, Remaining;
    if u == [] {
      NothingStacked();
      assert s + u == s && t + v == t && [] + StackWalk(s, t) == StackWalk(s, t);
    } else {
      var n := |u| - 1;
      var below, rest, frame, pages := u[..n], v[..n], u[n], v[n];
      StackWalkJoins(s, t, below, rest);
      assert u == below + [frame] && v == rest + [pages];
      assert s + u == (s + below) + [frame] && t + v == (t + rest) + [pages];
      StackWalkOnTop(below, rest, frame, pages);
      StackWalkOnTop(s + below, t + rest, frame, pages);
      Associate(Walk(pages, frame.path), StackWalk(below, rest), StackWalk(s, t));
    }
  }

  lemma NothingStacked()
    ensures StackWalk([], []) == []
  {
  }

  lemma StackWalkOnTop(stack: Cursor, todo: seq<Pages>, frame: Frame, pages: Pages)
    requires |stack| == |todo|
    ensures StackWalk(stack + [frame], todo + [pages]) == Walk(pages, frame.path) + StackWalk(stack, todo)
  {
    hide Walk;
    assert (stack + [frame])[..|stack|] == stack && (todo + [pages])[..|stack|] == todo;
  }

  lemma Associate(a: seq<ObservedObject>, b: seq<ObservedObject>, c: seq<ObservedObject>)
    ensures a + (b + c) == (a + b) + c
  {
  }

  lemma {:induction false} RemainingJoins(t: seq<Pages>, v: seq<Pages>)
    ensures Remaining(t + v) == Remaining(v) + Remaining(t)
    decreases |v|
  {
    hide PageCount;
    if v == [] {
      assert t + v == t;
    } else {
      var n := |v| - 1;
      assert (t + v)[..|t| + n] == t + v[..n];
      RemainingJoins(t, v[..n]);
    }
  }

  /** What the pushed folders of one page stand for. */
  function FolderTodo(contents: Contents): seq<Pages> {
    match contents
    case Nil => []
    case Plain(_, rest) => FolderTodo(rest)
    case Sub(_, folder, rest) => FolderTodo(rest) + [folder]
  }

  lemma FoldersSkip(item: Item, items: seq<Item>, path: string)
    ensures !IsFolder(item) ==> Folders([item] + items, path) == Folders(items, path)
    ensures IsFolder(item) ==>
              && Folders([item] + items, path) == [FrameOf(item, path)] + Folders(items, path)
              && Reversed(Folders([item] + items, path)) == Reversed(Folders(items, path)) + [FrameOf(item, path)]
  {
    assert ([item] + items)[1..] == items;
    if IsFolder(item) {
      assert ([FrameOf(item, path)] + Folders(items, path))[1..] == Folders(items, path);
    } else {
      assert [] + Folders(items, path) == Folders(items, path);
    }
  }

  /** Pushing a page's folders in reverse makes the stack walk them in order. */
  lemma {:induction false} PushedFolders(remote: Remote, contents: Contents, path: string)
    requires ServesContents(remote, contents)
    ensures var pushed, todo := Reversed(Folders(ItemsOf(contents), path)), FolderTodo(contents);
            && |pushed| == |todo| && Stands(remote, pushed, todo)
            && StackWalk(pushed, todo) == WalkFolders(contents, path) && Remaining(todo) == FolderPages(contents)
    decreases contents
  {
    hide Serves, Walk, PageCount, Folders, IsFolder, NameOf;
    match contents
    case Nil => NoItems(path);
    case Plain(item, rest) =>
      FoldersSkip(item, ItemsOf(rest), path);
      PushedFolders(remote, rest, path);
    case Sub(item, folder, rest) =>
      FoldersSkip(item, ItemsOf(rest), path);
      PushedFolders(remote, rest, path);
      var frame := FrameOf(item, path);
      var others, todo := Reversed(Folders(ItemsOf(rest), path)), FolderTodo(rest);
      assert (others + [frame])[..|others|] == others && (todo + [folder])[..|todo|] == todo;
      FrameStarts(item, path);
      assert Stands(remote, others + [frame], todo + [folder]);
  }

  lemma FrameStarts(item: Item, path: string)
    requires IsFolder(item)
    ensures item.fileId.Some? && FrameOf(item, path).folder == item.fileId.value && FrameOf(item, path).marker == ""
  {
  }

  lemma ServesShows(remote: Remote, frame: Frame, pages: Pages)
    requires Serves(remote, frame.folder, frame.marker, pages)
    ensures var listing := remote(frame.folder, frame.marker);
            && listing.items == ItemsOf(pages.items) && ServesContents(remote, pages.items)
            && (listing.nextMarker == "" <==> pages.Last?)
            && (pages.More? ==> Serves(remote, frame.folder, listing.nextMarker, pages.rest))
  {
  }

  /** What is below the pushed folders: the rest of the stack, and the same folder's next page if there is one. */
  lemma Continues(remote: Remote, below: Cursor, rest: seq<Pages>, frame: Frame, pages: Pages)
    returns (kept: Cursor, left: seq<Pages>)
    requires Stands(remote, below, rest) && Serves(remote, frame.folder, frame.marker, pages)
    ensures var marker := remote(frame.folder, frame.marker).nextMarker;
            kept == if marker != "" then below + [Frame(frame.folder, frame.path, marker)] else below
    ensures Stands(remote, kept, left)
    ensures StackWalk(kept, left)
            == (if pages.More? then Walk(pages.rest, frame.path) else []) + StackWalk(below, rest)
    ensures Remaining(left) == (if pages.More? then PageCount(pages.rest) else 0) + Remaining(rest)
  {
    hide Serves, Walk, PageCount;
    ServesShows(remote, frame, pages);
    kept, left := below, rest;
    if pages.More? {
      var again := Frame(frame.folder, frame.path, remote(frame.folder, frame.marker).nextMarker);
      kept, left := below + [again], rest + [pages.rest];
      assert (below + [again])[..|below|] == below && (rest + [pages.rest])[..|below|] == rest;
    } else {
      assert [] + StackWalk(below, rest) == StackWalk(below, rest);
    }
  }

  lemma StandsJoin(remote: Remote, s: Cursor, t: seq<Pages>, u: Cursor, v: seq<Pages>)
    requires Stands(remote, s, t) && Stands(remote, u, v)
    ensures Stands(remote, s + u, t + v)
  {
    hide Serves;
  }

  /** One listing outputs the front of the walk and leaves the rest on the stack, with fewer pages to come. */
  lemma AdvanceWalks(remote: Remote, stack: Cursor, todo: seq<Pages>) returns (left: seq<Pages>)
    requires stack != [] && Stands(remote, stack, todo)
    ensures var (next, found) := Advance(remote, stack);
            && Stands(remote, next, left) && found + StackWalk(next, left) == StackWalk(stack, todo)
            && Remaining(left) < Remaining(todo)
  {
    hide Serves, WalkFolders, Files, Folders, Reversed, FolderPages, FolderTodo, ItemsOf, Walk, PageCount, StackWalk, Remaining;
    var n := |stack| - 1;
    var frame, pages := stack[n], todo[n];
    StackTop(stack, todo);
    var pushed, folders := Reversed(Folders(ItemsOf(pages.items), frame.path)), FolderTodo(pages.items);
    ServesShows(remote, frame, pages);
    PushedFolders(remote, pages.items, frame.path);
    var kept, rest := Continues(remote, stack[..n], todo[..n], frame, pages);
    left := rest + folders;
    StandsJoin(remote, kept, rest, pushed, folders);
    StackWalkJoins(kept, rest, pushed, folders);
    RemainingJoins(rest, folders);
    WalkUnfolds(pages, frame.path);
    var files, inside := Files(ItemsOf(pages.items), frame.path), WalkFolders(pages.items, frame.path);
    assert files + (inside + StackWalk(kept, rest)) == StackWalk(stack, todo);
  }

  lemma StackTop(stack: Cursor, todo: seq<Pages>)
    requires |stack| == |todo| > 0
    ensures var n := |stack| - 1;
            && StackWalk(stack, todo) == Walk(todo[n], stack[n].path) + StackWalk(stack[..n], todo[..n])
            && Remaining(todo) == PageCount(todo[n]) + Remaining(todo[..n])
  {
  }

  lemma WalkUnfolds(pages: Pages, path: string)
    ensures Walk(pages, path) == Files(ItemsOf(pages.items), path) + WalkFolders(pages.items, path)
                                 + (if pages.More? then Walk(pages.rest, path) else [])
    ensures PageCount(pages) == 1 + FolderPages(pages.items)
                                + (if pages.More? then PageCount(pages.rest) else 0)
  {
  }

  lemma {:induction false} LoopWalks(remote: Remote, stack: Cursor, budget: nat, objects: seq<ObservedObject>, todo: seq<Pages>)
    returns (left: seq<Pages>)
    requires Stands(remote, stack, todo)
    ensures var (rest, all) := Loop(remote, stack, budget, objects);
            && Stands(remote, rest, left) && all + StackWalk(rest, left) == objects + StackWalk(stack, todo)
            && Remaining(left) <= Remaining(todo) && (budget > 0 && stack != [] ==> Remaining(left) < Remaining(todo))
    decreases budget
  {
    left := todo;
    if budget > 0 && stack != [] {
      left := AdvanceWalks(remote, stack, todo);
      var (next, found) := Advance(remote, stack);
      assert objects + found + StackWalk(next, left) == objects + StackWalk(stack, todo);
      if |objects + found| < PAGE_SIZE {
        left := LoopWalks(remote, next, budget - 1, objects + found, left);
      }
    }
  }

  // ---------------------------------------------------------------- all runs of one traversal

  /** Successive runs, each from the cursor of the one before, until there is none. */
  ghost predicate Runs(remote: Remote, encodedBytes: Cursor -> nat, stack: Cursor, pages: seq<ProviderPage>)
    decreases |pages|
  {
    |pages| > 0 && RunOnce(remote, encodedBytes, stack) == Ok(pages[0]) &&
    if pages[0].nextCursor.None? then |pages| == 1
    else Runs(remote, encodedBytes, pages[0].nextCursor.value, pages[1..])
  }

  function ObjectsOf(pages: seq<ProviderPage>): seq<ObservedObject> {
    if pages == [] then [] else pages[0].objects + ObjectsOf(pages[1..])
  }

  lemma {:induction false} RunsWalkStack(remote: Remote, encodedBytes: Cursor -> nat, stack: Cursor, todo: seq<Pages>,
                                         pages: seq<ProviderPage>)
    requires Stands(remote, stack, todo) && Runs(remote, encodedBytes, stack, pages)
    ensures ObjectsOf(pages) == StackWalk(stack, todo) && |pages| <= Remaining(todo) + 1
    decreases |pages|
  {
    var left := LoopWalks(remote, stack, MAXIMUM_ALIYUN_PAGES_PER_RUN, [], todo);
    if pages[0].nextCursor.Some? {
      RunsWalkStack(remote, encodedBytes, pages[0].nextCursor.value, left, pages[1..]);
    } else {
      assert pages[1..] == [];
    }
  }

  /**
   Wherever the eight-page and hundred-object cuts fall, the runs of a complete traversal deliver
   exactly the recursive walk of the drive, and there are no more of them than listings.
   */
  lemma TraversalIsWalk(remote: Remote, encodedBytes: Cursor -> nat, rootFolder: string, drive: Pages, pages: seq<ProviderPage>)
    requires Serves(remote, rootFolder, "", drive)
    requires Runs(remote, encodedBytes, StackOf(rootFolder, None), pages)
    ensures ObjectsOf(pages) == Walk(drive, "") && |pages| <= PageCount(drive) + 1
  {
    var stack := StackOf(rootFolder, None);
    assert stack[..0] == [] && [drive][..0] == [];
    RunsWalkStack(remote, encodedBytes, stack, [drive], pages);
  }

  /** Cursors of successive runs, the last of which fails. */
  ghost predicate Stuck(remote: Remote, encodedBytes: Cursor -> nat, stack: Cursor, cursors: seq<Cursor>)
    decreases |cursors|
  {
    |cursors| > 0 && cursors[0] == stack &&
    match RunOnce(remote, encodedBytes, stack)
    case Err(_) => |cursors| == 1
    case Ok(page) => page.nextCursor.Some? && Stuck(remote, encodedBytes, page.nextCursor.value, cursors[1..])
  }

  lemma RunsFrom(remote: Remote, encodedBytes: Cursor -> nat, stack: Cursor, page: ProviderPage, more: seq<ProviderPage>)
    requires RunOnce(remote, encodedBytes, stack) == Ok(page)
    requires if page.nextCursor.None? then more == [] else Runs(remote, encodedBytes, page.nextCursor.value, more)
    ensures Runs(remote, encodedBytes, stack, [page] + more)
  {
    hide RunOnce;
    assert ([page] + more)[1..] == more;
  }

  lemma StuckFrom(remote: Remote, encodedBytes: Cursor -> nat, stack: Cursor, page: ProviderPage, more: seq<Cursor>)
    requires RunOnce(remote, encodedBytes, stack) == Ok(page) && page.nextCursor.Some?
    requires Stuck(remote, encodedBytes, page.nextCursor.value, more)
    ensures Stuck(remote, encodedBytes, stack, [stack] + more)
  {
    hide RunOnce;
    assert ([stack] + more)[1..] == more;
  }

  ghost predicate Completes(remote: Remote, encodedBytes: Cursor -> nat, stack: Cursor) {
    exists pages :: Runs(remote, encodedBytes, stack, pages)
  }

  ghost predicate Fails(remote: Remote, encodedBytes: Cursor -> nat, stack: Cursor) {
    exists cursors :: Stuck(remote, encodedBytes, stack, cursors)
  }

  /** A run leaves fewer pages to list. */
  lemma RunShrinks(remote: Remote, encodedBytes: Cursor -> nat, stack: Cursor, todo: seq<Pages>) returns (left: seq<Pages>)
    requires Stands(remote, stack, todo)
    ensures var result := RunOnce(remote, encodedBytes, stack);
            result.Ok? && result.value.nextCursor.Some? ==>
              Stands(remote, result.value.nextCursor.value, left) && Remaining(left) < Remaining(todo)
  {
    left := LoopWalks(remote, stack, MAXIMUM_ALIYUN_PAGES_PER_RUN, [], todo);
  }

  /** Runs that begin, end: with a complete traversal, or at a cursor too long to keep. */
  lemma {:induction false} TraversalEnds(remote: Remote, encodedBytes: Cursor -> nat, stack: Cursor, todo: seq<Pages>)
    requires Stands(remote, stack, todo)
    ensures Completes(remote, encodedBytes, stack) || Fails(remote, encodedBytes, stack)
    decreases Remaining(todo)
  {
    hide RunOnce, Runs, Stands, Remaining;
    var left := RunShrinks(remote, encodedBytes, stack, todo);
    var result := RunOnce(remote, encodedBytes, stack);
    if result.Err? {
      StuckHere(remote, encodedBytes, stack);
    } else if result.value.nextCursor.None? {
      RunsFrom(remote, encodedBytes, stack, result.value, []);
    } else {
      var next := result.value.nextCursor.value;
      TraversalEnds(remote, encodedBytes, next, left);
      if Completes(remote, encodedBytes, next) {
        var pages :| Runs(remote, encodedBytes, next, pages);
        RunsFrom(remote, encodedBytes, stack, result.value, pages);
      } else {
        var cursors :| Stuck(remote, encodedBytes, next, cursors);
        StuckFrom(remote, encodedBytes, stack, result.value, cursors);
      }
    }
  }

  lemma StuckHere(remote: Remote, encodedBytes: Cursor -> nat, stack: Cursor)
    requires RunOnce(remote, encodedBytes, stack).Err?
    ensures Stuck(remote, encodedBytes, stack, [stack])
  {
  }

  // ---------------------------------------------------------------- where one run stops

  /** What `k` listings leave on the stack, and the objects they bring. */
  function After(remote: Remote, stack: Cursor, k: nat): (Cursor, seq<ObservedObject>)
    decreases k
  {
    if k == 0 || stack == [] then (stack, [])
    else
      var (next, found) := Advance(remote, stack);
      var (rest, more) := After(remote, next, k - 1);
      (rest, found + more)
  }

  /** A run makes `k` listings. */
  ghost predicate StopsAfter(remote: Remote, stack: Cursor, objects: seq<ObservedObject>, budget: nat, k: nat) {
    && k <= budget
    && (forall j :: 0 <= j < k ==> After(remote, stack, j).0 != [] && |objects| + |After(remote, stack, j).1| < 100)
    && (k == budget || After(remote, stack, k).0 == [] || |objects| + |After(remote, stack, k).1| >= 100)
  }

  lemma {:induction false} LoopStops(remote: Remote, stack: Cursor, budget: nat, objects: seq<ObservedObject>) returns (k: nat)
    requires |objects| < 100
    ensures StopsAfter(remote, stack, objects, budget, k)
    ensures Loop(remote, stack, budget, objects) == (After(remote, stack, k).0, objects + After(remote, stack, k).1)
    decreases budget
  {
    hide Advance;
    if budget == 0 || stack == [] {
      k := 0;
      assert objects + [] == objects;
    } else {
      var (next, found) := Advance(remote, stack);
      if |objects + found| >= PAGE_SIZE {
        k := 1;
        AfterOne(remote, stack);
      } else {
        var m := LoopStops(remote, next, budget - 1, objects + found);
        k := m + 1;
        assert objects + found + After(remote, next, m).1 == objects + (found + After(remote, next, m).1);
        forall j | 0 <= j < k ensures After(remote, stack, j).0 != [] && |objects| + |After(remote, stack, j).1| < 100 {
          if j > 0 { assert After(remote, next, j - 1).0 != []; }
        }
      }
    }
  }

  lemma AfterOne(remote: Remote, stack: Cursor)
    requires stack != []
    ensures After(remote, stack, 1) == Advance(remote, stack)
    ensures After(remote, stack, 0) == (stack, [])
  {
    hide Advance;
    var (next, found) := Advance(remote, stack);
    assert After(remote, next, 0) == (next, []);
    assert found + [] == found;
  }

  /**
   A run lists until nothing is left, it has a hundred objects, or it has listed eight pages, whatever comes first.
   It fails exactly when what is left would not fit into 64 KiB.
   */
  lemma RunStopsAtFirstBound(remote: Remote, encodedBytes: Cursor -> nat, stack: Cursor) returns (k: nat)
    ensures StopsAfter(remote, stack, [], 8, k)
    ensures var (rest, objects) := After(remote, stack, k);
            RunOnce(remote, encodedBytes, stack)
            == if rest == [] then Ok(ProviderPage(objects, None))
               else if encodedBytes(rest) <= 65_536 then Ok(ProviderPage(objects, Some(rest))) else Err(CursorTooLong)
  {
    hide Loop, After;
    k := LoopStops(remote, stack, 8, []);
    assert [] + After(remote, stack, k).1 == After(remote, stack, k).1;
  }

  /** So where every cursor fits, every traversal of a finite drive completes. */
  lemma {:induction false} ShortCursorsComplete(remote: Remote, encodedBytes: Cursor -> nat, stack: Cursor, todo: seq<Pages>)
    requires Stands(remote, stack, todo) && forall c: Cursor :: encodedBytes(c) <= 65_536
    ensures Completes(remote, encodedBytes, stack)
    decreases Remaining(todo)
  {
    hide RunOnce, Runs, Stands, Remaining;
    var k := RunStopsAtFirstBound(remote, encodedBytes, stack);
    var left := RunShrinks(remote, encodedBytes, stack, todo);
    var page := RunOnce(remote, encodedBytes, stack).value;
    if page.nextCursor.None? {
      RunsFrom(remote, encodedBytes, stack, page, []);
    } else {
      ShortCursorsComplete(remote, encodedBytes, page.nextCursor.value, left);
      var pages :| Runs(remote, encodedBytes, page.nextCursor.value, pages);
      RunsFrom(remote, encodedBytes, stack, page, pages);
    }
  }
}
