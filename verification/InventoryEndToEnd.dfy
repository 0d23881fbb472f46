/**
 The scan and the traversal together: a scan whose pages come from the Aliyun traversal of a drive has,
 when it completes, sighted exactly the drive's recursive walk, counting every page once.
 */
module InventoryEndToEnd {
  import opened Options
  import opened AliyunTraversal
  import opened DrivePaths
  import opened ProviderScan
  import opened ScanOnce

  /** Everything that determines a listing. */
  datatype Drive = Drive(remote: Remote, encodedBytes: Cursor -> nat, rootFolder: string, pages: Pages)

  predicate Served(drive: Drive) {
    Serves(drive.remote, drive.rootFolder, "", drive.pages)
  }

  function PageFrom(drive: Drive, from: Option<Cursor>): Result<ProviderPage, ListError> {
    RunOnce(drive.remote, drive.encodedBytes, StackOf(drive.rootFolder, from))
  }

  /** Listing succeeds with what the drive's traversal returns, or fails. */
  predicate ListsDrive(drive: Drive, s: System, step: Step) {
    step.ListStep? && WorkerAt(s, step.w).ListingFrom? ==> PageFrom(drive, WorkerAt(s, step.w).from) == Ok(step.page)
  }

  predicate AlwaysListsDrive(drive: Drive, s: System, steps: seq<Step>)
    decreases |steps|
  {
    steps == []
    || (AlwaysListsDrive(drive, s, steps[..|steps| - 1])
        && ListsDrive(drive, Run(s, steps[..|steps| - 1]), steps[|steps| - 1]))
  }

  function KeysOf(objects: seq<ObservedObject>): (r: seq<Key>)
    ensures |r| == |objects| && forall i :: 0 <= i < |objects| ==> r[i] == objects[i].storageKey
  {
    seq(|objects|, i requires 0 <= i < |objects| => objects[i].storageKey)
  }

  function KeysSighted(log: seq<Sighting>): (r: seq<Key>)
    ensures |r| == |log| && forall i :: 0 <= i < |log| ==> r[i] == log[i].key
  {
    seq(|log|, i requires 0 <= i < |log| => log[i].key)
  }

  // ---------------------------------------------------------------- what a cursor stands for

  /** The cursor of a running generation holds exactly the part of the drive that is not sighted yet. */
  ghost predicate Progress(drive: Drive, sighted: seq<Key>, cursor: Option<Cursor>, todo: seq<Pages>) {
    var stack := StackOf(drive.rootFolder, cursor);
    && Stands(drive.remote, stack, todo)
    && sighted + KeysOf(StackWalk(stack, todo)) == KeysOf(Walk(drive.pages, ""))
  }

  ghost predicate RankedBelow(drive: Drive, cursor: Option<Cursor>, todo: seq<Pages>, earlier: Option<Cursor>) {
    exists before :: Stands(drive.remote, StackOf(drive.rootFolder, earlier), before) && Remaining(todo) < Remaining(before)
  }

  ghost predicate ScanOk(drive: Drive, s: System) {
    match s.db.row.state
    case Scanning =>
      exists todo :: Progress(drive, KeysSighted(s.log), s.db.row.cursor, todo)
                  && forall c | c in s.cursors :: RankedBelow(drive, s.db.row.cursor, todo, c)
    case Complete => KeysSighted(s.log) == KeysOf(Walk(drive.pages, ""))
    case _ => true
  }

  predicate PageOk(drive: Drive, p: Worker) {
    p.Listed? ==> PageFrom(drive, p.expected) == Ok(p.page)
  }

  ghost predicate DriveInv(drive: Drive, s: System) {
    && Inv(s) && ScanOk(drive, s) && Distinct(s.cursors)
    && forall w {:trigger WorkerAt(s, w)} :: PageOk(drive, WorkerAt(s, w))
  }

  // ---------------------------------------------------------------- one finite tree behind one stack

  /** What a folder and marker serve is determined by the provider. */
  lemma {:induction false} ServedOnce(remote: Remote, folder: string, marker: string, a: Pages, b: Pages)
    requires Serves(remote, folder, marker, a) && Serves(remote, folder, marker, b)
    ensures a == b
    decreases a, 1
  {
    ContentsOnce(remote, a.items, b.items);
    if a.More? { ServedOnce(remote, folder, remote(folder, marker).nextMarker, a.rest, b.rest); }
  }

  lemma {:induction false} ContentsOnce(remote: Remote, a: Contents, b: Contents)
    requires ServesContents(remote, a) && ServesContents(remote, b) && ItemsOf(a) == ItemsOf(b)
    ensures a == b
    decreases a, 0
  {
    if a != Nil && b != Nil {
      assert ItemsOf(a)[0] == a.item && ItemsOf(b)[0] == b.item;
      assert ItemsOf(a)[1..] == ItemsOf(a.rest) && ItemsOf(b)[1..] == ItemsOf(b.rest);
      ContentsOnce(remote, a.rest, b.rest);
      if a.Sub? { ServedOnce(remote, a.item.fileId.value, "", a.folder, b.folder); }
    }
  }

  lemma StandsOnce(remote: Remote, stack: Cursor, a: seq<Pages>, b: seq<Pages>)
    requires Stands(remote, stack, a) && Stands(remote, stack, b)
    ensures a == b
  {
    forall i | 0 <= i < |stack| ensures a[i] == b[i] {
      ServedOnce(remote, stack[i].folder, stack[i].marker, a[i], b[i]);
    }
  }

  // ---------------------------------------------------------------- steps

  lemma KeysJoin(a: seq<ObservedObject>, b: seq<ObservedObject>)
    ensures KeysOf(a + b) == KeysOf(a) + KeysOf(b)
  {
  }

  lemma SightedJoin(log: seq<Sighting>, objects: seq<ObservedObject>, known: seq<bool>)
    requires |known| == |objects|
    ensures KeysSighted(log + Sightings(objects, known)) == KeysSighted(log) + KeysOf(objects)
  {
  }

  /** A committed page moves the sighted part of the walk forward by exactly its objects. */
  lemma PageProgress(drive: Drive, sighted: seq<Key>, cursor: Option<Cursor>, todo: seq<Pages>, page: ProviderPage)
    returns (left: seq<Pages>)
    requires Progress(drive, sighted, cursor, todo) && PageFrom(drive, cursor) == Ok(page) && todo != []
    ensures page.nextCursor.Some? ==>
              Progress(drive, sighted + KeysOf(page.objects), page.nextCursor, left) && Remaining(left) < Remaining(todo)
              && left != []
    ensures page.nextCursor.None? ==> sighted + KeysOf(page.objects) == KeysOf(Walk(drive.pages, ""))
  {
    hide Stands, Loop, StackWalk, Walk, Remaining;
    var stack := StackOf(drive.rootFolder, cursor);
    StandsSize(drive.remote, stack, todo);
    left := LoopWalks(drive.remote, stack, MAXIMUM_ALIYUN_PAGES_PER_RUN, [], todo);
    var (rest, objects) := Loop(drive.remote, stack, MAXIMUM_ALIYUN_PAGES_PER_RUN, []);
    StandsSize(drive.remote, rest, left);
    assert [] + StackWalk(stack, todo) == StackWalk(stack, todo);
    KeysJoin(objects, StackWalk(rest, left));
    assert sighted + (KeysOf(objects) + KeysOf(StackWalk(rest, left)))
           == sighted + KeysOf(objects) + KeysOf(StackWalk(rest, left));
    if rest == [] {
      EmptyStack(rest, left);
      assert sighted + KeysOf(objects) + [] == sighted + KeysOf(objects);
    }
  }

  lemma EmptyStack(stack: Cursor, todo: seq<Pages>)
    requires stack == [] && todo == []
    ensures StackWalk(stack, todo) == []
  {
  }

  lemma StandsSize(remote: Remote, stack: Cursor, todo: seq<Pages>)
    requires Stands(remote, stack, todo)
    ensures |stack| == |todo|
  {
  }

  lemma StartProgress(drive: Drive)
    requires Served(drive)
    ensures Progress(drive, [], None, [drive.pages])
  {
    var stack := StackOf(drive.rootFolder, None);
    assert stack[..0] == [] && [drive.pages][..0] == [];
    assert StackWalk(stack, [drive.pages]) == Walk(drive.pages, "");
  }

  /** A cursor that is ranked above the current one is another cursor. */
  lemma RankedIsOther(drive: Drive, cursor: Option<Cursor>, todo: seq<Pages>, earlier: Option<Cursor>)
    requires Stands(drive.remote, StackOf(drive.rootFolder, cursor), todo) && RankedBelow(drive, cursor, todo, earlier)
    ensures earlier != cursor
  {
    var before :| Stands(drive.remote, StackOf(drive.rootFolder, earlier), before) && Remaining(todo) < Remaining(before);
    if earlier == cursor { StandsOnce(drive.remote, StackOf(drive.rootFolder, cursor), todo, before); }
  }

  /** A fenced commit of a page of the drive. */
  lemma FencedCommitKeeps(drive: Drive, s: System, step: Step)
    requires DriveInv(drive, s) && step.CommitStep? && WorkerAt(s, step.w).Listed?
    requires |step.known| == |WorkerAt(s, step.w).page.objects|
    requires Fence(s.db.row, WorkerAt(s, step.w).generation, WorkerAt(s, step.w).expected)
    ensures ScanOk(drive, Execute(s, step)) && Distinct(Execute(s, step).cursors)
  {
    hide Inv, Stands, RunOnce, Walk, StackWalk, Progress, Remaining;
    var t, p := Execute(s, step), WorkerAt(s, step.w);
    assert PageOk(drive, p);
    var row := s.db.row;
    var todo :| Progress(drive, KeysSighted(s.log), row.cursor, todo)
                && forall c | c in s.cursors :: RankedBelow(drive, row.cursor, todo, c);
    ProgressStands(drive, KeysSighted(s.log), row.cursor, todo);
    SightedJoin(s.log, p.page.objects, step.known);
    forall c | c in s.cursors ensures c != row.cursor { RankedIsOther(drive, row.cursor, todo, c); }
    DistinctAppend(s.cursors, row.cursor);
    if todo != [] {
      var left := PageProgress(drive, KeysSighted(s.log), row.cursor, todo, p.page);
      if p.page.nextCursor.Some? {
        forall c | c in t.cursors ensures RankedBelow(drive, t.db.row.cursor, left, c) {
          if c != row.cursor {
            assert c in s.cursors;
            var before :| Stands(drive.remote, StackOf(drive.rootFolder, c), before) && Remaining(todo) < Remaining(before);
          }
        }
      }
    } else {
      NothingLeft(drive, KeysSighted(s.log), row.cursor, p.page);
    }
  }

  lemma ProgressStands(drive: Drive, sighted: seq<Key>, cursor: Option<Cursor>, todo: seq<Pages>)
    requires Progress(drive, sighted, cursor, todo)
    ensures Stands(drive.remote, StackOf(drive.rootFolder, cursor), todo)
  {
  }

  /** An empty stack is no cursor; its page would be the last one, with nothing in it. */
  lemma NothingLeft(drive: Drive, sighted: seq<Key>, cursor: Option<Cursor>, page: ProviderPage)
    requires Progress(drive, sighted, cursor, []) && PageFrom(drive, cursor) == Ok(page)
    ensures page == ProviderPage([], None) && sighted == KeysOf(Walk(drive.pages, ""))
  {
    assert sighted + [] == sighted;
  }

  lemma DriveStep(drive: Drive, s: System, step: Step)
    requires Served(drive) && DriveInv(drive, s) && ListsDrive(drive, s, step)
    ensures DriveInv(drive, Execute(s, step))
  {
    hide Inv, Stands, Serves, RunOnce, Walk, StackWalk, Progress, Remaining, CommitPage, Refresh, MarkError, MarkUnsupported;
    ExecuteKeeps(s, step);
    var t := Execute(s, step);
    forall w ensures PageOk(drive, WorkerAt(t, w)) {
      assert PageOk(drive, WorkerAt(s, w));
      ListsFromExpected(s, w);
    }
    StateStep(drive, s, step);
  }

  lemma ListsFromExpected(s: System, w: nat)
    requires Inv(s)
    ensures WorkerAt(s, w).ListingFrom? ==> WorkerAt(s, w).from == WorkerAt(s, w).expected
  {
    assert WorkerOk(s, WorkerAt(s, w));
  }

  lemma StateStep(drive: Drive, s: System, step: Step)
    requires Served(drive) && DriveInv(drive, s) && ListsDrive(drive, s, step)
    ensures ScanOk(drive, Execute(s, step)) && Distinct(Execute(s, step).cursors)
  {
    hide Inv, Stands, Serves, RunOnce, Walk, StackWalk, Progress, Remaining, RankedBelow;
    var t := Execute(s, step);
    match step
    case CommitStep(w, known, now) =>
      var p := WorkerAt(s, w);
      if p.Listed? && |known| == |p.page.objects| && Fence(s.db.row, p.generation, p.expected) {
        FencedCommitKeeps(drive, s, step);
      }
    case StartStep(w, now) =>
      var p := WorkerAt(s, w);
      if p.Candidate? && p.row.state != Scanning && StartMatches(s.db.row, p.row) {
        StartProgress(drive);
        assert KeysSighted(t.log) == [];
        assert Progress(drive, KeysSighted(t.log), t.db.row.cursor, [drive.pages]);
      }
    case _ =>
  }

  lemma {:induction false} DriveRun(drive: Drive, now: nat, steps: seq<Step>)
    requires Served(drive) && AlwaysListsDrive(drive, Initial(now), steps)
    ensures DriveInv(drive, Run(Initial(now), steps))
    decreases |steps|
  {
    hide Execute, ScanOk, ListsDrive, Served;
    if steps == [] {
      RunKeeps(now, []);
      assert ScanOk(drive, Initial(now)) by { NotScanning(drive, Initial(now)); }
    } else {
      DriveRun(drive, now, steps[..|steps| - 1]);
      DriveStep(drive, Run(Initial(now), steps[..|steps| - 1]), steps[|steps| - 1]);
    }
  }

  lemma NotScanning(drive: Drive, s: System)
    requires s.db.row.state == Waiting
    ensures ScanOk(drive, s)
  {
  }

  // ---------------------------------------------------------------- the theorem

  /**
   Whenever a scan of a drive is complete, however its pages were cut, retried or overtaken: it counted
   every object of the drive's walk once, no cursor twice, and a key is observed exactly when the walk
   contains it and its last sighting found no owner.
   */
  lemma CompletedScanSawTheDrive(drive: Drive, now: nat, steps: seq<Step>, k: Key)
    requires Served(drive) && AlwaysListsDrive(drive, Initial(now), steps)
    ensures var s := Run(Initial(now), steps);
            && Distinct(s.cursors)
            && (s.db.row.state == Complete ==>
                  && KeysSighted(s.log) == KeysOf(Walk(drive.pages, "")) && s.db.row.scanned == |Walk(drive.pages, "")|
                  && (IsObserved(s.db.quarantine, k) <==> LastSeen(s.log, k) == Some(false))
                  && (IsObserved(s.db.quarantine, k) ==> exists o :: o in Walk(drive.pages, "") && o.storageKey == k))
  {
    hide Run, Walk, Inv;
    var s := Run(Initial(now), steps);
    DriveRun(drive, now, steps);
    CompletedScanIsExact(now, steps, k);
    if s.db.row.state == Complete && LastSeen(s.log, k).Some? {
      LastSeenIsLogged(s.log, k);
      var i :| 0 <= i < |s.log| && s.log[i].key == k;
      assert KeysSighted(s.log)[i] == k;
      assert Walk(drive.pages, "")[i].storageKey == k;
    }
  }

  lemma {:induction false} LastSeenIsLogged(log: seq<Sighting>, k: Key)
    requires LastSeen(log, k).Some?
    ensures exists i :: 0 <= i < |log| && log[i].key == k
  {
    if log[|log| - 1].key != k {
      LastSeenIsLogged(log[..|log| - 1], k);
      var i :| 0 <= i < |log[..|log| - 1]| && log[..|log| - 1][i].key == k;
      assert log[i].key == k;
    }
  }

  /**
   In terms of the drive's folders: a complete scan sighted exactly the keys of the files that folder names lead to,
   as many as its listings show, and observes of them those that were last found without an owner.
   */
  lemma CompletedScanSawTheFiles(drive: Drive, now: nat, steps: seq<Step>, k: Key)
    requires Served(drive) && AlwaysListsDrive(drive, Initial(now), steps)
    ensures var s := Run(Initial(now), steps);
            s.db.row.state == Complete ==>
              && s.db.row.scanned == FilesBelow(drive.pages)
              && (k in KeysSighted(s.log) <==> exists names, file :: LeadsTo(drive.pages, names, file) && k == KeyOf(names))
              && (IsObserved(s.db.quarantine, k) ==> exists names, file :: LeadsTo(drive.pages, names, file) && k == KeyOf(names))
  {
    hide Run, Walk, Inv, LeadsTo, FilesBelow;
    var s := Run(Initial(now), steps);
    CompletedScanSawTheDrive(drive, now, steps, k);
    WalkCountsFiles(drive.pages, "");
    if s.db.row.state == Complete {
      KeysAreOfFiles(drive, k);
      assert k in KeysSighted(s.log) <==> k in KeysOf(Walk(drive.pages, ""));
      if o :| o in Walk(drive.pages, "") && o.storageKey == k { KeyOfObject(Walk(drive.pages, ""), o); }
    }
  }

  lemma KeyOfObject(objects: seq<ObservedObject>, o: ObservedObject)
    requires o in objects
    ensures o.storageKey in KeysOf(objects)
  {
    var i :| 0 <= i < |objects| && objects[i] == o;
    assert KeysOf(objects)[i] == o.storageKey;
  }

  lemma KeysAreOfFiles(drive: Drive, k: Key)
    ensures k in KeysOf(Walk(drive.pages, "")) <==> exists names, file :: LeadsTo(drive.pages, names, file) && k == KeyOf(names)
  {
    hide Walk, LeadsTo;
    var objects := Walk(drive.pages, "");
    if k in KeysOf(objects) {
      var i :| 0 <= i < |objects| && KeysOf(objects)[i] == k;
      WalkIsTheFiles(drive.pages, objects[i]);
    }
    if names, file :| LeadsTo(drive.pages, names, file) && k == KeyOf(names) {
      LeadsToFile(drive.pages, names, file);
      var o := ObservedObject(k, file.fileId.value, file.size.value);
      WalkIsTheFiles(drive.pages, o);
      KeyOfObject(objects, o);
    }
  }
}
