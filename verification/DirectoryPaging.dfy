/**
 Listing a directory page by page. Each page takes three separate reads, and namespace mutations may
 come in between any two of them; the revision read before and after and the revision pinned in the
 cursor are the only protection.
 */
module DirectoryPaging {
  import opened Options
  import opened TextOrder
  import opened NamespaceTables
  import opened NamespaceProtocol
  import opened NamespaceInvariant

  datatype Cursor = Cursor(directory: DirectoryId, revision: nat, afterName: string)
  datatype Named = Named(name: string, entry: Entry)

  datatype Response =
    | NotFound
    | Conflict
    | Page(revision: nat, rows: seq<Named>, next: Option<Cursor>)

  // ---------------------------------------------------------------- the query

  predicate Ascending(rows: seq<Named>) {
    forall i, j :: 0 <= i < j < |rows| ==> Before(rows[i].name, rows[j].name)
  }

  predicate Lists(rows: seq<Named>, name: string) {
    exists i :: 0 <= i < |rows| && rows[i].name == name
  }

  predicate RowsOf(rows: seq<Named>, entries: map<string, Entry>, after: string) {
    forall i :: 0 <= i < |rows| ==>
      rows[i].name in entries && rows[i].entry == entries[rows[i].name] && Before(after, rows[i].name)
  }

  /** `WHERE name > after ORDER BY name LIMIT limit`: a full page stops at its last name, a short one at the end. */
  predicate Fetched(rows: seq<Named>, entries: map<string, Entry>, after: string, limit: nat) {
    && Ascending(rows) && RowsOf(rows, entries, after) && |rows| <= limit
    && forall name | name in entries && Before(after, name)
                     && (|rows| < limit || (rows != [] && AtMost(name, rows[|rows| - 1].name))) ::
         Lists(rows, name)
  }

  /** What a page reads: the directory row, its entries, and the revision again; `None` when it is not active. */
  datatype Reads = Reads(directory: Option<Directory>, rows: seq<Named>, revisionAfter: Option<nat>)

  function RowOf(ns: Namespace, d: DirectoryId): Option<Directory> {
    if d in ns.directories && ns.directories[d].active then Some(ns.directories[d]) else None
  }

  function EntriesOf(ns: Namespace, d: DirectoryId): map<string, Entry> {
    if d in ns.entries then ns.entries[d] else map[]
  }

  function AfterName(cursor: Option<Cursor>): string {
    if cursor.Some? then cursor.value.afterName else ""
  }

  /** The cursor names another directory, or another revision of this one. */
  predicate FromOther(d: DirectoryId, cursor: Option<Cursor>, revision: nat) {
    cursor.Some? && (cursor.value.directory != d || cursor.value.revision != revision)
  }

  /**
   The handler, from its reads to its response: what is gone is not found, a page of the cursor's revision that
   stayed is answered, and every other one conflicts. The extra row, if the query returned it, is dropped, and
   its predecessor is where the next page goes on.
   */
  method List(d: DirectoryId, limit: nat, cursor: Option<Cursor>, seen: Reads) returns (response: Response)
    requires limit >= 1
    ensures response.NotFound? <==>
              seen.directory.None? || (seen.revisionAfter.None? && !FromOther(d, cursor, seen.directory.value.revision))
    ensures response.Page? <==>
              && seen.directory.Some? && !FromOther(d, cursor, seen.directory.value.revision)
              && seen.revisionAfter == Some(seen.directory.value.revision)
    ensures response.Page? ==> response.revision == seen.directory.value.revision
    ensures response.Page? && |seen.rows| <= limit + 1 ==>
              response.rows == if |seen.rows| <= limit then seen.rows else seen.rows[..limit]
    ensures response.Page? ==> (response.next.Some? <==> |seen.rows| > limit)
    ensures response.Page? && response.next.Some? ==>
              response.rows != []
              && response.next == Some(Cursor(d, response.revision, response.rows[|response.rows| - 1].name))
    ensures response == Answer(d, limit, cursor, seen)
  {
    if seen.directory.None? { return NotFound; }
    var revision := seen.directory.value.revision;
    if cursor.Some? && (cursor.value.directory != d || cursor.value.revision != revision) { return Conflict; }
    var entries := seen.rows;
    if seen.revisionAfter.None? { return NotFound; }
    if seen.revisionAfter.value != revision { return Conflict; }
    var hasMore := |entries| > limit;
    if hasMore { entries := entries[..|entries| - 1]; }
    var next := None;
    if hasMore && entries != [] { next := Some(Cursor(d, revision, entries[|entries| - 1].name)); }
    response := Page(revision, entries, next);
  }

  function Answer(d: DirectoryId, limit: nat, cursor: Option<Cursor>, seen: Reads): Response
    requires limit >= 1
  {
    if seen.directory.None? then NotFound
    else
      var revision := seen.directory.value.revision;
      if cursor.Some? && (cursor.value.directory != d || cursor.value.revision != revision) then Conflict
      else if seen.revisionAfter.None? then NotFound
      else if seen.revisionAfter.value != revision then Conflict
      else if |seen.rows| > limit then
        var rows := seen.rows[..|seen.rows| - 1];
        Page(revision, rows, Some(Cursor(d, revision, rows[|rows| - 1].name)))
      else Page(revision, seen.rows, None)
  }

  // ---------------------------------------------------------------- the states the reads see

  /** Plans know which directories they rewrite; nothing else is needed of the other workers. */
  ghost predicate PlansCover(s: System) {
    forall w :: WorkerAt(s, w).Planned? ==> Covers(WorkerAt(s, w).request, WorkerAt(s, w).plan)
  }

  lemma CoverStep(s: System, step: Step)
    requires PlansCover(s)
    ensures PlansCover(Execute(s, step))
  {
    hide Commit, Commits, ReplacePlacement, Desired, ChangeIsSafe, LinksShown, Admits;
    var t := Execute(s, step);
    forall w ensures WorkerAt(t, w).Planned? ==> Covers(WorkerAt(t, w).request, WorkerAt(t, w).plan) {
      assert WorkerAt(s, w).Planned? ==> Covers(WorkerAt(s, w).request, WorkerAt(s, w).plan);
    }
  }

  lemma StepPins(s: System, step: Step, d: DirectoryId)
    requires PlansCover(s)
    ensures Pins(s.ns, Execute(s, step).ns, d)
  {
    hide Commit, Commits, Desired, ChangeIsSafe, PlacementCommits, Admits;
    if step.CommitStep? && WorkerAt(s, step.w).Planned? {
      CommitPins(s.ns, WorkerAt(s, step.w).request, WorkerAt(s, step.w).plan, d);
    }
  }

  /** The namespace after the first `i` steps. */
  ghost function Moment(s: System, steps: seq<Step>, i: nat): Namespace
    requires i <= |steps|
  {
    Run(s, steps[..i]).ns
  }

  lemma {:induction false} RunCovers(s: System, steps: seq<Step>)
    requires PlansCover(s)
    ensures PlansCover(Run(s, steps))
    decreases |steps|
  {
    hide Execute, PlansCover;
    if steps != [] {
      RunCovers(s, steps[..|steps| - 1]);
      CoverStep(Run(s, steps[..|steps| - 1]), steps[|steps| - 1]);
    }
  }

  lemma {:induction false} MomentsPin(s: System, steps: seq<Step>, i: nat, j: nat, d: DirectoryId)
    requires PlansCover(s) && i <= j <= |steps|
    ensures Pins(Moment(s, steps, i), Moment(s, steps, j), d)
    decreases j
  {
    hide Execute, PlansCover;
    if i < j {
      MomentsPin(s, steps, i, j - 1, d);
      assert steps[..j][..j - 1] == steps[..j - 1];
      RunCovers(s, steps[..j - 1]);
      StepPins(Run(s, steps[..j - 1]), steps[j - 1], d);
    }
  }

  /** One revision of a directory is one set of entries, whenever it is looked at. */
  lemma RevisionPinsEntries(s: System, steps: seq<Step>, i: nat, j: nat, d: DirectoryId)
    requires PlansCover(s) && i <= |steps| && j <= |steps|
    requires var a, b := Moment(s, steps, i), Moment(s, steps, j);
             d in a.directories && d in a.entries && d in b.directories && d in b.entries
             && a.directories[d].revision == b.directories[d].revision
    ensures Moment(s, steps, i).entries[d] == Moment(s, steps, j).entries[d]
  {
    hide Run;
    if i <= j { MomentsPin(s, steps, i, j, d); } else { MomentsPin(s, steps, j, i, d); }
  }

  // ---------------------------------------------------------------- one page

  /** A page request in a run: the moments of its three reads, and what the entry query returned. */
  datatype Fetch = Fetch(limit: nat, first: nat, second: nat, third: nat, rows: seq<Named>)

  ghost predicate FetchIn(s: System, steps: seq<Step>, d: DirectoryId, cursor: Option<Cursor>, f: Fetch) {
    && 1 <= f.limit && f.first <= f.second <= f.third <= |steps|
    && Fetched(f.rows, EntriesOf(Moment(s, steps, f.second), d), AfterName(cursor), f.limit + 1)
  }

  ghost function ReadsOf(s: System, steps: seq<Step>, d: DirectoryId, f: Fetch): Reads
    requires f.first <= |steps| && f.third <= |steps|
  {
    var again := RowOf(Moment(s, steps, f.third), d);
    Reads(RowOf(Moment(s, steps, f.first), d), f.rows, if again.Some? then Some(again.value.revision) else None)
  }

  /** `entries` is what directory `d` holds at revision `r`, at some moment of the run. */
  ghost predicate HeldAt(s: System, steps: seq<Step>, d: DirectoryId, r: nat, entries: map<string, Entry>) {
    exists i: nat :: i <= |steps| && d in Moment(s, steps, i).directories && d in Moment(s, steps, i).entries
      && Moment(s, steps, i).directories[d].revision == r && Moment(s, steps, i).entries[d] == entries
  }

  lemma HeldOnce(s: System, steps: seq<Step>, d: DirectoryId, r: nat, a: map<string, Entry>, b: map<string, Entry>)
    requires PlansCover(s) && HeldAt(s, steps, d, r, a) && HeldAt(s, steps, d, r, b)
    ensures a == b
  {
    hide Run, Moment, PlansCover;
    var i: nat :| i <= |steps| && d in Moment(s, steps, i).directories && d in Moment(s, steps, i).entries
      && Moment(s, steps, i).directories[d].revision == r && Moment(s, steps, i).entries[d] == a;
    var j: nat :| j <= |steps| && d in Moment(s, steps, j).directories && d in Moment(s, steps, j).entries
      && Moment(s, steps, j).directories[d].revision == r && Moment(s, steps, j).entries[d] == b;
    RevisionPinsEntries(s, steps, i, j, d);
  }

  /** Entries exist for every directory row. */
  predicate Rowed(ns: Namespace) {
    ns.directories.Keys == ns.entries.Keys
  }

  lemma RowedStep(s: System, step: Step)
    requires Rowed(s.ns)
    ensures Rowed(Execute(s, step).ns)
  {
    hide IsChain, AtOrAbove, IsFree, NameFree, Desired, ChangeIsSafe, FenceHolds, PlacementCommits, Admits;
    if step.CommitStep? && WorkerAt(s, step.w).Planned? {
      var p := WorkerAt(s, step.w);
      if Commits(s.ns, p.request, p.plan) { RowedApplied(s.ns, p.request, p.plan); }
    }
  }

  lemma RowedApplied(ns: Namespace, request: Request, plan: Plan)
    requires Rowed(ns) && Commits(ns, request, plan)
    ensures Rowed(Bump(Applied(ns, request, plan), plan))
  {
    hide IsChain, AtOrAbove, IsFree, NameFree, FenceHolds, Bump, ApplyMkdir, ApplyRemove, ApplyRename, ApplyPutNew, ApplyPutOver;
    match request {
      case Mkdir(parent, name, child) => RowedMkdir(ns, parent, name, child);
      case Remove(d, name, subject, revision) => RowedRemove(ns, d, name, subject);
      case Rename(source, name, destination, newName, subject, revision) =>
        RowedRename(ns, source, name, destination, newName, subject, revision);
      case PutNew(d, name, f, driver) => RowedPut(ns, d, name, f);
      case PutOver(d, name, f, driver, revision) => RowedPut(ns, d, name, f);
    }
    RowedBump(Applied(ns, request, plan), plan);
  }

  lemma RowedMkdir(ns: Namespace, parent: DirectoryId, name: string, child: DirectoryId)
    requires Rowed(ns) && MkdirCommits(ns, parent, name, child)
    ensures Rowed(ApplyMkdir(ns, parent, name, child))
  {
  }

  lemma RowedRemove(ns: Namespace, d: DirectoryId, name: string, subject: Subject)
    requires Rowed(ns) && d in ns.entries
    ensures Rowed(ApplyRemove(ns, d, name, subject))
  {
  }

  lemma RowedRename(ns: Namespace, source: DirectoryId, name: string, destination: DirectoryId, newName: string,
                    subject: Subject, revision: nat)
    requires Rowed(ns) && source in ns.entries && destination in ns.entries
    ensures Rowed(ApplyRename(ns, source, name, destination, newName, subject, revision))
  {
  }

  lemma RowedPut(ns: Namespace, d: DirectoryId, name: string, f: FileId)
    requires Rowed(ns) && IsActive(ns, d) && d in ns.drivers
    ensures Rowed(ApplyPutNew(ns, d, name, f))
    ensures name in ns.entries[d] ==> Rowed(ApplyPutOver(ns, d, name, f))
  {
  }

  lemma RowedBump(ns: Namespace, plan: Plan)
    requires Rowed(ns)
    ensures Rowed(Bump(ns, plan))
  {
  }

  lemma {:induction false} RunRowed(s: System, steps: seq<Step>)
    requires Rowed(s.ns)
    ensures Rowed(Run(s, steps).ns)
    decreases |steps|
  {
    hide Execute, Rowed;
    if steps != [] {
      RunRowed(s, steps[..|steps| - 1]);
      RowedStep(Run(s, steps[..|steps| - 1]), steps[|steps| - 1]);
    }
  }

  /** A page that is answered was read from one revision, the same before, during and after. */
  lemma PageReadsOneRevision(s: System, steps: seq<Step>, d: DirectoryId, cursor: Option<Cursor>, f: Fetch)
    requires PlansCover(s) && Rowed(s.ns) && FetchIn(s, steps, d, cursor, f)
    requires Answer(d, f.limit, cursor, ReadsOf(s, steps, d, f)).Page?
    ensures var page := Answer(d, f.limit, cursor, ReadsOf(s, steps, d, f));
            && HeldAt(s, steps, d, page.revision, EntriesOf(Moment(s, steps, f.second), d))
            && (cursor.Some? ==> cursor.value.revision == page.revision)
  {
    hide Run;
    RunRowed(s, steps[..f.first]);
    var a, b, c := Moment(s, steps, f.first), Moment(s, steps, f.second), Moment(s, steps, f.third);
    MomentsPin(s, steps, f.first, f.second, d);
    MomentsPin(s, steps, f.second, f.third, d);
    assert d in a.directories && d in a.entries;
  }

  // ---------------------------------------------------------------- following the cursor

  /** A client that follows `next` from the first page until there is none. */
  ghost predicate Follows(s: System, steps: seq<Step>, d: DirectoryId, cursor: Option<Cursor>, fetches: seq<Fetch>)
    decreases |fetches|
  {
    |fetches| > 0 && FetchIn(s, steps, d, cursor, fetches[0]) &&
    var page := Answer(d, fetches[0].limit, cursor, ReadsOf(s, steps, d, fetches[0]));
    page.Page? && (if |fetches| == 1 then page.next.None? else page.next.Some? && Follows(s, steps, d, page.next, fetches[1..]))
  }

  ghost function Collected(s: System, steps: seq<Step>, d: DirectoryId, cursor: Option<Cursor>, fetches: seq<Fetch>): seq<Named>
    requires Follows(s, steps, d, cursor, fetches)
    decreases |fetches|
  {
    var page := Answer(d, fetches[0].limit, cursor, ReadsOf(s, steps, d, fetches[0]));
    page.rows + if |fetches| == 1 then [] else Collected(s, steps, d, page.next, fetches[1..])
  }

  ghost function FirstRevision(s: System, steps: seq<Step>, d: DirectoryId, cursor: Option<Cursor>, fetches: seq<Fetch>): nat
    requires Follows(s, steps, d, cursor, fetches)
  {
    Answer(d, fetches[0].limit, cursor, ReadsOf(s, steps, d, fetches[0])).revision
  }

  /** Everything after `after`, in order and once. */
  predicate Complete(rows: seq<Named>, entries: map<string, Entry>, after: string) {
    && Ascending(rows) && RowsOf(rows, entries, after)
    && forall name | name in entries && Before(after, name) :: Lists(rows, name)
  }

  /** Dropping the extra row leaves everything up to the last name kept, and something is left to read. */
  lemma TruncatedPage(rows: seq<Named>, entries: map<string, Entry>, after: string, limit: nat)
    requires 1 <= limit && Fetched(rows, entries, after, limit + 1) && |rows| > limit
    ensures var kept := rows[..|rows| - 1];
            && kept != [] && Ascending(kept) && RowsOf(kept, entries, after)
            && forall name | name in entries && Before(after, name) && AtMost(name, kept[|kept| - 1].name) :: Lists(kept, name)
  {
    var kept := rows[..|rows| - 1];
    var last, extra := kept[|kept| - 1].name, rows[|rows| - 1].name;
    assert Before(last, extra);
    forall name | name in entries && Before(after, name) && AtMost(name, last) ensures Lists(kept, name) {
      if name != last { Transitive(name, last, extra); }
      assert Lists(rows, name);
      var i :| 0 <= i < |rows| && rows[i].name == name;
      if i == |rows| - 1 { Asymmetric(last, extra); Irreflexive(last); }
      assert kept[i].name == name;
    }
  }

  lemma PagesJoin(kept: seq<Named>, rest: seq<Named>, entries: map<string, Entry>, after: string)
    requires kept != [] && Ascending(kept) && RowsOf(kept, entries, after)
    requires forall name | name in entries && Before(after, name) && AtMost(name, kept[|kept| - 1].name) :: Lists(kept, name)
    requires Complete(rest, entries, kept[|kept| - 1].name)
    ensures Complete(kept + rest, entries, after)
  {
    var all, last := kept + rest, kept[|kept| - 1].name;
    assert Before(after, last);
    forall i, j | 0 <= i < j < |all| ensures Before(all[i].name, all[j].name) {
      if i < |kept| <= j && i < |kept| - 1 {
        assert Before(kept[i].name, last) && Before(last, rest[j - |kept|].name);
        Transitive(kept[i].name, last, all[j].name);
      }
    }
    forall i | 0 <= i < |all| ensures all[i].name in entries && all[i].entry == entries[all[i].name] && Before(after, all[i].name) {
      if i >= |kept| {
        assert all[i] == rest[i - |kept|];
        Transitive(after, last, all[i].name);
      } else {
        assert all[i] == kept[i];
      }
    }
    forall name | name in entries && Before(after, name) ensures Lists(all, name) {
      Total(name, last);
      if AtMost(name, last) {
        assert Lists(kept, name);
        var i :| 0 <= i < |kept| && kept[i].name == name;
        assert all[i].name == name;
      } else {
        assert Lists(rest, name);
        var i :| 0 <= i < |rest| && rest[i].name == name;
        assert all[|kept| + i].name == name;
      }
    }
  }

  /**
   A client that follows the cursor to its end, with any mutations between any two of its reads, has
   exactly the entries of one revision of the directory, in order, each once.
   */
  lemma {:induction false} FollowingIsExact(
    s: System, steps: seq<Step>, d: DirectoryId, cursor: Option<Cursor>, fetches: seq<Fetch>, entries: map<string, Entry>)
    requires PlansCover(s) && Rowed(s.ns) && Follows(s, steps, d, cursor, fetches)
    requires HeldAt(s, steps, d, FirstRevision(s, steps, d, cursor, fetches), entries)
    ensures Complete(Collected(s, steps, d, cursor, fetches), entries, AfterName(cursor))
    decreases |fetches|
  {
    hide Run, Moment, PlansCover, Rowed, HeldAt, FetchIn, Complete, Ascending, RowsOf, Answer, ReadsOf;
    var f := fetches[0];
    FetchShape(s, steps, d, cursor, f);
    var page := Answer(d, f.limit, cursor, ReadsOf(s, steps, d, f));
    PageOfFollower(s, steps, d, cursor, f, entries);
    if |fetches| == 1 {
      assert page.rows + [] == page.rows;
    } else {
      NextPageSameRevision(s, steps, d, page.next, fetches[1..]);
      FollowingIsExact(s, steps, d, page.next, fetches[1..], entries);
      PagesJoin(page.rows, Collected(s, steps, d, page.next, fetches[1..]), entries, AfterName(cursor));
    }
  }

  lemma FetchShape(s: System, steps: seq<Step>, d: DirectoryId, cursor: Option<Cursor>, f: Fetch)
    requires FetchIn(s, steps, d, cursor, f)
    ensures 1 <= f.limit && f.first <= f.second <= f.third <= |steps|
  {
  }

  /** One answered page of a listing: the rest of the revision, or its front with a cursor to what follows. */
  lemma PageOfFollower(s: System, steps: seq<Step>, d: DirectoryId, cursor: Option<Cursor>, f: Fetch, entries: map<string, Entry>)
    requires PlansCover(s) && Rowed(s.ns) && FetchIn(s, steps, d, cursor, f)
    requires Answer(d, f.limit, cursor, ReadsOf(s, steps, d, f)).Page?
    requires HeldAt(s, steps, d, Answer(d, f.limit, cursor, ReadsOf(s, steps, d, f)).revision, entries)
    ensures var page := Answer(d, f.limit, cursor, ReadsOf(s, steps, d, f));
            && (page.next.None? ==> Complete(page.rows, entries, AfterName(cursor)))
            && (page.next.Some? ==>
                  && page.rows != [] && Ascending(page.rows) && RowsOf(page.rows, entries, AfterName(cursor))
                  && page.next == Some(Cursor(d, page.revision, page.rows[|page.rows| - 1].name))
                  && forall name | name in entries && Before(AfterName(cursor), name)
                                   && AtMost(name, page.rows[|page.rows| - 1].name) :: Lists(page.rows, name))
  {
    hide Run, Moment, PlansCover, Rowed, HeldAt, Fetched, Complete, Ascending, RowsOf, Answer, ReadsOf;
    var seen := ReadsOf(s, steps, d, f);
    PageReadsOneRevision(s, steps, d, cursor, f);
    HeldOnce(s, steps, d, Answer(d, f.limit, cursor, seen).revision, entries, EntriesOf(Moment(s, steps, f.second), d));
    SeenRows(s, steps, d, f);
    PageShows(d, f.limit, cursor, seen);
    if |f.rows| > f.limit {
      TruncatedPage(f.rows, entries, AfterName(cursor), f.limit);
    } else {
      WholePage(f.rows, entries, AfterName(cursor), f.limit);
    }
  }

  lemma SeenRows(s: System, steps: seq<Step>, d: DirectoryId, f: Fetch)
    requires f.first <= |steps| && f.third <= |steps|
    ensures ReadsOf(s, steps, d, f).rows == f.rows
  {
  }

  /** There is a next cursor exactly when the query returned the extra row, which is then dropped. */
  lemma PageShows(d: DirectoryId, limit: nat, cursor: Option<Cursor>, seen: Reads)
    requires limit >= 1 && Answer(d, limit, cursor, seen).Page?
    ensures var page := Answer(d, limit, cursor, seen);
            if |seen.rows| > limit then
              && page.rows == seen.rows[..|seen.rows| - 1] != []
              && page.next == Some(Cursor(d, page.revision, page.rows[|page.rows| - 1].name))
            else page.rows == seen.rows && page.next == None
  {
  }

  lemma WholePage(rows: seq<Named>, entries: map<string, Entry>, after: string, limit: nat)
    requires 1 <= limit && Fetched(rows, entries, after, limit + 1) && |rows| <= limit
    ensures Complete(rows, entries, after)
  {
  }

  lemma NextPageSameRevision(s: System, steps: seq<Step>, d: DirectoryId, cursor: Option<Cursor>, fetches: seq<Fetch>)
    requires cursor.Some? && Follows(s, steps, d, cursor, fetches)
    ensures FirstRevision(s, steps, d, cursor, fetches) == cursor.value.revision
  {
  }

  /** Any page read from another revision than the cursor's is refused. */
  lemma OtherRevisionConflicts(d: DirectoryId, limit: nat, cursor: Cursor, seen: Reads)
    requires limit >= 1
    ensures Answer(d, limit, Some(cursor), seen).Page? <==>
              && seen.directory.Some? && cursor.directory == d && cursor.revision == seen.directory.value.revision
              && seen.revisionAfter == Some(seen.directory.value.revision)
  {
  }

  /** The same from the bootstrap of a filesystem: `entries` is what the revision of the first page held. */
  lemma ListingIsExact(root: DirectoryId, driver: Option<Driver>, steps: seq<Step>, d: DirectoryId, fetches: seq<Fetch>)
    requires Follows(Initial(root, driver), steps, d, None, fetches)
    ensures var s := Initial(root, driver);
            exists entries :: HeldAt(s, steps, d, FirstRevision(s, steps, d, None, fetches), entries)
                           && Complete(Collected(s, steps, d, None, fetches), entries, "")
  {
    hide Run, Moment, Follows, Fetched;
    var s := Initial(root, driver);
    assert PlansCover(s) && Rowed(s.ns);
    FirstIsAnswered(s, steps, d, fetches);
    PageReadsOneRevision(s, steps, d, None, fetches[0]);
    FollowingIsExact(s, steps, d, None, fetches, EntriesOf(Moment(s, steps, fetches[0].second), d));
  }

  lemma FirstIsAnswered(s: System, steps: seq<Step>, d: DirectoryId, fetches: seq<Fetch>)
    requires Follows(s, steps, d, None, fetches)
    ensures |fetches| > 0 && FetchIn(s, steps, d, None, fetches[0])
    ensures Answer(d, fetches[0].limit, None, ReadsOf(s, steps, d, fetches[0])).Page?
  {
  }

  // ---------------------------------------------------------------- when a page is answered, and that listings end

  predicate IsListedAt(ns: Namespace, d: DirectoryId, revision: nat) {
    d in ns.directories && ns.directories[d].active && ns.directories[d].revision == revision
  }

  /** A page is answered exactly when the directory is there at the cursor's revision, or any for the first, and still after. */
  lemma PageAnsweredExactly(s: System, steps: seq<Step>, d: DirectoryId, cursor: Option<Cursor>, f: Fetch)
    requires FetchIn(s, steps, d, cursor, f)
    ensures var page := Answer(d, f.limit, cursor, ReadsOf(s, steps, d, f));
            && (page.Page? <==>
                  exists r :: && IsListedAt(Moment(s, steps, f.first), d, r) && IsListedAt(Moment(s, steps, f.third), d, r)
                              && (cursor.Some? ==> cursor.value.directory == d && cursor.value.revision == r))
            && (page.Page? ==> IsListedAt(Moment(s, steps, f.first), d, page.revision))
  {
    hide Run, Moment, Fetched;
    var a := Moment(s, steps, f.first);
    if d in a.directories { assert IsListedAt(a, d, a.directories[d].revision) <==> a.directories[d].active; }
  }

  lemma {:induction false} LeastName(names: set<string>) returns (least: string)
    requires names != {}
    ensures least in names && forall n | n in names :: AtMost(least, n)
    decreases |names|
  {
    hide Before;
    var x :| x in names;
    least := x;
    if names - {x} != {} {
      var other := LeastName(names - {x});
      Total(x, other);
      if Before(other, x) { least := other; }
      forall n | n in names ensures AtMost(least, n) {
        if n != x {
          assert n in names - {x} && AtMost(other, n);
          if least == x && x != other && other != n { Transitive(x, other, n); }
        }
      }
    } else {
      assert names == {x} + (names - {x});
    }
  }

  function NamesAfter(entries: map<string, Entry>, after: string): set<string> {
    set n | n in entries && Before(after, n)
  }

  /** The query has an answer for every directory, cursor and limit. */
  lemma {:induction false} QueryAnswers(entries: map<string, Entry>, after: string, limit: nat) returns (rows: seq<Named>)
    ensures Fetched(rows, entries, after, limit)
    ensures |rows| < limit ==> |rows| == |NamesAfter(entries, after)|
    decreases limit
  {
    hide Before;
    if limit == 0 || NamesAfter(entries, after) == {} {
      rows := [];
      forall name | name in entries ensures Before(after, name) <==> name in NamesAfter(entries, after) {}
    } else {
      var least := LeastName(NamesAfter(entries, after));
      var rest := QueryAnswers(entries, least, limit - 1);
      rows := [Named(least, entries[least])] + rest;
      LeastLeaves(entries, after, least);
      FirstAndRest(rest, entries, after, least, limit);
    }
  }

  lemma LeastLeaves(entries: map<string, Entry>, after: string, least: string)
    requires least in NamesAfter(entries, after) && forall n | n in NamesAfter(entries, after) :: AtMost(least, n)
    ensures NamesAfter(entries, after) == NamesAfter(entries, least) + {least} && least !in NamesAfter(entries, least)
  {
    hide Before;
    Irreflexive(least);
    forall n | n in NamesAfter(entries, least) ensures n in NamesAfter(entries, after) { Transitive(after, least, n); }
  }

  lemma FirstAndRest(rest: seq<Named>, entries: map<string, Entry>, after: string, least: string, limit: nat)
    requires limit >= 1 && Fetched(rest, entries, least, limit - 1) && least in entries && Before(after, least)
    requires NamesAfter(entries, after) == NamesAfter(entries, least) + {least}
    ensures Fetched([Named(least, entries[least])] + rest, entries, after, limit)
  {
    hide Before, Ascending, RowsOf, Lists;
    var rows := [Named(least, entries[least])] + rest;
    FirstAscends(rest, entries, after, least);
    forall name | name in entries && Before(after, name)
                  && (|rows| < limit || AtMost(name, rows[|rows| - 1].name))
      ensures Lists(rows, name)
    {
      if name == least {
        ListsFirst(Named(least, entries[least]), rest, name);
      } else {
        LaterIsBehind(entries, after, least, name);
        if rest == [] && |rows| >= limit {
          Asymmetric(least, name);
        } else {
          assert rest != [] ==> rows[|rows| - 1] == rest[|rest| - 1];
          ListsFirst(Named(least, entries[least]), rest, name);
        }
      }
    }
  }

  lemma FirstAscends(rest: seq<Named>, entries: map<string, Entry>, after: string, least: string)
    requires Ascending(rest) && RowsOf(rest, entries, least) && least in entries && Before(after, least)
    ensures Ascending([Named(least, entries[least])] + rest) && RowsOf([Named(least, entries[least])] + rest, entries, after)
  {
    hide Before;
    forall i | 0 <= i < |rest| ensures Before(after, rest[i].name) { Transitive(after, least, rest[i].name); }
  }

  lemma LaterIsBehind(entries: map<string, Entry>, after: string, least: string, name: string)
    requires name in entries && Before(after, name) && name != least
    requires NamesAfter(entries, after) == NamesAfter(entries, least) + {least}
    ensures Before(least, name)
  {
    assert name in NamesAfter(entries, after);
  }

  lemma ListsFirst(first: Named, rest: seq<Named>, name: string)
    ensures Lists([first] + rest, name) <==> first.name == name || Lists(rest, name)
  {
    var rows := [first] + rest;
    if first.name == name { assert rows[0].name == name; }
    if i :| 0 <= i < |rest| && rest[i].name == name { assert rows[i + 1].name == name; }
    if i :| 0 <= i < |rows| && rows[i].name == name && i > 0 { assert rest[i - 1].name == name; }
  }

  /** Where nothing changes, a client that follows the cursor comes to the end, whatever page size it asks for. */
  lemma {:induction false} QuietListingEnds(s: System, d: DirectoryId, cursor: Option<Cursor>, limit: nat) returns (fetches: seq<Fetch>)
    requires limit >= 1 && IsActive(s.ns, d)
    requires cursor.Some? ==> cursor.value.directory == d && cursor.value.revision == s.ns.directories[d].revision
    ensures Follows(s, [], d, cursor, fetches)
    decreases |NamesAfter(s.ns.entries[d], AfterName(cursor))|
  {
    hide Before, Fetched;
    var entries, after := s.ns.entries[d], AfterName(cursor);
    var rows := QueryAnswers(entries, after, limit + 1);
    var f := Fetch(limit, 0, 0, 0, rows);
    var nobody: seq<Step> := [];
    assert nobody[..0] == [];
    assert Moment(s, [], 0) == s.ns;
    var page := Answer(d, limit, cursor, ReadsOf(s, [], d, f));
    assert page.Page?;
    if page.next.None? {
      fetches := [f];
    } else {
      LaterHasFewer(rows, entries, after, limit);
      var more := QuietListingEnds(s, d, page.next, limit);
      fetches := [f] + more;
      assert fetches[1..] == more;
    }
  }

  lemma LaterHasFewer(rows: seq<Named>, entries: map<string, Entry>, after: string, limit: nat)
    requires 1 <= limit && Fetched(rows, entries, after, limit + 1) && |rows| > limit
    ensures |NamesAfter(entries, rows[|rows| - 2].name)| < |NamesAfter(entries, after)|
  {
    hide Before;
    var last := rows[|rows| - 2].name;
    Irreflexive(last);
    forall n | n in NamesAfter(entries, last) ensures n in NamesAfter(entries, after) { Transitive(after, last, n); }
    assert last in NamesAfter(entries, after) && last !in NamesAfter(entries, last);
    SmallerSet(NamesAfter(entries, last), NamesAfter(entries, after), last);
  }

  lemma SmallerSet(few: set<string>, many: set<string>, x: string)
    requires few <= many && x in many && x !in few
    ensures |few| < |many|
  {
    assert many == (many - {x}) + {x} && few <= many - {x};
    assert many - {x} == few + (many - {x} - few);
  }
}
