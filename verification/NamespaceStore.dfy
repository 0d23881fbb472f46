/**
 The namespace tables as the database holds them, rewritten in place: the mkdir, remove and rename
 batches statement by statement, with the loops over the planned directories, and the driver
 replacement with the recursive queries of its triggers. A refused batch undoes everything. Each is
 tied to its atomic step.
 */
module NamespaceStore {
  import opened Options
  import opened NamespaceTables
  import opened NamespaceInvariant

  /** The bump of the directories handled so far, and of the links that lead to them. */
  function BumpDone(ns: Namespace, plan: Plan, done: set<DirectoryId>): Namespace {
    ns.(directories := map d | d in ns.directories ::
          if d in done then ns.directories[d].(revision := ns.directories[d].revision + 1) else ns.directories[d],
        entries := map d | d in ns.entries :: LinksDone(ns.entries[d], d, plan, done))
  }

  function LinksDone(entries: map<string, Entry>, p: DirectoryId, plan: Plan, done: set<DirectoryId>): map<string, Entry> {
    map name | name in entries ::
      if LinkPlanned(plan, p, name, entries[name]) && entries[name].subject.directory in done
      then entries[name].(revision := entries[name].revision + 1) else entries[name]
  }

  lemma BumpDoneAll(ns: Namespace, plan: Plan)
    ensures BumpDone(ns, plan, plan.Keys) == Bump(ns, plan)
  {
    forall d | d in ns.entries ensures LinksDone(ns.entries[d], d, plan, plan.Keys) == BumpedLinks(ns.entries[d], d, plan) {}
  }

  lemma BumpDoneNone(ns: Namespace, plan: Plan)
    ensures BumpDone(ns, plan, {}) == ns
  {
    forall d | d in ns.entries ensures LinksDone(ns.entries[d], d, plan, {}) == ns.entries[d] {}
    assert BumpDone(ns, plan, {}).directories == ns.directories;
    assert BumpDone(ns, plan, {}).entries == ns.entries;
  }

  /** The one entry that the link statement for `d` may touch. */
  predicate LinkStatementMatches(ns: Namespace, plan: Plan, d: DirectoryId) {
    d in plan && plan[d].directory.parent.Some? &&
    var p, name := plan[d].directory.parent.value, plan[d].directory.name;
    && p in plan && name in plan[p].entries && p in ns.entries && name in ns.entries[p]
    && ns.entries[p][name].subject == DirectorySubject(d) && ns.entries[p][name].revision == plan[p].entries[name].revision
  }

  /** The two statements for one planned directory. */
  function BumpOne(ns: Namespace, plan: Plan, d: DirectoryId): Namespace
    requires d in plan
  {
    var moved := if d in ns.directories && ns.directories[d].revision == plan[d].directory.revision
                 then ns.(directories := ns.directories[d := ns.directories[d].(revision := ns.directories[d].revision + 1)])
                 else ns;
    if LinkStatementMatches(ns, plan, d) then
      var p, name := plan[d].directory.parent.value, plan[d].directory.name;
      moved.(entries := ns.entries[p := ns.entries[p][name := ns.entries[p][name].(revision := ns.entries[p][name].revision + 1)]])
    else moved
  }

  /** The link statement for `d` touches exactly the entry planned for `d`. */
  lemma LinkStatementIsPlanned(ns: Namespace, was: Namespace, plan: Plan, done: set<DirectoryId>, d: DirectoryId,
                               p: DirectoryId, name: string)
    requires d in plan && d !in done && p in ns.entries && name in ns.entries[p]
    requires p in was.entries && was.entries[p] == LinksDone(ns.entries[p], p, plan, done)
    ensures LinkStatementMatches(was, plan, d) && plan[d].directory.parent == Some(p) && plan[d].directory.name == name
            <==> LinkPlanned(plan, p, name, ns.entries[p][name]) && ns.entries[p][name].subject.directory == d
    ensures ns.entries[p][name].subject == DirectorySubject(d) ==> was.entries[p][name] == ns.entries[p][name]
  {
  }

  lemma LinkOneMore(ns: Namespace, plan: Plan, done: set<DirectoryId>, d: DirectoryId, p: DirectoryId, name: string)
    requires d in plan && d !in done && p in ns.entries && name in ns.entries[p]
    ensures var now := BumpOne(BumpDone(ns, plan, done), plan, d);
            && now.entries.Keys == ns.entries.Keys && now.entries[p].Keys == ns.entries[p].Keys
            && now.entries[p][name] == LinksDone(ns.entries[p], p, plan, done + {d})[name]
  {
    hide LinkPlanned, LinkStatementMatches;
    var was := BumpDone(ns, plan, done);
    assert was.entries[p] == LinksDone(ns.entries[p], p, plan, done);
    LinkStatementIsPlanned(ns, was, plan, done, d, p, name);
    KeysOneMore(ns, plan, done, d);
    if LinkStatementMatches(was, plan, d) { StatementTarget(was, plan, d); }
  }

  lemma StatementTarget(ns: Namespace, plan: Plan, d: DirectoryId)
    requires LinkStatementMatches(ns, plan, d)
    ensures d in plan && plan[d].directory.parent.Some?
    ensures plan[d].directory.parent.value in ns.entries && plan[d].directory.name in ns.entries[plan[d].directory.parent.value]
  {
  }

  lemma BumpOneMore(ns: Namespace, plan: Plan, done: set<DirectoryId>, d: DirectoryId)
    requires d in plan && d !in done && Unchanged(ns, plan, d)
    ensures BumpOne(BumpDone(ns, plan, done), plan, d) == BumpDone(ns, plan, done + {d})
  {
    hide LinkPlanned, LinkStatementMatches;
    var now, all := BumpOne(BumpDone(ns, plan, done), plan, d), BumpDone(ns, plan, done + {d});
    assert now.entries == all.entries by { EntriesOneMore(ns, plan, done, d); }
    assert now.directories == all.directories;
  }

  lemma EntriesOneMore(ns: Namespace, plan: Plan, done: set<DirectoryId>, d: DirectoryId)
    requires d in plan && d !in done
    ensures BumpOne(BumpDone(ns, plan, done), plan, d).entries == BumpDone(ns, plan, done + {d}).entries
  {
    hide BumpOne, LinksDone, LinkPlanned;
    var now, all := BumpOne(BumpDone(ns, plan, done), plan, d), BumpDone(ns, plan, done + {d});
    assert now.entries.Keys == ns.entries.Keys by { KeysOneMore(ns, plan, done, d); }
    forall p | p in ns.entries ensures now.entries[p] == all.entries[p] {
      KeysOneMore(ns, plan, done, d);
      LinksKeys(ns.entries[p], p, plan, done + {d});
      forall name | name in ns.entries[p] ensures now.entries[p][name] == all.entries[p][name] {
        LinkOneMore(ns, plan, done, d, p, name);
      }
      assert all.entries[p] == LinksDone(ns.entries[p], p, plan, done + {d});
    }
  }

  lemma LinksKeys(entries: map<string, Entry>, p: DirectoryId, plan: Plan, done: set<DirectoryId>)
    ensures LinksDone(entries, p, plan, done).Keys == entries.Keys
  {
  }

  lemma KeysOneMore(ns: Namespace, plan: Plan, done: set<DirectoryId>, d: DirectoryId)
    requires d in plan
    ensures var now := BumpOne(BumpDone(ns, plan, done), plan, d);
            now.entries.Keys == ns.entries.Keys && forall p | p in ns.entries :: now.entries[p].Keys == ns.entries[p].Keys
  {
    forall p | p in ns.entries ensures LinksDone(ns.entries[p], p, plan, done).Keys == ns.entries[p].Keys {}
  }

  /** The planned directories in statement order, each once. */
  predicate Enumerates(order: seq<DirectoryId>, plan: Plan) {
    && (forall d | d in order :: d in plan) && (forall d | d in plan :: d in order)
    && (forall i, j :: 0 <= i < j < |order| ==> order[i] != order[j])
  }

  // ---------------------------------------------------------------- mkdir

  function MkdirStatements(ns: Namespace, parent: DirectoryId, name: string, child: DirectoryId): Namespace
    requires parent in ns.entries
  {
    var entries := ns.entries[child := map[]];
    ns.(directories := ns.directories[child := Directory(Some(parent), name, true, 1)],
        entries := entries[parent := entries[parent][name := Entry(DirectorySubject(child), 1)]],
        drivers := if parent in ns.drivers then ns.drivers[child := ns.drivers[parent]] else ns.drivers,
        placements := ns.placements[child := if parent in ns.drivers then 2 else 1])
  }

  predicate MkdirRefused(ns: Namespace, parent: DirectoryId, name: string, child: DirectoryId, plan: Plan) {
    || !FenceHolds(ns, plan) || child in ns.directories || !NameFree(ns, parent, name)
    || parent !in ns.directories || parent !in ns.entries
  }

  lemma MkdirFence(ns: Namespace, parent: DirectoryId, name: string, child: DirectoryId, plan: Plan)
    requires FenceHolds(ns, plan) && parent in ns.entries && child !in ns.directories
    ensures FenceHolds(MkdirStatements(ns, parent, name, child), plan)
  {
    var t := MkdirStatements(ns, parent, name, child);
    forall d | d in plan ensures Unchanged(t, plan, d) { assert Unchanged(ns, plan, d); }
  }

  lemma BumpKeepsActive(ns: Namespace, plan: Plan, d: DirectoryId)
    ensures IsActive(Bump(ns, plan), d) <==> IsActive(ns, d)
    ensures Bump(ns, plan).drivers == ns.drivers
  {
  }

  /** The statements, the fence and the trigger on committing compose to the one atomic step. */
  lemma MkdirBatchIsCommit(ns: Namespace, parent: DirectoryId, name: string, child: DirectoryId, plan: Plan)
    ensures var request := Request.Mkdir(parent, name, child);
            && (MkdirRefused(ns, parent, name, child, plan) ==> !Commits(ns, request, plan))
            && (!Commits(ns, request, plan) ==> Commit(ns, request, plan) == ns)
            && (!MkdirRefused(ns, parent, name, child, plan) ==>
                  var after := MkdirStatements(ns, parent, name, child);
                  && FenceHolds(after, plan)
                  && (name !in ns.entries[parent] && IsActive(Bump(after, plan), parent) && parent in Bump(after, plan).drivers
                      <==> Commits(ns, request, plan))
                  && (Commits(ns, request, plan) ==> Bump(after, plan) == Commit(ns, request, plan)))
  {
    hide FenceHolds, NameFree, Bump;
    if !MkdirRefused(ns, parent, name, child, plan) {
      var after := MkdirStatements(ns, parent, name, child);
      MkdirFence(ns, parent, name, child, plan);
      BumpKeepsActive(after, plan, parent);
      if MkdirCommits(ns, parent, name, child) { assert after == ApplyMkdir(ns, parent, name, child); }
    }
  }

  // ---------------------------------------------------------------- remove

  function RemoveStatements(ns: Namespace, d: DirectoryId, name: string, subject: Subject, revision: nat): Namespace
    requires d in ns.entries
  {
    Tombstone(
      if name in ns.entries[d] && ns.entries[d][name].revision == revision
      then ns.(entries := ns.entries[d := ns.entries[d] - {name}]) else ns,
      subject)
  }

  /** The trigger on the receipt, apart from the fence: the entry is gone and a directory is an empty tombstone. */
  predicate RemoveReceipt(ns: Namespace, d: DirectoryId, name: string, subject: Subject) {
    && d in ns.entries && name !in ns.entries[d]
    && (subject.DirectorySubject? ==>
          var s := subject.directory;
          s in ns.directories && !ns.directories[s].active && s in ns.entries && ns.entries[s] == map[])
  }

  lemma RemoveFence(ns: Namespace, d: DirectoryId, name: string, subject: Subject, revision: nat, plan: Plan)
    requires PlanOk(ns, plan) && d in ns.entries
    ensures FenceHolds(RemoveStatements(ns, d, name, subject, revision), plan)
            <==> FenceHolds(ns, plan) && (subject.DirectorySubject? ==> subject.directory !in plan)
  {
    var after := RemoveStatements(ns, d, name, subject, revision);
    forall x | x in plan
      ensures Unchanged(after, plan, x) <==> Unchanged(ns, plan, x) && subject != DirectorySubject(x)
    {
      assert RowOk(ns, plan, x);
    }
  }

  lemma PlanHas(ns: Namespace, plan: Plan, d: DirectoryId)
    requires PlanOk(ns, plan)
    ensures RowOk(ns, plan, d)
  {
  }

  lemma ReceiptIgnoresBump(ns: Namespace, plan: Plan, d: DirectoryId, name: string, subject: Subject)
    ensures RemoveReceipt(Bump(ns, plan), d, name, subject) <==> RemoveReceipt(ns, d, name, subject)
  {
    forall p | p in ns.entries ensures BumpedLinks(ns.entries[p], p, plan).Keys == ns.entries[p].Keys {}
  }

  lemma RemoveReceiptShows(ns: Namespace, d: DirectoryId, name: string, subject: Subject, revision: nat, plan: Plan)
    requires d in ns.entries && subject != DirectorySubject(d) && ns.entries.Keys == ns.directories.Keys
    ensures RemoveReceipt(Bump(RemoveStatements(ns, d, name, subject, revision), plan), d, name, subject)
            <==> && DeleteMatches(ns, d, name, revision)
                 && (subject.DirectorySubject? ==>
                       subject.directory in ns.directories && subject.directory in ns.entries
                       && ns.entries[subject.directory] == map[])
  {
    hide Bump, RemoveStatements, RemoveReceipt, DeleteMatches;
    ReceiptIgnoresBump(RemoveStatements(ns, d, name, subject, revision), plan, d, name, subject);
    StatementsShow(ns, d, name, subject, revision);
  }

  lemma StatementsShow(ns: Namespace, d: DirectoryId, name: string, subject: Subject, revision: nat)
    requires d in ns.entries && subject != DirectorySubject(d) && ns.entries.Keys == ns.directories.Keys
    ensures RemoveReceipt(RemoveStatements(ns, d, name, subject, revision), d, name, subject)
            <==> && DeleteMatches(ns, d, name, revision)
                 && (subject.DirectorySubject? ==>
                       subject.directory in ns.directories && subject.directory in ns.entries
                       && ns.entries[subject.directory] == map[])
  {
  }

  lemma NothingDeleted(ns: Namespace, d: DirectoryId, name: string)
    requires d in ns.entries && name !in ns.entries[d]
    ensures ns.entries[d := ns.entries[d] - {name}] == ns.entries
  {
    assert ns.entries[d] - {name} == ns.entries[d];
  }

  lemma RemoveApplies(ns: Namespace, d: DirectoryId, name: string, subject: Subject, revision: nat)
    requires d in ns.entries && DeleteMatches(ns, d, name, revision)
    ensures RemoveStatements(ns, d, name, subject, revision) == ApplyRemove(ns, d, name, subject)
  {
    if name !in ns.entries[d] { NothingDeleted(ns, d, name); }
  }

  /** The statements, the fence and the receipt's trigger compose to the one atomic step. */
  lemma RemoveBatchIsCommit(ns: Namespace, d: DirectoryId, name: string, subject: Subject, revision: nat, plan: Plan)
    requires PlanOk(ns, plan) && d in plan && ns.entries.Keys == ns.directories.Keys
    ensures var request := Request.Remove(d, name, subject, revision);
            var refused := subject.DirectorySubject? && IsExplicit(ns, subject.directory);
            && d in ns.entries
            && (refused ==> !Commits(ns, request, plan))
            && (!Commits(ns, request, plan) ==> Commit(ns, request, plan) == ns)
            && (!refused ==>
                  var after := RemoveStatements(ns, d, name, subject, revision);
                  && (FenceHolds(after, plan) && RemoveReceipt(Bump(after, plan), d, name, subject) <==> Commits(ns, request, plan))
                  && (Commits(ns, request, plan) ==> Bump(after, plan) == Commit(ns, request, plan)))
  {
    hide PlanOk, FenceHolds, Bump, RemoveStatements, RemoveReceipt, ApplyRemove;
    PlanHas(ns, plan, d);
    RemoveFence(ns, d, name, subject, revision, plan);
    if subject != DirectorySubject(d) { RemoveReceiptShows(ns, d, name, subject, revision, plan); }
    if DeleteMatches(ns, d, name, revision) { RemoveApplies(ns, d, name, subject, revision); }
  }

  // ---------------------------------------------------------------- rename

  /** The primary key, the unique indexes and the triggers on inserting an entry. */
  predicate EntryRowAllowed(ns: Namespace, p: DirectoryId, name: string, subject: Subject) {
    && p in ns.entries && name !in ns.entries[p]
    && (forall d, n | d in ns.entries && n in ns.entries[d] :: ns.entries[d][n].subject != subject)
    && match subject
       case FileSubject(f) => f in ns.files && ns.files[f].active
       case DirectorySubject(c) => MoveMatches(ns, c, p, name)
  }

  lemma EntriesDoNotMoveChains(ns: Namespace, t: Namespace, d: DirectoryId)
    requires Rooted(ns) && t == ns.(entries := t.entries)
    ensures ChainOk(t, d) && ns.entries.Keys == ns.directories.Keys
    ensures forall s :: AtOrAbove(t, s, d) <==> AtOrAbove(ns, s, d)
  {
    assert ChainOk(ns, d);
  }

  function RenameStatements(
    ns: Namespace, source: DirectoryId, name: string, destination: DirectoryId, newName: string,
    subject: Subject, revision: nat): Namespace
    requires source in ns.entries && destination in ns.entries
  {
    var deleted := ns.(entries :=
      if name in ns.entries[source] && ns.entries[source][name].revision == revision
      then ns.entries[source := ns.entries[source] - {name}] else ns.entries);
    if subject.DirectorySubject? && MoveMatches(deleted, subject.directory, source, name) then
      var s := subject.directory;
      deleted.(directories := ns.directories[s :=
        ns.directories[s].(parent := Some(destination), name := newName, revision := ns.directories[s].revision + 1)])
    else deleted
  }

  lemma NamesDoNotDependOnEntries(ns: Namespace, t: Namespace, p: DirectoryId, name: string)
    requires t == ns.(entries := t.entries)
    ensures NameFree(t, p, name) <==> NameFree(ns, p, name)
  {
  }

  lemma KeysStay(ns: Namespace, source: DirectoryId, name: string, destination: DirectoryId, newName: string,
                 subject: Subject, revision: nat)
    requires source in ns.entries && destination in ns.entries
    ensures RenameStatements(ns, source, name, destination, newName, subject, revision).entries.Keys == ns.entries.Keys
  {
  }

  function InsertEntry(ns: Namespace, p: DirectoryId, name: string, entry: Entry): Namespace
    requires p in ns.entries
  {
    ns.(entries := ns.entries[p := ns.entries[p][name := entry]])
  }

  predicate Moves(ns: Namespace, subject: Subject, source: DirectoryId, name: string) {
    subject.DirectorySubject? && MoveMatches(ns, subject.directory, source, name)
  }

  lemma RenameFence(ns: Namespace, source: DirectoryId, name: string, destination: DirectoryId, newName: string,
                    subject: Subject, revision: nat, plan: Plan)
    requires PlanOk(ns, plan) && source in ns.entries && destination in ns.entries
    ensures var moved := RenameStatements(ns, source, name, destination, newName, subject, revision);
            FenceHolds(InsertEntry(moved, destination, newName, Entry(subject, revision + 1)), plan)
            <==> FenceHolds(ns, plan) && (Moves(ns, subject, source, name) ==> subject.directory !in plan)
  {
    var moved := RenameStatements(ns, source, name, destination, newName, subject, revision);
    var after := InsertEntry(moved, destination, newName, Entry(subject, revision + 1));
    forall x | x in plan
      ensures Unchanged(after, plan, x)
              <==> Unchanged(ns, plan, x) && !(Moves(ns, subject, source, name) && subject == DirectorySubject(x))
    {
      assert RowOk(ns, plan, x);
    }
  }

  /** The part of `RenameCommits` that the entry row and the moved row decide. */
  predicate SubjectMoves(
    ns: Namespace, subject: Subject, source: DirectoryId, name: string, destination: DirectoryId, newName: string)
  {
    && IsFree(ns, subject, source, name)
    && match subject
       case FileSubject(f) => f in ns.files && ns.files[f].active
       case DirectorySubject(s) => MoveMatches(ns, s, source, name) || MoveMatches(ns, s, destination, newName)
  }

  /** What is left of the entries once the one at the source is gone. */
  lemma DeletedEntries(ns: Namespace, source: DirectoryId, name: string, subject: Subject)
    requires source in ns.entries
    ensures var left := ns.entries[source := ns.entries[source] - {name}];
            && left.Keys == ns.entries.Keys
            && (forall p, n | p in ns.entries ::
                  (n in left[p] <==> n in ns.entries[p] && !(p == source && n == name))
                  && (n in left[p] ==> left[p][n] == ns.entries[p][n]))
            && ((forall p, n | p in left && n in left[p] :: left[p][n].subject != subject) <==> IsFree(ns, subject, source, name))
  {
    var left := ns.entries[source := ns.entries[source] - {name}];
    forall p, n | p in ns.entries && n in ns.entries[p] && !(p == source && n == name)
      ensures n in left[p] && left[p][n] == ns.entries[p][n] {}
  }

  lemma RenamedEntries(ns: Namespace, source: DirectoryId, name: string, destination: DirectoryId, newName: string,
                       subject: Subject, revision: nat)
    requires source in ns.entries && destination in ns.entries
    ensures var moved := RenameStatements(ns, source, name, destination, newName, subject, revision);
            && moved.files == ns.files && moved.entries.Keys == ns.entries.Keys
            && (DeleteMatches(ns, source, name, revision) ==> moved.entries == ns.entries[source := ns.entries[source] - {name}])
  {
    hide MoveMatches;
    if name !in ns.entries[source] { NothingDeleted(ns, source, name); }
  }

  lemma RenamedRow(ns: Namespace, source: DirectoryId, name: string, destination: DirectoryId, newName: string,
                   subject: Subject, revision: nat)
    requires source in ns.entries && destination in ns.entries
    ensures var moved := RenameStatements(ns, source, name, destination, newName, subject, revision);
            (forall c {:trigger MoveMatches(moved, c, destination, newName)} :: subject == DirectorySubject(c) ==>
                  (MoveMatches(moved, c, destination, newName)
                   <==> MoveMatches(ns, c, source, name) || MoveMatches(ns, c, destination, newName)))
  {
  }

  lemma RenameEntryShows(ns: Namespace, source: DirectoryId, name: string, destination: DirectoryId, newName: string,
                         subject: Subject, revision: nat)
    requires source in ns.entries && destination in ns.entries
    requires source != destination || name != newName
    ensures var moved := RenameStatements(ns, source, name, destination, newName, subject, revision);
            && moved.entries.Keys == ns.entries.Keys
            && (EntryRowAllowed(moved, destination, newName, subject) && DeleteMatches(ns, source, name, revision)
                <==> && DeleteMatches(ns, source, name, revision) && newName !in ns.entries[destination]
                     && SubjectMoves(ns, subject, source, name, destination, newName))
  {
    hide RenameStatements, MoveMatches, IsFree, DeleteMatches;
    RenamedEntries(ns, source, name, destination, newName, subject, revision);
    RenamedRow(ns, source, name, destination, newName, subject, revision);
    DeletedEntries(ns, source, name, subject);
  }

  lemma RenameApplies(ns: Namespace, source: DirectoryId, name: string, destination: DirectoryId, newName: string,
                      subject: Subject, revision: nat)
    requires source in ns.entries && destination in ns.entries && DeleteMatches(ns, source, name, revision)
    ensures InsertEntry(RenameStatements(ns, source, name, destination, newName, subject, revision),
                        destination, newName, Entry(subject, revision + 1))
            == ApplyRename(ns, source, name, destination, newName, subject, revision)
  {
    if name !in ns.entries[source] { NothingDeleted(ns, source, name); }
  }

  lemma RenameReceiptShows(ns: Namespace, source: DirectoryId, name: string, destination: DirectoryId, newName: string,
                           subject: Subject, revision: nat, plan: Plan)
    requires source in ns.entries && destination in ns.entries && (source != destination || name != newName)
    ensures var moved := RenameStatements(ns, source, name, destination, newName, subject, revision);
            var after := Bump(InsertEntry(moved, destination, newName, Entry(subject, revision + 1)), plan);
            after.entries.Keys == ns.entries.Keys
            && (name !in after.entries[source] <==> DeleteMatches(ns, source, name, revision))
  {
  }

  predicate RenameRefused(ns: Namespace, source: DirectoryId, destination: DirectoryId, subject: Subject) {
    || source !in ns.entries || destination !in ns.entries || !SameDriver(ns, source, destination)
    || (subject.DirectorySubject? && IsExplicit(ns, subject.directory))
  }

  /** The statements, their triggers, the fence and the receipt compose to the one atomic step. */
  lemma RenameBatchIsCommit(ns: Namespace, source: DirectoryId, name: string, destination: DirectoryId, newName: string,
                            subject: Subject, revision: nat, plan: Plan)
    requires PlanOk(ns, plan) && (source != destination || name != newName)
    ensures var request := Request.Rename(source, name, destination, newName, subject, revision);
            var refused := RenameRefused(ns, source, destination, subject);
            && (refused ==> !Commits(ns, request, plan))
            && (!Commits(ns, request, plan) ==> Commit(ns, request, plan) == ns)
            && (!refused ==>
                  var moved := RenameStatements(ns, source, name, destination, newName, subject, revision);
                  var after := InsertEntry(moved, destination, newName, Entry(subject, revision + 1));
                  && source in Bump(after, plan).entries
                  && (FenceHolds(after, plan) && EntryRowAllowed(moved, destination, newName, subject)
                      && (Moves(ns, subject, source, name) ==>
                            !AtOrAbove(ns, subject.directory, destination) && NameFree(ns, destination, newName))
                      && name !in Bump(after, plan).entries[source]
                      <==> Commits(ns, request, plan))
                  && (Commits(ns, request, plan) ==> Bump(after, plan) == Commit(ns, request, plan)))
  {
    hide PlanOk, FenceHolds, Bump, RenameStatements, ApplyRename, EntryRowAllowed, InsertEntry, AtOrAbove,
         NameFree, IsFree, DeleteMatches, MoveMatches;
    if !RenameRefused(ns, source, destination, subject) {
      RenameFence(ns, source, name, destination, newName, subject, revision, plan);
      RenameEntryShows(ns, source, name, destination, newName, subject, revision);
      RenameReceiptShows(ns, source, name, destination, newName, subject, revision, plan);
      if DeleteMatches(ns, source, name, revision) {
        RenameApplies(ns, source, name, destination, newName, subject, revision);
      }
    }
  }

  // ---------------------------------------------------------------- driver replacement

  lemma DescentExtends(ns: Namespace, c: DirectoryId, x: DirectoryId, d: DirectoryId)
    requires Descends(ns, x, d) && ParentIs(ns.directories, c, x) && ns.directories[c].active
    ensures Descends(ns, c, d)
  {
    var path: seq<DirectoryId> :| IsDescent(ns, path) && path[0] == x && path[|path| - 1] == d;
    var longer := [c] + path;
    forall i | 0 <= i < |longer| - 1
      ensures ParentIs(ns.directories, longer[i], longer[i + 1]) && ns.directories[longer[i]].active
    {
      if i > 0 { assert longer[i] == path[i - 1] && longer[i + 1] == path[i]; }
    }
    assert IsDescent(ns, longer);
  }

  lemma DescendsToItself(ns: Namespace, d: DirectoryId)
    requires d in ns.directories
    ensures Descends(ns, d, d)
  {
    assert IsDescent(ns, [d]);
  }

  lemma FoundBelow(ns: Namespace, x: DirectoryId, d: DirectoryId)
    requires Descends(ns, x, d) && x in ns.entries && ns.entries[x] != map[]
    ensures SubtreeHasEntries(ns, d)
  {
  }

  lemma ChildrenInMore(ns: Namespace, seen: set<DirectoryId>, more: set<DirectoryId>)
    requires seen <= more
    ensures forall x :: ChildrenIn(ns, x, seen) ==> ChildrenIn(ns, x, more)
  {
  }

  /** Active rows below `x` belong to `seen`. */
  predicate ChildrenIn(ns: Namespace, x: DirectoryId, seen: set<DirectoryId>) {
    forall c | c in ns.directories :: ParentIs(ns.directories, c, x) && ns.directories[c].active ==> c in seen
  }

  function ActiveChildren(ns: Namespace, x: DirectoryId): set<DirectoryId> {
    set c | c in ns.directories && ns.directories[c].active && ns.directories[c].parent == Some(x)
  }

  lemma ChildrenDescend(ns: Namespace, x: DirectoryId, d: DirectoryId)
    requires Descends(ns, x, d)
    ensures forall c | c in ActiveChildren(ns, x) :: c in ns.directories && Descends(ns, c, d)
    ensures forall seen | ActiveChildren(ns, x) <= seen :: ChildrenIn(ns, x, seen)
  {
    forall c | c in ActiveChildren(ns, x) ensures Descends(ns, c, d) { DescentExtends(ns, c, x, d); }
  }

  /** What the search has seen lies below `d`; what it has left behind is empty and has no unseen children. */
  ghost predicate Searched(ns: Namespace, d: DirectoryId, seen: set<DirectoryId>, frontier: set<DirectoryId>) {
    && frontier <= seen <= ns.directories.Keys && d in seen
    && (forall x | x in seen :: Descends(ns, x, d))
    && (forall x | x in seen && x !in frontier :: x in ns.entries && ns.entries[x] == map[])
    && (forall x | x in seen && x !in frontier :: ChildrenIn(ns, x, seen))
  }

  lemma SearchGoesOn(ns: Namespace, d: DirectoryId, seen: set<DirectoryId>, frontier: set<DirectoryId>, x: DirectoryId)
    requires Searched(ns, d, seen, frontier) && x in frontier && x in ns.entries && ns.entries[x] == map[]
    ensures var children := ActiveChildren(ns, x);
            var next, left := frontier - {x} + (children - seen), ns.directories.Keys - (seen + children);
            && Searched(ns, d, seen + children, next)
            && (if children <= seen then seen + children == seen && next < frontier else left < ns.directories.Keys - seen)
  {
    hide Descends, ChildrenIn, ActiveChildren;
    var children := ActiveChildren(ns, x);
    ChildrenDescend(ns, x, d);
    ChildrenInMore(ns, seen, seen + children);
    if !(children <= seen) {
      var c :| c in children && c !in seen;
      assert c in ns.directories.Keys - seen;
    } else {
      assert children - seen == {};
    }
  }

  lemma {:induction false} DescentIsSeen(ns: Namespace, path: seq<DirectoryId>, seen: set<DirectoryId>, i: nat)
    requires IsDescent(ns, path) && i < |path| && path[|path| - 1] in seen
    requires forall x | x in seen :: ChildrenIn(ns, x, seen)
    ensures path[i] in seen
    decreases |path| - i
  {
    if i < |path| - 1 {
      DescentIsSeen(ns, path, seen, i + 1);
      assert ParentIs(ns.directories, path[i], path[i + 1]) && ChildrenIn(ns, path[i + 1], seen);
    }
  }

  lemma NothingBelow(ns: Namespace, seen: set<DirectoryId>, d: DirectoryId)
    requires d in seen && forall x | x in seen :: ChildrenIn(ns, x, seen)
    requires forall x | x in seen :: x in ns.entries && ns.entries[x] == map[]
    ensures !SubtreeHasEntries(ns, d)
  {
    forall x | Descends(ns, x, d) ensures x in seen {
      var path: seq<DirectoryId> :| IsDescent(ns, path) && path[0] == x && path[|path| - 1] == d;
      DescentIsSeen(ns, path, seen, 0);
    }
  }

  lemma NotItsOwnParent(ns: Namespace, d: DirectoryId)
    requires ChainOk(ns, d) && d in ns.directories
    ensures ns.directories[d].parent != Some(d)
  {
    if ns.directories[d].parent == Some(d) {
      var c :| IsChain(ns.directories, c) && c[0] == d;
      if |c| > 1 {
        assert ParentIs(ns.directories, c[0], c[1]);
        ChainTail(ns.directories, c, 1);
        ChainUnique(ns.directories, c, c[1..]);
      }
    }
  }

  function PlacementStatements(ns: Namespace, d: DirectoryId, driver: Driver, desired: DesiredMount): Namespace
    requires d in ns.placements
  {
    ns.(drivers := ns.drivers[d := driver],
        mounts := if StoredKind(desired).Some? then ns.mounts[d := Mount(driver, StoredKind(desired).value)]
                  else ns.mounts - {d},
        placements := ns.placements[d := ns.placements[d] + DriverCount(ns, d) + 1])
  }

  lemma MountPlaced(mounts: map<DirectoryId, Mount>, d: DirectoryId, mount: Mount)
    ensures (mounts - {d})[d := mount] == mounts[d := mount]
  {
  }

  /** The new mount row is refused, once the old one is gone. */
  ghost predicate MountRowRaises(ns: Namespace, d: DirectoryId, desired: DesiredMount) {
    StoredKind(desired).Some? && !MountRowAllowed(ns.(mounts := ns.mounts - {d}), d, StoredKind(desired).value)
  }

  /** The statements and their triggers compose to the one atomic step. */
  lemma PlacementBatchIsReplacement(
    ns: Namespace, d: DirectoryId, driver: Driver, desired: DesiredMount, expected: nat, oldCount: nat)
    requires Rooted(ns)
    ensures var commits := PlacementCommits(ns, d, driver, desired, expected, oldCount);
            && (commits ==> IsActive(ns, d) && d in ns.placements && ns.placements[d] == expected && ChangeIsSafe(ns, d, driver))
            && (!commits ==> ReplacePlacement(ns, d, driver, desired, expected, oldCount) == ns)
            && (IsActive(ns, d) && d in ns.placements && ns.placements[d] == expected && ChangeIsSafe(ns, d, driver) ==>
                  var after := PlacementStatements(ns, d, driver, desired);
                  && d in after.placements && d in after.directories
                  && (commits <==>
                        && !MountRowRaises(ns, d, desired) && after.placements[d] == expected + oldCount + 1
                        && ReplacementIsExact(after, d, driver, desired))
                  && (commits ==> after == ReplacePlacement(ns, d, driver, desired, expected, oldCount)))
  {
    hide Rooted, ChainOk, ChangeIsSafe, MountRowAllowed;
    RootedHas(ns, d);
    if d in ns.directories { NotItsOwnParent(ns, d); }
  }

  lemma MountRowIgnoresDrivers(ns: Namespace, t: Namespace, d: DirectoryId, kind: MountKind)
    requires t == ns.(mounts := ns.mounts - {d}, drivers := t.drivers, placements := t.placements)
    ensures MountRowAllowed(t, d, kind) <==> MountRowAllowed(ns.(mounts := ns.mounts - {d}), d, kind)
    ensures ChainOk(ns, d) ==> ChainOk(t, d)
  {
    var u := ns.(mounts := ns.mounts - {d});
    forall x ensures IsExplicit(t, x) <==> IsExplicit(u, x) {}
    assert UnderMount(t, d) <==> UnderMount(u, d);
  }

  class NamespaceDatabase {
    const root: DirectoryId
    var directories: map<DirectoryId, Directory>
    var entries: map<DirectoryId, map<string, Entry>>
    var files: map<FileId, File>
    var drivers: map<DirectoryId, Driver>
    var mounts: map<DirectoryId, Mount>
    var placements: map<DirectoryId, nat>

    function View(): Namespace
      reads this
    {
      Namespace(root, directories, entries, files, drivers, mounts, placements)
    }

    /** What every run keeps, whatever a removal has swapped. */
    ghost predicate Valid()
      reads this
    {
      Rooted(View())
    }

    constructor (root: DirectoryId, driver: Option<Driver>)
      ensures Valid() && View() == Bootstrap(root, driver)
    {
      this.root := root;
      directories, entries, files := map[root := Directory(None, "", true, 1)], map[root := map[]], map[];
      drivers := if driver.Some? then map[root := driver.value] else map[];
      mounts := if driver.Some? then map[root := Mount(driver.value, Default)] else map[];
      placements := map[root := if driver.Some? then 2 else 1];
      new;
      BootstrapRooted(root, driver);
    }

    /** The recursive query of the cycle trigger: is `s` at `d` or above it? */
    method IsAtOrAbove(s: DirectoryId, d: DirectoryId) returns (above: bool)
      requires d in directories && ChainOk(View(), d)
      ensures above <==> AtOrAbove(View(), s, d)
    {
      ghost var c :| IsChain(directories, c) && c[0] == d;
      var current := d;
      ghost var i := 0;
      while current != s && directories[current].parent.Some?
        invariant 0 <= i < |c| && current == c[i] && current in directories
        invariant forall j :: 0 <= j < i ==> c[j] != s
        decreases |c| - i
      {
        assert i == |c| - 1 || ParentIs(directories, c[i], c[i + 1]);
        current := directories[current].parent.value;
        i := i + 1;
        ChainMembers(directories, c);
      }
      above := current == s;
      if above {
        assert c[i] in c;
      } else {
        assert i < |c| - 1 ==> ParentIs(directories, c[i], c[i + 1]);
        forall e | IsChain(directories, e) && e[0] == d ensures s !in e { ChainUnique(directories, c, e); }
      }
    }

    /** The recursive query behind nested mounts: does an explicit mount lie above `d`? */
    method IsUnderMount(d: DirectoryId) returns (nested: bool)
      requires d in directories && ChainOk(View(), d)
      ensures nested <==> UnderMount(View(), d)
    {
      ghost var c :| IsChain(directories, c) && c[0] == d;
      ChainMembers(directories, c);
      var current := d;
      ghost var i := 0;
      nested := false;
      while !nested && directories[current].parent.Some?
        invariant 0 <= i < |c| && current == c[i]
        invariant !nested ==> forall j :: 1 <= j <= i ==> !IsExplicit(View(), c[j])
        invariant nested ==> 1 <= i && IsExplicit(View(), c[i])
        decreases |c| - i, !nested
      {
        assert i == |c| - 1 || ParentIs(directories, c[i], c[i + 1]);
        current := directories[current].parent.value;
        i := i + 1;
        nested := IsExplicit(View(), current);
      }
      if !nested {
        assert i < |c| - 1 ==> ParentIs(directories, c[i], c[i + 1]);
        forall e, j | IsChain(directories, e) && e[0] == d && 1 <= j < |e| ensures !IsExplicit(View(), e[j]) {
          ChainUnique(directories, c, e);
        }
      }
    }

    /** The recursive query behind `change_is_safe` and its trigger: is there any entry at `d` or below? */
    method HasEntriesBelow(d: DirectoryId) returns (found: bool)
      requires d in directories && entries.Keys == directories.Keys
      ensures found <==> SubtreeHasEntries(View(), d)
    {
      hide Descends, SubtreeHasEntries, ChildrenIn, ActiveChildren;
      ghost var ns := View();
      var seen, frontier := {d}, {d};
      found := false;
      DescendsToItself(ns, d);
      while frontier != {} && !found
        invariant Searched(ns, d, seen, frontier)
        invariant found ==> SubtreeHasEntries(ns, d)
        decreases directories.Keys - seen, frontier, !found
      {
        var x :| x in frontier;
        if entries[x] != map[] {
          FoundBelow(ns, x, d);
          found := true;
        } else {
          var children := ActiveChildren(View(), x);
          SearchGoesOn(ns, d, seen, frontier, x);
          frontier := frontier - {x} + (children - seen);
          seen := seen + children;
        }
      }
      if !found { NothingBelow(ns, seen, d); }
    }

    // -------------------------------------------------------------- the batches

    /** A trigger refused: every table is as it was before the batch. */
    method Undo(before: Namespace)
      requires before.root == root
      modifies this
      ensures View() == before
    {
      directories, entries, files := before.directories, before.entries, before.files;
      drivers, mounts, placements := before.drivers, before.mounts, before.placements;
    }

    /** The rows of the new directory, its driver row copied from the parent, and its entry. */
    method Attach(parent: DirectoryId, name: string, child: DirectoryId) returns (raised: bool)
      requires parent in directories && parent in entries && child !in directories
      modifies this`directories, this`entries, this`drivers, this`placements
      ensures View() == MkdirStatements(old(View()), parent, name, child)
      ensures raised <==> name in old(entries)[parent]
    {
      directories := directories[child := Directory(Some(parent), name, true, 1)];
      entries := entries[child := map[]];
      placements := placements[child := 1];
      // a trigger counts the driver row
      if parent in drivers {
        drivers := drivers[child := drivers[parent]];
        placements := placements[child := 2];
      }
      // the key of the entry row
      raised := name in entries[parent];
      entries := entries[parent := entries[parent][name := Entry(DirectorySubject(child), 1)]];
    }

    method Mkdir(parent: DirectoryId, name: string, child: DirectoryId, plan: Plan, order: seq<DirectoryId>)
      returns (committed: bool)
      requires Enumerates(order, plan) && PlanOk(View(), plan)
      modifies this
      ensures committed <==> Commits(old(View()), Request.Mkdir(parent, name, child), plan)
      ensures View() == Commit(old(View()), Request.Mkdir(parent, name, child), plan)
      ensures old(Valid()) ==> Valid()
    {
      hide PlanOk, NameFree, Bump, FenceHolds, Commits, Commit, MkdirStatements, Rooted;
      var before := View();
      if Rooted(before) { CommitRooted(before, Request.Mkdir(parent, name, child), plan); }
      MkdirBatchIsCommit(before, parent, name, child, plan);
      // the update rows' trigger, and the keys of the directory row
      if MkdirRefused(View(), parent, name, child, plan) { return false; }
      var raised := Attach(parent, name, child);
      committed := MoveRevisions(plan, order);
      // the trigger on committing: an active parent, and a driver for the child
      committed := committed && !raised && IsActive(View(), parent) && parent in drivers;
      if !committed { Undo(before); }
    }

    /** The deletion of the entry and the retirement of its subject. */
    method Retire(d: DirectoryId, name: string, subject: Subject, revision: nat)
      requires d in entries
      modifies this`entries, this`files, this`directories
      ensures View() == RemoveStatements(old(View()), d, name, subject, revision)
    {
      if name in entries[d] && entries[d][name].revision == revision {
        entries := entries[d := entries[d] - {name}];
      }
      match subject {
        case FileSubject(f) =>
          if f in files { files := files[f := files[f].(active := false)]; }
        case DirectorySubject(s) =>
          if s in directories && directories[s].active {
            directories := directories[s := directories[s].(active := false, revision := directories[s].revision + 1)];
          }
      }
    }

    method Remove(d: DirectoryId, name: string, subject: Subject, revision: nat, plan: Plan, order: seq<DirectoryId>)
      returns (committed: bool)
      requires Valid() && Enumerates(order, plan) && PlanOk(View(), plan) && d in plan
      modifies this
      ensures committed <==> Commits(old(View()), Request.Remove(d, name, subject, revision), plan)
      ensures View() == Commit(old(View()), Request.Remove(d, name, subject, revision), plan)
      ensures Valid()
    {
      hide PlanOk, FenceHolds, Bump, Commits, Commit, RemoveStatements, RemoveReceipt;
      var before := View();
      CommitRooted(before, Request.Remove(d, name, subject, revision), plan);
      RemoveBatchIsCommit(before, d, name, subject, revision, plan);
      hide Rooted;
      if subject.DirectorySubject? && IsExplicit(View(), subject.directory) { return false; }
      Retire(d, name, subject, revision);
      committed := MoveRevisions(plan, order);
      committed := committed && RemoveReceipt(View(), d, name, subject);
      if !committed { Undo(before); }
    }

    /** The deletion of the entry and, for a directory, the guarded update of its row with its two triggers. */
    method Detach(source: DirectoryId, name: string, destination: DirectoryId, newName: string, subject: Subject, revision: nat)
      returns (raised: bool)
      requires Valid() && source in entries && destination in entries
      modifies this`entries, this`directories
      ensures View() == RenameStatements(old(View()), source, name, destination, newName, subject, revision)
      ensures raised <==> Moves(old(View()), subject, source, name)
                          && (AtOrAbove(old(View()), subject.directory, destination) || !NameFree(old(View()), destination, newName))
    {
      hide IsChain, NameFree, AtOrAbove;
      ghost var before := View();
      if name in entries[source] && entries[source][name].revision == revision {
        entries := entries[source := entries[source] - {name}];
      }
      raised := false;
      if Moves(View(), subject, source, name) {
        var s := subject.directory;
        EntriesDoNotMoveChains(before, View(), destination);
        var above := IsAtOrAbove(s, destination);
        raised := above || !NameFree(View(), destination, newName);
        NamesDoNotDependOnEntries(before, View(), destination, newName);
        directories := directories[s :=
          directories[s].(parent := Some(destination), name := newName, revision := directories[s].revision + 1)];
      }
    }

    method Rename(source: DirectoryId, name: string, destination: DirectoryId, newName: string, subject: Subject,
                  revision: nat, plan: Plan, order: seq<DirectoryId>)
      returns (committed: bool)
      requires Valid() && Enumerates(order, plan) && PlanOk(View(), plan)
      requires source != destination || name != newName
      modifies this
      ensures committed <==> Commits(old(View()), Request.Rename(source, name, destination, newName, subject, revision), plan)
      ensures View() == Commit(old(View()), Request.Rename(source, name, destination, newName, subject, revision), plan)
      ensures Valid()
    {
      hide Rooted, PlanOk, FenceHolds, Bump, Commits, Commit, AtOrAbove, NameFree, IsFree, SameDriver;
      hide RenameStatements, EntryRowAllowed, Moves;
      var before := View();
      CommitRooted(before, Request.Rename(source, name, destination, newName, subject, revision), plan);
      RenameBatchIsCommit(before, source, name, destination, newName, subject, revision, plan);
      if RenameRefused(View(), source, destination, subject) { return false; }
      RenameReceiptShows(before, source, name, destination, newName, subject, revision, plan);
      var raised := Detach(source, name, destination, newName, subject, revision);
      KeysStay(before, source, name, destination, newName, subject, revision);
      raised := raised || !EntryRowAllowed(View(), destination, newName, subject);
      entries := entries[destination := entries[destination][newName := Entry(subject, revision + 1)]];
      committed := MoveRevisions(plan, order);
      committed := committed && !raised && source in entries && name !in entries[source];
      if !committed { Undo(before); }
    }

    /** The triggers on inserting a mount row. */
    method MayMount(d: DirectoryId, kind: MountKind) returns (allowed: bool)
      requires ChainOk(View(), d)
      ensures allowed <==> MountRowAllowed(View(), d, kind)
    {
      if !IsActive(View(), d) || (kind == Default) != (directories[d].parent == None) { return false; }
      if kind == Default { return true; }
      var nested := IsUnderMount(d);
      allowed := entries[d] == map[] && !nested;
    }

    /** The old driver row out and the new one in; triggers count both. */
    method PlaceDriver(d: DirectoryId, driver: Driver)
      requires d in placements
      modifies this`drivers, this`placements
      ensures drivers == old(drivers)[d := driver]
      ensures placements == old(placements)[d := old(placements)[d] + DriverCount(old(View()), d) + 1]
    {
      ghost var was := drivers;
      if d in drivers {
        drivers := drivers - {d};
        placements := placements[d := placements[d] + 1];
      }
      drivers := drivers[d := driver];
      placements := placements[d := placements[d] + 1];
      assert (was - {d})[d := driver] == was[d := driver];
    }

    /** The new mount row, unless the directory inherits. */
    method PlaceMount(d: DirectoryId, driver: Driver, desired: DesiredMount) returns (raised: bool)
      requires ChainOk(View(), d)
      modifies this`mounts
      ensures StoredKind(desired).None? ==> mounts == old(mounts)
      ensures StoredKind(desired).Some? ==> mounts == old(mounts)[d := Mount(driver, StoredKind(desired).value)]
      ensures raised <==> StoredKind(desired).Some? && !MountRowAllowed(old(View()), d, StoredKind(desired).value)
    {
      hide ChainOk, MountRowAllowed;
      raised := false;
      if StoredKind(desired).Some? {
        var allowed := MayMount(d, StoredKind(desired).value);
        raised := !allowed;
        mounts := mounts[d := Mount(driver, StoredKind(desired).value)];
      }
    }

    /** The old mount and driver rows out, the new ones in. */
    method PlaceRows(d: DirectoryId, driver: Driver, desired: DesiredMount) returns (raised: bool)
      requires d in placements && ChainOk(View(), d)
      modifies this`mounts, this`drivers, this`placements
      ensures View() == PlacementStatements(old(View()), d, driver, desired)
      ensures raised <==> MountRowRaises(old(View()), d, desired)
    {
      hide ChainOk, MountRowAllowed;
      ghost var before := View();
      mounts := mounts - {d};
      PlaceDriver(d, driver);
      MountRowIgnoresDrivers(before, View(), d, if StoredKind(desired).Some? then StoredKind(desired).value else Default);
      raised := PlaceMount(d, driver, desired);
      MountPlaced(before.mounts, d, Mount(driver, Default));
      MountPlaced(before.mounts, d, Mount(driver, Explicit));
    }

    /** The trigger on the intent row: the driver stays, or there is no entry at `d` or below. */
    method MayChange(d: DirectoryId, driver: Driver) returns (safe: bool)
      requires d in directories && entries.Keys == directories.Keys
      ensures safe <==> ChangeIsSafe(View(), d, driver)
    {
      if d in drivers && drivers[d] == driver { return true; }
      var populated := HasEntriesBelow(d);
      safe := !populated;
    }

    /** The driver replacement, from the intent row to the trigger on committing. */
    method Replace(d: DirectoryId, driver: Driver, desired: DesiredMount, expected: nat, oldCount: nat) returns (committed: bool)
      requires Valid()
      modifies this
      ensures committed <==> PlacementCommits(old(View()), d, driver, desired, expected, oldCount)
      ensures View() == ReplacePlacement(old(View()), d, driver, desired, expected, oldCount)
      ensures Valid()
    {
      hide Rooted, ChainOk, ChangeIsSafe, MountRowRaises, ReplacementIsExact, PlacementStatements, PlacementCommits,
           ReplacePlacement;
      var before := View();
      RootedHas(before, d);
      ReplacementRooted(before, d, driver, desired, expected, oldCount);
      PlacementBatchIsReplacement(before, d, driver, desired, expected, oldCount);
      // the intent row: an active directory at the expected revision, and a change that strands nothing
      if !IsActive(View(), d) || d !in placements || placements[d] != expected { return false; }
      var safe := MayChange(d, driver);
      if !safe { return false; }
      var raised := PlaceRows(d, driver, desired);
      // the trigger on committing: the promised revision, and the relationship to the parent
      committed := !raised && placements[d] == expected + oldCount + 1 && ReplacementIsExact(View(), d, driver, desired);
      if !committed { Undo(before); }
    }

    /** The statements over the planned directories and links; `fenced` is that every directory statement matched. */
    method MoveRevisions(plan: Plan, order: seq<DirectoryId>) returns (fenced: bool)
      requires Enumerates(order, plan)
      modifies this`directories, this`entries
      ensures fenced <==> FenceHolds(old(View()), plan)
      ensures fenced ==> View() == Bump(old(View()), plan)
    {
      hide BumpOne, BumpDone, Bump, LinkStatementMatches;
      ghost var was := View();
      BumpDoneNone(was, plan);
      assert Done(order, 0) == {};
      fenced := true;
      for i := 0 to |order|
        invariant fenced <==> forall j :: 0 <= j < i ==> Unchanged(was, plan, order[j])
        invariant fenced ==> View() == BumpDone(was, plan, Done(order, i))
      {
        var d := order[i];
        if fenced { BumpOneMoreIfUnchanged(was, plan, order, i); }
        fenced := fenced && Unchanged(View(), plan, d);
        if fenced {
          MoveOne(plan, d);
        }
      }
      assert Done(order, |order|) == plan.Keys;
      BumpDoneAll(was, plan);
    }

    /** The directory statement and the link statement of one planned directory. */
    method MoveOne(plan: Plan, d: DirectoryId)
      requires d in plan
      modifies this`directories, this`entries
      ensures View() == BumpOne(old(View()), plan, d)
    {
      var linked := LinkStatementMatches(View(), plan, d);
      if d in directories && directories[d].revision == plan[d].directory.revision {
        directories := directories[d := directories[d].(revision := directories[d].revision + 1)];
      }
      if linked {
        var p, name := plan[d].directory.parent.value, plan[d].directory.name;
        entries := entries[p := entries[p][name := entries[p][name].(revision := entries[p][name].revision + 1)]];
      }
    }
  }

  ghost function Done(order: seq<DirectoryId>, i: nat): set<DirectoryId>
    requires i <= |order|
  {
    set j | 0 <= j < i :: order[j]
  }

  lemma BumpOneMoreIfUnchanged(ns: Namespace, plan: Plan, order: seq<DirectoryId>, i: nat)
    requires i < |order| && order[i] in plan
    requires forall j, k :: 0 <= j < k < |order| ==> order[j] != order[k]
    ensures Done(order, i + 1) == Done(order, i) + {order[i]}
    ensures Unchanged(ns, plan, order[i]) ==>
              BumpOne(BumpDone(ns, plan, Done(order, i)), plan, order[i]) == BumpDone(ns, plan, Done(order, i + 1))
    ensures var now := BumpDone(ns, plan, Done(order, i));
            Unchanged(ns, plan, order[i]) <==> Unchanged(now, plan, order[i])
  {
    if Unchanged(ns, plan, order[i]) { BumpOneMore(ns, plan, Done(order, i), order[i]); }
  }
}
