/**
 `assemble_checkpoint`: entry rows are grouped in a map by directory, and the map is drained
 directory by directory. Row ids stand for the texts that `ORDER BY id` compares.
 */
module CheckpointAssembly {
  import opened Options

  type DirectoryId = nat
  datatype DirectoryRow = DirectoryRow(id: DirectoryId, parent: Option<DirectoryId>, name: string, dataRoot: nat)
  datatype EntryRow = EntryRow(directory: DirectoryId, name: string, kind: string, payload: nat)

  datatype EntryKind = File | Directory
  datatype CheckpointEntry = CheckpointEntry(name: string, kind: EntryKind, payload: nat)
  datatype CheckpointDirectory = CheckpointDirectory(row: DirectoryRow, entries: seq<CheckpointEntry>)

  datatype AssemblyError = InvalidKind | InactiveDirectory

  // ---------------------------------------------------------------- what the checkpoint should hold

  predicate KnownKind(kind: string) {
    kind == "file" || kind == "directory"
  }

  function Converted(row: EntryRow): CheckpointEntry {
    CheckpointEntry(row.name, if row.kind == "file" then File else Directory, row.payload)
  }

  function ConvertedAll(rows: seq<EntryRow>): (r: seq<CheckpointEntry>)
    ensures |r| == |rows| && forall i :: 0 <= i < |rows| ==> r[i] == Converted(rows[i])
  {
    seq(|rows|, i requires 0 <= i < |rows| => Converted(rows[i]))
  }

  /** The entries of one directory, in row order. */
  function Selected(rows: seq<EntryRow>, id: DirectoryId): seq<CheckpointEntry> {
    if rows == [] then []
    else
      var n := |rows| - 1;
      Selected(rows[..n], id) + if rows[n].directory == id then [Converted(rows[n])] else []
  }

  function DirectoriesOf(rows: seq<EntryRow>): set<DirectoryId> {
    set i | 0 <= i < |rows| :: rows[i].directory
  }

  function IdsOf(directories: seq<DirectoryRow>): set<DirectoryId> {
    set i | 0 <= i < |directories| :: directories[i].id
  }

  function Flattened(directories: seq<CheckpointDirectory>): seq<CheckpointEntry> {
    if directories == [] then []
    else Flattened(directories[..|directories| - 1]) + directories[|directories| - 1].entries
  }

  /** A map entry can be taken once, so a repeated directory id gets nothing the second time. */
  predicate Drained(out: CheckpointDirectory, directories: seq<DirectoryRow>, k: nat, rows: seq<EntryRow>)
    requires k < |directories|
  {
    && out.row == directories[k]
    && out.entries == if directories[k].id in IdsOf(directories[..k]) then [] else Selected(rows, directories[k].id)
  }

  // ---------------------------------------------------------------- the two loops

  predicate GroupOk(grouped: map<DirectoryId, seq<CheckpointEntry>>, rows: seq<EntryRow>, id: DirectoryId) {
    (if id in grouped then grouped[id] else []) == Selected(rows, id)
  }

  method Group(rows: seq<EntryRow>) returns (result: Result<map<DirectoryId, seq<CheckpointEntry>>, AssemblyError>)
    ensures result.Err? <==> exists i :: 0 <= i < |rows| && !KnownKind(rows[i].kind)
    ensures result.Err? ==> result.error == InvalidKind
    ensures result.Ok? ==> result.value.Keys == DirectoriesOf(rows)
    ensures result.Ok? ==> forall id :: GroupOk(result.value, rows, id)
  {
    hide Selected, DirectoriesOf, Converted;
    var grouped: map<DirectoryId, seq<CheckpointEntry>> := map[];
    NoRows();
    for i := 0 to |rows|
      invariant forall k :: 0 <= k < i ==> KnownKind(rows[k].kind)
      invariant grouped.Keys == DirectoriesOf(rows[..i])
      invariant forall id :: GroupOk(grouped, rows[..i], id)
    {
      if !KnownKind(rows[i].kind) { return Err(InvalidKind); }
      var directory := rows[i].directory;
      ghost var before := grouped;
      grouped := grouped[directory := (if directory in grouped then grouped[directory] else []) + [Converted(rows[i])]];
      GroupGrows(before, grouped, rows, i, rows[..i + 1]);
    }
    assert rows[..|rows|] == rows;
    result := Ok(grouped);
  }

  lemma NoRows()
    ensures DirectoriesOf([]) == {} && forall id :: GroupOk(map[], [], id)
  {
  }

  lemma GroupGrows(before: map<DirectoryId, seq<CheckpointEntry>>, after: map<DirectoryId, seq<CheckpointEntry>>,
                   rows: seq<EntryRow>, i: nat, more: seq<EntryRow>)
    requires i < |rows| && forall id :: GroupOk(before, rows[..i], id)
    requires more == rows[..i + 1]
    requires before.Keys == DirectoriesOf(rows[..i])
    requires var d := rows[i].directory;
             after == before[d := (if d in before then before[d] else []) + [Converted(rows[i])]]
    ensures after.Keys == DirectoriesOf(more) && forall id :: GroupOk(after, more, id)
  {
    assert more[..i] == rows[..i];
    forall id | id in DirectoriesOf(rows[..i]) ensures id in DirectoriesOf(more) {
      var k :| 0 <= k < i && rows[..i][k].directory == id;
      assert more[k].directory == id;
    }
    assert more[i].directory == rows[i].directory;
    forall id ensures GroupOk(after, more, id) {
      assert GroupOk(before, rows[..i], id);
    }
  }

  method AssembleCheckpoint(directories: seq<DirectoryRow>, rows: seq<EntryRow>)
    returns (result: Result<seq<CheckpointDirectory>, AssemblyError>)
    ensures result == Err(InvalidKind) <==> exists i :: 0 <= i < |rows| && rows[i].kind != "file" && rows[i].kind != "directory"
    ensures result.Ok? <==>
              forall i :: 0 <= i < |rows| ==>
                && (rows[i].kind == "file" || rows[i].kind == "directory")
                && exists k :: 0 <= k < |directories| && directories[k].id == rows[i].directory
    ensures result.Ok? ==> |result.value| == |directories|
    ensures result.Ok? ==> forall k :: 0 <= k < |directories| ==> Drained(result.value[k], directories, k, rows)
  {
    hide Selected;
    var first := Group(rows);
    if first.Err? { return Err(InvalidKind); }
    var grouped := first.value;
    var out := [];
    for j := 0 to |directories|
      invariant |out| == j && grouped.Keys == DirectoriesOf(rows) - IdsOf(directories[..j])
      invariant forall id | id in grouped :: GroupOk(grouped, rows, id)
      invariant forall k :: 0 <= k < j ==> Drained(out[k], directories, k, rows)
    {
      var id := directories[j].id;
      if id !in DirectoriesOf(rows) { SelectedNone(rows, id); }
      IdsGrow(directories, j);
      out := out + [CheckpointDirectory(directories[j], if id in grouped then grouped[id] else [])];
      ghost var before := grouped;
      grouped := grouped - {id};
      forall other | other in grouped ensures GroupOk(grouped, rows, other) { assert GroupOk(before, rows, other); }
    }
    assert directories[..|directories|] == directories;
    assert forall i :: 0 <= i < |rows| ==> rows[i].directory in DirectoriesOf(rows);
    if grouped != map[] {
      assert exists id :: id in grouped.Keys;
      return Err(InactiveDirectory);
    }
    forall i | 0 <= i < |rows| ensures rows[i].directory in IdsOf(directories) {
      assert rows[i].directory !in grouped;
    }
    result := Ok(out);
  }

  // ---------------------------------------------------------------- nothing is lost or reordered

  lemma IdsGrow(directories: seq<DirectoryRow>, j: nat)
    requires j < |directories|
    ensures IdsOf(directories[..j + 1]) == IdsOf(directories[..j]) + {directories[j].id}
  {
    var more := directories[..j + 1];
    forall id | id in IdsOf(directories[..j]) ensures id in IdsOf(more) {
      var k :| 0 <= k < j && directories[..j][k].id == id;
      assert more[k].id == id;
    }
    assert more[j].id == directories[j].id;
  }

  lemma {:induction false} SelectedNone(rows: seq<EntryRow>, id: DirectoryId)
    requires forall i :: 0 <= i < |rows| ==> rows[i].directory != id
    ensures Selected(rows, id) == []
  {
    if rows != [] { SelectedNone(rows[..|rows| - 1], id); }
  }

  lemma {:induction false} SelectedOnly(rows: seq<EntryRow>, id: DirectoryId)
    requires forall i :: 0 <= i < |rows| ==> rows[i].directory == id
    ensures Selected(rows, id) == ConvertedAll(rows)
  {
    if rows != [] { SelectedOnly(rows[..|rows| - 1], id); }
  }

  lemma {:induction false} SelectedJoins(first: seq<EntryRow>, more: seq<EntryRow>, id: DirectoryId)
    ensures Selected(first + more, id) == Selected(first, id) + Selected(more, id)
    decreases |more|
  {
    if more == [] {
      assert first + more == first;
    } else {
      var n := |more| - 1;
      assert (first + more)[..|first| + n] == first + more[..n];
      SelectedJoins(first, more[..n], id);
    }
  }

  predicate SortedById(directories: seq<DirectoryRow>) {
    forall i, j :: 0 <= i < j < |directories| ==> directories[i].id < directories[j].id
  }

  predicate SortedByDirectory(rows: seq<EntryRow>) {
    forall i, j :: 0 <= i < j < |rows| ==> rows[i].directory <= rows[j].directory
  }

  /** Where the rows of the last directory begin. */
  function SplitAt(rows: seq<EntryRow>, id: DirectoryId): (p: nat)
    requires SortedByDirectory(rows) && forall i :: 0 <= i < |rows| ==> rows[i].directory <= id
    ensures p <= |rows|
    ensures forall i :: 0 <= i < p ==> rows[i].directory < id
    ensures forall i :: p <= i < |rows| ==> rows[i].directory == id
  {
    if rows == [] || rows[|rows| - 1].directory < id then |rows| else SplitAt(rows[..|rows| - 1], id)
  }

  /**
   On the rows the two queries return, directories by distinct id and entries by directory, the
   checkpoint's lists in order are exactly the entry rows in order.
   */
  lemma {:induction false} NothingLostOrReordered(
    directories: seq<DirectoryRow>, rows: seq<EntryRow>, out: seq<CheckpointDirectory>)
    requires SortedById(directories) && SortedByDirectory(rows)
    requires forall i :: 0 <= i < |rows| ==> rows[i].directory in IdsOf(directories)
    requires |out| == |directories| && forall k :: 0 <= k < |directories| ==> Drained(out[k], directories, k, rows)
    ensures Flattened(out) == ConvertedAll(rows)
    decreases |directories|
  {
    hide Selected, Drained, IdsOf, SortedById, SortedByDirectory, ConvertedAll;
    if directories == [] {
      if rows != [] { NothingListed(rows); }
    } else {
      var n := |directories| - 1;
      BelowLast(directories, rows);
      var p := SplitAt(rows, directories[n].id);
      var before, after := rows[..p], rows[p..];
      assert rows == before + after;
      PrefixListed(directories, rows, p);
      forall k | 0 <= k < n ensures Drained(out[..n][k], directories[..n], k, before) {
        EarlierDrained(directories, before, after, out, k);
      }
      NothingLostOrReordered(directories[..n], before, out[..n]);
      LastDrained(directories, before, after, out);
      assert ConvertedAll(rows) == ConvertedAll(before) + ConvertedAll(after);
    }
  }

  lemma NothingListed(rows: seq<EntryRow>)
    requires rows != []
    ensures exists i :: 0 <= i < |rows| && rows[i].directory !in IdsOf([])
  {
    assert rows[0].directory !in IdsOf([]);
  }

  lemma BelowLast(directories: seq<DirectoryRow>, rows: seq<EntryRow>)
    requires directories != [] && SortedById(directories)
    requires forall i :: 0 <= i < |rows| ==> rows[i].directory in IdsOf(directories)
    ensures forall i :: 0 <= i < |rows| ==> rows[i].directory <= directories[|directories| - 1].id
  {
    forall i | 0 <= i < |rows| ensures rows[i].directory <= directories[|directories| - 1].id {
      var k :| 0 <= k < |directories| && directories[k].id == rows[i].directory;
    }
  }

  /** The rows before the split only name the earlier directories, and both stay sorted. */
  lemma PrefixListed(directories: seq<DirectoryRow>, rows: seq<EntryRow>, p: nat)
    requires directories != [] && SortedById(directories) && SortedByDirectory(rows) && p <= |rows|
    requires forall i :: 0 <= i < p ==>
               rows[i].directory in IdsOf(directories) && rows[i].directory < directories[|directories| - 1].id
    ensures forall i :: 0 <= i < p ==> rows[..p][i].directory in IdsOf(directories[..|directories| - 1])
    ensures SortedById(directories[..|directories| - 1]) && SortedByDirectory(rows[..p])
  {
    forall i | 0 <= i < p ensures rows[..p][i].directory in IdsOf(directories[..|directories| - 1]) {
      var k :| 0 <= k < |directories| && directories[k].id == rows[i].directory;
      assert directories[..|directories| - 1][k].id == rows[i].directory;
    }
  }

  lemma EarlierDrained(directories: seq<DirectoryRow>, before: seq<EntryRow>, after: seq<EntryRow>,
                       out: seq<CheckpointDirectory>, k: nat)
    requires SortedById(directories) && |out| == |directories| && k < |directories| - 1
    requires forall i :: 0 <= i < |after| ==> after[i].directory == directories[|directories| - 1].id
    requires Drained(out[k], directories, k, before + after)
    ensures Drained(out[..|out| - 1][k], directories[..|directories| - 1], k, before)
  {
    assert directories[..|directories| - 1][..k] == directories[..k];
    SelectedJoins(before, after, directories[k].id);
    SelectedNone(after, directories[k].id);
  }

  lemma LastDrained(directories: seq<DirectoryRow>, before: seq<EntryRow>, after: seq<EntryRow>, out: seq<CheckpointDirectory>)
    requires SortedById(directories) && |out| == |directories| > 0
    requires var last := directories[|directories| - 1].id;
             && (forall i :: 0 <= i < |before| ==> before[i].directory < last)
             && (forall i :: 0 <= i < |after| ==> after[i].directory == last)
    requires Drained(out[|out| - 1], directories, |directories| - 1, before + after)
    ensures out[|out| - 1].entries == ConvertedAll(after)
  {
    var n := |directories| - 1;
    var last := directories[n].id;
    forall k | 0 <= k < n ensures directories[..n][k].id != last { assert directories[k].id < last; }
    SelectedJoins(before, after, last);
    SelectedNone(before, last);
    SelectedOnly(after, last);
  }

  // ---------------------------------------------------------------- entry by entry

  /** The entry carries the row's name and payload, and its kind. */
  predicate Shows(entry: CheckpointEntry, row: EntryRow) {
    && entry.name == row.name && entry.payload == row.payload
    && (entry.kind == File <==> row.kind == "file") && (entry.kind == Directory <==> row.kind == "directory")
  }

  predicate HasKind(row: EntryRow) {
    row.kind == "file" || row.kind == "directory"
  }

  /** Entry k of the checkpoint's lists taken together shows row k. */
  lemma EntriesShowRows(directories: seq<DirectoryRow>, rows: seq<EntryRow>, out: seq<CheckpointDirectory>)
    requires SortedById(directories) && SortedByDirectory(rows)
    requires forall i :: 0 <= i < |rows| ==> rows[i].directory in IdsOf(directories) && HasKind(rows[i])
    requires |out| == |directories| && forall k :: 0 <= k < |directories| ==> Drained(out[k], directories, k, rows)
    ensures |Flattened(out)| == |rows| && forall k :: 0 <= k < |rows| ==> Shows(Flattened(out)[k], rows[k])
  {
    hide Drained, SortedById, SortedByDirectory;
    NothingLostOrReordered(directories, rows, out);
    forall k | 0 <= k < |rows| ensures Shows(Flattened(out)[k], rows[k]) { assert HasKind(rows[k]); }
  }

  /** `at` are the positions of a directory's rows in order. */
  predicate AreRowsOf(at: seq<nat>, rows: seq<EntryRow>, id: DirectoryId) {
    && (forall j :: 0 <= j < |at| ==> at[j] < |rows| && rows[at[j]].directory == id)
    && (forall j, k :: 0 <= j < k < |at| ==> at[j] < at[k])
    && (forall i: nat :: i < |rows| && rows[i].directory == id ==> i in at)
  }

  lemma OneMoreRow(before: seq<nat>, rows: seq<EntryRow>, id: DirectoryId)
    requires rows != [] && AreRowsOf(before, rows[..|rows| - 1], id)
    ensures AreRowsOf(if rows[|rows| - 1].directory == id then before + [|rows| - 1] else before, rows, id)
  {
    var n := |rows| - 1;
    var at := if rows[n].directory == id then before + [n] else before;
    forall i: nat | i < |rows| && rows[i].directory == id ensures i in at {
      if i < n {
        assert rows[..n][i].directory == id;
      } else {
        assert at[|at| - 1] == n;
      }
    }
  }

  /** What the list of a directory must show: its rows in order. */
  predicate ShowsRows(entries: seq<CheckpointEntry>, rows: seq<EntryRow>, at: seq<nat>) {
    && |entries| == |at|
    && forall j :: 0 <= j < |at| ==> at[j] < |rows| && Shows(entries[j], rows[at[j]])
  }

  lemma ShowsOneMore(entries: seq<CheckpointEntry>, rows: seq<EntryRow>, at: seq<nat>)
    requires rows != [] && ShowsRows(entries, rows[..|rows| - 1], at) && HasKind(rows[|rows| - 1])
    ensures ShowsRows(entries, rows, at)
    ensures ShowsRows(entries + [Converted(rows[|rows| - 1])], rows, at + [|rows| - 1])
  {
  }

  /** Each directory's list shows its own rows, all of them and in order, whatever the order of the queries. */
  lemma {:induction false} ListShowsOwnRows(rows: seq<EntryRow>, id: DirectoryId) returns (at: seq<nat>)
    requires forall i :: 0 <= i < |rows| ==> HasKind(rows[i])
    ensures AreRowsOf(at, rows, id) && ShowsRows(Selected(rows, id), rows, at)
  {
    hide AreRowsOf, ShowsRows, Converted;
    if rows == [] {
      at := [];
      NothingToShow(id);
    } else {
      var n := |rows| - 1;
      at := ListShowsOwnRows(rows[..n], id);
      OneMoreRow(at, rows, id);
      ShowsOneMore(Selected(rows[..n], id), rows, at);
      if rows[n].directory == id {
        at := at + [n];
      } else {
        assert Selected(rows, id) == Selected(rows[..n], id);
      }
    }
  }

  lemma NothingToShow(id: DirectoryId)
    ensures AreRowsOf([], [], id) && ShowsRows(Selected([], id), [], [])
  {
  }
}
