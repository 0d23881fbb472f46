/**
 One driver's provider inventory: workers select the scan row, list a page, and commit quarantine
 evidence and the moved cursor in one batch fenced by generation and cursor. Any number of workers may
 hold the same page at once, fail, or be overtaken by a refresh.
 */
module ProviderScan {
  import opened Options
  import opened AliyunTraversal

  const COMPLETE_SCAN_INTERVAL_SECONDS := 86_400

  type Key = string

  datatype ScanState = Waiting | Scanning | Complete | Unsupported | Failed
  datatype ScanRow = ScanRow(
    generation: nat, state: ScanState, cursor: Option<Cursor>, scanned: nat, unknown: nat,
    nextScanAt: Option<nat>, attempts: nat)

  datatype Evidence = Evidence(observed: bool, firstSeen: nat, lastSeen: nat, count: nat)
  datatype Tables = Tables(row: ScanRow, quarantine: map<Key, Evidence>)

  /** A listed object and whether a location or put intent was found for its key. */
  datatype Sighting = Sighting(key: Key, known: bool)

  // ---------------------------------------------------------------- statements

  predicate Fence(row: ScanRow, generation: nat, cursor: Option<Cursor>) {
    row.state == Scanning && row.generation == generation && row.cursor == cursor
  }

  function Sight(quarantine: map<Key, Evidence>, s: Sighting, generation: nat): map<Key, Evidence> {
    if s.known then
      if s.key in quarantine && quarantine[s.key].observed
      then quarantine[s.key := quarantine[s.key].(observed := false, lastSeen := generation)] else quarantine
    else if s.key in quarantine then
      quarantine[s.key := Evidence(true, quarantine[s.key].firstSeen, generation, quarantine[s.key].count + 1)]
    else quarantine[s.key := Evidence(true, generation, generation, 1)]
  }

  function SightAll(quarantine: map<Key, Evidence>, sightings: seq<Sighting>, generation: nat): map<Key, Evidence> {
    if sightings == [] then quarantine
    else
      var n := |sightings| - 1;
      Sight(SightAll(quarantine, sightings[..n], generation), sightings[n], generation)
  }

  /** Only a complete generation proves that earlier evidence is gone. */
  function ResolveStale(quarantine: map<Key, Evidence>, generation: nat): map<Key, Evidence> {
    map k | k in quarantine ::
      if quarantine[k].observed && quarantine[k].lastSeen < generation
      then quarantine[k].(observed := false) else quarantine[k]
  }

  function UnknownIn(sightings: seq<Sighting>): nat {
    if sightings == [] then 0
    else UnknownIn(sightings[..|sightings| - 1]) + if sightings[|sightings| - 1].known then 0 else 1
  }

  /** The batch of one page: every statement carries the fence, and the row moves last. */
  function CommitPage(db: Tables, generation: nat, expected: Option<Cursor>, sightings: seq<Sighting>,
                      next: Option<Cursor>, now: nat): Tables {
    if !Fence(db.row, generation, expected) then db
    else
      var sighted := SightAll(db.quarantine, sightings, generation);
      Tables(
        db.row.(state := if next.Some? then Scanning else Complete, cursor := next,
                scanned := db.row.scanned + |sightings|, unknown := db.row.unknown + UnknownIn(sightings),
                nextScanAt := Some(if next.Some? then now else now + COMPLETE_SCAN_INTERVAL_SECONDS), attempts := 0),
        if next.Some? then sighted else ResolveStale(sighted, generation))
  }

  predicate StartMatches(row: ScanRow, candidate: ScanRow) {
    row.generation == candidate.generation && row.state == candidate.state && row.cursor == None
  }

  function RetryDelay(attempt: nat, generation: nat): nat {
    var exponent := if attempt == 0 then 0 else if attempt - 1 > 8 then 8 else attempt - 1;
    var doubled := Doubled(60, exponent);
    (if doubled < 6 * 60 * 60 then doubled else 6 * 60 * 60) + generation % 61
  }

  function Doubled(base: nat, exponent: nat): nat {
    if exponent == 0 then base else 2 * Doubled(base, exponent - 1)
  }

  function MarkError(row: ScanRow, generation: nat, expected: Option<Cursor>, attempt: nat, now: nat): ScanRow {
    if Fence(row, generation, expected)
    then row.(state := Failed, cursor := None, nextScanAt := Some(now + RetryDelay(attempt, generation)), attempts := attempt)
    else row
  }

  function MarkUnsupported(row: ScanRow): ScanRow {
    row.(state := Unsupported, nextScanAt := None)
  }

  function Refresh(row: ScanRow, now: nat): ScanRow {
    row.(state := if row.state == Scanning then Scanning else Waiting,
         cursor := if row.state == Scanning then row.cursor else None,
         nextScanAt := Some(now), attempts := 0)
  }

  predicate IsDue(row: ScanRow, now: nat) {
    row.state != Unsupported && row.nextScanAt.Some? && row.nextScanAt.value <= now
  }

  // ---------------------------------------------------------------- the rows, rewritten in place

  class ScanDatabase {
    var row: ScanRow
    var quarantine: map<Key, Evidence>

    function View(): Tables
      reads this
    {
      Tables(row, quarantine)
    }

    constructor (now: nat)
      ensures View() == Fresh(now)
    {
      row, quarantine := ScanRow(0, Waiting, None, 0, 0, Some(now), 0), map[];
    }

    /** The loop of `run` over a listed page, and the batch it builds; every object has its verdict. */
    method Commit(generation: nat, expected: Option<Cursor>, objects: seq<ObservedObject>, known: seq<bool>,
                  next: Option<Cursor>, now: nat)
      requires |known| == |objects|
      modifies this
      ensures View() == CommitPage(old(View()), generation, expected, Sightings(objects, known), next, now)
    {
      ghost var sightings := Sightings(objects, known);
      var fenced := Fence(row, generation, expected);
      var unknown := 0;
      for i := 0 to |objects|
        invariant row == old(row) && unknown == UnknownIn(sightings[..i])
        invariant quarantine == if fenced then SightAll(old(quarantine), sightings[..i], generation) else old(quarantine)
      {
        assert sightings[..i + 1][..i] == sightings[..i];
        var s := Sighting(objects[i].storageKey, known[i]);
        if !s.known { unknown := unknown + 1; }
        if fenced { quarantine := Sight(quarantine, s, generation); }
      }
      assert sightings[..|objects|] == sightings;
      if next.None? && fenced { quarantine := ResolveStale(quarantine, generation); }
      if fenced {
        row := row.(state := if next.Some? then Scanning else Complete, cursor := next,
                    scanned := row.scanned + |objects|, unknown := row.unknown + unknown,
                    nextScanAt := Some(if next.Some? then now else now + COMPLETE_SCAN_INTERVAL_SECONDS), attempts := 0);
      }
    }
  }

  function Fresh(now: nat): Tables {
    Tables(ScanRow(0, Waiting, None, 0, 0, Some(now), 0), map[])
  }

  function Sightings(objects: seq<ObservedObject>, known: seq<bool>): (r: seq<Sighting>)
    requires |known| == |objects|
    ensures |r| == |objects|
  {
    seq(|objects|, i requires 0 <= i < |objects| => Sighting(objects[i].storageKey, known[i]))
  }

  // ---------------------------------------------------------------- workers and steps

  /** `from` is the cursor the page is listed from, `expected` the one the batch is fenced by. */
  datatype Worker =
    | Idle
    | Candidate(row: ScanRow)
    | ListingFrom(generation: nat, expected: Option<Cursor>, from: Option<Cursor>, attempts: nat)
    | Listed(generation: nat, expected: Option<Cursor>, page: ProviderPage)
    | Failing(generation: nat, expected: Option<Cursor>, attempts: nat)

  /** `log` and `cursors` record what the current generation has committed; no step looks at them. */
  datatype System = System(db: Tables, workers: map<nat, Worker>, log: seq<Sighting>, cursors: seq<Option<Cursor>>)

  datatype Step =
    | SelectStep(w: nat, now: nat)
    | StartStep(w: nat, now: nat)
    | ListStep(w: nat, page: ProviderPage)
    | ListFailsStep(w: nat)
    | CommitStep(w: nat, known: seq<bool>, now: nat)
    | ErrorStep(w: nat, now: nat)
    | UnsupportedStep
    | RefreshStep(now: nat)
    | CrashStep(w: nat)

  function WorkerAt(s: System, w: nat): Worker {
    if w in s.workers then s.workers[w] else Idle
  }

  function Goto(s: System, w: nat, worker: Worker): System {
    s.(workers := s.workers[w := worker])
  }

  function Execute(s: System, step: Step): System {
    match step
    case SelectStep(w, now) =>
      if WorkerAt(s, w).Idle? && IsDue(s.db.row, now) then Goto(s, w, Candidate(s.db.row)) else s
    case StartStep(w, now) =>
      var p := WorkerAt(s, w);
      if !p.Candidate? then s
      else if p.row.state == Scanning then Goto(s, w, ListingFrom(p.row.generation, p.row.cursor, p.row.cursor, p.row.attempts))
      else if !StartMatches(s.db.row, p.row) then Goto(s, w, Idle)
      else
        Goto(s, w, ListingFrom(p.row.generation + 1, None, p.row.cursor, p.row.attempts)).(
          db := s.db.(row := s.db.row.(generation := p.row.generation + 1, state := Scanning, cursor := None,
                                       scanned := 0, unknown := 0, nextScanAt := Some(now))),
          log := [], cursors := [])
    case ListStep(w, page) =>
      var p := WorkerAt(s, w);
      if p.ListingFrom? then Goto(s, w, Listed(p.generation, p.expected, page)) else s
    case ListFailsStep(w) =>
      var p := WorkerAt(s, w);
      if p.ListingFrom? then Goto(s, w, Failing(p.generation, p.expected, p.attempts + 1)) else s
    case CommitStep(w, known, now) =>
      var p := WorkerAt(s, w);
      if !p.Listed? || |known| != |p.page.objects| then s
      else
        var sightings := Sightings(p.page.objects, known);
        var fenced := Fence(s.db.row, p.generation, p.expected);
        Goto(s, w, Idle).(
          db := CommitPage(s.db, p.generation, p.expected, sightings, p.page.nextCursor, now),
          log := if fenced then s.log + sightings else s.log,
          cursors := if fenced then s.cursors + [p.expected] else s.cursors)
    case ErrorStep(w, now) =>
      var p := WorkerAt(s, w);
      if !p.Failing? then s
      else Goto(s, w, Idle).(db := s.db.(row := MarkError(s.db.row, p.generation, p.expected, p.attempts, now)))
    case UnsupportedStep => s.(db := s.db.(row := MarkUnsupported(s.db.row)))
    case RefreshStep(now) => s.(db := s.db.(row := Refresh(s.db.row, now)))
    case CrashStep(w) => Goto(s, w, Idle)
  }

  function Initial(now: nat): System {
    System(Fresh(now), map[], [], [])
  }

  function Run(s: System, steps: seq<Step>): System
    decreases |steps|
  {
    if steps == [] then s else Execute(Run(s, steps[..|steps| - 1]), steps[|steps| - 1])
  }

  // ---------------------------------------------------------------- what evidence means

  /** What the generation last found out about a key: nothing, that it is known, or that it is not. */
  function LastSeen(log: seq<Sighting>, k: Key): Option<bool> {
    if log == [] then None
    else if log[|log| - 1].key == k then Some(log[|log| - 1].known)
    else LastSeen(log[..|log| - 1], k)
  }

  predicate IsObserved(quarantine: map<Key, Evidence>, k: Key) {
    k in quarantine && quarantine[k].observed
  }

  /** The evidence for `k` after some sightings of the running generation. */
  predicate KeyOk(quarantine: map<Key, Evidence>, log: seq<Sighting>, generation: nat, k: Key) {
    && (k in quarantine ==> quarantine[k].firstSeen <= quarantine[k].lastSeen <= generation)
    && match LastSeen(log, k)
       case None => IsObserved(quarantine, k) ==> quarantine[k].lastSeen < generation
       case Some(known) =>
         IsObserved(quarantine, k) == !known && (!known ==> quarantine[k].lastSeen == generation)
  }

  predicate EvidenceOk(db: Tables, log: seq<Sighting>, k: Key) {
    match db.row.state
    case Scanning => KeyOk(db.quarantine, log, db.row.generation, k)
    case Complete =>
      && (IsObserved(db.quarantine, k) <==> LastSeen(log, k) == Some(false))
      && (k in db.quarantine ==> db.quarantine[k].firstSeen <= db.quarantine[k].lastSeen <= db.row.generation)
    case _ => k in db.quarantine ==> db.quarantine[k].firstSeen <= db.quarantine[k].lastSeen <= db.row.generation
  }

  predicate RowOk(s: System) {
    && (s.db.row.state != Scanning && s.db.row.state != Unsupported ==> s.db.row.cursor == None)
    && (s.db.row.state == Unsupported <==> s.db.row.nextScanAt == None)
    && s.db.row.scanned == |s.log| && s.db.row.unknown == UnknownIn(s.log)
  }

  predicate WorkerOk(s: System, p: Worker) {
    && (p.Candidate? ==> (p.row.state != Scanning ==> p.row.cursor == None))
    && (p.ListingFrom? ==> p.from == p.expected)
  }

  ghost predicate Inv(s: System) {
    && RowOk(s) && (forall k {:trigger EvidenceOk(s.db, s.log, k)} :: EvidenceOk(s.db, s.log, k))
    && (forall w {:trigger WorkerAt(s, w)} :: WorkerOk(s, WorkerAt(s, w)))
  }

  lemma {:induction false} SightingsKeepKey(
    quarantine: map<Key, Evidence>, log: seq<Sighting>, sightings: seq<Sighting>, generation: nat, k: Key)
    requires KeyOk(quarantine, log, generation, k)
    ensures KeyOk(SightAll(quarantine, sightings, generation), log + sightings, generation, k)
    decreases |sightings|
  {
    if sightings == [] {
      assert log + sightings == log;
    } else {
      var n := |sightings| - 1;
      SightingsKeepKey(quarantine, log, sightings[..n], generation, k);
      var all := log + sightings;
      assert all[..|all| - 1] == log + sightings[..n];
    }
  }

  lemma {:induction false} UnknownJoins(log: seq<Sighting>, more: seq<Sighting>)
    ensures UnknownIn(log + more) == UnknownIn(log) + UnknownIn(more)
    decreases |more|
  {
    if more == [] {
      assert log + more == log;
    } else {
      var n := |more| - 1;
      assert (log + more)[..|log| + n] == log + more[..n];
      UnknownJoins(log, more[..n]);
    }
  }

  lemma CommitKeeps(s: System, step: Step)
    requires Inv(s) && step.CommitStep?
    ensures Inv(Execute(s, step))
  {
    var t, p := Execute(s, step), WorkerAt(s, step.w);
    if p.Listed? && |step.known| == |p.page.objects| {
      var sightings := Sightings(p.page.objects, step.known);
      UnknownJoins(s.log, sightings);
      forall k ensures EvidenceOk(t.db, t.log, k) {
        assert EvidenceOk(s.db, s.log, k);
        if Fence(s.db.row, p.generation, p.expected) {
          SightingsKeepKey(s.db.quarantine, s.log, sightings, p.generation, k);
        }
      }
      forall w ensures WorkerOk(t, WorkerAt(t, w)) { assert WorkerOk(s, WorkerAt(s, w)); }
    }
  }

  lemma ExecuteKeeps(s: System, step: Step)
    requires Inv(s)
    ensures Inv(Execute(s, step))
  {
    hide SightAll, ResolveStale;
    if step.CommitStep? {
      CommitKeeps(s, step);
    } else {
      var t := Execute(s, step);
      forall w ensures WorkerOk(t, WorkerAt(t, w)) { assert WorkerOk(s, WorkerAt(s, w)); }
      forall k ensures EvidenceOk(t.db, t.log, k) { assert EvidenceOk(s.db, s.log, k); }
    }
  }

  lemma {:induction false} RunKeeps(now: nat, steps: seq<Step>)
    ensures Inv(Run(Initial(now), steps))
    decreases |steps|
  {
    hide Execute;
    if steps != [] {
      RunKeeps(now, steps[..|steps| - 1]);
      ExecuteKeeps(Run(Initial(now), steps[..|steps| - 1]), steps[|steps| - 1]);
    }
  }

  // ---------------------------------------------------------------- the promises

  /** When a generation is complete, exactly the keys whose last sighting in it was unknown are observed. */
  lemma CompletedScanIsExact(now: nat, steps: seq<Step>, k: Key)
    ensures var s := Run(Initial(now), steps);
            s.db.row.state == Complete ==> (IsObserved(s.db.quarantine, k) <==> LastSeen(s.log, k) == Some(false))
    ensures var s := Run(Initial(now), steps);
            s.db.row.scanned == |s.log| && s.db.row.unknown == UnknownIn(s.log)
  {
    hide Run;
    RunKeeps(now, steps);
    assert EvidenceOk(Run(Initial(now), steps).db, Run(Initial(now), steps).log, k);
  }

  /** Evidence is resolved only by a known sighting of that key, or by completing a generation that never saw it. */
  lemma ResolvedOnlyByProof(s: System, step: Step, k: Key)
    requires Inv(s) && IsObserved(s.db.quarantine, k) && !IsObserved(Execute(s, step).db.quarantine, k)
    ensures step.CommitStep? && WorkerAt(s, step.w).Listed? && |step.known| == |WorkerAt(s, step.w).page.objects|
    ensures var p := WorkerAt(s, step.w);
            && Fence(s.db.row, p.generation, p.expected)
            && (LastSeen(Sightings(p.page.objects, step.known), k) == Some(true)
                || (p.page.nextCursor.None? && LastSeen(Execute(s, step).log, k) == None))
  {
    hide SightAll;
    if step.CommitStep? && WorkerAt(s, step.w).Listed? && |step.known| == |WorkerAt(s, step.w).page.objects| {
      var p := WorkerAt(s, step.w);
      var sightings := Sightings(p.page.objects, step.known);
      if Fence(s.db.row, p.generation, p.expected) {
        assert EvidenceOk(s.db, s.log, k);
        SightingsKeepKey(s.db.quarantine, s.log, sightings, p.generation, k);
        LastOfBoth(s.log, sightings, k);
        if LastSeen(sightings, k) == None { UnsightedStays(s.db.quarantine, sightings, p.generation, k); }
      }
    }
  }

  lemma {:induction false} UnsightedStays(
    quarantine: map<Key, Evidence>, sightings: seq<Sighting>, generation: nat, k: Key)
    requires LastSeen(sightings, k) == None
    ensures IsObserved(SightAll(quarantine, sightings, generation), k) == IsObserved(quarantine, k)
    decreases |sightings|
  {
    if sightings != [] { UnsightedStays(quarantine, sightings[..|sightings| - 1], generation, k); }
  }

  lemma {:induction false} LastOfBoth(log: seq<Sighting>, more: seq<Sighting>, k: Key)
    ensures LastSeen(log + more, k) == if LastSeen(more, k).Some? then LastSeen(more, k) else LastSeen(log, k)
    decreases |more|
  {
    if more == [] {
      assert log + more == log;
    } else {
      var n := |more| - 1;
      assert (log + more)[..|log| + n] == log + more[..n];
      LastOfBoth(log, more[..n], k);
    }
  }

  /** A worker that was overtaken changes neither the row nor the evidence. */
  lemma OvertakenChangesNothing(s: System, step: Step)
    requires step.CommitStep? || step.ErrorStep?
    requires var p := WorkerAt(s, step.w);
             (p.Listed? || p.Failing? ==> !Fence(s.db.row, p.generation, p.expected))
    ensures Execute(s, step).db == s.db && Execute(s, step).log == s.log && Execute(s, step).cursors == s.cursors
  {
  }
}
