/** When a drive is scanned again, and what one committed page leaves of each object it lists. */
module ScanSchedule {
  import opened Options
  import opened AliyunTraversal
  import opened ProviderScan

  // ---------------------------------------------------------------- selection

  /** A row that is not unsupported is selected exactly from the time of its next scan on. */
  lemma SelectsExactlyWhenDue(s: System, w: nat, now: nat)
    requires WorkerAt(s, w).Idle?
    ensures Execute(s, SelectStep(w, now)) ==
              if s.db.row.state != Unsupported && s.db.row.nextScanAt.Some? && s.db.row.nextScanAt.value <= now
              then s.(workers := s.workers[w := Candidate(s.db.row)]) else s
  {
  }

  /** A selected row that is still the same starts the next generation with nothing counted. */
  lemma StartsExactlyWhenSame(s: System, w: nat, now: nat)
    requires WorkerAt(s, w).Candidate? && WorkerAt(s, w).row.state != Scanning
    ensures var p, t := WorkerAt(s, w), Execute(s, StartStep(w, now));
            if s.db.row.generation == p.row.generation && s.db.row.state == p.row.state && s.db.row.cursor == None then
              && t.db.row.generation == p.row.generation + 1 && t.db.row.state == Scanning && t.db.row.cursor == None
              && t.db.row.scanned == 0 && t.db.row.unknown == 0 && t.db.row.nextScanAt == Some(now)
              && t.db.row.attempts == s.db.row.attempts && t.db.quarantine == s.db.quarantine
              && WorkerAt(t, w) == ListingFrom(p.row.generation + 1, None, p.row.cursor, p.row.attempts)
            else t.db == s.db && WorkerAt(t, w).Idle?
  {
  }

  /** A selected row that is being scanned is listed from its cursor; the page, or the failure, is the worker's next task. */
  lemma ListsFromCursor(s: System, w: nat, now: nat, page: ProviderPage)
    ensures var p, t := WorkerAt(s, w), Execute(s, StartStep(w, now));
            p.Candidate? && p.row.state == Scanning ==>
              t.db == s.db && WorkerAt(t, w) == ListingFrom(p.row.generation, p.row.cursor, p.row.cursor, p.row.attempts)
    ensures var p := WorkerAt(s, w);
            p.ListingFrom? ==>
              && Execute(s, ListStep(w, page)) == Goto(s, w, Listed(p.generation, p.expected, page))
              && Execute(s, ListFailsStep(w)) == Goto(s, w, Failing(p.generation, p.expected, p.attempts + 1))
  {
  }

  /** A refresh makes the driver due at once: a running scan goes on where it is, any other begins anew. */
  lemma RefreshIsDue(s: System, now: nat, w: nat, later: nat)
    requires WorkerAt(s, w).Idle? && later >= now
    ensures var t := Execute(s, RefreshStep(now));
            && t.db.quarantine == s.db.quarantine && t.workers == s.workers
            && t.db.row.generation == s.db.row.generation && t.db.row.attempts == 0
            && t.db.row.scanned == s.db.row.scanned && t.db.row.unknown == s.db.row.unknown
            && (s.db.row.state == Scanning ==> t.db.row.state == Scanning && t.db.row.cursor == s.db.row.cursor)
            && (s.db.row.state != Scanning ==> t.db.row.state == Waiting && t.db.row.cursor == None)
            && WorkerAt(Execute(t, SelectStep(w, later)), w) == Candidate(t.db.row)
  {
  }

  /** A driver that was given up is selected at no time. */
  lemma UnsupportedIsLeftAlone(s: System, w: nat, later: nat)
    ensures var t := Execute(s, UnsupportedStep);
            && t.db == s.db.(row := s.db.row.(state := Unsupported, nextScanAt := None)) && t.workers == s.workers
            && Execute(t, SelectStep(w, later)) == t
  {
  }

  // ---------------------------------------------------------------- how long a finished generation rests

  predicate Finished(state: ScanState) {
    state == Complete || state == Failed
  }

  /** A generation finishes once: a worker that selected a finished row knows a generation before the running one. */
  predicate CandidateOk(s: System, p: Worker) {
    p.Candidate? ==>
      && p.row.generation <= s.db.row.generation
      && (Finished(p.row.state) && p.row.generation == s.db.row.generation ==>
            s.db.row.state != Scanning && (Finished(s.db.row.state) ==> s.db.row.state == p.row.state))
  }

  ghost predicate CandidatesOk(s: System) {
    forall w {:trigger WorkerAt(s, w)} :: CandidateOk(s, WorkerAt(s, w))
  }

  lemma StepKeepsCandidates(s: System, step: Step)
    requires CandidatesOk(s)
    ensures CandidatesOk(Execute(s, step))
  {
    var t := Execute(s, step);
    forall w ensures CandidateOk(t, WorkerAt(t, w)) {
      assert CandidateOk(s, WorkerAt(s, w));
      if step.StartStep? { assert CandidateOk(s, WorkerAt(s, step.w)); }
    }
  }

  lemma {:induction false} RunKeepsCandidates(now: nat, steps: seq<Step>)
    ensures CandidatesOk(Run(Initial(now), steps))
    decreases |steps|
  {
    hide Execute;
    if steps == [] {
      forall w ensures CandidateOk(Initial(now), WorkerAt(Initial(now), w)) {}
    } else {
      RunKeepsCandidates(now, steps[..|steps| - 1]);
      StepKeepsCandidates(Run(Initial(now), steps[..|steps| - 1]), steps[|steps| - 1]);
    }
  }

  /** Nobody refreshes the driver or gives it up, and no worker looks at a clock that has reached `from`. */
  predicate ComesEarly(step: Step, from: nat) {
    && !step.RefreshStep? && !step.UnsupportedStep?
    && (step.SelectStep? ==> step.now < from)
  }

  predicate StartsNothing(s: System, w: nat) {
    WorkerAt(s, w).Candidate? ==>
      WorkerAt(s, w).row.generation < s.db.row.generation || WorkerAt(s, w).row.state != s.db.row.state
  }

  ghost predicate Rests(s: System, tables: Tables, from: nat) {
    && s.db == tables && Finished(tables.row.state) && tables.row.nextScanAt == Some(from)
    && forall w {:trigger WorkerAt(s, w)} :: StartsNothing(s, w)
  }

  lemma StepRests(s: System, step: Step, tables: Tables, from: nat)
    requires Rests(s, tables, from) && CandidatesOk(s) && ComesEarly(step, from)
    ensures Rests(Execute(s, step), tables, from)
  {
    var t := Execute(s, step);
    if step.StartStep? { assert StartsNothing(s, step.w) && CandidateOk(s, WorkerAt(s, step.w)); }
    forall w ensures StartsNothing(t, w) { assert StartsNothing(s, w); }
  }

  lemma {:induction false} RunRests(now: nat, steps: seq<Step>, more: seq<Step>, from: nat)
    requires Rests(Run(Initial(now), steps), Run(Initial(now), steps).db, from)
    requires forall i :: 0 <= i < |more| ==> ComesEarly(more[i], from)
    ensures Rests(Run(Initial(now), steps + more), Run(Initial(now), steps).db, from)
    decreases |more|
  {
    hide Execute, Rests;
    if more == [] {
      assert steps + more == steps;
    } else {
      var n := |more| - 1;
      assert (steps + more)[..|steps + more| - 1] == steps + more[..n];
      RunRests(now, steps, more[..n], from);
      RunKeepsCandidates(now, steps + more[..n]);
      StepRests(Run(Initial(now), steps + more[..n]), more[n], Run(Initial(now), steps).db, from);
    }
  }

  /** The step that ends a generation: its last page is committed under the fence, or its listing has failed. */
  predicate Finishes(s: System, step: Step) {
    && s.db.row.state == Scanning
    && var p := WorkerAt(s, if step.CommitStep? || step.ErrorStep? then step.w else 0);
       || (step.CommitStep? && p.Listed? && |step.known| == |p.page.objects| && p.page.nextCursor.None?
           && s.db.row.generation == p.generation && s.db.row.cursor == p.expected)
       || (step.ErrorStep? && p.Failing? && s.db.row.generation == p.generation && s.db.row.cursor == p.expected)
  }

  lemma FinishRests(s: System, step: Step)
    requires CandidatesOk(s) && Finishes(s, step)
    ensures var t := Execute(s, step);
            && t.db.row.nextScanAt.Some? && Rests(t, t.db, t.db.row.nextScanAt.value)
            && (step.CommitStep? ==> t.db.row.state == Complete && t.db.row.nextScanAt.value == step.now + 86_400)
            && (step.ErrorStep? ==>
                  && t.db.row.state == Failed && t.db.quarantine == s.db.quarantine
                  && t.db.row.attempts == WorkerAt(s, step.w).attempts
                  && t.db.row.nextScanAt.value == step.now + RetryDelay(t.db.row.attempts, t.db.row.generation))
  {
    var t := Execute(s, step);
    forall w ensures StartsNothing(t, w) { assert CandidateOk(s, WorkerAt(s, w)); }
  }

  /**
   A drive whose scan is complete is left alone for a day, and one whose listing failed until its retry time,
   unless it is refreshed or given up, whoever still works on it: row and evidence stay as they are.
   From then on it is selected.
   */
  lemma FinishedScanRests(now: nat, steps: seq<Step>, step: Step, more: seq<Step>, w: nat, later: nat)
    requires Finishes(Run(Initial(now), steps), step)
    requires var from := Run(Initial(now), steps + [step]).db.row.nextScanAt;
             from.Some? && forall i :: 0 <= i < |more| ==> ComesEarly(more[i], from.value)
    requires WorkerAt(Run(Initial(now), steps + [step] + more), w).Idle?
    ensures var t, u := Run(Initial(now), steps + [step]), Run(Initial(now), steps + [step] + more);
            && u.db == t.db
            && (step.CommitStep? ==> t.db.row.state == Complete && t.db.row.nextScanAt == Some(step.now + 86_400))
            && (step.ErrorStep? ==>
                  t.db.row.state == Failed && step.now + 60 <= t.db.row.nextScanAt.value <= step.now + 21_660)
            && WorkerAt(Execute(u, SelectStep(w, later)), w)
               == if later >= t.db.row.nextScanAt.value then Candidate(t.db.row) else Idle
  {
    hide Execute, Rests;
    var s0 := Initial(now);
    assert (steps + [step])[..|steps + [step]| - 1] == steps;
    RunKeepsCandidates(now, steps);
    FinishRests(Run(s0, steps), step);
    var t := Run(s0, steps + [step]);
    if step.ErrorStep? { DelayBounds(t.db.row.attempts, t.db.row.generation); }
    RunRests(now, steps + [step], more, t.db.row.nextScanAt.value);
    RestsAsIs(Run(s0, steps + [step] + more), t.db, t.db.row.nextScanAt.value);
    SelectsExactlyWhenDue(Run(s0, steps + [step] + more), w, later);
  }

  lemma RestsAsIs(s: System, tables: Tables, from: nat)
    requires Rests(s, tables, from)
    ensures s.db == tables && s.db.row.state != Unsupported && s.db.row.nextScanAt == Some(from)
  {
  }

  lemma {:induction false} DoubledGrows(base: nat, m: nat, n: nat)
    requires m <= n
    ensures base <= Doubled(base, m) <= Doubled(base, n)
    decreases n
  {
    if m < n { DoubledGrows(base, m, n - 1); } else if m > 0 { DoubledGrows(base, m - 1, n - 1); }
  }

  lemma DelayBounds(attempt: nat, generation: nat)
    ensures 60 <= RetryDelay(attempt, generation) <= 21_660
  {
    DoubledGrows(60, if attempt == 0 then 0 else if attempt - 1 > 8 then 8 else attempt - 1, 8);
  }

  /** Every attempt up to the ninth doubles the wait of the one before, from one minute on; the generation adds up to another. */
  lemma WaitDoubles(attempt: nat, generation: nat)
    requires attempt >= 1
    ensures RetryDelay(1, generation) == 60 + generation % 61
    ensures attempt <= 8 ==>
              RetryDelay(attempt + 1, generation) - generation % 61 == 2 * (RetryDelay(attempt, generation) - generation % 61)
    ensures attempt >= 9 ==> RetryDelay(attempt, generation) == RetryDelay(9, generation)
  {
    assert Doubled(60, 8) == 256 * 60 by { assert Doubled(60, 4) == 960 && Doubled(60, 6) == 3840; }
    if attempt <= 8 { DoubledGrows(60, attempt, 8); }
  }

  // ---------------------------------------------------------------- one committed page

  /** How often the page lists the key without an owner. */
  function UnownedIn(objects: seq<ObservedObject>, known: seq<bool>, k: Key): nat
    requires |known| == |objects|
  {
    if objects == [] then 0
    else
      var n := |objects| - 1;
      UnownedIn(objects[..n], known[..n], k) + if objects[n].storageKey == k && !known[n] then 1 else 0
  }

  function UnownedCount(known: seq<bool>): nat {
    if known == [] then 0 else UnownedCount(known[..|known| - 1]) + if known[|known| - 1] then 0 else 1
  }

  lemma SightingsPrefix(objects: seq<ObservedObject>, known: seq<bool>)
    requires |known| == |objects| > 0
    ensures var n := |objects| - 1;
            && Sightings(objects, known)[..n] == Sightings(objects[..n], known[..n])
            && Sightings(objects, known)[n] == Sighting(objects[n].storageKey, known[n])
  {
  }

  lemma {:induction false} UnknownByVerdict(objects: seq<ObservedObject>, known: seq<bool>)
    requires |known| == |objects|
    ensures UnknownIn(Sightings(objects, known)) == UnownedCount(known)
    decreases |objects|
  {
    if objects != [] {
      SightingsPrefix(objects, known);
      UnknownByVerdict(objects[..|objects| - 1], known[..|objects| - 1]);
    }
  }

  predicate IsLastOf(objects: seq<ObservedObject>, k: Key, i: nat) {
    i < |objects| && objects[i].storageKey == k && forall j :: i < j < |objects| ==> objects[j].storageKey != k
  }

  /** What the page's objects leave of the evidence for one key. */
  predicate EvidenceAfter(
    before: map<Key, Evidence>, after: map<Key, Evidence>, objects: seq<ObservedObject>, known: seq<bool>, generation: nat, k: Key)
    requires |known| == |objects|
  {
    var n := UnownedIn(objects, known, k);
    && (k in after <==> k in before || n > 0)
    && (k in after ==>
          && after[k].count == (if k in before then before[k].count else 0) + n
          && after[k].firstSeen == (if k in before then before[k].firstSeen else generation)
          && (n > 0 ==> after[k].lastSeen == generation))
    && (forall i: nat :: i < |objects| && IsLastOf(objects, k, i) ==> (IsObserved(after, k) <==> !known[i]))
    && (n == 0 && k in before && (exists i :: 0 <= i < |objects| && objects[i].storageKey == k) ==>
          k in after && after[k] == if before[k].observed then before[k].(observed := false, lastSeen := generation) else before[k])
    && ((forall i :: 0 <= i < |objects| ==> objects[i].storageKey != k) ==>
          (k in before <==> k in after) && (k in before ==> after[k] == before[k]))
  }

  lemma {:induction false} SightedEvidence(
    quarantine: map<Key, Evidence>, objects: seq<ObservedObject>, known: seq<bool>, generation: nat, k: Key)
    requires |known| == |objects|
    ensures EvidenceAfter(quarantine, SightAll(quarantine, Sightings(objects, known), generation), objects, known, generation, k)
    decreases |objects|
  {
    if objects != [] {
      var n := |objects| - 1;
      SightingsPrefix(objects, known);
      SightedEvidence(quarantine, objects[..n], known[..n], generation, k);
      var between := SightAll(quarantine, Sightings(objects[..n], known[..n]), generation);
      OneSighting(quarantine, between, objects, known, generation, k);
    }
  }

  lemma OneSighting(
    before: map<Key, Evidence>, between: map<Key, Evidence>, objects: seq<ObservedObject>, known: seq<bool>, generation: nat, k: Key)
    requires |known| == |objects| > 0
    requires EvidenceAfter(before, between, objects[..|objects| - 1], known[..|objects| - 1], generation, k)
    ensures EvidenceAfter(before, Sight(between, Sighting(objects[|objects| - 1].storageKey, known[|objects| - 1]), generation),
                          objects, known, generation, k)
  {
    var n := |objects| - 1;
    assert forall i :: 0 <= i < n ==> objects[..n][i] == objects[i] && known[..n][i] == known[i];
  }

  /** A complete generation ends all evidence that it has not sighted, and changes nothing else of it. */
  predicate EndsOldEvidence(sighted: map<Key, Evidence>, after: map<Key, Evidence>, generation: nat, k: Key) {
    && (k in after <==> k in sighted)
    && (k in after ==>
          && after[k].firstSeen == sighted[k].firstSeen && after[k].lastSeen == sighted[k].lastSeen
          && after[k].count == sighted[k].count
          && (after[k].observed <==> sighted[k].observed && sighted[k].lastSeen >= generation))
  }

  /** A page under the fence counts its objects and those without an owner, moves the cursor, and leaves this evidence. */
  lemma FencedPageLeaves(s: System, w: nat, known: seq<bool>, now: nat, k: Key)
    requires WorkerAt(s, w).Listed? && |known| == |WorkerAt(s, w).page.objects|
    requires s.db.row.state == Scanning && s.db.row.generation == WorkerAt(s, w).generation
    requires s.db.row.cursor == WorkerAt(s, w).expected
    ensures var p, row, after := WorkerAt(s, w), s.db.row, Execute(s, CommitStep(w, known, now)).db;
            && after.row.scanned == row.scanned + |p.page.objects| && after.row.unknown == row.unknown + UnownedCount(known)
            && after.row.generation == row.generation && after.row.attempts == 0 && after.row.cursor == p.page.nextCursor
            && (if p.page.nextCursor.Some? then
                  && after.row.state == Scanning && after.row.nextScanAt == Some(now)
                  && EvidenceAfter(s.db.quarantine, after.quarantine, p.page.objects, known, p.generation, k)
                else
                  && after.row.state == Complete && after.row.nextScanAt == Some(now + 86_400)
                  && exists sighted ::
                       && EvidenceAfter(s.db.quarantine, sighted, p.page.objects, known, p.generation, k)
                       && EndsOldEvidence(sighted, after.quarantine, p.generation, k))
  {
    hide SightAll, EvidenceAfter;
    var p := WorkerAt(s, w);
    UnknownByVerdict(p.page.objects, known);
    SightedEvidence(s.db.quarantine, p.page.objects, known, p.generation, k);
    var sighted := SightAll(s.db.quarantine, Sightings(p.page.objects, known), p.generation);
    var after := Execute(s, CommitStep(w, known, now)).db;
    if p.page.nextCursor.None? {
      assert after.quarantine == ResolveStale(sighted, p.generation);
      assert EndsOldEvidence(sighted, after.quarantine, p.generation, k);
    }
  }
}
