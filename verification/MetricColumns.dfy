/** The metric rows column by column: integer sums of what the sampled transfers measured. */
module MetricColumns {
  import opened Options
  import opened TransferMetrics

  datatype Column =
    | Transfers | Bytes | Provider | Total | Retries | PhaseTransfers | Plan | Queue | PhaseProvider | PostProvider
    | Speed(bucket: nat)

  function ColumnOf(w: Totals, c: Column): nat {
    match c
    case Transfers => w.transfers
    case Bytes => w.bytes
    case Provider => w.provider
    case Total => w.total
    case Retries => w.retries
    case PhaseTransfers => w.phaseTransfers
    case Plan => w.plan
    case Queue => w.queue
    case PhaseProvider => w.phaseProvider
    case PostProvider => w.postProvider
    case Speed(bucket) => if bucket < |w.speed| then w.speed[bucket] else 0
  }

  // ---------------------------------------------------------------- what one transfer measured

  /** Version 1 has no phases; version 2 has all three, and with the provider's time they fit into the total. */
  predicate IsSound(t: Telemetry) {
    && 0 < t.providerMs <= t.totalMs <= 604_800_000 && t.retries <= 1_000_000
    && ((t.schema == "skydriver.transfer-telemetry.v1" && t.planMs.None? && t.queueMs.None? && t.postProviderMs.None?)
        || (t.schema == "skydriver.transfer-telemetry.v2" && t.planMs.Some? && t.queueMs.Some? && t.postProviderMs.Some?
            && t.planMs.value + t.queueMs.value + t.providerMs + t.postProviderMs.value <= t.totalMs))
  }

  /** The checked additions of the phases refuse exactly what does not fit. */
  lemma ValidExactly(t: Telemetry)
    ensures IsValid(t) <==> IsSound(t)
  {
    assert V1 != V2 by { assert V1[|V1| - 1] != V2[|V2| - 1]; }
  }

  /** Large transfers stand for themselves; of the small ones those that end in digit zero or ten stand for ten. */
  predicate StandsFor(id: Identity, weight: nat) {
    if id.encodedBytes >= 67_108_864 then weight == 1
    else if id.operation != "" && id.operation[|id.operation| - 1] in "0aA" then weight == 10
    else weight == 0
  }

  lemma WeightExactly(id: Identity)
    ensures StandsFor(id, SampleWeight(id.operation, id.encodedBytes))
  {
  }

  const DIGITS := "0123456789abcdef"

  /** The weights of the operations that end in each of the first `n` digits. */
  function WeightsOf(prefix: string, bytes: U64, n: nat): nat
    requires n <= |DIGITS|
  {
    if n == 0 then 0 else WeightsOf(prefix, bytes, n - 1) + SampleWeight(prefix + [DIGITS[n - 1]], bytes)
  }

  lemma {:induction false} WeightsSoFar(prefix: string, bytes: U64, n: nat)
    requires n <= |DIGITS| && bytes < LARGE_TRANSFER_BYTES
    ensures WeightsOf(prefix, bytes, n) == if n == 0 then 0 else if n <= 10 then 10 else 20
  {
    if n > 0 {
      WeightsSoFar(prefix, bytes, n - 1);
      var operation := prefix + [DIGITS[n - 1]];
      assert operation[|operation| - 1] == DIGITS[n - 1];
      assert HexDigit(DIGITS[n - 1]) == Some(n - 1);
    }
  }

  lemma {:induction false} LargeWeights(prefix: string, bytes: U64, n: nat)
    requires n <= |DIGITS| && bytes >= LARGE_TRANSFER_BYTES
    ensures WeightsOf(prefix, bytes, n) == n
  {
    if n > 0 { LargeWeights(prefix, bytes, n - 1); }
  }

  /**
   Weights stand for all transfers only if sixteen operations, one for each last digit, weigh sixteen. Large ones do;
   of small ones two are kept at weight ten, so that small transfers are overstated by a quarter.
   */
  lemma SmallTransfersAreOverstated(prefix: string, bytes: U64)
    ensures WeightsOf(prefix, bytes, 16) == if bytes >= 67_108_864 then 16 else 20
  {
    if bytes < LARGE_TRANSFER_BYTES { WeightsSoFar(prefix, bytes, 16); } else { LargeWeights(prefix, bytes, 16); }
  }

  /** A transfer counts when it is sampled, measured soundly and in a known direction, and its weighted bytes fit. */
  predicate Counts(id: Identity, telemetry: Option<Telemetry>, weight: nat) {
    && telemetry.Some? && IsSound(telemetry.value) && weight > 0 && StandsFor(id, weight)
    && (id.key.direction == "upload" || id.key.direction == "download") && id.encodedBytes * weight <= 0x7FFF_FFFF_FFFF_FFFF
  }

  lemma AcceptedExactly(id: Identity, telemetry: Option<Telemetry>)
    ensures Accepted(id, telemetry).Some? <==> Counts(id, telemetry, SampleWeight(id.operation, id.encodedBytes))
  {
    WeightExactly(id);
    if telemetry.Some? {
      ValidExactly(telemetry.value);
      hide IsValid, IsSound, WeightedObservation, SampleWeight;
      if IsValid(telemetry.value) && SampleWeight(id.operation, id.encodedBytes) > 0 {
        ObservationIsExact(id, telemetry.value);
      }
    }
  }

  /** Bytes per second in units of 128 KiB, with the product held at the largest 64-bit number. */
  function UnitsOf(bytes: nat, milliseconds: nat): nat {
    (if bytes * 1_000 <= U64_MAX then bytes * 1_000 else U64_MAX) / (if milliseconds > 1 then milliseconds else 1) / 131_072
  }

  predicate IsSpeed(units: nat, bucket: nat) {
    || (bucket == 0 && units == 0)
    || (1 <= bucket <= 10 && Power2(bucket - 1) <= units < Power2(bucket))
    || (bucket == 11 && 1_024 <= units)
  }

  /** A download of version 2 shows its phases. */
  predicate HasPhases(id: Identity, t: Telemetry) {
    && id.key.direction == "download" && t.schema == "skydriver.transfer-telemetry.v2"
    && t.planMs.Some? && t.queueMs.Some? && t.postProviderMs.Some?
  }

  function Measured(id: Identity, t: Telemetry, c: Column): nat {
    match c
    case Transfers => 1
    case Bytes => id.encodedBytes
    case Provider => t.providerMs
    case Total => t.totalMs
    case Retries => t.retries
    case PhaseTransfers => if HasPhases(id, t) then 1 else 0
    case Plan => if HasPhases(id, t) then t.planMs.value else 0
    case Queue => if HasPhases(id, t) then t.queueMs.value else 0
    case PhaseProvider => if HasPhases(id, t) then t.providerMs else 0
    case PostProvider => if HasPhases(id, t) then t.postProviderMs.value else 0
    case Speed(bucket) => if IsSpeed(UnitsOf(id.encodedBytes, t.providerMs), bucket) then 1 else 0
  }

  lemma SpeedExactly(bytes: U64, milliseconds: U64, bucket: nat)
    ensures SpeedBucket(bytes, milliseconds) == bucket <==> IsSpeed(UnitsOf(bytes, milliseconds), bucket)
  {
    var units := SpeedUnits(bytes, milliseconds);
    assert units == UnitsOf(bytes, milliseconds);
    BucketMeaning(units);
    assert Power2(10) == 1_024 by { assert Power2(5) == 32; assert Power2(8) == 256; }
    var b := BucketOf(units);
    hide BucketOf, UnitsOf;
    if b >= 1 && bucket >= 1 {
      if b < bucket <= 11 {
        PowersGrow(b, bucket - 1);
      } else if bucket < b <= 11 {
        PowersGrow(bucket, b - 1);
      }
    }
    if bucket == 0 && b > 0 { PowersGrow(0, b - 1); }
  }

  lemma WorthBySpeed(id: Identity, t: Telemetry, weight: U64, bucket: nat)
    requires WeightedObservation(id, t, weight).Some?
    ensures var w := WeightedObservation(id, t, weight).value;
            ColumnOf(w, Speed(bucket)) == if IsSpeed(UnitsOf(id.encodedBytes, t.providerMs), bucket) then weight else 0
  {
    hide SpeedBucket, IsSpeed, UnitsOf;
    SpeedExactly(id.encodedBytes, t.providerMs, bucket);
    SpeedBelow(id.encodedBytes, t.providerMs);
  }

  lemma SpeedBelow(bytes: U64, milliseconds: U64)
    ensures SpeedBucket(bytes, milliseconds) <= 11
  {
  }

  /** The columns but for the speeds. */
  lemma PlainColumn(id: Identity, t: Telemetry, weight: U64, w: Totals, c: Column)
    requires (weight == 1 || weight == 10) && !c.Speed?
    requires w.transfers == weight && w.bytes == id.encodedBytes * weight && w.provider == t.providerMs * weight
    requires w.total == t.totalMs * weight && w.retries == t.retries * weight
    requires w.phaseTransfers == (if HasPhases(id, t) then weight else 0)
    requires w.plan == (if HasPhases(id, t) then t.planMs.value * weight else 0)
    requires w.queue == (if HasPhases(id, t) then t.queueMs.value * weight else 0)
    requires w.phaseProvider == (if HasPhases(id, t) then t.providerMs * weight else 0)
    requires w.postProvider == (if HasPhases(id, t) then t.postProviderMs.value * weight else 0)
    ensures ColumnOf(w, c) == Measured(id, t, c) * weight
  {
    hide HasPhases;
  }

  /** What an accepted request adds to a column is its measure times its weight. */
  lemma WorthByColumn(r: Request, c: Column)
    requires Accepted(r.id, r.telemetry).Some?
    ensures r.telemetry.Some?
    ensures ColumnOf(Worth(r), c) == Measured(r.id, r.telemetry.value, c) * SampleWeight(r.id.operation, r.id.encodedBytes)
  {
    hide IsSpeed, UnitsOf, IsValid, ColumnOf, WeightedObservation, TotalsOk, Measured;
    var t, weight := r.telemetry.value, SampleWeight(r.id.operation, r.id.encodedBytes);
    WeightIsOneOrTen(r);
    ObservationIsExact(r.id, t);
    hide SampleWeight;
    if c.Speed? {
      WorthBySpeed(r.id, t, weight, c.bucket);
      SpeedMeasured(r.id, t, c.bucket);
    } else {
      WorthOfPhases(r.id, t, weight);
      PlainColumn(r.id, t, weight, Worth(r), c);
    }
  }

  lemma SpeedMeasured(id: Identity, t: Telemetry, bucket: nat)
    ensures Measured(id, t, Speed(bucket)) == if IsSpeed(UnitsOf(id.encodedBytes, t.providerMs), bucket) then 1 else 0
  {
  }

  lemma WorthOfPhases(id: Identity, t: Telemetry, weight: U64)
    requires IsValid(t) && (weight == 1 || weight == 10) && WeightedObservation(id, t, weight).Some?
    ensures var w := WeightedObservation(id, t, weight).value;
            && w.phaseTransfers == (if HasPhases(id, t) then weight else 0)
            && w.plan == (if HasPhases(id, t) then t.planMs.value * weight else 0)
            && w.queue == (if HasPhases(id, t) then t.queueMs.value * weight else 0)
            && w.phaseProvider == (if HasPhases(id, t) then t.providerMs * weight else 0)
            && w.postProvider == (if HasPhases(id, t) then t.postProviderMs.value * weight else 0)
  {
    hide SpeedBucket, FitsI64;
  }

  // ---------------------------------------------------------------- the rows as sums

  lemma AddByColumn(a: Totals, b: Totals, c: Column)
    requires |a.speed| == |b.speed| == 12
    ensures ColumnOf(Add(a, b), c) == ColumnOf(a, c) + ColumnOf(b, c)
  {
  }

  /** The moment lies in the period that begins at `bucket`. */
  predicate Falls(now: nat, bucket: nat, seconds: nat)
    requires seconds > 0
  {
    bucket % seconds == 0 && bucket <= now < bucket + seconds
  }

  lemma FallsExactly(now: nat, bucket: nat, seconds: nat)
    requires seconds == HOUR || seconds == DAY
    ensures Period(now, seconds) == bucket <==> Falls(now, bucket, seconds)
  {
    if Falls(now, bucket, seconds) {
      assert now / seconds == bucket / seconds;
    }
  }

  /** The weighted measures of the requests of one key and period, added up as integers. */
  function ColumnSum(counted: seq<Request>, seconds: nat, bucket: nat, key: Key, c: Column): nat
    requires seconds > 0
    decreases |counted|
  {
    if counted == [] then 0
    else
      var last := counted[|counted| - 1];
      ColumnSum(counted[..|counted| - 1], seconds, bucket, key, c)
      + if last.id.key == key && Falls(last.now, bucket, seconds) && last.telemetry.Some?
        then Measured(last.id, last.telemetry.value, c) * (if last.id.encodedBytes >= 67_108_864 then 1 else 10) else 0
  }

  predicate AllAccepted(counted: seq<Request>) {
    forall i :: 0 <= i < |counted| ==> Accepted(counted[i].id, counted[i].telemetry).Some?
  }

  lemma {:induction false} LogByColumn(counted: seq<Request>, seconds: nat, bucket: nat, key: Key, c: Column)
    requires (seconds == HOUR || seconds == DAY) && AllAccepted(counted)
    ensures |SumOfLog(counted, seconds, bucket, key).speed| == 12
    ensures ColumnOf(SumOfLog(counted, seconds, bucket, key), c) == ColumnSum(counted, seconds, bucket, key, c)
    decreases |counted|
  {
    hide Accepted, Measured, Worth, Add, Period, Falls;
    if counted != [] {
      var n := |counted| - 1;
      var last := counted[n];
      LogByColumn(counted[..n], seconds, bucket, key, c);
      FallsExactly(last.now, bucket, seconds);
      assert Accepted(last.id, last.telemetry).Some?;
      WorthByColumn(last, c);
      WorthHasSpeeds(last);
      WeightIsOneOrTen(last);
      AddHasSpeeds(SumOfLog(counted[..n], seconds, bucket, key), Worth(last));
      AddByColumn(SumOfLog(counted[..n], seconds, bucket, key), Worth(last), c);
    }
  }

  lemma WorthHasSpeeds(r: Request)
    ensures |Worth(r).speed| == 12
  {
  }

  lemma AddHasSpeeds(a: Totals, b: Totals)
    ensures |Add(a, b).speed| == |a.speed|
  {
  }

  lemma WeightIsOneOrTen(r: Request)
    requires Accepted(r.id, r.telemetry).Some?
    ensures SampleWeight(r.id.operation, r.id.encodedBytes) == if r.id.encodedBytes >= 67_108_864 then 1 else 10
  {
  }

  lemma {:induction false} CountedAreAccepted(steps: seq<Step>)
    ensures AllAccepted(Run(steps).counted)
    ensures forall w :: WorkerAt(Run(steps), w).Counting? ==>
              Accepted(WorkerAt(Run(steps), w).request.id, WorkerAt(Run(steps), w).request.telemetry).Some?
    decreases |steps|
  {
    hide Accepted, Rolled, RollCommits;
    if steps != [] {
      CountedAreAccepted(steps[..|steps| - 1]);
      var s, step := Run(steps[..|steps| - 1]), steps[|steps| - 1];
      var t := Execute(s, step);
      assert WorkerAt(s, step.w).Counting? ==>
               Accepted(WorkerAt(s, step.w).request.id, WorkerAt(s, step.w).request.telemetry).Some?;
      forall w | WorkerAt(t, w).Counting?
        ensures Accepted(WorkerAt(t, w).request.id, WorkerAt(t, w).request.telemetry).Some?
      {
        assert w == step.w || WorkerAt(t, w) == WorkerAt(s, w);
      }
    }
  }

  /** In every run each column of each row is the integer sum of the weighted measures of the counted requests. */
  lemma ColumnsAreSums(steps: seq<Step>, bucket: nat, key: Key, c: Column)
    ensures var s := Run(steps);
            && ColumnOf(RowAt(s.db.hourly, bucket, key), c) == ColumnSum(s.counted, 3_600, bucket, key, c)
            && ColumnOf(RowAt(s.db.daily, bucket, key), c) == ColumnSum(s.counted, 86_400, bucket, key, c)
  {
    hide Run, ColumnOf, ColumnSum, SumOfLog, RowAt;
    CountedOnce(steps, bucket, key);
    CountedAreAccepted(steps);
    LogByColumn(Run(steps).counted, HOUR, bucket, key, c);
    LogByColumn(Run(steps).counted, DAY, bucket, key, c);
  }

  function HourSum(hourly: Rollup, day: nat, key: Key, n: nat, c: Column): nat {
    if n == 0 then 0 else HourSum(hourly, day, key, n - 1, c) + ColumnOf(RowAt(hourly, day + 3_600 * (n - 1), key), c)
  }

  lemma {:induction false} HoursByColumn(hourly: Rollup, day: nat, key: Key, n: nat, c: Column)
    requires forall b, k {:trigger RowOk(hourly, b, k)} :: RowOk(hourly, b, k)
    ensures ColumnOf(HoursOf(hourly, day, key, n), c) == HourSum(hourly, day, key, n, c)
  {
    hide Add, TotalsOk, RowAt;
    HoursAreRows(hourly, day, key, n);
    if n > 0 {
      HoursByColumn(hourly, day, key, n - 1, c);
      HoursAreRows(hourly, day, key, n - 1);
      assert RowOk(hourly, day + HOUR * (n - 1), key);
      SpeedOf(RowAt(hourly, day + HOUR * (n - 1), key));
      AddByColumn(HoursOf(hourly, day, key, n - 1), RowAt(hourly, day + HOUR * (n - 1), key), c);
    }
  }

  /** Every column of a day's row is the sum of that column over the day's 24 hours. */
  lemma DaysAddUp(steps: seq<Step>, day: nat, key: Key, c: Column)
    ensures var db := Run(steps).db;
            ColumnOf(RowAt(db.daily, day * 86_400, key), c) == HourSum(db.hourly, day * 86_400, key, 24, c)
  {
    hide Run, ColumnOf, RowAt, TotalsOk, HoursOf, HourSum;
    DaysAreSums(steps, day, key);
    RunKeeps(steps);
    HoursByColumn(Run(steps).db.hourly, day * DAY, key, 24, c);
  }

  // ---------------------------------------------------------------- which requests are counted

  /** With this request no column of the row leaves the signed range. */
  ghost predicate RowFits(row: Totals, r: Request)
    requires r.telemetry.Some?
  {
    forall c :: ColumnOf(row, c) + Measured(r.id, r.telemetry.value, c) * (if r.id.encodedBytes >= 67_108_864 then 1 else 10)
                <= 0x7FFF_FFFF_FFFF_FFFF
  }

  lemma FitsByColumn(w: Totals)
    requires |w.speed| == 12
    ensures FitsI64(w) && (forall i :: 0 <= i < |w.speed| ==> w.speed[i] <= I64_MAX) <==>
              forall c :: ColumnOf(w, c) <= I64_MAX
  {
    if forall c :: ColumnOf(w, c) <= I64_MAX {
      assert ColumnOf(w, Transfers) <= I64_MAX && ColumnOf(w, Bytes) <= I64_MAX && ColumnOf(w, Provider) <= I64_MAX;
      assert ColumnOf(w, Total) <= I64_MAX && ColumnOf(w, Retries) <= I64_MAX && ColumnOf(w, PhaseTransfers) <= I64_MAX;
      assert ColumnOf(w, Plan) <= I64_MAX && ColumnOf(w, Queue) <= I64_MAX;
      assert ColumnOf(w, PhaseProvider) <= I64_MAX && ColumnOf(w, PostProvider) <= I64_MAX;
      forall i | 0 <= i < |w.speed| ensures w.speed[i] <= I64_MAX { assert ColumnOf(w, Speed(i)) <= I64_MAX; }
    }
  }

  lemma RowFitsExactly(row: Totals, r: Request)
    requires Accepted(r.id, r.telemetry).Some? && r.telemetry.Some? && |row.speed| == 12
    ensures (forall c :: ColumnOf(Add(row, Worth(r)), c) <= I64_MAX) <==> RowFits(row, r)
  {
    hide Add, ColumnOf, Measured, Accepted, Worth;
    WorthHasSpeeds(r);
    WeightIsOneOrTen(r);
    forall c
      ensures ColumnOf(Add(row, Worth(r)), c)
              == ColumnOf(row, c) + Measured(r.id, r.telemetry.value, c) * (if r.id.encodedBytes >= 67_108_864 then 1 else 10)
    {
      AddByColumn(row, Worth(r), c);
      WorthByColumn(r, c);
    }
  }

  lemma AllowedExactly(rollup: Rollup, bucket: nat, r: Request)
    requires Accepted(r.id, r.telemetry).Some? && r.telemetry.Some? && |RowAt(rollup, bucket, r.id.key).speed| == 12
    ensures RowAllowed(Upsert(rollup, bucket, r.id.key, Worth(r)), bucket, r.id.key) <==>
              bucket > 0 && RowFits(RowAt(rollup, bucket, r.id.key), r)
  {
    hide Accepted, Add, FitsI64, ColumnOf, RowFits, Worth, Upsert;
    var row := RowAt(rollup, bucket, r.id.key);
    WorthHasSpeeds(r);
    RowAfterUpsert(rollup, bucket, r.id.key, bucket, r.id.key, Worth(r));
    AddHasSpeeds(row, Worth(r));
    FitsByColumn(Add(row, Worth(r)));
    RowFitsExactly(row, r);
  }

  /**
   An undisturbed worker counts a request that is not recorded yet, exactly when it counts for something, comes
   after the epoch's first day, and keeps the columns of its two rows in range. Recorded it is either way.
   */
  lemma CountedExactly(steps: seq<Step>, w: nat, r: Request)
    requires WorkerAt(Run(steps), w).Idle? && r.id.operation !in Run(steps).db.receipts
    requires Counts(r.id, r.telemetry, if r.id.encodedBytes >= 67_108_864 then 1 else 10)
    ensures var s := Run(steps);
            var t := Execute(Execute(s, ReceiptStep(w, r.id, r.telemetry, r.now)), RollStep(w));
            && r.id.operation in t.db.receipts && WorkerAt(t, w).Idle?
            && t.counted == if && r.now >= 86_400
                               && RowFits(RowAt(s.db.hourly, r.now - r.now % 3_600, r.id.key), r)
                               && RowFits(RowAt(s.db.daily, r.now - r.now % 86_400, r.id.key), r)
                            then s.counted + [r] else s.counted
  {
    hide Run, Accepted, Worth, RowAllowed, RowFits, Upsert, RowAt;
    var s := Run(steps);
    WeightExactly(r.id);
    AcceptedExactly(r.id, r.telemetry);
    RunKeeps(steps);
    var hour, day := Period(r.now, HOUR), Period(r.now, DAY);
    assert RowOk(s.db.hourly, hour, r.id.key) && RowOk(s.db.daily, day, r.id.key);
    SpeedOf(RowAt(s.db.hourly, hour, r.id.key));
    SpeedOf(RowAt(s.db.daily, day, r.id.key));
    AllowedExactly(s.db.hourly, hour, r);
    AllowedExactly(s.db.daily, day, r);
    assert day > 0 <==> r.now >= 86_400;
    assert day > 0 ==> hour > 0;
    var s1 := Execute(s, ReceiptStep(w, r.id, r.telemetry, r.now));
    assert s1.db.hourly == s.db.hourly && s1.db.daily == s.db.daily && WorkerAt(s1, w) == Counting(r);
  }

  /** A request that counts for nothing, or whose operation is recorded, changes nothing. */
  lemma OthersAreIgnored(s: System, w: nat, r: Request)
    requires r.id.operation in s.db.receipts
             || !Counts(r.id, r.telemetry, if r.id.encodedBytes >= 67_108_864 then 1 else 10)
    ensures Execute(s, ReceiptStep(w, r.id, r.telemetry, r.now)) == s
  {
    hide Accepted;
    AcceptedExactly(r.id, r.telemetry);
    if Accepted(r.id, r.telemetry).Some? { WeightIsOneOrTen(r); }
  }

  /** Recording in one go is the receipt and then the batch. */
  lemma RecordingIsTwoSteps(s: System, w: nat, r: Request)
    requires WorkerAt(s, w).Idle? && Accepted(r.id, r.telemetry).Some? && r.id.operation !in s.db.receipts
    ensures Execute(Execute(s, ReceiptStep(w, r.id, r.telemetry, r.now)), RollStep(w)).db
            == RollUp(s.db.(receipts := s.db.receipts + {r.id.operation}), r.id.key, Accepted(r.id, r.telemetry).value, r.now)
  {
    hide Accepted, Rolled, RollCommits;
  }
}
