/**
 Sampled transfer metrics: one receipt per operation, then one batch that adds a weighted observation to
 an hourly and a daily row. Workers may stop between the receipt and the batch.
 */
module TransferMetrics {
  import opened Options

  const LARGE_TRANSFER_BYTES := 64 * 1024 * 1024
  const SAMPLE_MODULUS := 10
  const MAXIMUM_DURATION_MS := 7 * 24 * 60 * 60 * 1_000
  const MAXIMUM_RETRIES := 1_000_000
  const U64_MAX := 0xFFFF_FFFF_FFFF_FFFF
  const I64_MAX := 0x7FFF_FFFF_FFFF_FFFF
  const HOUR := 3_600
  const DAY := 86_400

  type U64 = n: nat | n <= U64_MAX

  datatype Telemetry = Telemetry(
    schema: string, providerMs: U64, totalMs: U64, retries: U64,
    planMs: Option<U64>, queueMs: Option<U64>, postProviderMs: Option<U64>)

  datatype Key = Key(driver: nat, token: nat, directory: nat, direction: string)
  datatype Identity = Identity(operation: string, key: Key, encodedBytes: U64)

  datatype Phases = Phases(plan: U64, queue: U64, postProvider: U64)

  // ---------------------------------------------------------------- what is accepted, and with what weight

  function CheckedAdd(a: U64, b: U64): Option<U64> {
    if a + b <= U64_MAX then Some(a + b) else None
  }

  function CheckedMul(a: U64, b: U64): Option<U64> {
    if a * b <= U64_MAX then Some(a * b) else None
  }

  function SaturatingMul(a: U64, b: U64): U64 {
    if a * b <= U64_MAX then a * b else U64_MAX
  }

  function PhasesOf(t: Telemetry): Option<Phases> {
    if t.planMs.Some? && t.queueMs.Some? && t.postProviderMs.Some?
    then Some(Phases(t.planMs.value, t.queueMs.value, t.postProviderMs.value)) else None
  }

  /** The checked sum of the phases and the provider time. */
  function PhaseSum(p: Phases, providerMs: U64): Option<U64> {
    var first := CheckedAdd(p.plan, p.queue);
    var second := if first.Some? then CheckedAdd(first.value, providerMs) else None;
    if second.Some? then CheckedAdd(second.value, p.postProvider) else None
  }

  const V1 := "skydriver.transfer-telemetry.v1"
  const V2 := "skydriver.transfer-telemetry.v2"

  predicate IsValid(t: Telemetry) {
    && (t.schema == V1 || t.schema == V2)
    && 0 < t.providerMs <= t.totalMs <= MAXIMUM_DURATION_MS && t.retries <= MAXIMUM_RETRIES
    && (if t.schema == V1 then t.planMs.None? && t.queueMs.None? && t.postProviderMs.None?
        else
          PhasesOf(t).Some? &&
          var sum := PhaseSum(PhasesOf(t).value, t.providerMs);
          sum.Some? && sum.value <= t.totalMs)
  }

  /** `to_digit(16)` of the last character. */
  function HexDigit(c: char): Option<nat> {
    if '0' <= c <= '9' then Some(c as int - '0' as int)
    else if 'a' <= c <= 'f' then Some(c as int - 'a' as int + 10)
    else if 'A' <= c <= 'F' then Some(c as int - 'A' as int + 10)
    else None
  }

  function SampleWeight(operation: string, bytes: U64): U64 {
    if bytes >= LARGE_TRANSFER_BYTES then 1
    else if operation != "" && HexDigit(operation[|operation| - 1]).Some?
            && HexDigit(operation[|operation| - 1]).value % SAMPLE_MODULUS == 0 then SAMPLE_MODULUS
    else 0
  }

  /** The integer logarithm to base two. */
  function Log2(n: nat): nat
    requires n > 0
  {
    if n == 1 then 0 else 1 + Log2(n / 2)
  }

  /** Speed in units of 128 KiB per second. */
  function SpeedUnits(bytes: U64, milliseconds: U64): nat {
    SaturatingMul(bytes, 1_000) / (if milliseconds > 1 then milliseconds else 1) / (128 * 1024)
  }

  function BucketOf(units: nat): nat {
    if units == 0 then 0 else if Log2(units) + 1 < 11 then Log2(units) + 1 else 11
  }

  function SpeedBucket(bytes: U64, milliseconds: U64): nat {
    BucketOf(SpeedUnits(bytes, milliseconds))
  }

  function Power2(n: nat): nat {
    if n == 0 then 1 else 2 * Power2(n - 1)
  }

  lemma {:induction false} Log2Brackets(n: nat)
    requires n > 0
    ensures Power2(Log2(n)) <= n < 2 * Power2(Log2(n))
  {
    if n > 1 { Log2Brackets(n / 2); }
  }

  /** Bucket zero is below one unit, bucket `b` from 2^(b-1) to 2^b units, and the last one has no end. */
  lemma BucketMeaning(units: nat)
    ensures var b := BucketOf(units);
            && b <= 11
            && (b == 0 <==> units == 0)
            && (1 <= b ==> Power2(b - 1) <= units)
            && (1 <= b <= 10 ==> units < Power2(b))
  {
    if units > 0 {
      Log2Brackets(units);
      var n := Log2(units);
      hide Log2;
      if n >= 10 {
        PowersGrow(10, n);
      } else {
        assert Power2(n + 1) == 2 * Power2(n);
      }
    }
  }

  lemma {:induction false} PowersGrow(a: nat, b: nat)
    requires a <= b
    ensures Power2(a) <= Power2(b)
    decreases b
  {
    if a < b { PowersGrow(a, b - 1); }
  }

  // ---------------------------------------------------------------- the weighted observation

  /** One row of either table, or what one transfer adds to it. */
  datatype Totals = Totals(
    transfers: nat, bytes: nat, provider: nat, total: nat, retries: nat, phaseTransfers: nat,
    plan: nat, queue: nat, phaseProvider: nat, postProvider: nat, speed: seq<nat>)

  function OrZero(product: Option<U64>): U64 {
    if product.Some? then product.value else 0
  }

  function SpeedRow(bucket: nat, weight: nat): seq<nat> {
    seq(12, i => if i == bucket then weight else 0)
  }

  function WeightedObservation(id: Identity, t: Telemetry, weight: U64): Option<Totals> {
    var phases := if id.key.direction == "download" then PhasesOf(t) else None;
    var provider, bytes := CheckedMul(t.providerMs, weight), CheckedMul(id.encodedBytes, weight);
    var total, retries := CheckedMul(t.totalMs, weight), CheckedMul(t.retries, weight);
    if provider.None? || bytes.None? || total.None? || retries.None? then None
    else
      var w := Totals(
        weight, bytes.value, provider.value, total.value, retries.value,
        if phases.Some? then weight else 0,
        if phases.Some? then OrZero(CheckedMul(phases.value.plan, weight)) else 0,
        if phases.Some? then OrZero(CheckedMul(phases.value.queue, weight)) else 0,
        if phases.Some? then provider.value else 0,
        if phases.Some? then OrZero(CheckedMul(phases.value.postProvider, weight)) else 0,
        SpeedRow(SpeedBucket(id.encodedBytes, t.providerMs), weight));
      if FitsI64(w) then Some(w) else None
  }

  predicate FitsI64(w: Totals) {
    && w.transfers <= I64_MAX && w.bytes <= I64_MAX && w.provider <= I64_MAX && w.total <= I64_MAX
    && w.retries <= I64_MAX && w.phaseTransfers <= I64_MAX && w.plan <= I64_MAX && w.queue <= I64_MAX
    && w.phaseProvider <= I64_MAX && w.postProvider <= I64_MAX
  }

  /** A row in order: every transfer in one speed bucket, and no time longer than the total. */
  predicate TotalsOk(w: Totals) {
    && |w.speed| == 12 && SumOf(w.speed) == w.transfers
    && w.provider <= w.total && w.plan + w.queue + w.phaseProvider + w.postProvider <= w.total
    && w.phaseTransfers <= w.transfers
  }

  function SumOf(s: seq<nat>): nat {
    if s == [] then 0 else SumOf(s[..|s| - 1]) + s[|s| - 1]
  }

  lemma {:induction false} SumOfOne(n: nat, bucket: nat, weight: nat, s: seq<nat>)
    requires |s| == n && forall i :: 0 <= i < n ==> s[i] == if i == bucket then weight else 0
    ensures SumOf(s) == if bucket < n then weight else 0
    decreases n
  {
    if n > 0 { SumOfOne(n - 1, bucket, weight, s[..n - 1]); }
  }

  /** Valid telemetry is weighted exactly, unless the weighted bytes leave the signed range. */
  lemma ObservationIsExact(id: Identity, t: Telemetry)
    requires IsValid(t) && SampleWeight(id.operation, id.encodedBytes) > 0
    ensures var weight := SampleWeight(id.operation, id.encodedBytes);
            var w := WeightedObservation(id, t, weight);
            && (w.Some? <==> id.encodedBytes * weight <= I64_MAX)
            && (w.Some? ==>
                  && w.value.transfers == weight && w.value.bytes == id.encodedBytes * weight
                  && w.value.provider == t.providerMs * weight && w.value.total == t.totalMs * weight
                  && w.value.retries == t.retries * weight && TotalsOk(w.value)
                  && (id.key.direction == "download" && t.schema == V2 ==>
                        && w.value.plan == t.planMs.value * weight && w.value.queue == t.queueMs.value * weight
                        && w.value.postProvider == t.postProviderMs.value * weight && w.value.phaseTransfers == weight))
  {
    var weight := SampleWeight(id.operation, id.encodedBytes);
    assert weight == 1 || weight == 10;
    var bucket := SpeedBucket(id.encodedBytes, t.providerMs);
    BucketMeaning(SpeedUnits(id.encodedBytes, t.providerMs));
    SumOfOne(12, bucket, weight, SpeedRow(bucket, weight));
    hide SpeedBucket, SumOf, SampleWeight;
    if weight == 1 { ExactFor(id, t, 1); } else { ExactFor(id, t, 10); }
  }

  lemma ExactFor(id: Identity, t: Telemetry, weight: U64)
    requires IsValid(t) && (weight == 1 || weight == 10)
    requires SumOf(SpeedRow(SpeedBucket(id.encodedBytes, t.providerMs), weight)) == weight
    ensures var w := WeightedObservation(id, t, weight);
            && (w.Some? <==> id.encodedBytes * weight <= I64_MAX)
            && (w.Some? ==>
                  && w.value.transfers == weight && w.value.bytes == id.encodedBytes * weight
                  && w.value.provider == t.providerMs * weight && w.value.total == t.totalMs * weight
                  && w.value.retries == t.retries * weight && TotalsOk(w.value)
                  && (id.key.direction == "download" && t.schema == V2 ==>
                        && w.value.plan == t.planMs.value * weight && w.value.queue == t.queueMs.value * weight
                        && w.value.postProvider == t.postProviderMs.value * weight && w.value.phaseTransfers == weight))
  {
    hide SpeedBucket, SumOf;
  }

  // ---------------------------------------------------------------- adding rows up

  const ZERO := Totals(0, 0, 0, 0, 0, 0, 0, 0, 0, 0, [0, 0, 0, 0, 0, 0, 0, 0, 0, 0, 0, 0])

  function AddSpeed(a: seq<nat>, b: seq<nat>): (r: seq<nat>)
    ensures |r| == |a|
    ensures |a| == |b| ==> forall i :: 0 <= i < |a| ==> r[i] == a[i] + b[i]
  {
    seq(|a|, i requires 0 <= i < |a| => if i < |b| then a[i] + b[i] else a[i])
  }

  function Add(a: Totals, b: Totals): Totals {
    Totals(a.transfers + b.transfers, a.bytes + b.bytes, a.provider + b.provider, a.total + b.total,
           a.retries + b.retries, a.phaseTransfers + b.phaseTransfers, a.plan + b.plan, a.queue + b.queue,
           a.phaseProvider + b.phaseProvider, a.postProvider + b.postProvider, AddSpeed(a.speed, b.speed))
  }

  lemma {:induction false} SumOfAdded(a: seq<nat>, b: seq<nat>)
    requires |a| == |b|
    ensures SumOf(AddSpeed(a, b)) == SumOf(a) + SumOf(b)
    decreases |a|
  {
    if a != [] {
      var n := |a| - 1;
      SumOfAdded(a[..n], b[..n]);
      assert AddSpeed(a, b)[..n] == AddSpeed(a[..n], b[..n]);
    }
  }

  lemma AddOk(a: Totals, b: Totals)
    requires TotalsOk(a) && TotalsOk(b)
    ensures TotalsOk(Add(a, b))
  {
    SumOfAdded(a.speed, b.speed);
  }

  /** Adding on the left or to the far right of a sum is the same. */
  lemma AddRegroups(a: Totals, b: Totals, c: Totals)
    requires |a.speed| == |b.speed| == |c.speed|
    ensures Add(Add(a, b), c) == Add(Add(a, c), b) && Add(a, Add(b, c)) == Add(Add(a, b), c)
  {
    assert AddSpeed(AddSpeed(a.speed, b.speed), c.speed) == AddSpeed(AddSpeed(a.speed, c.speed), b.speed);
    assert AddSpeed(a.speed, AddSpeed(b.speed, c.speed)) == AddSpeed(AddSpeed(a.speed, b.speed), c.speed);
  }

  lemma AddZero(a: Totals)
    requires |a.speed| == 12
    ensures Add(ZERO, a) == a
  {
    assert AddSpeed(ZERO.speed, a.speed) == a.speed;
  }

  type Rollup = map<(nat, Key), Totals>

  function RowAt(rollup: Rollup, bucket: nat, key: Key): Totals {
    if (bucket, key) in rollup then rollup[(bucket, key)] else ZERO
  }

  /** The upsert: insert, or add to every column. */
  function Upsert(rollup: Rollup, bucket: nat, key: Key, w: Totals): Rollup {
    rollup[(bucket, key) := if (bucket, key) in rollup then Add(rollup[(bucket, key)], w) else w]
  }

  function Period(now: nat, seconds: nat): nat
    requires seconds > 0
  {
    now - now % seconds
  }

  /** The strict columns: a bucket after the epoch, and sums in the signed range. */
  predicate RowAllowed(rollup: Rollup, bucket: nat, key: Key) {
    bucket > 0 && FitsI64(RowAt(rollup, bucket, key)) && forall i :: 0 <= i < |RowAt(rollup, bucket, key).speed| ==>
      RowAt(rollup, bucket, key).speed[i] <= I64_MAX
  }

  datatype Tables = Tables(receipts: set<string>, hourly: Rollup, daily: Rollup)

  function Rolled(db: Tables, key: Key, w: Totals, now: nat): Tables {
    db.(hourly := Upsert(db.hourly, Period(now, HOUR), key, w), daily := Upsert(db.daily, Period(now, DAY), key, w))
  }

  predicate RollCommits(db: Tables, key: Key, w: Totals, now: nat) {
    var after := Rolled(db, key, w, now);
    RowAllowed(after.hourly, Period(now, HOUR), key) && RowAllowed(after.daily, Period(now, DAY), key)
  }

  /** The batch over both tables, all or nothing. */
  function RollUp(db: Tables, key: Key, w: Totals, now: nat): Tables {
    if RollCommits(db, key, w, now) then Rolled(db, key, w, now) else db
  }

  class MetricsDatabase {
    var receipts: set<string>
    var hourly: Rollup
    var daily: Rollup

    function View(): Tables
      reads this
    {
      Tables(receipts, hourly, daily)
    }

    constructor ()
      ensures View() == Tables({}, map[], map[])
    {
      receipts, hourly, daily := {}, map[], map[];
    }

    /** `record`, undisturbed: the receipt first, then the loop over the two rollups and their batch. */
    method Record(id: Identity, telemetry: Option<Telemetry>, now: nat)
      modifies this
      ensures var observation := Accepted(id, telemetry);
              View() == if observation.None? || id.operation in old(receipts) then old(View())
                        else RollUp(old(View()).(receipts := old(receipts) + {id.operation}), id.key, observation.value, now)
    {
      if telemetry.None? || !IsValid(telemetry.value) { return; }
      var weight := SampleWeight(id.operation, id.encodedBytes);
      if weight == 0 { return; }
      if id.key.direction != "upload" && id.key.direction != "download" { return; }
      var weighted := WeightedObservation(id, telemetry.value, weight);
      if weighted.None? || id.operation in receipts { return; }
      receipts := receipts + {id.operation};
      var before := (hourly, daily);
      ghost var start := View();
      var allowed := true;
      for table := 0 to 2
        invariant receipts == start.receipts
        invariant hourly == if table == 0 then start.hourly else Upsert(start.hourly, Period(now, HOUR), id.key, weighted.value)
        invariant daily == if table < 2 then start.daily else Upsert(start.daily, Period(now, DAY), id.key, weighted.value)
        invariant allowed <==>
                    && (table >= 1 ==> RowAllowed(Rolled(start, id.key, weighted.value, now).hourly, Period(now, HOUR), id.key))
                    && (table >= 2 ==> RowAllowed(Rolled(start, id.key, weighted.value, now).daily, Period(now, DAY), id.key))
      {
        if table == 0 {
          hourly := Upsert(hourly, Period(now, HOUR), id.key, weighted.value);
          allowed := allowed && RowAllowed(hourly, Period(now, HOUR), id.key);
        } else {
          daily := Upsert(daily, Period(now, DAY), id.key, weighted.value);
          allowed := allowed && RowAllowed(daily, Period(now, DAY), id.key);
        }
      }
      if !allowed { hourly, daily := before.0, before.1; }
    }
  }

  /** The observation that a request is worth, if any. */
  function Accepted(id: Identity, telemetry: Option<Telemetry>): Option<Totals> {
    if telemetry.None? || !IsValid(telemetry.value) || SampleWeight(id.operation, id.encodedBytes) == 0
       || (id.key.direction != "upload" && id.key.direction != "download") then None
    else WeightedObservation(id, telemetry.value, SampleWeight(id.operation, id.encodedBytes))
  }

  // ---------------------------------------------------------------- runs

  datatype Request = Request(id: Identity, telemetry: Option<Telemetry>, now: nat)
  datatype Worker = Idle | Counting(request: Request)

  /** What a request adds to its rows. */
  function Worth(r: Request): Totals {
    if Accepted(r.id, r.telemetry).Some? then Accepted(r.id, r.telemetry).value else ZERO
  }

  /** `counted` remembers the requests that were rolled up; no step looks at it. */
  datatype System = System(db: Tables, workers: map<nat, Worker>, counted: seq<Request>)

  datatype Step =
    | ReceiptStep(w: nat, id: Identity, telemetry: Option<Telemetry>, now: nat)
    | RollStep(w: nat)
    | CrashStep(w: nat)

  function WorkerAt(s: System, w: nat): Worker {
    if w in s.workers then s.workers[w] else Idle
  }

  function Goto(s: System, w: nat, worker: Worker): System {
    s.(workers := s.workers[w := worker])
  }

  function Execute(s: System, step: Step): System {
    match step
    case ReceiptStep(w, id, telemetry, now) =>
      if !WorkerAt(s, w).Idle? || Accepted(id, telemetry).None? || id.operation in s.db.receipts then s
      else Goto(s, w, Counting(Request(id, telemetry, now))).(
             db := s.db.(receipts := s.db.receipts + {id.operation}))
    case RollStep(w) =>
      var p := WorkerAt(s, w);
      if !p.Counting? then s
      else if RollCommits(s.db, p.request.id.key, Worth(p.request), p.request.now) then
        Goto(s, w, Idle).(db := Rolled(s.db, p.request.id.key, Worth(p.request), p.request.now), counted := s.counted + [p.request])
      else Goto(s, w, Idle)
    case CrashStep(w) => Goto(s, w, Idle)
  }

  const INITIAL := System(Tables({}, map[], map[]), map[], [])

  function Run(steps: seq<Step>): System
    decreases |steps|
  {
    if steps == [] then INITIAL else Execute(Run(steps[..|steps| - 1]), steps[|steps| - 1])
  }

  /** The first `n` hours of a day, added up. */
  function HoursOf(hourly: Rollup, day: nat, key: Key, n: nat): Totals {
    if n == 0 then ZERO else Add(HoursOf(hourly, day, key, n - 1), RowAt(hourly, day + HOUR * (n - 1), key))
  }

  predicate DailyOk(db: Tables, day: nat, key: Key) {
    RowAt(db.daily, day * DAY, key) == HoursOf(db.hourly, day * DAY, key, 24)
  }

  predicate RowOk(rollup: Rollup, bucket: nat, key: Key) {
    TotalsOk(RowAt(rollup, bucket, key))
  }

  /** The observations of the logged requests of one key and period, added up. */
  function SumOfLog(log: seq<Request>, seconds: nat, bucket: nat, key: Key): Totals
    requires seconds > 0
    decreases |log|
  {
    if log == [] then ZERO
    else
      var sum, last := SumOfLog(log[..|log| - 1], seconds, bucket, key), log[|log| - 1];
      if last.id.key == key && Period(last.now, seconds) == bucket then Add(sum, Worth(last)) else sum
  }

  predicate Logged(s: System, bucket: nat, key: Key) {
    && RowAt(s.db.hourly, bucket, key) == SumOfLog(s.counted, HOUR, bucket, key)
    && RowAt(s.db.daily, bucket, key) == SumOfLog(s.counted, DAY, bucket, key)
  }

  /** A worker between receipt and batch holds the only claim on its operation. */
  predicate WorkerOk(s: System, w: nat) {
    WorkerAt(s, w).Counting? ==>
      && TotalsOk(Worth(WorkerAt(s, w).request))
      && WorkerAt(s, w).request.id.operation in s.db.receipts
      && forall i :: 0 <= i < |s.counted| ==> s.counted[i].id.operation != WorkerAt(s, w).request.id.operation
  }

  predicate WorkersDiffer(s: System, v: nat, w: nat) {
    v != w && WorkerAt(s, v).Counting? && WorkerAt(s, w).Counting? ==> WorkerAt(s, v).request.id.operation != WorkerAt(s, w).request.id.operation
  }

  ghost predicate Inv(s: System) {
    && (forall b, k {:trigger RowOk(s.db.hourly, b, k)} :: RowOk(s.db.hourly, b, k))
    && (forall b, k {:trigger RowOk(s.db.daily, b, k)} :: RowOk(s.db.daily, b, k))
    && (forall d, k {:trigger DailyOk(s.db, d, k)} :: DailyOk(s.db, d, k))
    && (forall w {:trigger WorkerOk(s, w)} :: WorkerOk(s, w))
    && (forall v, w {:trigger WorkersDiffer(s, v, w)} :: WorkersDiffer(s, v, w))
    && (forall b, k {:trigger Logged(s, b, k)} :: Logged(s, b, k))
    && (forall i :: 0 <= i < |s.counted| ==> s.counted[i].id.operation in s.db.receipts)
    && (forall i, j :: 0 <= i < j < |s.counted| ==> s.counted[i].id.operation != s.counted[j].id.operation)
  }

  lemma AcceptedOk(id: Identity, telemetry: Option<Telemetry>)
    requires Accepted(id, telemetry).Some?
    ensures TotalsOk(Accepted(id, telemetry).value)
  {
    ObservationIsExact(id, telemetry.value);
  }

  lemma {:induction false} HoursAreRows(hourly: Rollup, day: nat, key: Key, n: nat)
    requires forall b, k {:trigger RowOk(hourly, b, k)} :: RowOk(hourly, b, k)
    ensures |HoursOf(hourly, day, key, n).speed| == 12
  {
    if n > 0 {
      HoursAreRows(hourly, day, key, n - 1);
    }
  }

  /** Adding to one hour adds to the sum of the hours that include it. */
  lemma {:induction false} HoursAfterUpsert(hourly: Rollup, day: nat, key: Key, n: nat, bucket: nat, other: Key, w: Totals)
    requires forall b, k {:trigger RowOk(hourly, b, k)} :: RowOk(hourly, b, k)
    requires TotalsOk(w)
    ensures HoursOf(Upsert(hourly, bucket, other, w), day, key, n)
            == if key == other && exists i :: 0 <= i < n && bucket == day + HOUR * i
               then Add(HoursOf(hourly, day, key, n), w) else HoursOf(hourly, day, key, n)
    decreases n
  {
    hide Add, TotalsOk, Upsert;
    if n > 0 {
      HoursAfterUpsert(hourly, day, key, n - 1, bucket, other, w);
      var here := day + HOUR * (n - 1);
      var sum, row := HoursOf(hourly, day, key, n - 1), RowAt(hourly, here, key);
      assert RowOk(hourly, here, key);
      HoursAreRows(hourly, day, key, n - 1);
      SpeedOf(w);
      SpeedOf(row);
      AddRegroups(sum, row, w);
      RowAfterUpsert(hourly, here, key, bucket, other, w);
      OneMoreHour(bucket, day, n);
    }
  }

  lemma OneMoreHour(bucket: nat, day: nat, n: nat)
    requires n > 0
    ensures (exists i :: 0 <= i < n && bucket == day + HOUR * i) <==>
            bucket == day + HOUR * (n - 1) || exists i :: 0 <= i < n - 1 && bucket == day + HOUR * i
    ensures bucket == day + HOUR * (n - 1) ==> forall i :: 0 <= i < n - 1 ==> bucket != day + HOUR * i
  {
    if bucket == day + HOUR * (n - 1) { assert 0 <= n - 1 < n; }
  }

  lemma RowAfterUpsert(rollup: Rollup, bucket: nat, key: Key, target: nat, other: Key, w: Totals)
    requires |w.speed| == 12
    ensures RowAt(Upsert(rollup, target, other, w), bucket, key)
            == if bucket == target && key == other then Add(RowAt(rollup, bucket, key), w) else RowAt(rollup, bucket, key)
  {
    AddZero(w);
  }

  /** An hour belongs to the day of the same moment, and to no other. */
  lemma HourInDay(now: nat, day: nat)
    ensures (exists i :: 0 <= i < 24 && Period(now, HOUR) == day * DAY + HOUR * i) <==> day * DAY == Period(now, DAY)
  {
    var hours := now / HOUR;
    assert Period(now, HOUR) == HOUR * hours && now / DAY == hours / 24;
    assert Period(now, DAY) == DAY * (hours / 24);
    if day == hours / 24 {
      assert Period(now, HOUR) == day * DAY + HOUR * (hours % 24);
    }
    if i :| 0 <= i < 24 && Period(now, HOUR) == day * DAY + HOUR * i {
      assert hours == day * 24 + i;
    }
  }

  lemma RollKeepsRows(db: Tables, key: Key, w: Totals, now: nat)
    requires (forall b, k {:trigger RowOk(db.hourly, b, k)} :: RowOk(db.hourly, b, k))
    requires (forall b, k {:trigger RowOk(db.daily, b, k)} :: RowOk(db.daily, b, k))
    requires TotalsOk(w)
    ensures var t := Rolled(db, key, w, now);
            && (forall b, k {:trigger RowOk(t.hourly, b, k)} :: RowOk(t.hourly, b, k))
            && (forall b, k {:trigger RowOk(t.daily, b, k)} :: RowOk(t.daily, b, k))
  {
    var t := Rolled(db, key, w, now);
    forall b, k ensures RowOk(t.hourly, b, k) {
      assert RowOk(db.hourly, b, k);
      RowAfterUpsert(db.hourly, b, k, Period(now, HOUR), key, w);
      AddOk(RowAt(db.hourly, b, k), w);
    }
    forall b, k ensures RowOk(t.daily, b, k) {
      assert RowOk(db.daily, b, k);
      RowAfterUpsert(db.daily, b, k, Period(now, DAY), key, w);
      AddOk(RowAt(db.daily, b, k), w);
    }
  }

  lemma RollKeepsDays(db: Tables, key: Key, w: Totals, now: nat, day: nat, k: Key)
    requires (forall b, k {:trigger RowOk(db.hourly, b, k)} :: RowOk(db.hourly, b, k))
    requires TotalsOk(w) && DailyOk(db, day, k)
    ensures DailyOk(Rolled(db, key, w, now), day, k)
  {
    hide TotalsOk, Add, HoursOf;
    HoursAfterUpsert(db.hourly, day * DAY, k, 24, Period(now, HOUR), key, w);
    SpeedOf(w);
    RowAfterUpsert(db.daily, day * DAY, k, Period(now, DAY), key, w);
    HourInDay(now, day);
  }

  lemma SpeedOf(w: Totals)
    requires TotalsOk(w)
    ensures |w.speed| == 12
  {
  }

  lemma LoggedStep(s: System, step: Step, b: nat, k: Key)
    requires Logged(s, b, k) && WorkerOk(s, step.w)
    ensures Logged(Execute(s, step), b, k)
  {
    hide TotalsOk, RollCommits, Accepted, SumOfLog, RowAt, Worth;
    var p := WorkerAt(s, step.w);
    if step.RollStep? && p.Counting? { RollIsLogged(s, p.request, b, k); }
  }

  lemma ExecuteKeeps(s: System, step: Step)
    requires Inv(s)
    ensures Inv(Execute(s, step))
  {
    hide TotalsOk, Rolled, RollCommits, DailyOk, RowOk, Accepted, Logged;
    var t := Execute(s, step);
    forall w ensures WorkerOk(t, w) {
      assert WorkerOk(s, w) && WorkerOk(s, step.w) && WorkersDiffer(s, w, step.w);
      if step.ReceiptStep? && Accepted(step.id, step.telemetry).Some? { AcceptedOk(step.id, step.telemetry); }
      RolledKeepsReceipts(s, step);
    }
    forall b, k ensures Logged(t, b, k) {
      assert Logged(s, b, k) && WorkerOk(s, step.w);
      LoggedStep(s, step, b, k);
    }
    forall v, w ensures WorkersDiffer(t, v, w) {
      assert WorkersDiffer(s, v, w) && WorkerOk(s, v) && WorkerOk(s, w);
    }
    assert WorkerOk(s, step.w);
    RolledKeepsReceipts(s, step);
    var p := WorkerAt(s, step.w);
    if step.RollStep? && p.Counting? {
      RollKeepsRows(s.db, p.request.id.key, Worth(p.request), p.request.now);
      forall d, k ensures DailyOk(Rolled(s.db, p.request.id.key, Worth(p.request), p.request.now), d, k) {
        assert DailyOk(s.db, d, k);
        RollKeepsDays(s.db, p.request.id.key, Worth(p.request), p.request.now, d, k);
      }
    } else {
      forall d, k ensures DailyOk(t.db, d, k) { DaysDoNotSeeReceipts(s.db, t.db, d, k); }
    }
  }

  lemma LogGrows(log: seq<Request>, r: Request, seconds: nat, bucket: nat, key: Key)
    requires seconds > 0
    ensures SumOfLog(log + [r], seconds, bucket, key)
            == if r.id.key == key && Period(r.now, seconds) == bucket then Add(SumOfLog(log, seconds, bucket, key), Worth(r))
               else SumOfLog(log, seconds, bucket, key)
  {
    hide Add, Worth, Period;
    assert (log + [r])[..|log|] == log;
  }

  /** A roll-up adds to the two rows exactly what it adds to the log. */
  lemma RollIsLogged(s: System, r: Request, bucket: nat, key: Key)
    requires Logged(s, bucket, key) && TotalsOk(Worth(r))
    ensures var after := Rolled(s.db, r.id.key, Worth(r), r.now);
            && RowAt(after.hourly, bucket, key) == SumOfLog(s.counted + [r], HOUR, bucket, key)
            && RowAt(after.daily, bucket, key) == SumOfLog(s.counted + [r], DAY, bucket, key)
  {
    hide TotalsOk, Add, Worth, RowAt, Upsert, Period, SumOfLog;
    SpeedOf(Worth(r));
    LogGrows(s.counted, r, HOUR, bucket, key);
    LogGrows(s.counted, r, DAY, bucket, key);
    RowAfterUpsert(s.db.hourly, bucket, key, Period(r.now, HOUR), r.id.key, Worth(r));
    RowAfterUpsert(s.db.daily, bucket, key, Period(r.now, DAY), r.id.key, Worth(r));
  }

  lemma DaysDoNotSeeReceipts(db: Tables, after: Tables, d: nat, k: Key)
    requires after == db.(receipts := after.receipts)
    ensures DailyOk(after, d, k) == DailyOk(db, d, k)
  {
  }

  lemma RolledKeepsReceipts(s: System, step: Step)
    ensures var p := WorkerAt(s, step.w);
            p.Counting? ==> Rolled(s.db, p.request.id.key, Worth(p.request), p.request.now).receipts == s.db.receipts
  {
  }

  lemma {:induction false} EmptyDay(day: nat, key: Key, n: nat)
    ensures HoursOf(map[], day, key, n) == ZERO
  {
    hide Add;
    if n > 0 {
      EmptyDay(day, key, n - 1);
      assert RowAt(map[], day + HOUR * (n - 1), key) == ZERO;
      AddZero(ZERO);
    }
  }

  lemma {:induction false} RunKeeps(steps: seq<Step>)
    ensures Inv(Run(steps))
    decreases |steps|
  {
    hide Execute;
    if steps == [] {
      assert SumOf(ZERO.speed) == 0 by { SumOfOne(12, 12, 0, ZERO.speed); }
      forall b, k ensures RowOk(INITIAL.db.hourly, b, k) && RowOk(INITIAL.db.daily, b, k) {}
      forall d: nat, k ensures DailyOk(INITIAL.db, d, k) { EmptyDay(d * DAY, k, 24); }
      forall b, k ensures Logged(INITIAL, b, k) {}
      forall w ensures WorkerOk(INITIAL, w) {}
      forall v, w ensures WorkersDiffer(INITIAL, v, w) {}
    } else {
      RunKeeps(steps[..|steps| - 1]);
      ExecuteKeeps(Run(steps[..|steps| - 1]), steps[|steps| - 1]);
    }
  }

  // ---------------------------------------------------------------- the promises

  /**
   Every row of both tables is the sum of the observations of the requests rolled up in its period, and no
   operation is rolled up twice.
   */
  lemma CountedOnce(steps: seq<Step>, bucket: nat, key: Key)
    ensures var s := Run(steps);
            && RowAt(s.db.hourly, bucket, key) == SumOfLog(s.counted, HOUR, bucket, key)
            && RowAt(s.db.daily, bucket, key) == SumOfLog(s.counted, DAY, bucket, key)
            && forall i, j :: 0 <= i < j < |s.counted| ==> s.counted[i].id.operation != s.counted[j].id.operation
  {
    hide Run;
    RunKeeps(steps);
    assert Logged(Run(steps), bucket, key);
  }

  /** Every row's buckets add up to its transfers, and neither provider time nor phases exceed the total time. */
  lemma RowsAreOk(steps: seq<Step>, bucket: nat, key: Key)
    ensures TotalsOk(RowAt(Run(steps).db.hourly, bucket, key)) && TotalsOk(RowAt(Run(steps).db.daily, bucket, key))
  {
    hide Run;
    RunKeeps(steps);
    assert RowOk(Run(steps).db.hourly, bucket, key) && RowOk(Run(steps).db.daily, bucket, key);
  }

  /** Every daily row is the sum of that day's hourly rows. */
  lemma DaysAreSums(steps: seq<Step>, day: nat, key: Key)
    ensures RowAt(Run(steps).db.daily, day * DAY, key) == HoursOf(Run(steps).db.hourly, day * DAY, key, 24)
  {
    hide Run;
    RunKeeps(steps);
    assert DailyOk(Run(steps).db, day, key);
  }
}
