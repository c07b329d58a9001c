/** The judgement of one pair of captures: the same workload over the two wires,
    compared by latency budgets and by the work each retained. */
module Budgets {
  import opened Prelude
  import opened ReportValue
  import opened RunDecoder
  import opened NearestRank
  import RunMeaning

  datatype BudgetRefusal =
    | IncompleteRun
    | P95Regression
    | P99Regression
    | FileP99ExceedsInterval
    | TimeoutOrDisconnect
    | OfferRejected
    | SettlementFailed
    | DifferentRetainedUpdates

  datatype CompareError = WorkloadsDiffer | NothingSettled

  datatype Description = Description(run: Run, latency: Distribution, lateness: Distribution)

  datatype Comparison = Comparison(
    kind: Word,
    rateHz: u64,
    budgetsPass: bool,
    refusals: seq<BudgetRefusal>,
    currentIpc: Description,
    files: Description)

  /** Readings in order: what keeps the two subtractions below from underflowing. */
  predicate WellTimed(run: Run) {
    && run.rateHz > 0
    && forall i :: 0 <= i < |run.samples| ==>
         run.samples[i].scheduledNs <= run.samples[i].enqueuedNs <= run.samples[i].settledNs
  }

  function Latencies(samples: seq<Sample>): (r: seq<u64>)
    requires forall i :: 0 <= i < |samples| ==> samples[i].enqueuedNs <= samples[i].settledNs
    ensures |r| == |samples|
    ensures forall i :: 0 <= i < |r| ==> r[i] == samples[i].settledNs - samples[i].enqueuedNs
  {
    if samples == [] then []
    else
      var latency: u64 := samples[0].settledNs - samples[0].enqueuedNs;
      [latency] + Latencies(samples[1..])
  }

  function Latenesses(samples: seq<Sample>): (r: seq<u64>)
    requires forall i :: 0 <= i < |samples| ==> samples[i].scheduledNs <= samples[i].enqueuedNs
    ensures |r| == |samples|
    ensures forall i :: 0 <= i < |r| ==> r[i] == samples[i].enqueuedNs - samples[i].scheduledNs
  {
    if samples == [] then []
    else
      var lateness: u64 := samples[0].enqueuedNs - samples[0].scheduledNs;
      [lateness] + Latenesses(samples[1..])
  }

  function RetainedSequences(samples: seq<Sample>): (r: seq<u64>)
    ensures |r| == |samples|
    ensures forall i :: 0 <= i < |r| ==> r[i] == samples[i].offeredSequence
  {
    if samples == [] then [] else [samples[0].offeredSequence] + RetainedSequences(samples[1..])
  }

  function When(condition: bool, refusal: BudgetRefusal): seq<BudgetRefusal> {
    if condition then [refusal] else []
  }

  function Interval(rateHz: u64): u64
    requires rateHz > 0
  {
    NS_PER_SECOND / rateHz
  }

  predicate Incomplete(ipc: Run, files: Run) {
    ipc.status != Complete || files.status != Complete
  }

  predicate Regressed(before: u64, after: u64, slack: u64) {
    after > SaturatingAdd(before, slack)
  }

  predicate Overran(p99: u64, rateHz: u64)
    requires rateHz > 0
  {
    p99 > Interval(rateHz)
  }

  predicate LostWork(ipc: Run, files: Run) {
    ipc.timeouts != 0 || ipc.disconnects != 0 || files.timeouts != 0 || files.disconnects != 0
  }

  predicate RejectedOffers(ipc: Run, files: Run) {
    ipc.rejected != 0 || files.rejected != 0
  }

  predicate FailedSettlements(ipc: Run, files: Run) {
    || ipc.rejectedSettlements != 0 || files.rejectedSettlements != 0
    || ipc.unresolved != 0 || files.unresolved != 0
  }

  predicate RetainedDiffer(ipc: Run, files: Run) {
    || ipc.coalesced != files.coalesced || ipc.settled != files.settled
    || RetainedSequences(ipc.samples) != RetainedSequences(files.samples)
  }

  function Refusals(ipc: Run, files: Run, before: Distribution, after: Distribution): seq<BudgetRefusal>
    requires files.rateHz > 0
  {
    When(Incomplete(ipc, files), IncompleteRun)
    + When(Regressed(before.p95, after.p95, 1_000_000), P95Regression)
    + When(Regressed(before.p99, after.p99, 2_000_000), P99Regression)
    + When(Overran(after.p99, files.rateHz), FileP99ExceedsInterval)
    + When(LostWork(ipc, files), TimeoutOrDisconnect)
    + When(RejectedOffers(ipc, files), OfferRejected)
    + When(FailedSettlements(ipc, files), SettlementFailed)
    + When(RetainedDiffer(ipc, files), DifferentRetainedUpdates)
  }

  predicate SameWorkload(ipc: Run, files: Run) {
    && ipc.wire == CurrentIpc && files.wire == NineP2000L
    && ipc.kind == files.kind && ipc.rateHz == files.rateHz && ipc.requestedUpdates == files.requestedUpdates
  }

  function Describe(run: Run, latency: Distribution): Result<Description, CompareError>
    requires WellTimed(run)
  {
    match Distribute(Latenesses(run.samples))
    case Success(lateness) => Success(Description(run, latency, lateness))
    case Failure(_) => Failure(NothingSettled)
  }

  function Compare(ipc: Run, files: Run): Result<Comparison, CompareError>
    requires WellTimed(ipc) && WellTimed(files)
  {
    if !SameWorkload(ipc, files) then Failure(WorkloadsDiffer) else
    match Distribute(Latencies(ipc.samples))
    case Failure(_) => Failure(NothingSettled)
    case Success(before) =>
      match Distribute(Latencies(files.samples))
      case Failure(_) => Failure(NothingSettled)
      case Success(after) =>
        var refusals := Refusals(ipc, files, before, after);
        var first :- Describe(ipc, before);
        var second :- Describe(files, after);
        Success(Comparison(ipc.kind, ipc.rateHz, refusals == [], refusals, first, second))
  }

  // ---- properties ----

  /** A decoded capture can be compared without any subtraction underflowing. */
  lemma DecodedIsWellTimed(value: Value)
    requires DecodeRun(value).Success?
    ensures WellTimed(DecodeRun(value).value)
  {
    RunMeaning.AcceptedCountersBalance(value);
    RunMeaning.AcceptedSamplesOrdered(value);
    var run := DecodeRun(value).value;
    forall i | 0 <= i < |run.samples|
      ensures run.samples[i].scheduledNs <= run.samples[i].enqueuedNs <= run.samples[i].settledNs
    {
      assert RunMeaning.SampleInWindow(run.samples[i], run);
    }
  }

  lemma SaturationIsHarmless(before: u64, after: u64, slack: u64)
    ensures after > SaturatingAdd(before, slack) <==> after > before + slack
  {
  }

  /** A whole number exceeds the quotient exactly when it exceeds the fraction. */
  lemma IntervalExceededIff(p99: u64, rateHz: u64)
    requires rateHz > 0
    ensures p99 > Interval(rateHz) <==> p99 * rateHz > 1_000_000_000
  {
    var interval := Interval(rateHz);
    assert interval * rateHz <= 1_000_000_000 < (interval + 1) * rateHz;
    if p99 > interval { MulMonotone(interval + 1, p99, rateHz); } else { MulMonotone(p99, interval, rateHz); }
  }

  // ---- what a comparison says ----

  predicate SameOffers(a: seq<Sample>, b: seq<Sample>) {
    |a| == |b| && forall i :: 0 <= i < |a| ==> a[i].offeredSequence == b[i].offeredSequence
  }

  lemma SameOffersIff(a: seq<Sample>, b: seq<Sample>)
    ensures SameOffers(a, b) <==> RetainedSequences(a) == RetainedSequences(b)
  {
    var r, s := RetainedSequences(a), RetainedSequences(b);
    assert r == s ==> forall i :: 0 <= i < |a| ==> r[i] == s[i];
  }

  /** What each refusal complains of. */
  predicate Complains(r: BudgetRefusal, ipc: Run, files: Run, before: Distribution, after: Distribution) {
    match r
    case IncompleteRun => !(ipc.status == Complete && files.status == Complete)
    case P95Regression => after.p95 > before.p95 + 1_000_000
    case P99Regression => after.p99 > before.p99 + 2_000_000
    case FileP99ExceedsInterval => after.p99 * files.rateHz > 1_000_000_000
    case TimeoutOrDisconnect => ipc.timeouts + ipc.disconnects + files.timeouts + files.disconnects > 0
    case OfferRejected => ipc.rejected + files.rejected > 0
    case SettlementFailed =>
      ipc.rejectedSettlements + ipc.unresolved + files.rejectedSettlements + files.unresolved > 0
    case DifferentRetainedUpdates =>
      !(ipc.coalesced == files.coalesced && ipc.settled == files.settled && SameOffers(ipc.samples, files.samples))
  }

  /** The order in which refusals are listed. */
  function Rank(r: BudgetRefusal): nat {
    match r
    case IncompleteRun => 0
    case P95Regression => 1
    case P99Regression => 2
    case FileP99ExceedsInterval => 3
    case TimeoutOrDisconnect => 4
    case OfferRejected => 5
    case SettlementFailed => 6
    case DifferentRetainedUpdates => 7
  }

  predicate Ranked(refusals: seq<BudgetRefusal>) {
    forall i, j :: 0 <= i < j < |refusals| ==> Rank(refusals[i]) < Rank(refusals[j])
  }

  lemma InWhen(refusals: seq<BudgetRefusal>, condition: bool, next: BudgetRefusal, r: BudgetRefusal)
    ensures r in refusals + When(condition, next) <==> r in refusals || (condition && r == next)
  {
  }

  /** A refusal by its place in the list: the condition it is made under. */
  predicate Conditions(r: BudgetRefusal, a: bool, b: bool, c: bool, d: bool, e: bool, f: bool, g: bool, h: bool) {
    match r
    case IncompleteRun => a
    case P95Regression => b
    case P99Regression => c
    case FileP99ExceedsInterval => d
    case TimeoutOrDisconnect => e
    case OfferRejected => f
    case SettlementFailed => g
    case DifferentRetainedUpdates => h
  }

  lemma WhensHold(a: bool, b: bool, c: bool, d: bool, e: bool, f: bool, g: bool, h: bool, r: BudgetRefusal)
    ensures r in When(a, IncompleteRun) + When(b, P95Regression) + When(c, P99Regression)
        + When(d, FileP99ExceedsInterval) + When(e, TimeoutOrDisconnect) + When(f, OfferRejected)
        + When(g, SettlementFailed) + When(h, DifferentRetainedUpdates)
      <==> Conditions(r, a, b, c, d, e, f, g, h)
  {
    var s := When(a, IncompleteRun);
    InWhen(s, b, P95Regression, r);
    s := s + When(b, P95Regression);
    InWhen(s, c, P99Regression, r);
    s := s + When(c, P99Regression);
    InWhen(s, d, FileP99ExceedsInterval, r);
    s := s + When(d, FileP99ExceedsInterval);
    InWhen(s, e, TimeoutOrDisconnect, r);
    s := s + When(e, TimeoutOrDisconnect);
    InWhen(s, f, OfferRejected, r);
    s := s + When(f, OfferRejected);
    InWhen(s, g, SettlementFailed, r);
    InWhen(s + When(g, SettlementFailed), h, DifferentRetainedUpdates, r);
  }

  lemma RefusedWhen(ipc: Run, files: Run, before: Distribution, after: Distribution, r: BudgetRefusal)
    requires files.rateHz > 0
    ensures r in Refusals(ipc, files, before, after) <==> Conditions(r, Incomplete(ipc, files),
      Regressed(before.p95, after.p95, 1_000_000), Regressed(before.p99, after.p99, 2_000_000),
      Overran(after.p99, files.rateHz), LostWork(ipc, files), RejectedOffers(ipc, files),
      FailedSettlements(ipc, files), RetainedDiffer(ipc, files))
  {
    WhensHold(Incomplete(ipc, files), Regressed(before.p95, after.p95, 1_000_000),
      Regressed(before.p99, after.p99, 2_000_000), Overran(after.p99, files.rateHz), LostWork(ipc, files),
      RejectedOffers(ipc, files), FailedSettlements(ipc, files), RetainedDiffer(ipc, files), r);
  }

  /** Each refusal is made exactly for its own cause. */
  lemma RefusedIff(ipc: Run, files: Run, before: Distribution, after: Distribution, r: BudgetRefusal)
    requires files.rateHz > 0
    ensures r in Refusals(ipc, files, before, after) <==> Complains(r, ipc, files, before, after)
  {
    RefusedWhen(ipc, files, before, after, r);
    match r
    case IncompleteRun =>
    case P95Regression => SaturationIsHarmless(before.p95, after.p95, 1_000_000);
    case P99Regression => SaturationIsHarmless(before.p99, after.p99, 2_000_000);
    case FileP99ExceedsInterval => IntervalExceededIff(after.p99, files.rateHz);
    case TimeoutOrDisconnect =>
    case OfferRejected =>
    case SettlementFailed =>
    case DifferentRetainedUpdates => SameOffersIff(ipc.samples, files.samples);
  }

  predicate RanksWithin(refusals: seq<BudgetRefusal>, low: nat, high: nat) {
    Ranked(refusals) && forall i :: 0 <= i < |refusals| ==> low <= Rank(refusals[i]) < high
  }

  lemma RankedConcat(a: seq<BudgetRefusal>, b: seq<BudgetRefusal>, low: nat, mid: nat, high: nat)
    requires low <= mid <= high && RanksWithin(a, low, mid) && RanksWithin(b, mid, high)
    ensures RanksWithin(a + b, low, high)
  {
  }

  lemma WhenRanked(condition: bool, r: BudgetRefusal, rank: nat)
    requires Rank(r) == rank
    ensures RanksWithin(When(condition, r), rank, rank + 1)
  {
  }

  lemma FourRanked(a: bool, b: bool, c: bool, d: bool,
                   p: BudgetRefusal, q: BudgetRefusal, r: BudgetRefusal, s: BudgetRefusal, rank: nat)
    requires Rank(p) == rank && Rank(q) == rank + 1 && Rank(r) == rank + 2 && Rank(s) == rank + 3
    ensures RanksWithin((When(a, p) + When(b, q)) + (When(c, r) + When(d, s)), rank, rank + 4)
  {
    WhenRanked(a, p, rank);
    WhenRanked(b, q, rank + 1);
    WhenRanked(c, r, rank + 2);
    WhenRanked(d, s, rank + 3);
    RankedConcat(When(a, p), When(b, q), rank, rank + 1, rank + 2);
    RankedConcat(When(c, r), When(d, s), rank + 2, rank + 3, rank + 4);
    RankedConcat(When(a, p) + When(b, q), When(c, r) + When(d, s), rank, rank + 2, rank + 4);
  }

  lemma Regroup<T>(a: seq<T>, b: seq<T>, c: seq<T>, d: seq<T>, e: seq<T>, f: seq<T>, g: seq<T>, h: seq<T>)
    ensures a + b + c + d + e + f + g + h == ((a + b) + (c + d)) + ((e + f) + (g + h))
  {
  }

  lemma WhensRanked(a: bool, b: bool, c: bool, d: bool, e: bool, f: bool, g: bool, h: bool)
    ensures RanksWithin(When(a, IncompleteRun) + When(b, P95Regression) + When(c, P99Regression)
      + When(d, FileP99ExceedsInterval) + When(e, TimeoutOrDisconnect) + When(f, OfferRejected)
      + When(g, SettlementFailed) + When(h, DifferentRetainedUpdates), 0, 8)
  {
    FourRanked(a, b, c, d, IncompleteRun, P95Regression, P99Regression, FileP99ExceedsInterval, 0);
    FourRanked(e, f, g, h, TimeoutOrDisconnect, OfferRejected, SettlementFailed, DifferentRetainedUpdates, 4);
    HalvesRanked(When(a, IncompleteRun), When(b, P95Regression), When(c, P99Regression),
      When(d, FileP99ExceedsInterval), When(e, TimeoutOrDisconnect), When(f, OfferRejected),
      When(g, SettlementFailed), When(h, DifferentRetainedUpdates));
  }

  lemma HalvesRanked(
    a: seq<BudgetRefusal>, b: seq<BudgetRefusal>, c: seq<BudgetRefusal>, d: seq<BudgetRefusal>,
    e: seq<BudgetRefusal>, f: seq<BudgetRefusal>, g: seq<BudgetRefusal>, h: seq<BudgetRefusal>)
    requires RanksWithin((a + b) + (c + d), 0, 4) && RanksWithin((e + f) + (g + h), 4, 8)
    ensures RanksWithin(a + b + c + d + e + f + g + h, 0, 8)
  {
    RankedConcat((a + b) + (c + d), (e + f) + (g + h), 0, 4, 8);
    Regroup(a, b, c, d, e, f, g, h);
  }

  lemma RefusalsRanked(ipc: Run, files: Run, before: Distribution, after: Distribution)
    requires files.rateHz > 0
    ensures Ranked(Refusals(ipc, files, before, after))
  {
    WhensRanked(Incomplete(ipc, files), Regressed(before.p95, after.p95, 1_000_000),
      Regressed(before.p99, after.p99, 2_000_000), Overran(after.p99, files.rateHz), LostWork(ipc, files),
      RejectedOffers(ipc, files), FailedSettlements(ipc, files), RetainedDiffer(ipc, files));
  }

  lemma {:induction false} HeadsAgree(a: seq<BudgetRefusal>, b: seq<BudgetRefusal>)
    requires Ranked(a) && Ranked(b) && a != [] && b != [] && a[0] in b && b[0] in a
    ensures a[0] == b[0]
  {
    var i :| 0 <= i < |b| && b[i] == a[0];
    var j :| 0 <= j < |a| && a[j] == b[0];
    assert i > 0 ==> Rank(b[0]) < Rank(b[i]);
    assert j > 0 ==> Rank(a[0]) < Rank(a[j]);
  }

  lemma NothingListedIff(a: seq<BudgetRefusal>)
    ensures a == [] <==> forall r :: r !in a
  {
    if a != [] { assert a[0] in a; }
  }

  /** A ranked list is determined by what it lists. */
  lemma {:induction false} RankedUnique(a: seq<BudgetRefusal>, b: seq<BudgetRefusal>)
    requires Ranked(a) && Ranked(b) && forall r :: r in a <==> r in b
    ensures a == b
  {
    NothingListedIff(a);
    NothingListedIff(b);
    if a != [] {
      assert a[0] in b && b[0] in a;
      HeadsAgree(a, b);
      forall r ensures r in a[1..] <==> r in b[1..] {
        TailLists(a, r);
        TailLists(b, r);
      }
      RankedUnique(a[1..], b[1..]);
    }
  }

  lemma TailLists(a: seq<BudgetRefusal>, r: BudgetRefusal)
    requires Ranked(a) && a != []
    ensures r in a[1..] <==> r in a && r != a[0]
  {
    if r in a && r != a[0] {
      var i :| 0 <= i < |a| && a[i] == r;
      assert a[1..][i - 1] == r;
    }
  }

  /** A description is about its own run: the latencies are from enqueueing to
      settlement, the latenesses from the slot to enqueueing. */
  ghost predicate Describes(d: Description, run: Run)
    requires WellTimed(run)
  {
    && d.run == run
    && IsDistribution(Latencies(run.samples), d.latency) && IsDistribution(Latenesses(run.samples), d.lateness)
  }

  /** What a comparison must say of two captures. */
  ghost predicate Compares(c: Comparison, ipc: Run, files: Run)
    requires WellTimed(ipc) && WellTimed(files)
  {
    && c.kind == ipc.kind && c.rateHz == ipc.rateHz
    && Describes(c.currentIpc, ipc) && Describes(c.files, files)
    && Ranked(c.refusals)
    && (forall r :: r in c.refusals <==> Complains(r, ipc, files, c.currentIpc.latency, c.files.latency))
    && (c.budgetsPass <==> c.refusals == [])
  }

  /** Two non-empty captures of one workload, the first over each wire. */
  predicate Comparable(ipc: Run, files: Run) {
    && ipc.wire == CurrentIpc && files.wire == NineP2000L
    && ipc.kind == files.kind && ipc.rateHz == files.rateHz && ipc.requestedUpdates == files.requestedUpdates
    && ipc.samples != [] && files.samples != []
  }

  lemma DescriptionSays(run: Run)
    requires WellTimed(run) && run.samples != []
    ensures Distribute(Latencies(run.samples)).Success?
    ensures var d := Describe(run, Distribute(Latencies(run.samples)).value); d.Success? && Describes(d.value, run)
  {
    DistributeIff(Latencies(run.samples), Distribute(Latencies(run.samples)).value);
    DistributeIff(Latenesses(run.samples), Distribute(Latenesses(run.samples)).value);
  }

  lemma RefusalsSay(ipc: Run, files: Run, before: Distribution, after: Distribution)
    requires files.rateHz > 0
    ensures var refusals := Refusals(ipc, files, before, after);
      Ranked(refusals) && forall r :: r in refusals <==> Complains(r, ipc, files, before, after)
  {
    RefusalsRanked(ipc, files, before, after);
    forall r { RefusedIff(ipc, files, before, after, r); }
  }

  lemma ComparisonParts(ipc: Run, files: Run, before: Distribution, after: Distribution)
    requires WellTimed(ipc) && WellTimed(files) && SameWorkload(ipc, files)
    requires Distribute(Latencies(ipc.samples)) == Success(before)
    requires Distribute(Latencies(files.samples)) == Success(after)
    requires Describe(ipc, before).Success? && Describe(files, after).Success?
    ensures var refusals := Refusals(ipc, files, before, after);
      Compare(ipc, files) == Success(Comparison(ipc.kind, ipc.rateHz, refusals == [], refusals,
                                                Describe(ipc, before).value, Describe(files, after).value))
    ensures Describe(ipc, before).value.latency == before && Describe(files, after).value.latency == after
  {
  }

  lemma ComparisonSays(ipc: Run, files: Run)
    requires WellTimed(ipc) && WellTimed(files) && Comparable(ipc, files)
    ensures Compare(ipc, files).Success? && Compares(Compare(ipc, files).value, ipc, files)
  {
    DescriptionSays(ipc);
    DescriptionSays(files);
    var before, after := Distribute(Latencies(ipc.samples)).value, Distribute(Latencies(files.samples)).value;
    ComparisonParts(ipc, files, before, after);
    RefusalsSay(ipc, files, before, after);
  }

  lemma DescriptionUnique(a: Description, b: Description, run: Run)
    requires WellTimed(run) && Describes(a, run) && Describes(b, run)
    ensures a == b
  {
    DistributionUnique(Latencies(run.samples), a.latency, b.latency);
    DistributionUnique(Latenesses(run.samples), a.lateness, b.lateness);
  }

  /** Two captures compare exactly when they are comparable, and to the one comparison
      that says of each capture, and of the pair, what holds of them. */
  lemma CompareIff(ipc: Run, files: Run, c: Comparison)
    requires WellTimed(ipc) && WellTimed(files)
    ensures Compare(ipc, files).Success? <==> Comparable(ipc, files)
    ensures Compare(ipc, files) == Success(c) <==> Comparable(ipc, files) && Compares(c, ipc, files)
  {
    ComparedIff(ipc, files);
    if Comparable(ipc, files) {
      ComparisonSays(ipc, files);
      var made := Compare(ipc, files).value;
      if Compares(c, ipc, files) {
        DescriptionUnique(c.currentIpc, made.currentIpc, ipc);
        DescriptionUnique(c.files, made.files, files);
        RankedUnique(c.refusals, made.refusals);
      }
    }
  }

  /** A comparison exists exactly for two non-empty captures of one workload. */
  lemma ComparedIff(ipc: Run, files: Run)
    requires WellTimed(ipc) && WellTimed(files)
    ensures Compare(ipc, files).Success? <==> Comparable(ipc, files)
  {
  }

  /** What is wrong with two captures that cannot be compared. */
  lemma CompareFails(ipc: Run, files: Run)
    requires WellTimed(ipc) && WellTimed(files) && Compare(ipc, files).Failure?
    ensures Compare(ipc, files).error ==
      if ipc.wire == CurrentIpc && files.wire == NineP2000L && ipc.kind == files.kind && ipc.rateHz == files.rateHz
         && ipc.requestedUpdates == files.requestedUpdates
      then NothingSettled else WorkloadsDiffer
    ensures Compare(ipc, files).error == NothingSettled ==> ipc.samples == [] || files.samples == []
  {
    ComparedIff(ipc, files);
  }

  predicate PairedWithin(a: seq<u64>, b: seq<u64>, slack: nat) {
    |a| == |b| && forall i :: 0 <= i < |a| ==> b[i] <= a[i] + slack
  }

  /** If the files capture keeps every paired latency within 1 ms of the IPC one,
      neither percentile regression can be raised, in whatever order the samples
      settle. */
  lemma PairedLatenciesRaiseNoRegression(ipc: Run, files: Run)
    requires WellTimed(ipc) && WellTimed(files) && SameWorkload(ipc, files)
    requires |ipc.samples| == |files.samples| > 0
    requires PairedWithin(Latencies(ipc.samples), Latencies(files.samples), 1_000_000)
    ensures Compare(ipc, files).Success?
    ensures P95Regression !in Compare(ipc, files).value.refusals
    ensures P99Regression !in Compare(ipc, files).value.refusals
  {
    var a, b := Latencies(ipc.samples), Latencies(files.samples);
    PercentileLipschitz(a, b, 1_000_000, 95);
    PercentileLipschitz(a, b, 1_000_000, 99);
    RefusedIff(ipc, files, Distribute(a).value, Distribute(b).value, P95Regression);
    RefusedIff(ipc, files, Distribute(a).value, Distribute(b).value, P99Regression);
  }

  predicate NoFailedWork(run: Run) {
    && run.timeouts == 0 && run.disconnects == 0 && run.rejected == 0
    && run.rejectedSettlements == 0 && run.unresolved == 0
  }

  predicate WithinLatencyBudgets(before: Distribution, after: Distribution, rateHz: u64)
    requires rateHz > 0
  {
    && after.p95 <= before.p95 + 1_000_000
    && after.p99 <= before.p99 + 2_000_000
    && after.p99 <= Interval(rateHz)
  }

  predicate Passing(ipc: Run, files: Run, before: Distribution, after: Distribution)
    requires files.rateHz > 0
  {
    && ipc.status == Complete && files.status == Complete
    && NoFailedWork(ipc) && NoFailedWork(files)
    && ipc.coalesced == files.coalesced && ipc.settled == files.settled
    && RetainedSequences(ipc.samples) == RetainedSequences(files.samples)
    && WithinLatencyBudgets(before, after, files.rateHz)
  }

  lemma NothingRefusedIff(ipc: Run, files: Run, before: Distribution, after: Distribution)
    requires files.rateHz > 0
    ensures Refusals(ipc, files, before, after) == [] <==> Passing(ipc, files, before, after)
  {
    SaturationIsHarmless(before.p95, after.p95, 1_000_000);
    SaturationIsHarmless(before.p99, after.p99, 2_000_000);
  }

  /** What a pair of captures must be for the latency gate, from the captures alone. */
  predicate MeetsBudgets(ipc: Run, files: Run)
    requires WellTimed(ipc) && WellTimed(files)
  {
    && ipc.samples != [] && files.samples != []
    && Passing(ipc, files, Distribute(Latencies(ipc.samples)).value, Distribute(Latencies(files.samples)).value)
  }

  /** What passing the budgets means: both captures complete with no failed work,
      the same updates retained, and every latency budget met, the saturating
      additions notwithstanding. */
  lemma BudgetsPassIff(ipc: Run, files: Run, comparison: Comparison)
    requires WellTimed(ipc) && WellTimed(files) && Compare(ipc, files) == Success(comparison)
    ensures comparison.budgetsPass <==> MeetsBudgets(ipc, files)
  {
    var before, after := Distribute(Latencies(ipc.samples)), Distribute(Latencies(files.samples));
    NothingRefusedIff(ipc, files, before.value, after.value);
  }
}
