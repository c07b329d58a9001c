/** The offline decoder of one capture: it re-derives the whole accounting of a
    run from the document and refuses anything incoherent. */
module RunDecoder {
  import opened Prelude
  import opened ReportValue

  const MAX_UPDATES: nat := 100_000
  const NS_PER_SECOND: nat := 1_000_000_000

  const TOP_KEYS: seq<Key> := [
    Schema, Status, Boundary, WireName, Kind, RateHz, RequestedUpdates,
    Offered, Admitted, Rejected, RejectedSettlements, Unresolved, Coalesced,
    Settled, Timeouts, Disconnects, MaxInFlight, MaxQueueDepth, ElapsedNs,
    Samples, Failures, UnresolvedUpdates, Error, CheckpointMode, FrontendAcks,
    Pixels, Acceptance]

  const UNRESOLVED_KEYS: seq<Key> := [
    OfferedSequence, RequestId, Transaction, ScheduledNs, EnqueuedNs, ObservedNs]

  const FAILURE_KEYS: seq<Key> := [
    OfferedSequence, Reason, RequestId, Transaction, ScheduledNs, EnqueuedNs, ObservedNs]

  const SAMPLE_KEYS: seq<Key> := [
    OfferedSequence, RequestId, Transaction, ScheduledNs, EnqueuedNs, SettledNs, OutcomeName]

  const REASONS: set<Word> := {
    EnqueueRefused, TimedOut, Disconnected, RejectedStale, RejectedInvalid, MeasurementDeadline}

  datatype Sample = Sample(
    offeredSequence: u64,
    requestId: u64,
    transaction: u64,
    scheduledNs: u64,
    enqueuedNs: u64,
    settledNs: u64)

  datatype Run = Run(
    status: Word,
    wire: Word,
    kind: Word,
    rateHz: u64,
    requestedUpdates: u64,
    offered: u64,
    admitted: u64,
    rejected: u64,
    rejectedSettlements: u64,
    unresolved: u64,
    coalesced: u64,
    settled: u64,
    timeouts: u64,
    disconnects: u64,
    maxInFlight: u64,
    maxQueueDepth: u64,
    elapsedNs: u64,
    samples: seq<Sample>)

  /** The guards every record check relies on: they are what keeps the schedule
      product and the counter sums inside a machine word. */
  predicate Guarded(run: Run) {
    && (run.rateHz == 60 || run.rateHz == 120)
    && 1 <= run.requestedUpdates <= MAX_UPDATES
    && run.offered <= run.requestedUpdates
  }

  function ReadHeader(value: Value): (r: Result<Run, Refusal>)
    ensures r.Success? ==>
      && r.value.status in {Complete, Failed}
      && r.value.wire in {CurrentIpc, NineP2000L}
      && r.value.kind in {Move, Resize}
  {
    var status :- Choice(value, Status, {Complete, Failed});
    var wire :- Choice(value, WireName, {CurrentIpc, NineP2000L});
    var kind :- Choice(value, Kind, {Move, Resize});
    var rateHz :- NumberAt(value, RateHz);
    var requestedUpdates :- NumberAt(value, RequestedUpdates);
    var offered :- NumberAt(value, Offered);
    var admitted :- NumberAt(value, Admitted);
    var rejected :- NumberAt(value, Rejected);
    var rejectedSettlements :- NumberAt(value, RejectedSettlements);
    var unresolved :- NumberAt(value, Unresolved);
    var coalesced :- NumberAt(value, Coalesced);
    var settled :- NumberAt(value, Settled);
    var timeouts :- NumberAt(value, Timeouts);
    var disconnects :- NumberAt(value, Disconnects);
    var maxInFlight :- NumberAt(value, MaxInFlight);
    var maxQueueDepth :- NumberAt(value, MaxQueueDepth);
    var elapsedNs :- NumberAt(value, ElapsedNs);
    Success(Run(status, wire, kind, rateHz, requestedUpdates, offered, admitted,
                rejected, rejectedSettlements, unresolved, coalesced, settled,
                timeouts, disconnects, maxInFlight, maxQueueDepth, elapsedNs, []))
  }

  function CheckQualification(value: Value): Outcome<Refusal> {
    if Get(value, CheckpointMode) != Text(NormalCheckpoint)
      || Get(value, FrontendAcks) != Text(SuppliedAcks)
      || Get(value, Pixels) != Text(SuppliedPixels)
      || Get(value, Acceptance) != Bool(false)
      || (!Get(value, Error).Null? && !Get(value, Error).Text?)
    then Fail(UnknownQualification) else Pass
  }

  function DecodeHeader(value: Value): (r: Result<Run, Refusal>)
    ensures r.Success? ==>
      && (r.value.rateHz == 60 || r.value.rateHz == 120)
      && 1 <= r.value.requestedUpdates <= MAX_UPDATES
      && r.value.status in {Complete, Failed}
      && r.value.wire in {CurrentIpc, NineP2000L}
      && r.value.kind in {Move, Resize}
  {
    var keys := TOP_KEYS;
    :- Fields(value, keys);
    var schema :- NumberAt(value, Schema);
    :- Need(schema == 1 && Get(value, Boundary) == Text(SessionBoundary), UnsupportedSchema);
    :- CheckQualification(value);
    var run :- ReadHeader(value);
    :- Need((run.rateHz == 60 || run.rateHz == 120) && 1 <= run.requestedUpdates <= MAX_UPDATES,
            RateOrUpdatesOutOfRange);
    Success(run)
  }

  predicate CountersWithinOffered(run: Run) {
    && run.offered <= run.requestedUpdates
    && run.admitted <= run.offered
    && run.rejected <= run.offered
    && run.settled <= run.offered
    && run.coalesced <= run.offered
    && run.timeouts <= run.offered
    && run.disconnects <= run.offered
    && run.rejectedSettlements <= run.offered
    && run.unresolved <= run.offered
  }

  /** The sums are words: both are computed only after every addend is known to
      be at most MAX_UPDATES. */
  predicate CountersCoherent(run: Run, sampleCount: nat)
    requires Guarded(run) && CountersWithinOffered(run)
  {
    var issued: u64 := run.admitted + run.rejected;
    var ended: u64 := run.settled + run.coalesced + run.timeouts + run.disconnects
                      + run.rejectedSettlements + run.unresolved;
    && (run.status == Complete ==> run.offered == run.requestedUpdates)
    && issued == run.offered
    && run.settled == sampleCount
    && run.settled <= run.admitted
    && run.admitted == ended
    && run.maxInFlight <= 1
    && (run.settled > 0 ==> run.maxInFlight == 1)
    && run.maxQueueDepth <= 1
  }

  predicate NothingFailed(value: Value, run: Run, failures: seq<Value>, unresolved: seq<Value>) {
    && failures == [] && unresolved == []
    && run.rejected == 0 && run.timeouts == 0 && run.disconnects == 0
    && run.rejectedSettlements == 0 && run.unresolved == 0
    && Get(value, Error).Null?
  }

  /** One record's place in the absolute schedule; `end` names its last clock reading. */
  function OfferedTiming(entry: Value, run: Run, end: Key): Result<u64, Refusal>
    requires Guarded(run)
  {
    var sequence :- NumberAt(entry, OfferedSequence);
    if sequence == 0 || sequence > run.offered then Failure(BadTiming) else
    var product: u64 := (sequence - 1) * NS_PER_SECOND;
    var scheduled :- NumberAt(entry, ScheduledNs);
    if scheduled != product / run.rateHz then Failure(BadTiming) else
    var enqueued :- NumberAt(entry, EnqueuedNs);
    if enqueued < scheduled then Failure(BadTiming) else
    var finished :- NumberAt(entry, end);
    if finished < enqueued || finished > run.elapsedNs then Failure(BadTiming) else
    Success(sequence)
  }

  /** An identity may be absent, but a present one is a positive word. */
  predicate OptionalIdentity(value: Value) {
    value.Null? || (AsU64(value).Some? && AsU64(value).value != 0)
  }

  function FailedOffer(entry: Value, run: Run, seen: set<u64>): Result<set<u64>, Refusal>
    requires Guarded(run)
  {
    var sequence :- OfferedTiming(entry, run, ObservedNs);
    :- Need(OptionalIdentity(Get(entry, RequestId)) && OptionalIdentity(Get(entry, Transaction)),
            BadFailureIdentity);
    :- Need(sequence !in seen, RepeatedIdentity);
    Success(seen + {sequence})
  }

  /** Which counter a failure reason is charged to. */
  function Category(reason: Word): nat
    requires reason in REASONS
    ensures Category(reason) < 5
  {
    match reason
    case EnqueueRefused => 0
    case TimedOut => 1
    case Disconnected => 2
    case RejectedStale => 3
    case RejectedInvalid => 3
    case _ => 4
  }

  function ScanUnresolved(items: seq<Value>, run: Run, seen: set<u64>): Result<set<u64>, Refusal>
    requires Guarded(run)
  {
    if items == [] then Success(seen) else
    :- Fields(items[0], UNRESOLVED_KEYS);
    var next :- FailedOffer(items[0], run, seen);
    ScanUnresolved(items[1..], run, next)
  }

  datatype Tally = Tally(seen: set<u64>, counts: seq<nat>)

  function TallyFailure(entry: Value, run: Run, tally: Tally): (r: Result<Tally, Refusal>)
    requires Guarded(run) && |tally.counts| == 5
    ensures r.Success? ==> |r.value.counts| == 5
  {
    var keys := FAILURE_KEYS;
    :- Fields(entry, keys);
    var reason :- Choice(entry, Reason, REASONS);
    var category := Category(reason);
    var counts := tally.counts[category := tally.counts[category] + 1];
    var seen :- FailedOffer(entry, run, tally.seen);
    Success(Tally(seen, counts))
  }

  function ScanFailures(items: seq<Value>, run: Run, tally: Tally): (r: Result<Tally, Refusal>)
    requires Guarded(run) && |tally.counts| == 5
    ensures r.Success? ==> |r.value.counts| == 5
  {
    if items == [] then Success(tally) else
    var next :- TallyFailure(items[0], run, tally);
    ScanFailures(items[1..], run, next)
  }

  function ReadSample(entry: Value): Result<Sample, Refusal> {
    var sequence :- NumberAt(entry, OfferedSequence);
    var request :- NumberAt(entry, RequestId);
    var transaction :- NumberAt(entry, Transaction);
    var scheduled :- NumberAt(entry, ScheduledNs);
    var enqueued :- NumberAt(entry, EnqueuedNs);
    var settled :- NumberAt(entry, SettledNs);
    Success(Sample(sequence, request, transaction, scheduled, enqueued, settled))
  }

  function DecodeSample(entry: Value, run: Run): Result<Sample, Refusal>
    requires Guarded(run)
  {
    var keys := SAMPLE_KEYS;
    :- Fields(entry, keys);
    :- Need(Get(entry, OutcomeName) == Text(Committed), NotCommitted);
    var sample :- ReadSample(entry);
    var sequence :- OfferedTiming(entry, run, SettledNs);
    Success(sample)
  }

  predicate Follows(sample: Sample, sequence: u64, request: u64, transaction: u64) {
    sample.offeredSequence > sequence && sample.requestId > request && sample.transaction > transaction
  }

  datatype Progress = Progress(seen: set<u64>, sequence: u64, request: u64, transaction: u64, samples: seq<Sample>)

  function ScanSamples(items: seq<Value>, run: Run, p: Progress): Result<seq<Sample>, Refusal>
    requires Guarded(run)
  {
    if items == [] then Success(p.samples) else
    var sample :- DecodeSample(items[0], run);
    :- Need(Follows(sample, p.sequence, p.request, p.transaction) && sample.offeredSequence !in p.seen,
            BadSampleOrder);
    ScanSamples(items[1..], run,
      Progress(p.seen + {sample.offeredSequence}, sample.offeredSequence, sample.requestId,
               sample.transaction, p.samples + [sample]))
  }

  function ExpectedCounts(run: Run): seq<nat> {
    [run.rejected, run.timeouts, run.disconnects, run.rejectedSettlements, run.unresolved]
  }

  function ScanUnfinished(failures: seq<Value>, unresolved: seq<Value>, run: Run): (r: Result<Tally, Refusal>)
    requires Guarded(run)
    ensures r.Success? ==> |r.value.counts| == 5
  {
    var seen :- ScanUnresolved(unresolved, run, {});
    ScanFailures(failures, run, Tally(seen, [0, 0, 0, 0, |unresolved|]))
  }

  function DecodeRecords(value: Value, run: Run, samples: seq<Value>, failures: seq<Value>, unresolved: seq<Value>)
    : Result<Run, Refusal>
    requires Guarded(run)
  {
    var tally :- ScanUnfinished(failures, unresolved, run);
    :- Need(tally.counts == ExpectedCounts(run), ReasonsDisagree);
    var decoded :- ScanSamples(samples, run, Progress(tally.seen, 0, 0, 0, []));
    Success(run.(samples := decoded))
  }

  /** What the decoder answers, refusals included. */
  function DecodeRun(value: Value): Result<Run, Refusal> {
    var run :- DecodeHeader(value);
    var samples :- ItemsAt(value, Samples);
    :- Need(CountersWithinOffered(run), CountersExceedOffered);
    :- Need(CountersCoherent(run, |samples|), IncoherentCounters);
    var failures :- ItemsAt(value, Failures);
    var unresolved :- ItemsAt(value, UnresolvedUpdates);
    :- Need(|failures| <= run.offered && |unresolved| <= run.offered, TooManyRecords);
    :- Need(run.status == Complete ==> NothingFailed(value, run, failures, unresolved), CompleteWithFailedWork);
    DecodeRecords(value, run, samples, failures, unresolved)
  }

  method LoopUnresolved(items: seq<Value>, run: Run) returns (result: Result<set<u64>, Refusal>)
    requires Guarded(run)
    ensures result == ScanUnresolved(items, run, {})
  {
    var seen: set<u64> := {};
    for i := 0 to |items|
      invariant ScanUnresolved(items, run, {}) == ScanUnresolved(items[i..], run, seen)
    {
      var shape := Fields(items[i], UNRESOLVED_KEYS);
      if shape.Fail? { return Failure(shape.error); }
      var next := FailedOffer(items[i], run, seen);
      if next.Failure? { return Failure(next.error); }
      seen := next.value;
      assert items[i..][1..] == items[i + 1..];
    }
    result := Success(seen);
  }

  method LoopFailures(items: seq<Value>, run: Run, start: Tally) returns (result: Result<Tally, Refusal>)
    requires Guarded(run) && |start.counts| == 5
    ensures result == ScanFailures(items, run, start)
  {
    var seen, counts := start.seen, start.counts;
    for i := 0 to |items|
      invariant |counts| == 5
      invariant ScanFailures(items, run, start) == ScanFailures(items[i..], run, Tally(seen, counts))
    {
      var shape := Fields(items[i], FAILURE_KEYS);
      if shape.Fail? { return Failure(shape.error); }
      var reason := Choice(items[i], Reason, REASONS);
      if reason.Failure? { return Failure(reason.error); }
      var category := Category(reason.value);
      counts := counts[category := counts[category] + 1];
      var next := FailedOffer(items[i], run, seen);
      if next.Failure? { return Failure(next.error); }
      seen := next.value;
      assert items[i..][1..] == items[i + 1..];
    }
    result := Success(Tally(seen, counts));
  }

  method LoopSamples(
    items: seq<Value>, run: Run, identities: set<u64>)
    returns (result: Result<seq<Sample>, Refusal>)
    requires Guarded(run)
    ensures result == ScanSamples(items, run, Progress(identities, 0, 0, 0, []))
  {
    var seen := identities;
    var prior: (u64, u64, u64) := (0, 0, 0);
    var decoded: seq<Sample> := [];
    for i := 0 to |items|
      invariant ScanSamples(items, run, Progress(identities, 0, 0, 0, []))
             == ScanSamples(items[i..], run, Progress(seen, prior.0, prior.1, prior.2, decoded))
    {
      var sample := DecodeSample(items[i], run);
      if sample.Failure? { return Failure(sample.error); }
      var s := sample.value;
      if !Follows(s, prior.0, prior.1, prior.2) || s.offeredSequence in seen {
        return Failure(BadSampleOrder);
      }
      seen := seen + {s.offeredSequence};
      prior := (s.offeredSequence, s.requestId, s.transaction);
      decoded := decoded + [s];
      assert items[i..][1..] == items[i + 1..];
    }
    result := Success(decoded);
  }

  /** The decoder as it runs: three loops that share one set of identities. */
  method Decode(value: Value) returns (result: Result<Run, Refusal>)
    ensures result == DecodeRun(value)
  {
    var header := DecodeHeader(value);
    if header.Failure? { return header; }
    var run := header.value;
    var sampleItems := ItemsAt(value, Samples);
    if sampleItems.Failure? { return Failure(sampleItems.error); }
    var samples := sampleItems.value;
    if !CountersWithinOffered(run) { return Failure(CountersExceedOffered); }
    if !CountersCoherent(run, |samples|) { return Failure(IncoherentCounters); }
    var failureItems := ItemsAt(value, Failures);
    if failureItems.Failure? { return Failure(failureItems.error); }
    var unresolvedItems := ItemsAt(value, UnresolvedUpdates);
    if unresolvedItems.Failure? { return Failure(unresolvedItems.error); }
    var failures, unresolved := failureItems.value, unresolvedItems.value;
    if |failures| > run.offered || |unresolved| > run.offered { return Failure(TooManyRecords); }
    if run.status == Complete && !NothingFailed(value, run, failures, unresolved) {
      return Failure(CompleteWithFailedWork);
    }
    var seen := LoopUnresolved(unresolved, run);
    if seen.Failure? { return Failure(seen.error); }
    var tally := LoopFailures(failures, run, Tally(seen.value, [0, 0, 0, 0, |unresolved|]));
    if tally.Failure? { return Failure(tally.error); }
    if tally.value.counts != ExpectedCounts(run) { return Failure(ReasonsDisagree); }
    var decoded := LoopSamples(samples, run, tally.value.seen);
    if decoded.Failure? { return Failure(decoded.error); }
    result := Success(run.(samples := decoded.value));
  }
}
