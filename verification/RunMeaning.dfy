/** What acceptance of a capture means, stated without loops, and the proof that
    the decoder accepts exactly the captures with that meaning. */
module RunMeaning {
  import opened Prelude
  import opened ReportValue
  import opened RunDecoder

  function SequenceOf(entry: Value): u64 {
    match AsU64(Get(entry, OfferedSequence))
    case Some(n) => n
    case None => 0
  }

  function Sequences(items: seq<Value>): (r: seq<u64>)
    ensures |r| == |items|
    ensures forall i :: 0 <= i < |items| ==> r[i] == SequenceOf(items[i])
  {
    if items == [] then [] else [SequenceOf(items[0])] + Sequences(items[1..])
  }

  /** The instant of a slot: the last nanosecond not after (sequence - 1) / rate seconds. */
  predicate OnSchedule(sequence: u64, scheduled: u64, rate: u64) {
    scheduled * rate <= (sequence - 1) * NS_PER_SECOND < (scheduled + 1) * rate
  }

  predicate TimedOffer(entry: Value, run: Run, end: Key) {
    var sequence := AsU64(Get(entry, OfferedSequence));
    var scheduled := AsU64(Get(entry, ScheduledNs));
    var enqueued := AsU64(Get(entry, EnqueuedNs));
    var finished := AsU64(Get(entry, end));
    && sequence.Some? && scheduled.Some? && enqueued.Some? && finished.Some?
    && 1 <= sequence.value <= run.offered
    && OnSchedule(sequence.value, scheduled.value, run.rateHz)
    && scheduled.value <= enqueued.value <= finished.value <= run.elapsedNs
  }

  ghost predicate HasExactly(entry: Value, keys: seq<Key>) {
    entry.Object? && entry.members.Keys == Elements(keys)
  }

  ghost predicate UnfinishedRecord(entry: Value, run: Run, keys: seq<Key>) {
    && HasExactly(entry, keys)
    && TimedOffer(entry, run, ObservedNs)
    && OptionalIdentity(Get(entry, RequestId)) && OptionalIdentity(Get(entry, Transaction))
  }

  predicate HasReason(entry: Value) {
    Get(entry, Reason).Text? && Get(entry, Reason).word in REASONS
  }

  ghost predicate FailureRecord(entry: Value, run: Run) {
    UnfinishedRecord(entry, run, FAILURE_KEYS) && HasReason(entry)
  }

  function RequestOf(entry: Value): u64 {
    match AsU64(Get(entry, RequestId))
    case Some(n) => n
    case None => 0
  }

  function TransactionOf(entry: Value): u64 {
    match AsU64(Get(entry, Transaction))
    case Some(n) => n
    case None => 0
  }

  ghost predicate SampleRecord(entry: Value, run: Run) {
    && HasExactly(entry, SAMPLE_KEYS)
    && Get(entry, OutcomeName) == Text(Committed)
    && TimedOffer(entry, run, SettledNs)
    && RequestOf(entry) > 0 && TransactionOf(entry) > 0
  }

  predicate Before(a: Value, b: Value) {
    && SequenceOf(a) < SequenceOf(b)
    && RequestOf(a) < RequestOf(b)
    && TransactionOf(a) < TransactionOf(b)
  }

  /** Failure records that give one of some reasons. */
  function CountReasons(failures: seq<Value>, reasons: set<Word>): nat {
    if failures == [] then 0
    else (if Get(failures[0], Reason).Text? && Get(failures[0], Reason).word in reasons then 1 else 0)
         + CountReasons(failures[1..], reasons)
  }

  /** The failure records the decoder charges to one counter. */
  function CountCategory(failures: seq<Value>, category: nat): nat {
    if failures == [] then 0
    else (if HasReason(failures[0]) && Category(failures[0].members[Reason].word) == category then 1 else 0)
         + CountCategory(failures[1..], category)
  }

  /** Every identity a document records, in the order the decoder meets them. */
  function Identities(unresolved: seq<Value>, failures: seq<Value>, samples: seq<Value>): seq<u64> {
    Sequences(unresolved) + Sequences(failures) + Sequences(samples)
  }

  ghost predicate OpenRecords(unresolved: seq<Value>, run: Run) {
    forall i :: 0 <= i < |unresolved| ==> UnfinishedRecord(unresolved[i], run, UNRESOLVED_KEYS)
  }

  ghost predicate FailureRecords(failures: seq<Value>, run: Run) {
    forall i :: 0 <= i < |failures| ==> FailureRecord(failures[i], run)
  }

  ghost predicate SampleRecords(samples: seq<Value>, run: Run) {
    forall i :: 0 <= i < |samples| ==> SampleRecord(samples[i], run)
  }

  predicate InOrder(samples: seq<Value>) {
    forall i, j :: 0 <= i < j < |samples| ==> Before(samples[i], samples[j])
  }

  predicate CategoriesMatch(failures: seq<Value>, open: nat, run: Run) {
    && CountReasons(failures, {EnqueueRefused}) == run.rejected
    && CountReasons(failures, {TimedOut}) == run.timeouts
    && CountReasons(failures, {Disconnected}) == run.disconnects
    && CountReasons(failures, {RejectedStale, RejectedInvalid}) == run.rejectedSettlements
    && CountReasons(failures, {MeasurementDeadline}) + open == run.unresolved
  }

  ghost predicate RecordsCoherent(run: Run, samples: seq<Value>, failures: seq<Value>, unresolved: seq<Value>) {
    && OpenRecords(unresolved, run)
    && FailureRecords(failures, run)
    && SampleRecords(samples, run)
    && InOrder(samples)
    && NoDup(Identities(unresolved, failures, samples))
    && CategoriesMatch(failures, |unresolved|, run)
  }

  /** The members of a capture, no more and no fewer. */
  const MEMBERS: set<Key> := {
    Schema, Status, Boundary, WireName, Kind, RateHz, RequestedUpdates, Offered, Admitted, Rejected,
    RejectedSettlements, Unresolved, Coalesced, Settled, Timeouts, Disconnects, MaxInFlight, MaxQueueDepth, ElapsedNs,
    Samples, Failures, UnresolvedUpdates, Error, CheckpointMode, FrontendAcks, Pixels, Acceptance}

  /** A non-negative integer of at most 64 bits. */
  predicate IsWord(value: Value, key: Key) {
    Get(value, key).Number? && 0 <= Get(value, key).n < TWO64
  }

  /** Every counter and bound is a word. */
  predicate CountersAreWords(value: Value) {
    && IsWord(value, RateHz) && IsWord(value, RequestedUpdates) && IsWord(value, Offered)
    && IsWord(value, Key.Admitted) && IsWord(value, Rejected) && IsWord(value, RejectedSettlements)
    && IsWord(value, Unresolved) && IsWord(value, Coalesced) && IsWord(value, Settled)
    && IsWord(value, Timeouts) && IsWord(value, Disconnects) && IsWord(value, MaxInFlight)
    && IsWord(value, MaxQueueDepth) && IsWord(value, ElapsedNs)
  }

  predicate Qualified(value: Value) {
    && Get(value, Schema) == Number(1) && Get(value, Boundary) == Text(SessionBoundary)
    && Get(value, CheckpointMode) == Text(NormalCheckpoint) && Get(value, FrontendAcks) == Text(SuppliedAcks)
    && Get(value, Pixels) == Text(SuppliedPixels) && Get(value, Acceptance) == Bool(false)
    && (Get(value, Error).Null? || Get(value, Error).Text?)
  }

  /** What a header must be, from the members alone. */
  predicate HeaderShape(value: Value) {
    && value.Object? && value.members.Keys == MEMBERS
    && Qualified(value) && CountersAreWords(value)
    && Get(value, Status) in {Text(Complete), Text(Failed)}
    && Get(value, WireName) in {Text(CurrentIpc), Text(NineP2000L)}
    && Get(value, Kind) in {Text(Move), Text(Resize)}
    && Get(value, RateHz) in {Number(60), Number(120)}
    && 1 <= Get(value, RequestedUpdates).n <= 100_000
  }

  function WordAt(value: Value, key: Key): Word {
    if Get(value, key).Text? then Get(value, key).word else OtherText("")
  }

  function GetU64(entry: Value, key: Key): u64 {
    match AsU64(Get(entry, key))
    case Some(n) => n
    case None => 0
  }

  /** What a header says, member by member. */
  function HeaderRun(value: Value): Run {
    Run(WordAt(value, Status), WordAt(value, WireName), WordAt(value, Kind),
        GetU64(value, RateHz), GetU64(value, RequestedUpdates), GetU64(value, Offered), GetU64(value, Key.Admitted),
        GetU64(value, Rejected), GetU64(value, RejectedSettlements), GetU64(value, Unresolved),
        GetU64(value, Coalesced), GetU64(value, Settled), GetU64(value, Timeouts), GetU64(value, Disconnects),
        GetU64(value, MaxInFlight), GetU64(value, MaxQueueDepth), GetU64(value, ElapsedNs), [])
  }

  /** The counters balance, and a complete run failed nothing. */
  predicate Accounted(value: Value, run: Run, samples: seq<Value>, failures: seq<Value>, unresolved: seq<Value>) {
    && run.offered <= run.requestedUpdates
    && run.admitted + run.rejected == run.offered
    && run.admitted == run.settled + run.coalesced + run.timeouts + run.disconnects + run.rejectedSettlements
                       + run.unresolved
    && |samples| == run.settled
    && run.maxQueueDepth <= 1 && run.maxInFlight <= 1 && (run.settled > 0 ==> run.maxInFlight == 1)
    && (run.status == Complete ==>
          && run.offered == run.requestedUpdates && run.rejected == 0 && run.admitted == run.settled + run.coalesced
          && failures == [] && unresolved == [] && Get(value, Error).Null?)
  }

  /** The three lists of a document are there and agree with its header. */
  ghost predicate Consistent(value: Value, run: Run) {
    var samples := Get(value, Samples);
    var failures := Get(value, Failures);
    var unresolved := Get(value, UnresolvedUpdates);
    && samples.Array? && failures.Array? && unresolved.Array?
    && Accounted(value, run, samples.items, failures.items, unresolved.items)
    && RecordsCoherent(run, samples.items, failures.items, unresolved.items)
  }

  /** What acceptance of a document means. */
  ghost predicate Acceptable(value: Value) {
    HeaderShape(value) && Consistent(value, HeaderRun(value))
  }

  // ---- single records ----

  /** Where a key stands among the members of a capture. */
  function TopRank(key: Key): int {
    match key
    case Schema => 0 case Status => 1 case Boundary => 2 case WireName => 3 case Kind => 4 case RateHz => 5
    case RequestedUpdates => 6 case Offered => 7 case Admitted => 8 case Rejected => 9
    case RejectedSettlements => 10 case Unresolved => 11 case Coalesced => 12 case Settled => 13
    case Timeouts => 14 case Disconnects => 15 case MaxInFlight => 16 case MaxQueueDepth => 17
    case ElapsedNs => 18 case Samples => 19 case Failures => 20 case UnresolvedUpdates => 21 case Error => 22
    case CheckpointMode => 23 case FrontendAcks => 24 case Pixels => 25 case Acceptance => 26
    case _ => -1
  }

  lemma TopRanks()
    ensures forall i :: 0 <= i < |TOP_KEYS| ==> TopRank(TOP_KEYS[i]) == i
  {
  }

  lemma TopKeysDistinct()
    ensures NoDup(TOP_KEYS)
  {
    TopRanks();
  }

  lemma TopKeysAreMembers(value: Value)
    ensures Fields(value, TOP_KEYS).Pass? <==> value.Object? && value.members.Keys == MEMBERS
  {
    TopKeysDistinct();
    FieldsAreExact(value, TOP_KEYS);
    EveryTopKey();
  }

  lemma EveryTopKey()
    ensures Elements(TOP_KEYS) == MEMBERS
  {
    forall key ensures key in Elements(TOP_KEYS) <==> key in MEMBERS {
      if key in MEMBERS { assert TOP_KEYS[TopRank(key)] == key; }
    }
  }

  // ---- the header ----

  lemma WordIff(value: Value, key: Key)
    ensures NumberAt(value, key).Success? <==> IsWord(value, key)
    ensures IsWord(value, key) ==>
      NumberAt(value, key) == Success(GetU64(value, key)) && Get(value, key).n == GetU64(value, key)
  {
  }

  lemma ChoiceIff(value: Value, key: Key, choices: set<Word>)
    ensures Choice(value, key, choices).Success? <==> Get(value, key).Text? && Get(value, key).word in choices
    ensures Choice(value, key, choices).Success? ==> Choice(value, key, choices) == Success(WordAt(value, key))
  {
  }

  lemma ReadHeaderIff(value: Value)
    ensures ReadHeader(value).Success? <==>
      && CountersAreWords(value)
      && Get(value, Status) in {Text(Complete), Text(Failed)}
      && Get(value, WireName) in {Text(CurrentIpc), Text(NineP2000L)}
      && Get(value, Kind) in {Text(Move), Text(Resize)}
    ensures ReadHeader(value).Success? ==> ReadHeader(value) == Success(HeaderRun(value))
  {
  }

  /** The header is read exactly from a document of the right members, and what is
      read is what they say. */
  lemma HeaderIff(value: Value)
    ensures DecodeHeader(value).Success? <==> HeaderShape(value)
    ensures DecodeHeader(value).Success? ==> DecodeHeader(value) == Success(HeaderRun(value))
  {
    TopKeysAreMembers(value);
    ReadHeaderIff(value);
  }

  lemma UnresolvedKeysDistinct()
    ensures NoDup(UNRESOLVED_KEYS)
  {
  }

  lemma FailureKeysDistinct()
    ensures NoDup(FAILURE_KEYS)
  {
  }

  lemma SampleKeysDistinct()
    ensures NoDup(SAMPLE_KEYS)
  {
  }

  lemma ScheduleIsQuotient(sequence: u64, scheduled: u64, rate: u64)
    requires sequence >= 1 && rate > 0
    ensures OnSchedule(sequence, scheduled, rate) <==> scheduled == (sequence - 1) * NS_PER_SECOND / rate
  {
    var product := (sequence - 1) * NS_PER_SECOND;
    var quotient := product / rate;
    assert quotient * rate <= product < quotient * rate + rate;
    if OnSchedule(sequence, scheduled, rate) {
      MulMonotone(scheduled + 1, quotient, rate);
      MulMonotone(quotient + 1, scheduled, rate);
    }
  }

  lemma TimingIff(entry: Value, run: Run, end: Key)
    requires Guarded(run)
    ensures OfferedTiming(entry, run, end).Success? <==> TimedOffer(entry, run, end)
    ensures TimedOffer(entry, run, end) ==> OfferedTiming(entry, run, end) == Success(SequenceOf(entry))
  {
    if IssuedOffer(entry, run) {
      var sequence, scheduled := AsU64(Get(entry, OfferedSequence)).value, AsU64(Get(entry, ScheduledNs)).value;
      ScheduleIsQuotient(sequence, scheduled, run.rateHz);
      IssuedTimingIff(entry, run, end, sequence, scheduled);
    } else {
      UnissuedTiming(entry, run, end);
    }
  }

  /** An identity in range, and some scheduled time. */
  predicate IssuedOffer(entry: Value, run: Run) {
    && AsU64(Get(entry, OfferedSequence)).Some? && AsU64(Get(entry, ScheduledNs)).Some?
    && 1 <= AsU64(Get(entry, OfferedSequence)).value <= run.offered
  }

  lemma UnissuedTiming(entry: Value, run: Run, end: Key)
    requires Guarded(run) && !IssuedOffer(entry, run)
    ensures OfferedTiming(entry, run, end).Failure? && !TimedOffer(entry, run, end)
  {
  }

  lemma IssuedTimingIff(entry: Value, run: Run, end: Key, sequence: u64, scheduled: u64)
    requires Guarded(run) && 1 <= sequence <= run.offered
    requires AsU64(Get(entry, OfferedSequence)) == Some(sequence) && AsU64(Get(entry, ScheduledNs)) == Some(scheduled)
    requires OnSchedule(sequence, scheduled, run.rateHz) <==> scheduled == (sequence - 1) * NS_PER_SECOND / run.rateHz
    ensures OfferedTiming(entry, run, end).Success? <==> TimedOffer(entry, run, end)
    ensures TimedOffer(entry, run, end) ==> OfferedTiming(entry, run, end) == Success(SequenceOf(entry))
  {
  }

  lemma FailedOfferIff(entry: Value, run: Run, seen: set<u64>, keys: seq<Key>)
    requires Guarded(run) && NoDup(keys)
    ensures Fields(entry, keys).Pass? && FailedOffer(entry, run, seen).Success?
       <==> UnfinishedRecord(entry, run, keys) && SequenceOf(entry) !in seen
    ensures FailedOffer(entry, run, seen).Success?
        ==> FailedOffer(entry, run, seen).value == seen + {SequenceOf(entry)}
  {
    FieldsAreExact(entry, keys);
    TimingIff(entry, run, ObservedNs);
  }

  // ---- the three loops ----

  lemma {:induction false} UnresolvedIff(items: seq<Value>, run: Run, seen: set<u64>)
    requires Guarded(run)
    ensures ScanUnresolved(items, run, seen).Success? <==> UnresolvedFit(items, run, seen)
    ensures ScanUnresolved(items, run, seen).Success?
        ==> ScanUnresolved(items, run, seen).value == seen + Elements(Sequences(items))
  {
    if items == [] {
    } else {
      UnresolvedKeysDistinct();
      FailedOfferIff(items[0], run, seen, UNRESOLVED_KEYS);
      SplitSequences(items, seen);
      if Fields(items[0], UNRESOLVED_KEYS).Pass? && FailedOffer(items[0], run, seen).Success? {
        UnresolvedIff(items[1..], run, seen + {SequenceOf(items[0])});
      }
    }
  }

  ghost predicate UnresolvedFit(items: seq<Value>, run: Run, seen: set<u64>) {
    && OpenRecords(items, run)
    && NoDup(Sequences(items)) && Elements(Sequences(items)) !! seen
  }

  ghost predicate FailuresFit(items: seq<Value>, run: Run, seen: set<u64>) {
    && FailureRecords(items, run)
    && NoDup(Sequences(items)) && Elements(Sequences(items)) !! seen
  }

  /** How distinctness and freshness split at the head of a list. */
  lemma SplitSequences(items: seq<Value>, seen: set<u64>)
    requires items != []
    ensures var head := SequenceOf(items[0]); var tail := Sequences(items[1..]);
      && Elements(Sequences(items)) == {head} + Elements(tail)
      && (NoDup(Sequences(items)) && Elements(Sequences(items)) !! seen
          <==> head !in seen && NoDup(tail) && Elements(tail) !! seen + {head})
  {
    var all := Sequences(items);
    var head, tail := all[0], Sequences(items[1..]);
    assert all == [head] + tail;
    assert tail == all[1..];
    assert Elements(all) == {head} + Elements(tail);
    if head !in seen && NoDup(tail) && Elements(tail) !! seen + {head} {
      assert head !in Elements(tail);
      forall i, j | 0 <= i < j < |all| ensures all[i] != all[j] {
        assert all[j] == tail[j - 1];
        assert tail[j - 1] in Elements(tail);
        if i > 0 { assert all[i] == tail[i - 1]; }
      }
    }
    if NoDup(all) && Elements(all) !! seen {
      assert head in Elements(all);
      assert forall k :: 0 <= k < |tail| ==> tail[k] == all[k + 1];
    }
  }

  lemma TallyIff(entry: Value, run: Run, tally: Tally)
    requires Guarded(run) && |tally.counts| == 5
    ensures TallyFailure(entry, run, tally).Success?
            <==> FailureRecord(entry, run) && SequenceOf(entry) !in tally.seen
    ensures TallyFailure(entry, run, tally).Success? ==>
      var end := TallyFailure(entry, run, tally).value;
      && end.seen == tally.seen + {SequenceOf(entry)}
      && forall c :: 0 <= c < 5 ==>
           end.counts[c] == tally.counts[c] + (if Category(entry.members[Reason].word) == c then 1 else 0)
  {
    FailureKeysDistinct();
    FailedOfferIff(entry, run, tally.seen, FAILURE_KEYS);
    TallyReads(entry, run, tally);
  }

  /** A failure is tallied when its fields are exact, its reason known and its offer new. */
  lemma TallyReads(entry: Value, run: Run, tally: Tally)
    requires Guarded(run) && |tally.counts| == 5
    ensures TallyFailure(entry, run, tally).Success? <==>
      Fields(entry, FAILURE_KEYS).Pass? && Choice(entry, Reason, REASONS).Success?
      && FailedOffer(entry, run, tally.seen).Success?
    ensures TallyFailure(entry, run, tally).Success? ==>
      var category := Category(Choice(entry, Reason, REASONS).value);
      TallyFailure(entry, run, tally).value ==
        Tally(FailedOffer(entry, run, tally.seen).value, tally.counts[category := tally.counts[category] + 1])
  {
  }

  lemma {:induction false} FailuresIff(items: seq<Value>, run: Run, tally: Tally)
    requires Guarded(run) && |tally.counts| == 5
    ensures ScanFailures(items, run, tally).Success? <==> FailuresFit(items, run, tally.seen)
    ensures ScanFailures(items, run, tally).Success? ==>
      var end := ScanFailures(items, run, tally).value;
      && end.seen == tally.seen + Elements(Sequences(items))
      && forall c :: 0 <= c < 5 ==> end.counts[c] == tally.counts[c] + CountCategory(items, c)
  {
    if items == [] {
    } else {
      TallyIff(items[0], run, tally);
      SplitSequences(items, tally.seen);
      var step := TallyFailure(items[0], run, tally);
      if step.Success? {
        FailuresIff(items[1..], run, step.value);
      }
    }
  }

  /** The samples a list of records denotes. */
  function SampleOf(entry: Value): Sample {
    Sample(SequenceOf(entry), RequestOf(entry), TransactionOf(entry),
           GetU64(entry, ScheduledNs), GetU64(entry, EnqueuedNs), GetU64(entry, SettledNs))
  }

  function SamplesOf(items: seq<Value>): (r: seq<Sample>)
    ensures |r| == |items|
    ensures forall i :: 0 <= i < |items| ==> r[i] == SampleOf(items[i])
  {
    if items == [] then [] else [SampleOf(items[0])] + SamplesOf(items[1..])
  }

  ghost predicate SamplesFollow(items: seq<Value>, run: Run, p: Progress) {
    && SampleRecords(items, run)
    && InOrder(items)
    && (forall i :: 0 <= i < |items| ==> Follows(SampleOf(items[i]), p.sequence, p.request, p.transaction))
    && Elements(Sequences(items)) !! p.seen
  }

  lemma DecodeSampleIff(entry: Value, run: Run, p: Progress)
    requires Guarded(run)
    ensures DecodeSample(entry, run).Success?
            && Follows(DecodeSample(entry, run).value, p.sequence, p.request, p.transaction)
       <==> SampleRecord(entry, run) && Follows(SampleOf(entry), p.sequence, p.request, p.transaction)
    ensures DecodeSample(entry, run).Success? ==> DecodeSample(entry, run).value == SampleOf(entry)
  {
    SampleKeysDistinct();
    FieldsAreExact(entry, SAMPLE_KEYS);
    TimingIff(entry, run, SettledNs);
    DecodeSampleReads(entry, run);
  }

  /** A sample is read when its fields are exact, its outcome committed, its timing
      right and its two identities words. */
  lemma DecodeSampleReads(entry: Value, run: Run)
    requires Guarded(run)
    ensures DecodeSample(entry, run).Success? <==>
      && Fields(entry, SAMPLE_KEYS).Pass? && Get(entry, OutcomeName) == Text(Committed)
      && NumberAt(entry, RequestId).Success? && NumberAt(entry, Transaction).Success?
      && OfferedTiming(entry, run, SettledNs).Success?
    ensures DecodeSample(entry, run).Success? ==> DecodeSample(entry, run).value == SampleOf(entry)
  {
  }

  lemma {:induction false} SamplesIff(items: seq<Value>, run: Run, p: Progress)
    requires Guarded(run)
    ensures ScanSamples(items, run, p).Success? <==> SamplesFollow(items, run, p)
    ensures ScanSamples(items, run, p).Success? ==> ScanSamples(items, run, p).value == p.samples + SamplesOf(items)
  {
    if items == [] {
    } else {
      var head := items[0];
      DecodeSampleIff(head, run, p);
      SplitSequences(items, p.seen);
      if SampleRecord(head, run) && Follows(SampleOf(head), p.sequence, p.request, p.transaction)
         && SequenceOf(head) !in p.seen {
        var s := SampleOf(head);
        var next := Progress(
          p.seen + {s.offeredSequence}, s.offeredSequence, s.requestId, s.transaction, p.samples + [s]);
        SamplesIff(items[1..], run, next);
        SamplesSplit(items, run, p, next);
      } else {
        assert SequenceOf(head) in Elements(Sequences(items));
      }
    }
  }

  lemma SamplesSplit(items: seq<Value>, run: Run, p: Progress, next: Progress)
    requires items != [] && SampleRecord(items[0], run) && SequenceOf(items[0]) !in p.seen
    requires var s := SampleOf(items[0]);
      && Follows(s, p.sequence, p.request, p.transaction)
      && next == Progress(p.seen + {s.offeredSequence}, s.offeredSequence, s.requestId, s.transaction, p.samples + [s])
    ensures SamplesFollow(items, run, p) <==> SamplesFollow(items[1..], run, next)
  {
    if SamplesFollow(items[1..], run, next) { SamplesJoin(items, run, p, next); }
    if SamplesFollow(items, run, p) { SamplesPart(items, run, p, next); }
  }

  /** A sample and the progress it makes. */
  predicate Advances(item: Value, run: Run, p: Progress, next: Progress) {
    var s := SampleOf(item);
    && SequenceOf(item) !in p.seen && Follows(s, p.sequence, p.request, p.transaction)
    && next == Progress(p.seen + {s.offeredSequence}, s.offeredSequence, s.requestId, s.transaction, p.samples + [s])
  }

  lemma SamplesJoin(items: seq<Value>, run: Run, p: Progress, next: Progress)
    requires items != [] && SampleRecord(items[0], run) && Advances(items[0], run, p, next)
    requires SamplesFollow(items[1..], run, next)
    ensures SamplesFollow(items, run, p)
  {
    var tail := items[1..];
    SplitSequences(items, p.seen);
    forall i | 0 <= i < |items|
      ensures SampleRecord(items[i], run) && Follows(SampleOf(items[i]), p.sequence, p.request, p.transaction)
    {
      if i > 0 { assert items[i] == tail[i - 1]; }
    }
    forall i, j | 0 <= i < j < |items| ensures Before(items[i], items[j]) {
      assert items[j] == tail[j - 1];
      if i > 0 { assert items[i] == tail[i - 1]; }
    }
  }

  lemma SamplesPart(items: seq<Value>, run: Run, p: Progress, next: Progress)
    requires items != [] && SampleRecord(items[0], run) && Advances(items[0], run, p, next)
    requires SamplesFollow(items, run, p)
    ensures SamplesFollow(items[1..], run, next)
  {
    var tail := items[1..];
    SplitSequences(items, p.seen);
    forall i | 0 <= i < |tail|
      ensures SampleRecord(tail[i], run) && Follows(SampleOf(tail[i]), next.sequence, next.request, next.transaction)
    {
      assert tail[i] == items[i + 1] && Before(items[0], items[i + 1]);
    }
    forall i, j | 0 <= i < j < |tail| ensures Before(tail[i], tail[j]) {
      assert tail[i] == items[i + 1] && tail[j] == items[j + 1];
    }
    BeforeIsDistinct(items);
  }

  lemma BeforeIsDistinct(items: seq<Value>)
    requires InOrder(items)
    ensures NoDup(Sequences(items))
  {
  }

  // ---- the whole decoder ----

  lemma NoDupConcat<T>(a: seq<T>, b: seq<T>)
    ensures NoDup(a + b) <==> NoDup(a) && NoDup(b) && Elements(a) !! Elements(b)
    ensures Elements(a + b) == Elements(a) + Elements(b)
  {
    var c := a + b;
    assert Elements(c) == Elements(a) + Elements(b);
    if NoDup(c) {
      forall i, j | 0 <= i < j < |a| ensures a[i] != a[j] {
        assert c[i] == a[i] && c[j] == a[j];
      }
      forall i, j | 0 <= i < j < |b| ensures b[i] != b[j] {
        assert c[|a| + i] == b[i] && c[|a| + j] == b[j];
      }
      forall i, j | 0 <= i < |a| && 0 <= j < |b| ensures a[i] != b[j] {
        assert c[i] == a[i] && c[|a| + j] == b[j];
      }
    }
    if NoDup(a) && NoDup(b) && Elements(a) !! Elements(b) {
      forall i, j | 0 <= i < j < |c| ensures c[i] != c[j] {
        if j < |a| {
          assert c[i] == a[i] && c[j] == a[j];
        } else if i < |a| {
          assert c[i] == a[i] && a[i] in Elements(a);
          assert c[j] == b[j - |a|] && b[j - |a|] in Elements(b);
        } else {
          assert c[i] == b[i - |a|] && c[j] == b[j - |a|];
        }
      }
      assert NoDup(c);
    }
  }

  lemma IdentitiesInRange(run: Run, samples: seq<Value>, failures: seq<Value>, unresolved: seq<Value>)
    requires RecordsCoherent(run, samples, failures, unresolved)
    ensures forall x :: x in Elements(Identities(unresolved, failures, samples)) ==> 1 <= x <= run.offered
    ensures |unresolved| + |failures| + |samples| <= run.offered
  {
    var all := Identities(unresolved, failures, samples);
    forall x | x in Elements(all) ensures 1 <= x <= run.offered {
      var k :| 0 <= k < |all| && all[k] == x;
      if k < |unresolved| {
        assert UnfinishedRecord(unresolved[k], run, UNRESOLVED_KEYS);
      } else if k < |unresolved| + |failures| {
        assert FailureRecord(failures[k - |unresolved|], run);
      } else {
        assert SampleRecord(samples[k - |unresolved| - |failures|], run);
      }
    }
    assert Elements(all) <= FirstPositives(run.offered);
    SubsetCardinality(Elements(all), FirstPositives(run.offered));
    NoDupCardinality(all);
  }

  lemma SubsetCardinality<T>(a: set<T>, b: set<T>)
    requires a <= b
    ensures |b - a| == |b| - |a|
    ensures |a| <= |b|
  {
    assert b == a + (b - a);
  }

  lemma IdentitiesSplit(samples: seq<Value>, failures: seq<Value>, unresolved: seq<Value>)
    ensures var u, f, s := Sequences(unresolved), Sequences(failures), Sequences(samples);
      NoDup(Identities(unresolved, failures, samples))
      <==> NoDup(u) && NoDup(f) && Elements(f) !! Elements(u) && NoDup(s) && Elements(s) !! Elements(u) + Elements(f)
  {
    var u, f, s := Sequences(unresolved), Sequences(failures), Sequences(samples);
    NoDupConcat(u, f);
    NoDupConcat(u + f, s);
  }

  lemma SampleLoopIff(items: seq<Value>, run: Run, seen: set<u64>)
    requires Guarded(run)
    ensures ScanSamples(items, run, Progress(seen, 0, 0, 0, [])).Success? <==>
      && SampleRecords(items, run)
      && InOrder(items)
      && Elements(Sequences(items)) !! seen
    ensures ScanSamples(items, run, Progress(seen, 0, 0, 0, [])).Success?
        ==> ScanSamples(items, run, Progress(seen, 0, 0, 0, [])).value == SamplesOf(items)
  {
    SamplesIff(items, run, Progress(seen, 0, 0, 0, []));
    assert [] + SamplesOf(items) == SamplesOf(items);
  }

  /** The categories are the reasons, grouped. */
  lemma {:induction false} CategoriesAreReasons(failures: seq<Value>)
    ensures CountCategory(failures, 0) == CountReasons(failures, {EnqueueRefused})
    ensures CountCategory(failures, 1) == CountReasons(failures, {TimedOut})
    ensures CountCategory(failures, 2) == CountReasons(failures, {Disconnected})
    ensures CountCategory(failures, 3) == CountReasons(failures, {RejectedStale, RejectedInvalid})
    ensures CountCategory(failures, 4) == CountReasons(failures, {MeasurementDeadline})
  {
    if failures == [] {
    } else {
      CategoriesAreReasons(failures[1..]);
    }
  }

  lemma CountsIff(counts: seq<nat>, run: Run, failures: seq<Value>, open: nat)
    requires |counts| == 5
    requires forall c :: 0 <= c < 5 ==> counts[c] == [0, 0, 0, 0, open][c] + CountCategory(failures, c)
    ensures counts == ExpectedCounts(run) <==> CategoriesMatch(failures, open, run)
  {
    CategoriesAreReasons(failures);
    assert counts[0] == CountCategory(failures, 0) && counts[1] == CountCategory(failures, 1)
        && counts[2] == CountCategory(failures, 2) && counts[3] == CountCategory(failures, 3)
        && counts[4] == open + CountCategory(failures, 4);
    assert counts == [counts[0], counts[1], counts[2], counts[3], counts[4]];
  }

  lemma UnfinishedIff(failures: seq<Value>, unresolved: seq<Value>, run: Run)
    requires Guarded(run)
    ensures var u := Elements(Sequences(unresolved));
      ScanUnfinished(failures, unresolved, run).Success?
      <==> UnresolvedFit(unresolved, run, {}) && FailuresFit(failures, run, u)
    ensures ScanUnfinished(failures, unresolved, run).Success? ==>
      var tally := ScanUnfinished(failures, unresolved, run).value;
      && tally.seen == Elements(Sequences(unresolved)) + Elements(Sequences(failures))
      && forall c :: 0 <= c < 5 ==> tally.counts[c] == [0, 0, 0, 0, |unresolved|][c] + CountCategory(failures, c)
  {
    UnresolvedIff(unresolved, run, {});
    var u := Elements(Sequences(unresolved));
    assert {} + u == u;
    FailuresIff(failures, run, Tally(u, [0, 0, 0, 0, |unresolved|]));
  }

  lemma DecodeRecordsIff(value: Value, run: Run, samples: seq<Value>, failures: seq<Value>, unresolved: seq<Value>)
    requires Guarded(run)
    ensures DecodeRecords(value, run, samples, failures, unresolved).Success? <==>
            RecordsCoherent(run, samples, failures, unresolved)
    ensures DecodeRecords(value, run, samples, failures, unresolved).Success?
        ==> DecodeRecords(value, run, samples, failures, unresolved).value == run.(samples := SamplesOf(samples))
  {
    IdentitiesSplit(samples, failures, unresolved);
    if InOrder(samples) { BeforeIsDistinct(samples); }
    UnfinishedIff(failures, unresolved, run);
    var tally := ScanUnfinished(failures, unresolved, run);
    if tally.Success? {
      CountsIff(tally.value.counts, run, failures, |unresolved|);
      SampleLoopIff(samples, run, tally.value.seen);
    }
  }

  /** The decoder accepts exactly the acceptable documents, and what it returns
      is the header together with the samples the document lists. */
  lemma DecodeIffAcceptable(value: Value)
    ensures DecodeRun(value).Success? <==> Acceptable(value)
    ensures DecodeRun(value).Success?
        ==> DecodeRun(value).value == HeaderRun(value).(samples := SamplesOf(Get(value, Samples).items))
  {
    HeaderIff(value);
    if HeaderShape(value) {
      HeadedIff(value, HeaderRun(value));
    } else {
      ShapelessRefused(value);
    }
  }

  /** Behind its header a document is accepted exactly when it is consistent with it. */
  lemma HeadedIff(value: Value, run: Run)
    requires DecodeHeader(value) == Success(run)
    ensures DecodeRun(value).Success? <==> Consistent(value, run)
    ensures DecodeRun(value).Success? ==>
      DecodeRun(value).value == run.(samples := SamplesOf(Get(value, Samples).items))
  {
    if Shaped(value) {
      var samples, failures := Get(value, Samples).items, Get(value, Failures).items;
      var unresolved := Get(value, UnresolvedUpdates).items;
      DecodesShaped(value, run, samples, failures, unresolved);
      DecodeRecordsIff(value, run, samples, failures, unresolved);
      FewRecords(run, samples, failures, unresolved);
      AccountedIff(value, run, samples, failures, unresolved);
    } else {
      ShapelessRefused(value);
      ShapelessInconsistent(value, run);
    }
  }

  lemma ShapelessInconsistent(value: Value, run: Run)
    requires DecodeHeader(value) == Success(run) && !Shaped(value)
    ensures !Consistent(value, run)
  {
  }

  /** The guards that keep the sums inside a word, and the sums, say no more than that
      the counters balance. */
  lemma AccountedIff(value: Value, run: Run, samples: seq<Value>, failures: seq<Value>, unresolved: seq<Value>)
    requires Guarded(run) && CountersWithinOffered(run)
    ensures CountersPass(value, run, |samples|, failures, unresolved) <==>
      Accounted(value, run, samples, failures, unresolved)
  {
  }

  /** A header whose counters stay within its offers, and three lists. */
  predicate Shaped(value: Value) {
    && DecodeHeader(value).Success? && CountersWithinOffered(DecodeHeader(value).value)
    && Get(value, Samples).Array? && Get(value, Failures).Array? && Get(value, UnresolvedUpdates).Array?
  }

  lemma ShapelessRefused(value: Value)
    requires !Shaped(value)
    ensures DecodeRun(value).Failure?
  {
  }

  predicate CountersPass(value: Value, run: Run, sampleCount: nat, failures: seq<Value>, unresolved: seq<Value>)
    requires Guarded(run) && CountersWithinOffered(run)
  {
    && CountersCoherent(run, sampleCount)
    && (run.status == Complete ==> NothingFailed(value, run, failures, unresolved))
  }

  lemma DecodesShaped(
    value: Value, run: Run, samples: seq<Value>, failures: seq<Value>, unresolved: seq<Value>)
    requires DecodeHeader(value) == Success(run) && Guarded(run) && CountersWithinOffered(run)
    requires Get(value, Samples) == Array(samples)
    requires Get(value, Failures) == Array(failures) && Get(value, UnresolvedUpdates) == Array(unresolved)
    ensures DecodeRun(value).Success? <==>
      && CountersPass(value, run, |samples|, failures, unresolved)
      && |failures| <= run.offered && |unresolved| <= run.offered
      && DecodeRecords(value, run, samples, failures, unresolved).Success?
    ensures DecodeRun(value).Success? ==> DecodeRun(value) == DecodeRecords(value, run, samples, failures, unresolved)
  {
  }

  /** Coherent records are never more than the offers. */
  lemma FewRecords(run: Run, samples: seq<Value>, failures: seq<Value>, unresolved: seq<Value>)
    requires Guarded(run)
    ensures RecordsCoherent(run, samples, failures, unresolved) ==>
      |failures| <= run.offered && |unresolved| <= run.offered
  {
    if RecordsCoherent(run, samples, failures, unresolved) {
      IdentitiesInRange(run, samples, failures, unresolved);
    }
  }

  /** The header behind an accepted document. */
  lemma AcceptedHeader(value: Value) returns (run: Run)
    requires DecodeRun(value).Success?
    ensures DecodeHeader(value) == Success(run) && Guarded(run) && Consistent(value, run)
    ensures DecodeRun(value).value == run.(samples := SamplesOf(Get(value, Samples).items))
  {
    run := DecodeHeader(value).value;
    HeadedIff(value, run);
  }

  /** Acceptance accounts for every offer: recorded identities are distinct
      members of 1..offered, and the offers recorded nowhere are exactly the
      coalesced ones. */
  lemma AcceptedOffersAccounted(value: Value)
    requires DecodeRun(value).Success?
    ensures var run := DecodeRun(value).value;
      var recorded :=
        Identities(Get(value, UnresolvedUpdates).items, Get(value, Failures).items, Get(value, Samples).items);
      && NoDup(recorded)
      && Elements(recorded) <= FirstPositives(run.offered)
      && |FirstPositives(run.offered) - Elements(recorded)| == run.coalesced
  {
    var run := AcceptedHeader(value);
    var s, f, u := Get(value, Samples).items, Get(value, Failures).items, Get(value, UnresolvedUpdates).items;
    IdentitiesInRange(run, s, f, u);
    var recorded := Identities(u, f, s);
    NoDupCardinality(recorded);
    assert Elements(recorded) <= FirstPositives(run.offered);
    SubsetCardinality(Elements(recorded), FirstPositives(run.offered));
    CategoriesPartition(f, run);
  }

  /** A known reason is in exactly one of the five groups. */
  lemma OneReason(failures: seq<Value>)
    requires failures != [] && HasReason(failures[0])
    ensures var total := CountReasons(failures, {EnqueueRefused}) + CountReasons(failures, {TimedOut})
        + CountReasons(failures, {Disconnected}) + CountReasons(failures, {RejectedStale, RejectedInvalid})
        + CountReasons(failures, {MeasurementDeadline});
      total == 1 + CountReasons(failures[1..], {EnqueueRefused}) + CountReasons(failures[1..], {TimedOut})
        + CountReasons(failures[1..], {Disconnected}) + CountReasons(failures[1..], {RejectedStale, RejectedInvalid})
        + CountReasons(failures[1..], {MeasurementDeadline})
  {
    var word := Get(failures[0], Reason).word;
    CountHead(failures, {EnqueueRefused});
    CountHead(failures, {TimedOut});
    CountHead(failures, {Disconnected});
    CountHead(failures, {RejectedStale, RejectedInvalid});
    CountHead(failures, {MeasurementDeadline});
  }

  lemma CountHead(failures: seq<Value>, reasons: set<Word>)
    requires failures != [] && Get(failures[0], Reason).Text?
    ensures CountReasons(failures, reasons) ==
      (if Get(failures[0], Reason).word in reasons then 1 else 0) + CountReasons(failures[1..], reasons)
  {
  }

  lemma {:induction false} CategoriesPartition(failures: seq<Value>, run: Run)
    requires FailureRecords(failures, run)
    ensures CountReasons(failures, {EnqueueRefused}) + CountReasons(failures, {TimedOut})
          + CountReasons(failures, {Disconnected}) + CountReasons(failures, {RejectedStale, RejectedInvalid})
          + CountReasons(failures, {MeasurementDeadline}) == |failures|
  {
    if failures == [] {
    } else {
      assert FailureRecord(failures[0], run);
      OneReason(failures);
      CategoriesPartition(failures[1..], run);
    }
  }

  /** The counters of an accepted run balance, and a complete run failed nothing. */
  lemma AcceptedCountersBalance(value: Value)
    requires DecodeRun(value).Success?
    ensures var run := DecodeRun(value).value;
      && Guarded(run)
      && run.admitted + run.rejected == run.offered
      && run.admitted == run.settled + run.coalesced + run.timeouts + run.disconnects
                         + run.rejectedSettlements + run.unresolved
      && |run.samples| == run.settled
      && run.maxQueueDepth <= 1 && run.maxInFlight <= 1 && (run.settled > 0 ==> run.maxInFlight == 1)
      && run.status in {Complete, Failed} && run.wire in {CurrentIpc, NineP2000L} && run.kind in {Move, Resize}
      && (run.status == Complete ==>
            run.offered == run.requestedUpdates && run.rejected == 0 && run.timeouts == 0
            && run.disconnects == 0 && run.rejectedSettlements == 0 && run.unresolved == 0)
  {
    var run := AcceptedHeader(value);
  }

  /** The samples of an accepted run are in strict order, each on the absolute
      schedule and inside the capture. */
  lemma AcceptedSamplesOrdered(value: Value)
    requires DecodeRun(value).Success?
    ensures var run := DecodeRun(value).value;
      && (forall i :: 0 <= i < |run.samples| ==> SampleInWindow(run.samples[i], run))
      && (forall i, j :: 0 <= i < j < |run.samples| ==> SampleBefore(run.samples[i], run.samples[j]))
  {
    var run := AcceptedHeader(value);
    var items := Get(value, Samples).items;
    forall i | 0 <= i < |items| ensures SampleInWindow(SampleOf(items[i]), run) {
      assert SampleRecord(items[i], run);
    }
    forall i, j | 0 <= i < j < |items| ensures SampleBefore(SampleOf(items[i]), SampleOf(items[j])) {
      assert Before(items[i], items[j]);
    }
  }

  predicate SampleInWindow(s: Sample, run: Run) {
    && 1 <= s.offeredSequence <= run.offered
    && s.requestId > 0 && s.transaction > 0
    && OnSchedule(s.offeredSequence, s.scheduledNs, run.rateHz)
    && s.scheduledNs <= s.enqueuedNs <= s.settledNs <= run.elapsedNs
  }

  predicate SampleBefore(a: Sample, b: Sample) {
    a.offeredSequence < b.offeredSequence && a.requestId < b.requestId && a.transaction < b.transaction
  }
}
