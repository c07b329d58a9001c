/** A refused document was refused for what is wrong with it: every refusal the
    decoder can give names a defect the document has. */
module RunRefusals {
  import opened Prelude
  import opened ReportValue
  import opened RunDecoder
  import opened RunMeaning

  // ---- one record ----

  /** What a complaint about the times of a record means. */
  predicate TimesBlamed(entry: Value, run: Run, end: Key, r: Refusal) {
    match r
    case BadNumber(key) => key in {OfferedSequence, ScheduledNs, EnqueuedNs, end} && !IsWord(entry, key)
    case BadTiming => !TimedOffer(entry, run, end)
    case _ => false
  }

  predicate IdentitiesBlamed(entry: Value, r: Refusal) {
    r == BadFailureIdentity && !(OptionalIdentity(Get(entry, RequestId)) && OptionalIdentity(Get(entry, Transaction)))
  }

  ghost predicate OpenBlamed(entry: Value, run: Run, r: Refusal) {
    || (r == FieldsMismatch && !HasExactly(entry, UNRESOLVED_KEYS))
    || TimesBlamed(entry, run, ObservedNs, r) || IdentitiesBlamed(entry, r)
  }

  ghost predicate FailureBlamed(entry: Value, run: Run, r: Refusal) {
    || (r == FieldsMismatch && !HasExactly(entry, FAILURE_KEYS))
    || (r == BadChoice(Reason) && !HasReason(entry))
    || TimesBlamed(entry, run, ObservedNs, r) || IdentitiesBlamed(entry, r)
  }

  ghost predicate SampleBlamed(entry: Value, run: Run, r: Refusal) {
    || (r == FieldsMismatch && !HasExactly(entry, SAMPLE_KEYS))
    || (r == NotCommitted && Get(entry, OutcomeName) != Text(Committed))
    || (r.BadNumber? && r.key in {RequestId, Transaction} && !IsWord(entry, r.key))
    || TimesBlamed(entry, run, SettledNs, r)
  }

  lemma TimesBlame(entry: Value, run: Run, end: Key)
    requires Guarded(run) && OfferedTiming(entry, run, end).Failure?
    ensures TimesBlamed(entry, run, end, OfferedTiming(entry, run, end).error)
  {
    TimingIff(entry, run, end);
    TimesFail(entry, run, end);
  }

  lemma TimesFail(entry: Value, run: Run, end: Key)
    requires Guarded(run) && OfferedTiming(entry, run, end).Failure?
    ensures var r := OfferedTiming(entry, run, end).error;
      || r == BadTiming
      || (r.BadNumber? && r.key in {OfferedSequence, ScheduledNs, EnqueuedNs, end} && !IsWord(entry, r.key))
  {
  }

  /** What the shared checks on an unfinished record can complain of. */
  lemma UnfinishedBlame(entry: Value, run: Run, seen: set<u64>)
    requires Guarded(run) && FailedOffer(entry, run, seen).Failure?
    ensures var r := FailedOffer(entry, run, seen).error;
      || TimesBlamed(entry, run, ObservedNs, r) || IdentitiesBlamed(entry, r)
      || (r == RepeatedIdentity && SequenceOf(entry) in seen)
  {
    TimingIff(entry, run, ObservedNs);
    if OfferedTiming(entry, run, ObservedNs).Failure? { TimesBlame(entry, run, ObservedNs); }
  }

  // ---- the three loops ----

  /** Identities met so far and identities to come, with one met twice. */
  ghost predicate Repeated(items: seq<Value>, seen: set<u64>) {
    !(NoDup(Sequences(items)) && Elements(Sequences(items)) !! seen)
  }

  lemma RepeatedHead(items: seq<Value>, seen: set<u64>)
    requires items != []
    ensures SequenceOf(items[0]) in seen ==> Repeated(items, seen)
    ensures Repeated(items[1..], seen + {SequenceOf(items[0])}) ==> Repeated(items, seen)
  {
    SplitSequences(items, seen);
  }

  ghost predicate OpenListBlamed(items: seq<Value>, run: Run, r: Refusal) {
    exists i :: 0 <= i < |items| && OpenBlamed(items[i], run, r)
  }

  ghost predicate FailureListBlamed(items: seq<Value>, run: Run, r: Refusal) {
    exists i :: 0 <= i < |items| && FailureBlamed(items[i], run, r)
  }

  ghost predicate SampleListBlamed(items: seq<Value>, run: Run, r: Refusal) {
    exists i :: 0 <= i < |items| && SampleBlamed(items[i], run, r)
  }

  lemma {:induction false} OpenListBlame(items: seq<Value>, run: Run, seen: set<u64>)
    requires Guarded(run) && ScanUnresolved(items, run, seen).Failure?
    ensures var r := ScanUnresolved(items, run, seen).error;
      OpenListBlamed(items, run, r) || (r == RepeatedIdentity && Repeated(items, seen))
  {
    var r := ScanUnresolved(items, run, seen).error;
    RepeatedHead(items, seen);
    UnresolvedKeysDistinct();
    FieldsAreExact(items[0], UNRESOLVED_KEYS);
    var next := FailedOffer(items[0], run, seen);
    if Fields(items[0], UNRESOLVED_KEYS).Fail? {
      assert OpenBlamed(items[0], run, r);
    } else if next.Failure? {
      UnfinishedBlame(items[0], run, seen);
      assert OpenBlamed(items[0], run, r) || r == RepeatedIdentity;
    } else {
      FailedOfferIff(items[0], run, seen, UNRESOLVED_KEYS);
      OpenListBlame(items[1..], run, next.value);
      if OpenListBlamed(items[1..], run, r) {
        var i :| 0 <= i < |items[1..]| && OpenBlamed(items[1..][i], run, r);
        assert OpenBlamed(items[i + 1], run, r);
      }
    }
  }

  lemma TallyBlame(entry: Value, run: Run, tally: Tally)
    requires Guarded(run) && |tally.counts| == 5 && TallyFailure(entry, run, tally).Failure?
    ensures var r := TallyFailure(entry, run, tally).error;
      FailureBlamed(entry, run, r) || (r == RepeatedIdentity && SequenceOf(entry) in tally.seen)
  {
    FailureKeysDistinct();
    FieldsAreExact(entry, FAILURE_KEYS);
    TallyFails(entry, run, tally);
    if FailedOffer(entry, run, tally.seen).Failure? { UnfinishedBlame(entry, run, tally.seen); }
  }

  lemma TallyFails(entry: Value, run: Run, tally: Tally)
    requires Guarded(run) && |tally.counts| == 5 && TallyFailure(entry, run, tally).Failure?
    ensures var r := TallyFailure(entry, run, tally).error;
      || (Fields(entry, FAILURE_KEYS).Fail? && r == FieldsMismatch)
      || (Choice(entry, Reason, REASONS).Failure? && r == BadChoice(Reason))
      || FailedOffer(entry, run, tally.seen) == Failure(r)
  {
  }

  lemma {:induction false} FailureListBlame(items: seq<Value>, run: Run, tally: Tally)
    requires Guarded(run) && |tally.counts| == 5 && ScanFailures(items, run, tally).Failure?
    ensures var r := ScanFailures(items, run, tally).error;
      FailureListBlamed(items, run, r) || (r == RepeatedIdentity && Repeated(items, tally.seen))
  {
    var r := ScanFailures(items, run, tally).error;
    RepeatedHead(items, tally.seen);
    var next := TallyFailure(items[0], run, tally);
    if next.Failure? {
      TallyBlame(items[0], run, tally);
      assert FailureBlamed(items[0], run, r) || r == RepeatedIdentity;
    } else {
      TallyIff(items[0], run, tally);
      FailureListBlame(items[1..], run, next.value);
      if FailureListBlamed(items[1..], run, r) {
        var i :| 0 <= i < |items[1..]| && FailureBlamed(items[1..][i], run, r);
        assert FailureBlamed(items[i + 1], run, r);
      }
    }
  }

  lemma SampleBlame(entry: Value, run: Run)
    requires Guarded(run) && DecodeSample(entry, run).Failure?
    ensures SampleBlamed(entry, run, DecodeSample(entry, run).error)
  {
    SampleKeysDistinct();
    FieldsAreExact(entry, SAMPLE_KEYS);
    SampleFails(entry, run);
    if OfferedTiming(entry, run, SettledNs).Failure? { TimesBlame(entry, run, SettledNs); }
  }

  lemma SampleFails(entry: Value, run: Run)
    requires Guarded(run) && DecodeSample(entry, run).Failure?
    ensures var r := DecodeSample(entry, run).error;
      || (Fields(entry, SAMPLE_KEYS).Fail? && r == FieldsMismatch)
      || (Get(entry, OutcomeName) != Text(Committed) && r == NotCommitted)
      || (r.BadNumber? && !IsWord(entry, r.key)
          && r.key in {RequestId, Transaction, OfferedSequence, ScheduledNs, EnqueuedNs, SettledNs})
      || OfferedTiming(entry, run, SettledNs) == Failure(r)
  {
  }

  lemma {:induction false} SampleListBlame(items: seq<Value>, run: Run, p: Progress)
    requires Guarded(run) && ScanSamples(items, run, p).Failure?
    ensures var r := ScanSamples(items, run, p).error;
      SampleListBlamed(items, run, r) || (r == BadSampleOrder && !SamplesFollow(items, run, p))
  {
    var r := ScanSamples(items, run, p).error;
    SamplesIff(items, run, p);
    var sample := DecodeSample(items[0], run);
    if sample.Failure? {
      SampleBlame(items[0], run);
      assert SampleBlamed(items[0], run, r);
    } else if Follows(sample.value, p.sequence, p.request, p.transaction)
              && sample.value.offeredSequence !in p.seen {
      var s := sample.value;
      SampleListBlame(items[1..], run,
        Progress(p.seen + {s.offeredSequence}, s.offeredSequence, s.requestId, s.transaction, p.samples + [s]));
      if SampleListBlamed(items[1..], run, r) {
        var i :| 0 <= i < |items[1..]| && SampleBlamed(items[1..][i], run, r);
        assert SampleBlamed(items[i + 1], run, r);
      }
    }
  }

  // ---- the header ----

  /** What a complaint about the header means. */
  predicate HeaderBlamed(value: Value, r: Refusal) {
    match r
    case FieldsMismatch => !(value.Object? && value.members.Keys == MEMBERS)
    case BadNumber(key) => key in MEMBERS && !IsWord(value, key)
    case BadChoice(Status) => Get(value, Status) !in {Text(Complete), Text(Failed)}
    case BadChoice(WireName) => Get(value, WireName) !in {Text(CurrentIpc), Text(NineP2000L)}
    case BadChoice(Kind) => Get(value, Kind) !in {Text(Move), Text(Resize)}
    case UnsupportedSchema => Get(value, Schema) != Number(1) || Get(value, Boundary) != Text(SessionBoundary)
    case UnknownQualification => !Qualified(value)
    case RateOrUpdatesOutOfRange =>
      Get(value, RateHz) !in {Number(60), Number(120)} || !(1 <= GetU64(value, RequestedUpdates) <= 100_000)
    case _ => false
  }

  lemma ReadHeaderFails(value: Value)
    requires ReadHeader(value).Failure?
    ensures HeaderBlamed(value, ReadHeader(value).error)
  {
  }

  lemma HeaderBlame(value: Value)
    requires DecodeHeader(value).Failure?
    ensures HeaderBlamed(value, DecodeHeader(value).error)
  {
    TopKeysAreMembers(value);
    if ReadHeader(value).Failure? { ReadHeaderFails(value); } else { ReadHeaderIff(value); }
  }

  // ---- the document ----

  predicate CountersBlamed(value: Value, run: Run, r: Refusal) {
    match r
    case NotAnArray(key) => key in {Samples, Failures, UnresolvedUpdates} && !Get(value, key).Array?
    case CountersExceedOffered =>
      run.offered > run.requestedUpdates
      || Max(Max(Max(run.admitted, run.rejected), Max(run.settled, run.coalesced)),
             Max(Max(run.timeouts, run.disconnects), Max(run.rejectedSettlements, run.unresolved))) > run.offered
    case TooManyRecords =>
      && Get(value, Failures).Array? && Get(value, UnresolvedUpdates).Array?
      && (|Get(value, Failures).items| > run.offered || |Get(value, UnresolvedUpdates).items| > run.offered)
    case IncoherentCounters =>
      Get(value, Samples).Array? && !Balances(run, |Get(value, Samples).items|)
    case CompleteWithFailedWork =>
      && Get(value, Failures).Array? && Get(value, UnresolvedUpdates).Array?
      && run.status == Complete
      && (run.rejected + run.timeouts + run.disconnects + run.rejectedSettlements + run.unresolved > 0
          || Get(value, Failures).items != [] || Get(value, UnresolvedUpdates).items != [] || Get(value, Error) != Null)
    case _ => false
  }

  /** The part of the accounting that does not look at what failed. */
  predicate Balances(run: Run, samples: nat) {
    && run.admitted + run.rejected == run.offered && run.settled == samples
    && run.admitted == run.settled + run.coalesced + run.timeouts + run.disconnects + run.rejectedSettlements
                       + run.unresolved
    && run.maxQueueDepth <= 1 && run.maxInFlight <= 1 && (run.settled > 0 ==> run.maxInFlight == 1)
    && (run.status == Complete ==> run.offered == run.requestedUpdates)
  }

  ghost predicate RecordsBlamed(
    run: Run, samples: seq<Value>, failures: seq<Value>, unresolved: seq<Value>, r: Refusal)
  {
    || OpenListBlamed(unresolved, run, r) || FailureListBlamed(failures, run, r) || SampleListBlamed(samples, run, r)
    || (r == RepeatedIdentity && !NoDup(Sequences(unresolved) + Sequences(failures)))
    || (r == ReasonsDisagree && !CategoriesMatch(failures, |unresolved|, run))
    || (r == BadSampleOrder
        && !(SampleRecords(samples, run) && InOrder(samples) && NoDup(Identities(unresolved, failures, samples))))
  }

  lemma UnfinishedFails(run: Run, failures: seq<Value>, unresolved: seq<Value>)
    requires Guarded(run) && ScanUnfinished(failures, unresolved, run).Failure?
    ensures var r, first := ScanUnfinished(failures, unresolved, run).error, ScanUnresolved(unresolved, run, {});
      || first == Failure(r)
      || (first.Success? && ScanFailures(failures, run, Tally(first.value, [0, 0, 0, 0, |unresolved|])) == Failure(r))
  {
  }

  lemma RepeatedBetween(failures: seq<Value>, unresolved: seq<Value>)
    ensures Repeated(unresolved, {}) || Repeated(failures, Elements(Sequences(unresolved))) ==>
      !NoDup(Sequences(unresolved) + Sequences(failures))
  {
    NoDupConcat(Sequences(unresolved), Sequences(failures));
  }

  lemma UnfinishedListsBlame(run: Run, failures: seq<Value>, unresolved: seq<Value>)
    requires Guarded(run) && ScanUnfinished(failures, unresolved, run).Failure?
    ensures var r := ScanUnfinished(failures, unresolved, run).error;
      || OpenListBlamed(unresolved, run, r) || FailureListBlamed(failures, run, r)
      || (r == RepeatedIdentity && !NoDup(Sequences(unresolved) + Sequences(failures)))
  {
    UnfinishedFails(run, failures, unresolved);
    RepeatedBetween(failures, unresolved);
    var first := ScanUnresolved(unresolved, run, {});
    if first.Failure? {
      OpenListBlame(unresolved, run, {});
    } else {
      OpenSeen(run, unresolved, first.value);
      FailureListBlame(failures, run, Tally(first.value, [0, 0, 0, 0, |unresolved|]));
    }
  }

  lemma OpenSeen(run: Run, unresolved: seq<Value>, seen: set<u64>)
    requires Guarded(run) && ScanUnresolved(unresolved, run, {}) == Success(seen)
    ensures seen == Elements(Sequences(unresolved))
  {
    UnresolvedIff(unresolved, run, {});
    assert {} + Elements(Sequences(unresolved)) == Elements(Sequences(unresolved));
  }

  lemma RecordsBlame(value: Value, run: Run, samples: seq<Value>, failures: seq<Value>, unresolved: seq<Value>)
    requires Guarded(run) && DecodeRecords(value, run, samples, failures, unresolved).Failure?
    ensures RecordsBlamed(run, samples, failures, unresolved,
                          DecodeRecords(value, run, samples, failures, unresolved).error)
  {
    var scanned := ScanUnfinished(failures, unresolved, run);
    if scanned.Failure? {
      UnfinishedListsBlame(run, failures, unresolved);
    } else {
      UnfinishedIff(failures, unresolved, run);
      CountsIff(scanned.value.counts, run, failures, |unresolved|);
      if scanned.value.counts == ExpectedCounts(run) {
        SampleListBlame(samples, run, Progress(scanned.value.seen, 0, 0, 0, []));
        SampleLoopIff(samples, run, scanned.value.seen);
        IdentitiesSplit(samples, failures, unresolved);
      }
    }
  }

  lemma ListsMissing(value: Value, run: Run)
    requires DecodeHeader(value) == Success(run) && DecodeRun(value).Failure?
    requires !(Get(value, Samples).Array? && Get(value, Failures).Array? && Get(value, UnresolvedUpdates).Array?)
    ensures CountersBlamed(value, run, DecodeRun(value).error)
  {
  }

  /** With its lists there, a document is refused for its counters or for its records. */
  lemma ListedFails(
    value: Value, run: Run, samples: seq<Value>, failures: seq<Value>, unresolved: seq<Value>, r: Refusal)
    requires DecodeHeader(value) == Success(run) && DecodeRun(value) == Failure(r)
    requires Get(value, Samples) == Array(samples) && Get(value, Failures) == Array(failures)
    requires Get(value, UnresolvedUpdates) == Array(unresolved)
    ensures || (r == CountersExceedOffered && !CountersWithinOffered(run))
      || (r == IncoherentCounters && Guarded(run) && CountersWithinOffered(run) && !CountersCoherent(run, |samples|))
      || (r == TooManyRecords && (|failures| > run.offered || |unresolved| > run.offered))
      || (r == CompleteWithFailedWork && run.status == Complete && !NothingFailed(value, run, failures, unresolved))
      || (Guarded(run) && DecodeRecords(value, run, samples, failures, unresolved) == Failure(r))
  {
  }

  lemma CountersFail(value: Value, run: Run, r: Refusal)
    requires DecodeHeader(value) == Success(run) && DecodeRun(value) == Failure(r)
    requires Get(value, Samples).Array? && Get(value, Failures).Array? && Get(value, UnresolvedUpdates).Array?
    ensures CountersBlamed(value, run, r)
      || (Guarded(run) && DecodeRecords(value, run, Get(value, Samples).items, Get(value, Failures).items,
                                        Get(value, UnresolvedUpdates).items) == Failure(r))
  {
    var samples, failures := Get(value, Samples).items, Get(value, Failures).items;
    ListedFails(value, run, samples, failures, Get(value, UnresolvedUpdates).items, r);
  }

  /** The defect a refusal names is there: in the header, in the counters against the
      lists, or in a record or the lists themselves. */
  lemma RefusalNamesDefect(value: Value, r: Refusal)
    requires DecodeRun(value) == Failure(r)
    ensures HeaderBlamed(value, r)
      || CountersBlamed(value, HeaderRun(value), r)
      || (Get(value, Samples).Array? && Get(value, Failures).Array? && Get(value, UnresolvedUpdates).Array?
          && RecordsBlamed(HeaderRun(value), Get(value, Samples).items, Get(value, Failures).items,
                           Get(value, UnresolvedUpdates).items, r))
  {
    HeaderIff(value);
    if DecodeHeader(value).Failure? {
      HeaderBlame(value);
    } else {
      HeadedBlame(value, HeaderRun(value), r);
    }
  }

  lemma HeadedBlame(value: Value, run: Run, r: Refusal)
    requires DecodeHeader(value) == Success(run) && DecodeRun(value) == Failure(r)
    ensures CountersBlamed(value, run, r)
      || (Get(value, Samples).Array? && Get(value, Failures).Array? && Get(value, UnresolvedUpdates).Array?
          && RecordsBlamed(run, Get(value, Samples).items, Get(value, Failures).items,
                           Get(value, UnresolvedUpdates).items, r))
  {
    if !(Get(value, Samples).Array? && Get(value, Failures).Array? && Get(value, UnresolvedUpdates).Array?) {
      ListsMissing(value, run);
    } else {
      CountersFail(value, run, r);
    }
    if !CountersBlamed(value, run, r) {
      RecordsBlame(value, run, Get(value, Samples).items, Get(value, Failures).items,
                   Get(value, UnresolvedUpdates).items);
    }
  }
}
