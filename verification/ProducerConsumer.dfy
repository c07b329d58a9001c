/** The capture writes a report; the decoder re-derives its accounting. This
    module proves that the two agree: every run that ends without a failed
    assertion leaves a report the decoder accepts, exactly when the owner kept
    its queue to one entry and issued increasing identities. */
module ProducerConsumer {
  import opened Prelude
  import opened ReportValue
  import opened CaptureLedger
  import opened CaptureInvariant
  import opened RunMeaning
  import RunDecoder
  import opened CaptureObject
  import opened LoopRuns

  /** A ledger whose custody is being closed: `rest` are the tickets still held. */
  predicate Balanced(c: Closing, rest: seq<Ticket>) {
    var l := c.ledger;
    && l.settings.Valid() && l.offered <= l.settings.updates
    && l.admitted + l.rejected == l.offered
    && l.admitted == l.coalesced + l.settled + l.timeouts + l.disconnects + l.rejectedSettlements
                     + l.unresolved + |rest|
    && |l.samples| == l.settled
    && l.maxInFlight <= 1 && (l.settled > 0 ==> l.maxInFlight == 1)
    && CountNotes(l.failures, 0) == l.rejected
    && CountNotes(l.failures, 1) == l.timeouts
    && CountNotes(l.failures, 2) == l.disconnects
    && CountNotes(l.failures, 3) == l.rejectedSettlements
    && CountNotes(l.failures, 4) + |c.open| == l.unresolved
  }

  predicate Timed(l: Ledger, t: Ticket, observed: u64) {
    t.sequence <= l.offered && TicketMinted(l.settings, t) && t.enqueued <= observed <= l.clock
  }

  predicate AllTimed(c: Closing, rest: seq<Ticket>) {
    var l := c.ledger;
    && (forall i :: 0 <= i < |rest| ==> Timed(l, rest[i], l.clock))
    && (forall i :: 0 <= i < |c.open| ==> Timed(l, c.open[i].ticket, c.open[i].observed))
    && (forall i :: 0 <= i < |l.failures| ==>
          Timed(l, l.failures[i].ticket, l.failures[i].observed) && l.failures[i].reason in RunDecoder.REASONS)
    && (forall i :: 0 <= i < |l.samples| ==>
          && l.samples[i].sequence <= l.offered
          && Minted(l.settings, l.samples[i].sequence, l.samples[i].scheduled, l.samples[i].enqueued)
          && l.samples[i].enqueued <= l.samples[i].settled <= l.clock)
  }

  /** Where each offer is: no two places share one. */
  predicate Apart(c: Closing, rest: seq<Ticket>) {
    var l := c.ledger;
    && (forall i, j :: 0 <= i < j < |rest| ==> rest[i].sequence != rest[j].sequence)
    && (forall i, j :: 0 <= i < j < |c.open| ==> c.open[i].ticket.sequence != c.open[j].ticket.sequence)
    && (forall i, j :: 0 <= i < j < |l.failures| ==> l.failures[i].ticket.sequence != l.failures[j].ticket.sequence)
    && (forall i, j :: 0 <= i < j < |l.samples| ==> l.samples[i].sequence < l.samples[j].sequence)
    && (forall i, j :: 0 <= i < |rest| && 0 <= j < |c.open| ==> rest[i].sequence != c.open[j].ticket.sequence)
    && (forall i, j :: 0 <= i < |rest| && 0 <= j < |l.failures| ==> rest[i].sequence != l.failures[j].ticket.sequence)
    && (forall i, j :: 0 <= i < |rest| && 0 <= j < |l.samples| ==> rest[i].sequence != l.samples[j].sequence)
    && (forall i, j :: 0 <= i < |c.open| && 0 <= j < |l.failures| ==>
          c.open[i].ticket.sequence != l.failures[j].ticket.sequence)
    && (forall i, j :: 0 <= i < |c.open| && 0 <= j < |l.samples| ==> c.open[i].ticket.sequence != l.samples[j].sequence)
    && (forall i, j :: 0 <= i < |l.failures| && 0 <= j < |l.samples| ==>
          l.failures[i].ticket.sequence != l.samples[j].sequence)
  }

  predicate Ready(c: Closing, rest: seq<Ticket>) {
    Balanced(c, rest) && AllTimed(c, rest) && Apart(c, rest)
  }

  function InCustody(l: Ledger): seq<Ticket> {
    (if l.active.Some? then [l.active.value] else []) + (if l.queued.Some? then [l.queued.value] else [])
  }

  function Opening(l: Ledger): Closing {
    Closing(l.(active := None, queued := None), [])
  }

  lemma InvIsReady(l: Ledger)
    requires Inv(l)
    ensures Ready(Opening(l), InCustody(l))
  {
    InvIsBalanced(l);
    InvIsTimed(l);
    InvIsApart(l);
  }

  lemma InvIsBalanced(l: Ledger)
    requires Counted(l)
    ensures Balanced(Opening(l), InCustody(l))
  {
  }

  lemma InvIsTimed(l: Ledger)
    requires Placed(l) && AllMinted(l)
    ensures AllTimed(Opening(l), InCustody(l))
  {
  }

  lemma InvIsApart(l: Ledger)
    requires Placed(l)
    ensures Apart(Opening(l), InCustody(l))
  {
  }

  lemma CloseBalances(c: Closing, rest: seq<Ticket>, disconnected: bool, deadline: bool, wait: nat)
    requires rest != [] && Balanced(c, rest) && Readable(c.ledger, wait)
    ensures Balanced(CloseTicket(c, rest[0], disconnected, deadline, wait), rest[1..])
  {
    if disconnected {
      DisconnectBalances(c, rest, wait);
    } else if deadline {
      DeadlineBalances(c, rest, wait);
    }
  }

  lemma DisconnectBalances(c: Closing, rest: seq<Ticket>, wait: nat)
    requires rest != [] && Balanced(c, rest) && Readable(c.ledger, wait)
    ensures var l := c.ledger.(disconnects := c.ledger.disconnects + 1);
      Balanced(Closing(NoteFailure(l, rest[0], Disconnected, wait), c.open), rest[1..])
  {
    TallyAfterNote(c.ledger, rest[0], Disconnected, wait);
  }

  lemma DeadlineBalances(c: Closing, rest: seq<Ticket>, wait: nat)
    requires rest != [] && Balanced(c, rest) && Readable(c.ledger, wait)
    ensures var l := c.ledger.(unresolved := c.ledger.unresolved + 1);
      Balanced(Closing(NoteFailure(l, rest[0], MeasurementDeadline, wait), c.open), rest[1..])
  {
    TallyAfterNote(c.ledger, rest[0], MeasurementDeadline, wait);
  }

  lemma CloseTimes(c: Closing, rest: seq<Ticket>, disconnected: bool, deadline: bool, wait: nat)
    requires rest != [] && AllTimed(c, rest) && Readable(c.ledger, wait)
    ensures AllTimed(CloseTicket(c, rest[0], disconnected, deadline, wait), rest[1..])
  {
  }

  lemma CloseParts(c: Closing, rest: seq<Ticket>, disconnected: bool, deadline: bool, wait: nat)
    requires rest != [] && Apart(c, rest) && Readable(c.ledger, wait)
    ensures Apart(CloseTicket(c, rest[0], disconnected, deadline, wait), rest[1..])
  {
  }

  lemma CloseReady(c: Closing, rest: seq<Ticket>, disconnected: bool, deadline: bool, wait: nat)
    requires rest != [] && Ready(c, rest) && Readable(c.ledger, wait)
    ensures Ready(CloseTicket(c, rest[0], disconnected, deadline, wait), rest[1..])
  {
    CloseBalances(c, rest, disconnected, deadline, wait);
    CloseTimes(c, rest, disconnected, deadline, wait);
    CloseParts(c, rest, disconnected, deadline, wait);
  }

  lemma ActiveFirst(l: Ledger)
    ensures l.active.None? ==> InCustody(l) == InCustody(l.(active := None))
    ensures l.active.Some? ==>
      InCustody(l) != [] && InCustody(l)[0] == l.active.value && InCustody(l)[1..] == InCustody(l.(active := None))
  {
  }

  lemma ActiveIsReady(l: Ledger, disconnected: bool, deadline: bool, waits: Waits)
    requires Inv(l) && ReportReadable(l, waits)
    ensures Ready(CloseActive(l, disconnected, deadline, waits), InCustody(l.(active := None)))
  {
    InvIsReady(l);
    ActiveFirst(l);
    OpeningCloses(l, InCustody(l), disconnected, deadline, waits);
  }

  lemma OpeningCloses(l: Ledger, held: seq<Ticket>, disconnected: bool, deadline: bool, waits: Waits)
    requires ReportReadable(l, waits) && Ready(Opening(l), held)
    requires l.active.Some? ==> held != [] && held[0] == l.active.value
    ensures Ready(CloseActive(l, disconnected, deadline, waits), if l.active.Some? then held[1..] else held)
  {
    if l.active.Some? {
      CloseReady(Opening(l), held, disconnected, deadline, waits.first);
    }
  }

  lemma BothIsReady(l: Ledger, disconnected: bool, deadline: bool, waits: Waits)
    requires Inv(l) && ReportReadable(l, waits)
    ensures Ready(CloseBoth(l, disconnected, deadline, waits), [])
  {
    ActiveIsReady(l, disconnected, deadline, waits);
    if l.queued.Some? {
      var rest := InCustody(l.(active := None));
      CloseReady(CloseActive(l, disconnected, deadline, waits), rest, disconnected, deadline, waits.second);
      assert rest[1..] == [];
    }
  }

  lemma LaterIsReady(c: Closing, later: Closing)
    requires Ready(c, [])
    requires later.open == c.open && later.ledger.clock >= c.ledger.clock
    requires later.ledger == c.ledger.(clock := later.ledger.clock)
    ensures Ready(later, [])
  {
  }

  /** Closing all custody keeps the accounting balanced with nothing held. */
  lemma ClosingIsReady(l: Ledger, disconnected: bool, deadline: bool, waits: Waits)
    requires Inv(l) && ReportReadable(l, waits)
    ensures Ready(CloseAll(l, disconnected, deadline, waits), [])
  {
    BothIsReady(l, disconnected, deadline, waits);
    LaterIsReady(CloseBoth(l, disconnected, deadline, waits), CloseAll(l, disconnected, deadline, waits));
  }

  // ---- the report's header ----

  /** The header the decoder reads back from a report. */
  function HeaderOf(l: Ledger, error: Value): RunDecoder.Run
    requires l.settings.Valid() && Words(l)
  {
    RunDecoder.Run(if error.Null? && l.rejected == 0 then Complete else Failed, l.settings.wire, l.settings.kind,
      l.settings.rate, l.settings.updates, l.offered, l.admitted, l.rejected, l.rejectedSettlements, l.unresolved,
      l.coalesced, l.settled, l.timeouts, l.disconnects, l.maxInFlight, l.maxQueueDepth, l.clock, [])
  }

  /** Every counter is a 64-bit word, as the producer's integers are. */
  predicate Words(l: Ledger) {
    && l.offered < TWO64 && l.admitted < TWO64 && l.rejected < TWO64 && l.coalesced < TWO64 && l.settled < TWO64
    && l.timeouts < TWO64 && l.disconnects < TWO64 && l.rejectedSettlements < TWO64 && l.unresolved < TWO64
    && l.maxInFlight < TWO64 && l.maxQueueDepth < TWO64
  }

  lemma ReportHasTopKeys(c: Closing, error: Value)
    ensures Fields(ReportValueOf(c, error), RunDecoder.TOP_KEYS).Pass?
  {
    TopKeysDistinct();
    var report := ReportValueOf(c, error);
    FieldsAreExact(report, RunDecoder.TOP_KEYS);
    assert report.members.Keys == Elements(RunDecoder.TOP_KEYS);
  }

  lemma ReportSettings(c: Closing, error: Value)
    ensures var report, l := ReportValueOf(c, error), c.ledger;
      && Get(report, Schema) == Number(1)
      && Get(report, RateHz) == Number(l.settings.rate) && Get(report, RequestedUpdates) == Number(l.settings.updates)
  {
  }

  lemma ReportOffers(c: Closing, error: Value)
    ensures var report, l := ReportValueOf(c, error), c.ledger;
      Get(report, Offered) == Number(l.offered) && Get(report, Key.Admitted) == Number(l.admitted)
  {
  }

  lemma ReportRetained(c: Closing, error: Value)
    ensures var report, l := ReportValueOf(c, error), c.ledger;
      && Get(report, Rejected) == Number(l.rejected) && Get(report, Coalesced) == Number(l.coalesced)
      && Get(report, Settled) == Number(l.settled)
  {
  }

  lemma ReportOutcomes(c: Closing, error: Value)
    ensures var report, l := ReportValueOf(c, error), c.ledger;
      && Get(report, Rejected) == Number(l.rejected) && Get(report, Coalesced) == Number(l.coalesced)
      && Get(report, Settled) == Number(l.settled) && Get(report, Timeouts) == Number(l.timeouts)
      && Get(report, RejectedSettlements) == Number(l.rejectedSettlements)
  {
    ReportRetained(c, error);
  }

  lemma ReportBounds(c: Closing, error: Value)
    ensures var report, l := ReportValueOf(c, error), c.ledger;
      && Get(report, Disconnects) == Number(l.disconnects)
      && Get(report, Unresolved) == Number(l.unresolved)
      && Get(report, MaxInFlight) == Number(l.maxInFlight) && Get(report, MaxQueueDepth) == Number(l.maxQueueDepth)
      && Get(report, ElapsedNs) == Number(l.clock)
  {
  }

  lemma ReportTexts(c: Closing, error: Value)
    ensures var report, l := ReportValueOf(c, error), c.ledger;
      && Get(report, Status) == Text(if error.Null? && l.rejected == 0 then Complete else Failed)
      && Get(report, WireName) == Text(l.settings.wire) && Get(report, Kind) == Text(l.settings.kind)
      && Get(report, Boundary) == Text(SessionBoundary)
      && Get(report, CheckpointMode) == Text(NormalCheckpoint) && Get(report, FrontendAcks) == Text(SuppliedAcks)
      && Get(report, Pixels) == Text(SuppliedPixels) && Get(report, Acceptance) == Bool(false)
  {
  }

  lemma ReportLists(c: Closing, error: Value)
    ensures var report, l := ReportValueOf(c, error), c.ledger;
      && Get(report, Error) == error
      && Get(report, Samples) == Array(SampleValues(l.samples))
      && Get(report, Failures) == Array(FailureValues(l.failures))
      && Get(report, UnresolvedUpdates) == Array(OpenValues(c.open))
  {
  }

  /** Reading the header is reading its members one by one. */
  lemma HeaderFromMembers(value: Value, run: RunDecoder.Run)
    requires Get(value, Status) == Text(run.status) && run.status in {Complete, Failed}
    requires Get(value, WireName) == Text(run.wire) && run.wire in {CurrentIpc, NineP2000L}
    requires Get(value, Kind) == Text(run.kind) && run.kind in {Move, Resize}
    requires Get(value, RateHz) == Number(run.rateHz) && Get(value, RequestedUpdates) == Number(run.requestedUpdates)
    requires Get(value, Offered) == Number(run.offered) && Get(value, Key.Admitted) == Number(run.admitted)
    requires Get(value, Rejected) == Number(run.rejected) && Get(value, Coalesced) == Number(run.coalesced)
    requires Get(value, Settled) == Number(run.settled) && Get(value, Timeouts) == Number(run.timeouts)
    requires Get(value, Disconnects) == Number(run.disconnects)
    requires Get(value, RejectedSettlements) == Number(run.rejectedSettlements)
    requires Get(value, Unresolved) == Number(run.unresolved)
    requires Get(value, MaxInFlight) == Number(run.maxInFlight)
    requires Get(value, MaxQueueDepth) == Number(run.maxQueueDepth)
    requires Get(value, ElapsedNs) == Number(run.elapsedNs) && run.samples == []
    ensures RunDecoder.ReadHeader(value) == Success(run)
  {
  }

  lemma QualifiedHeader(value: Value, run: RunDecoder.Run)
    requires Fields(value, RunDecoder.TOP_KEYS).Pass? && RunDecoder.ReadHeader(value) == Success(run)
    requires Get(value, Schema) == Number(1) && Get(value, Boundary) == Text(SessionBoundary)
    requires Get(value, CheckpointMode) == Text(NormalCheckpoint) && Get(value, FrontendAcks) == Text(SuppliedAcks)
    requires Get(value, Pixels) == Text(SuppliedPixels) && Get(value, Acceptance) == Bool(false)
    requires Get(value, Error).Null? || Get(value, Error).Text?
    requires (run.rateHz == 60 || run.rateHz == 120) && 1 <= run.requestedUpdates <= RunDecoder.MAX_UPDATES
    ensures RunDecoder.DecodeHeader(value) == Success(run)
  {
  }

  lemma HeaderReadsBack(c: Closing, error: Value)
    requires c.ledger.settings.Valid() && Words(c.ledger) && (error.Null? || error.Text?)
    ensures RunDecoder.DecodeHeader(ReportValueOf(c, error)) == Success(HeaderOf(c.ledger, error))
  {
    ReportHasTopKeys(c, error);
    ReportSettings(c, error);
    ReportOffers(c, error);
    ReportOutcomes(c, error);
    ReportBounds(c, error);
    ReportTexts(c, error);
    ReportLists(c, error);
    HeaderFromMembers(ReportValueOf(c, error), HeaderOf(c.ledger, error));
    QualifiedHeader(ReportValueOf(c, error), HeaderOf(c.ledger, error));
  }

  // ---- the report's records ----

  /** A record whose members are a minted ticket's is on schedule. */
  lemma MembersAreTimed(entry: Value, end: Key, l: Ledger, run: RunDecoder.Run,
                        sequence: nat, scheduled: u64, enqueued: u64, finished: u64)
    requires l.settings.Valid() && run.rateHz == l.settings.rate && run.offered == l.offered && l.clock <= run.elapsedNs
    requires sequence <= l.offered && Minted(l.settings, sequence, scheduled, enqueued)
    requires enqueued <= finished <= l.clock
    requires Get(entry, OfferedSequence) == Number(sequence) && Get(entry, ScheduledNs) == Number(scheduled)
    requires Get(entry, EnqueuedNs) == Number(enqueued) && Get(entry, end) == Number(finished)
    ensures TimedOffer(entry, run, end) && SequenceOf(entry) == sequence
  {
    ScheduleIsQuotient(sequence, scheduled, run.rateHz);
  }

  lemma OptionalReads(id: Option<u64>)
    ensures RunDecoder.OptionalIdentity(OptionalNumber(id)) <==> Positive(id)
  {
  }

  lemma FailureMembers(note: FailureNote)
    ensures var value, t := FailureValue(note), note.ticket;
      && value.members.Keys == Elements(RunDecoder.FAILURE_KEYS)
      && Get(value, RequestId) == OptionalNumber(t.request) && Get(value, Transaction) == OptionalNumber(t.transaction)
  {
  }

  lemma FailureTimes(note: FailureNote)
    ensures var value, t := FailureValue(note), note.ticket;
      && Get(value, OfferedSequence) == Number(t.sequence) && Get(value, Reason) == Text(note.reason)
      && Get(value, ScheduledNs) == Number(t.scheduled) && Get(value, EnqueuedNs) == Number(t.enqueued)
      && Get(value, ObservedNs) == Number(note.observed)
  {
  }

  lemma FailureValueReads(note: FailureNote, l: Ledger, run: RunDecoder.Run)
    requires l.settings.Valid() && run.rateHz == l.settings.rate && run.offered == l.offered && l.clock <= run.elapsedNs
    requires Timed(l, note.ticket, note.observed) && note.reason in RunDecoder.REASONS
    ensures FailureRecord(FailureValue(note), run) <==>
      Positive(note.ticket.request) && Positive(note.ticket.transaction)
    ensures SequenceOf(FailureValue(note)) == note.ticket.sequence
  {
    var t := note.ticket;
    FailureMembers(note);
    FailureTimes(note);
    MembersAreTimed(FailureValue(note), ObservedNs, l, run, t.sequence, t.scheduled, t.enqueued, note.observed);
    OptionalReads(t.request);
    OptionalReads(t.transaction);
  }

  lemma OpenMembers(note: OpenNote)
    ensures var value, t := UnresolvedValue(note.ticket, note.observed), note.ticket;
      && value.members.Keys == Elements(RunDecoder.UNRESOLVED_KEYS)
      && Get(value, RequestId) == OptionalNumber(t.request) && Get(value, Transaction) == OptionalNumber(t.transaction)
  {
  }

  lemma OpenValueReads(note: OpenNote, l: Ledger, run: RunDecoder.Run)
    requires l.settings.Valid() && run.rateHz == l.settings.rate && run.offered == l.offered && l.clock <= run.elapsedNs
    requires Timed(l, note.ticket, note.observed)
    ensures UnfinishedRecord(UnresolvedValue(note.ticket, note.observed), run, RunDecoder.UNRESOLVED_KEYS) <==>
      Positive(note.ticket.request) && Positive(note.ticket.transaction)
    ensures SequenceOf(UnresolvedValue(note.ticket, note.observed)) == note.ticket.sequence
  {
    var value, t := UnresolvedValue(note.ticket, note.observed), note.ticket;
    OpenMembers(note);
    MembersAreTimed(value, ObservedNs, l, run, t.sequence, t.scheduled, t.enqueued, note.observed);
    OptionalReads(t.request);
    OptionalReads(t.transaction);
  }

  lemma SampleMembers(note: SampleNote)
    ensures var value := SampleValue(note);
      && value.members.Keys == Elements(RunDecoder.SAMPLE_KEYS)
      && Get(value, OutcomeName) == Text(Committed)
      && Get(value, RequestId) == Number(note.request) && Get(value, Transaction) == Number(note.transaction)
  {
  }

  lemma SampleTimes(note: SampleNote)
    ensures var value := SampleValue(note);
      && Get(value, OfferedSequence) == Number(note.sequence)
      && Get(value, ScheduledNs) == Number(note.scheduled) && Get(value, EnqueuedNs) == Number(note.enqueued)
      && Get(value, SettledNs) == Number(note.settled)
  {
  }

  lemma SampleValueReads(note: SampleNote, l: Ledger, run: RunDecoder.Run)
    requires l.settings.Valid() && run.rateHz == l.settings.rate && run.offered == l.offered && l.clock <= run.elapsedNs
    requires note.sequence <= l.offered && Minted(l.settings, note.sequence, note.scheduled, note.enqueued)
    requires note.enqueued <= note.settled <= l.clock
    ensures SampleRecord(SampleValue(note), run) <==> note.request > 0 && note.transaction > 0
    ensures SequenceOf(SampleValue(note)) == note.sequence
    ensures RequestOf(SampleValue(note)) == note.request && TransactionOf(SampleValue(note)) == note.transaction
  {
    SampleMembers(note);
    SampleTimes(note);
    MembersAreTimed(SampleValue(note), SettledNs, l, run, note.sequence, note.scheduled, note.enqueued, note.settled);
  }

  lemma {:induction false} CategoriesReadBack(notes: seq<FailureNote>, category: nat)
    ensures CountCategory(FailureValues(notes), category) == CountNotes(notes, category)
  {
    if notes == [] {
    } else {
      assert FailureValues(notes)[1..] == FailureValues(notes[1..]);
      CategoriesReadBack(notes[1..], category);
    }
  }

  predicate Describes(run: RunDecoder.Run, l: Ledger) {
    && l.settings.Valid() && run.rateHz == l.settings.rate && run.offered == l.offered && l.clock <= run.elapsedNs
    && run.rejected == l.rejected && run.timeouts == l.timeouts && run.disconnects == l.disconnects
    && run.unresolved == l.unresolved && run.rejectedSettlements == l.rejectedSettlements
  }

  lemma OpenReadBack(c: Closing, run: RunDecoder.Run)
    requires AllTimed(c, []) && Describes(run, c.ledger)
    ensures var open := OpenValues(c.open);
      && (forall i :: 0 <= i < |open| ==> SequenceOf(open[i]) == c.open[i].ticket.sequence)
      && (OpenRecords(open, run) <==> OpenIdentities(c))
  {
    var open := OpenValues(c.open);
    forall i | 0 <= i < |open|
      ensures SequenceOf(open[i]) == c.open[i].ticket.sequence
      ensures UnfinishedRecord(open[i], run, RunDecoder.UNRESOLVED_KEYS) <==>
        Positive(c.open[i].ticket.request) && Positive(c.open[i].ticket.transaction)
    {
      OpenValueReads(c.open[i], c.ledger, run);
    }
  }

  lemma FailuresReadBack(c: Closing, run: RunDecoder.Run)
    requires AllTimed(c, []) && Describes(run, c.ledger)
    ensures var notes := c.ledger.failures;
      var values := FailureValues(notes);
      && (forall i :: 0 <= i < |values| ==> SequenceOf(values[i]) == notes[i].ticket.sequence)
      && (FailureRecords(values, run) <==> FailedIdentities(c))
  {
    var notes := c.ledger.failures;
    var values := FailureValues(notes);
    forall i | 0 <= i < |values|
      ensures SequenceOf(values[i]) == notes[i].ticket.sequence
      ensures FailureRecord(values[i], run) <==>
        Positive(notes[i].ticket.request) && Positive(notes[i].ticket.transaction)
    {
      FailureValueReads(notes[i], c.ledger, run);
    }
  }

  lemma SamplesReadBack(c: Closing, run: RunDecoder.Run)
    requires AllTimed(c, []) && Describes(run, c.ledger)
    ensures var notes := c.ledger.samples;
      var values := SampleValues(notes);
      && (forall i :: 0 <= i < |values| ==> SequenceOf(values[i]) == notes[i].sequence)
      && (forall i :: 0 <= i < |values| ==>
            RequestOf(values[i]) == notes[i].request && TransactionOf(values[i]) == notes[i].transaction)
      && (SampleRecords(values, run) <==> SampledIdentities(c))
  {
    var notes := c.ledger.samples;
    var values := SampleValues(notes);
    forall i | 0 <= i < |values|
      ensures SequenceOf(values[i]) == notes[i].sequence
      ensures RequestOf(values[i]) == notes[i].request && TransactionOf(values[i]) == notes[i].transaction
      ensures SampleRecord(values[i], run) <==> notes[i].request > 0 && notes[i].transaction > 0
    {
      SampleValueReads(notes[i], c.ledger, run);
    }
  }

  lemma ApartIsDistinct(c: Closing, u: seq<u64>, f: seq<u64>, s: seq<u64>)
    requires Apart(c, [])
    requires |u| == |c.open| && forall i :: 0 <= i < |u| ==> u[i] == c.open[i].ticket.sequence
    requires |f| == |c.ledger.failures| && forall i :: 0 <= i < |f| ==> f[i] == c.ledger.failures[i].ticket.sequence
    requires |s| == |c.ledger.samples| && forall i :: 0 <= i < |s| ==> s[i] == c.ledger.samples[i].sequence
    ensures NoDup(u) && NoDup(f) && NoDup(s)
    ensures Elements(f) !! Elements(u) && Elements(s) !! Elements(u) + Elements(f)
  {
  }

  lemma ApartReadsDistinct(c: Closing, open: seq<Value>, failures: seq<Value>, samples: seq<Value>)
    requires Apart(c, [])
    requires |open| == |c.open| && forall i :: 0 <= i < |open| ==> SequenceOf(open[i]) == c.open[i].ticket.sequence
    requires |failures| == |c.ledger.failures|
    requires forall i :: 0 <= i < |failures| ==> SequenceOf(failures[i]) == c.ledger.failures[i].ticket.sequence
    requires |samples| == |c.ledger.samples|
    requires forall i :: 0 <= i < |samples| ==> SequenceOf(samples[i]) == c.ledger.samples[i].sequence
    ensures NoDup(Identities(open, failures, samples))
  {
    ApartIsDistinct(c, Sequences(open), Sequences(failures), Sequences(samples));
    IdentitiesSplit(samples, failures, open);
  }

  predicate OpenIdentities(c: Closing) {
    forall i :: 0 <= i < |c.open| ==> Positive(c.open[i].ticket.request) && Positive(c.open[i].ticket.transaction)
  }

  predicate FailedIdentities(c: Closing) {
    var notes := c.ledger.failures;
    forall i :: 0 <= i < |notes| ==> Positive(notes[i].ticket.request) && Positive(notes[i].ticket.transaction)
  }

  predicate SampledIdentities(c: Closing) {
    var notes := c.ledger.samples;
    forall i :: 0 <= i < |notes| ==> notes[i].request > 0 && notes[i].transaction > 0
  }

  predicate IncreasingIdentities(c: Closing) {
    var notes := c.ledger.samples;
    forall i, j :: 0 <= i < j < |notes| ==>
      notes[i].request < notes[j].request && notes[i].transaction < notes[j].transaction
  }

  predicate ClosedIdentities(c: Closing) {
    OpenIdentities(c) && FailedIdentities(c) && SampledIdentities(c) && IncreasingIdentities(c)
  }

  lemma OrderReadsBack(c: Closing, run: RunDecoder.Run)
    requires AllTimed(c, []) && Apart(c, []) && Describes(run, c.ledger)
    ensures InOrder(SampleValues(c.ledger.samples)) <==> IncreasingIdentities(c)
  {
    SamplesReadBack(c, run);
    var notes := c.ledger.samples;
    var values := SampleValues(notes);
    forall i, j | 0 <= i < j < |values|
      ensures Before(values[i], values[j]) <==>
        notes[i].request < notes[j].request && notes[i].transaction < notes[j].transaction
    {
    }
  }

  lemma RecordsReadBack(c: Closing, run: RunDecoder.Run)
    requires Ready(c, []) && Describes(run, c.ledger)
    ensures RecordsCoherent(
        run, SampleValues(c.ledger.samples), FailureValues(c.ledger.failures), OpenValues(c.open)) <==>
      ClosedIdentities(c)
  {
    CountersMatch(c, run);
    OpenReadBack(c, run);
    FailuresReadBack(c, run);
    SamplesReadBack(c, run);
    OrderReadsBack(c, run);
    ApartReadsDistinct(c, OpenValues(c.open), FailureValues(c.ledger.failures), SampleValues(c.ledger.samples));
  }

  lemma CountersMatch(c: Closing, run: RunDecoder.Run)
    requires Balanced(c, []) && Describes(run, c.ledger)
    ensures CategoriesMatch(FailureValues(c.ledger.failures), |OpenValues(c.open)|, run)
  {
    CategoriesAreReasons(FailureValues(c.ledger.failures));
    forall k: nat ensures CountCategory(FailureValues(c.ledger.failures), k) == CountNotes(c.ledger.failures, k) {
      CategoriesReadBack(c.ledger.failures, k);
    }
  }

  lemma CloseKeepsIdentities(c: Closing, ticket: Ticket, disconnected: bool, deadline: bool, wait: nat)
    requires Readable(c.ledger, wait)
    ensures ClosedIdentities(CloseTicket(c, ticket, disconnected, deadline, wait)) <==>
      ClosedIdentities(c) && Positive(ticket.request) && Positive(ticket.transaction)
  {
    var next := CloseTicket(c, ticket, disconnected, deadline, wait);
    assert forall i :: 0 <= i < |c.open| ==> next.open[i] == c.open[i];
    assert forall i :: 0 <= i < |c.ledger.failures| ==> next.ledger.failures[i] == c.ledger.failures[i];
    if disconnected || deadline {
      assert next.ledger.failures[|c.ledger.failures|].ticket == ticket;
    } else {
      assert next.open[|c.open|].ticket == ticket;
    }
  }

  predicate TicketPositive(held: Option<Ticket>) {
    held.Some? ==> Positive(held.value.request) && Positive(held.value.transaction)
  }

  lemma CloseActiveIdentities(l: Ledger, disconnected: bool, deadline: bool, waits: Waits)
    requires ReportReadable(l, waits)
    ensures ClosedIdentities(CloseActive(l, disconnected, deadline, waits)) <==>
      ClosedIdentities(Opening(l)) && TicketPositive(l.active)
  {
    if l.active.Some? {
      CloseKeepsIdentities(Opening(l), l.active.value, disconnected, deadline, waits.first);
    }
  }

  lemma CloseBothIdentities(l: Ledger, disconnected: bool, deadline: bool, waits: Waits)
    requires ReportReadable(l, waits)
    ensures ClosedIdentities(CloseBoth(l, disconnected, deadline, waits)) <==>
      ClosedIdentities(Opening(l)) && TicketPositive(l.active) && TicketPositive(l.queued)
  {
    CloseActiveIdentities(l, disconnected, deadline, waits);
    if l.queued.Some? {
      var c := CloseActive(l, disconnected, deadline, waits);
      CloseKeepsIdentities(c, l.queued.value, disconnected, deadline, waits.second);
    }
  }

  lemma SameIdentities(c: Closing, d: Closing)
    requires c.open == d.open && c.ledger.failures == d.ledger.failures && c.ledger.samples == d.ledger.samples
    ensures ClosedIdentities(c) <==> ClosedIdentities(d)
  {
  }

  lemma ClosedIdentitiesIff(l: Ledger, disconnected: bool, deadline: bool, waits: Waits)
    requires ReportReadable(l, waits)
    ensures ClosedIdentities(CloseAll(l, disconnected, deadline, waits)) <==> IdentitiesAdvance(l)
  {
    CloseBothIdentities(l, disconnected, deadline, waits);
    SameIdentities(CloseAll(l, disconnected, deadline, waits), CloseBoth(l, disconnected, deadline, waits));
    assert IdentitiesAdvance(l) <==>
      ClosedIdentities(Opening(l)) && TicketPositive(l.active) && TicketPositive(l.queued);
  }

  // ---- the report as a whole ----

  /** How the loop can have left the ledger when no error is reported. */
  predicate CleanExit(l: Ledger, error: Option<Fault>) {
    error.None? ==> Unfailed(l) && l.active.None? && l.queued.None?
  }

  lemma BalancedIsUnbroken(c: Closing, error: Option<Fault>)
    requires Balanced(c, [])
    ensures Broken(c.ledger, error) <==> error.None? && c.ledger.offered != c.ledger.settings.updates
  {
  }

  lemma CloseAllCounters(l: Ledger, disconnected: bool, deadline: bool, waits: Waits)
    requires ReportReadable(l, waits)
    ensures var end := CloseAll(l, disconnected, deadline, waits).ledger;
      && end.settings == l.settings && end.offered == l.offered && end.admitted == l.admitted
      && end.rejected == l.rejected && end.coalesced == l.coalesced && end.settled == l.settled
      && end.timeouts == l.timeouts && end.rejectedSettlements == l.rejectedSettlements
      && end.maxInFlight == l.maxInFlight && end.maxQueueDepth == l.maxQueueDepth && end.samples == l.samples
      && end.disconnects + end.unresolved == l.disconnects + l.unresolved + Held(l.active) + Held(l.queued)
      && (l.active.None? && l.queued.None? ==> end.(clock := l.clock) == l)
  {
  }

  lemma WordsWithinDepth(c: Closing)
    requires Balanced(c, []) && c.ledger.maxQueueDepth < TWO64
    ensures Words(c.ledger)
  {
  }

  /** A report whose deepest queue is not a word cannot even be read. */
  lemma DeepQueueIsRefused(c: Closing, error: Value)
    requires c.ledger.maxQueueDepth >= TWO64
    ensures RunDecoder.DecodeHeader(ReportValueOf(c, error)).Failure?
  {
    ReportBounds(c, error);
    MissingDepth(ReportValueOf(c, error));
  }

  lemma MissingDepth(value: Value)
    requires NumberAt(value, MaxQueueDepth).Failure?
    ensures RunDecoder.ReadHeader(value).Failure? && RunDecoder.DecodeHeader(value).Failure?
  {
  }

  lemma CountersReadBack(c: Closing, run: RunDecoder.Run, complete: bool)
    requires Balanced(c, []) && Words(c.ledger)
    requires complete ==> c.ledger.offered == c.ledger.settings.updates
    requires run == HeaderOf(c.ledger, if complete then Null else Text(Complete))
    ensures CountersBalance(run) && run.settled == |c.ledger.samples|
    ensures run.maxQueueDepth <= 1 <==> c.ledger.maxQueueDepth <= 1
    ensures run.status == Complete ==> complete && run.rejected == 0
  {
  }

  /** The part of a document's accounting that its header alone decides. */
  predicate CountersBalance(run: RunDecoder.Run) {
    && run.offered <= run.requestedUpdates && run.admitted + run.rejected == run.offered
    && run.admitted == run.settled + run.coalesced + run.timeouts + run.disconnects + run.rejectedSettlements
                       + run.unresolved
    && run.maxInFlight <= 1 && (run.settled > 0 ==> run.maxInFlight == 1)
  }

  predicate NothingLost(c: Closing) {
    && c.ledger.offered == c.ledger.settings.updates && c.open == []
    && c.ledger.timeouts + c.ledger.disconnects + c.ledger.rejectedSettlements + c.ledger.unresolved == 0
  }

  /** The report of a consistent ledger is accepted exactly when its identities
      advance and its queue never exceeded one entry. */
  lemma ReportAccepted(c: Closing, error: Value)
    requires Ready(c, []) && (error.Null? || error.Text?)
    requires error.Null? ==> NothingLost(c)
    ensures Acceptable(ReportValueOf(c, error)) <==> ClosedIdentities(c) && c.ledger.maxQueueDepth <= 1
  {
    HeaderIff(ReportValueOf(c, error));
    if c.ledger.maxQueueDepth >= TWO64 {
      DeepQueueIsRefused(c, error);
    } else {
      WordsWithinDepth(c);
      HeaderReadsBack(c, error);
      ReportConsistent(c, error, HeaderOf(c.ledger, error));
    }
  }

  lemma ReportConsistent(c: Closing, error: Value, run: RunDecoder.Run)
    requires Ready(c, []) && Words(c.ledger) && run == HeaderOf(c.ledger, error)
    requires error.Null? ==> NothingLost(c)
    ensures Consistent(ReportValueOf(c, error), run) <==> ClosedIdentities(c) && c.ledger.maxQueueDepth <= 1
  {
    ReportLists(c, error);
    CountersReadBack(c, run, error.Null?);
    RecordsReadBack(c, run);
    CategoriesTotal(c.ledger.failures);
    if run.status == Complete { CompleteFailedNothing(c); }
  }

  /** When nothing was lost or rejected, nothing was noted. */
  lemma CompleteFailedNothing(c: Closing)
    requires Balanced(c, []) && NothingLost(c) && c.ledger.rejected == 0
    requires forall i :: 0 <= i < |c.ledger.failures| ==> c.ledger.failures[i].reason in RunDecoder.REASONS
    ensures c.ledger.failures == []
  {
    CategoriesTotal(c.ledger.failures);
  }

  /** Every noted reason belongs to one of the five counters. */
  lemma {:induction false} CategoriesTotal(notes: seq<FailureNote>)
    ensures (forall i :: 0 <= i < |notes| ==> notes[i].reason in RunDecoder.REASONS)
      ==> CountNotes(notes, 0) + CountNotes(notes, 1) + CountNotes(notes, 2) + CountNotes(notes, 3)
          + CountNotes(notes, 4) == |notes|
  {
    if notes == [] {
    } else {
      CategoriesTotal(notes[1..]);
    }
  }

  lemma CleanExitLosesNothing(l: Ledger, error: Option<Fault>, disconnected: bool, deadline: bool, waits: Waits)
    requires Inv(l) && CleanExit(l, error) && ReportReadable(l, waits)
    ensures var c := CloseAll(l, disconnected, deadline, waits);
      FinalError(c.ledger, error).Null? ==> NothingLost(c)
  {
    var c := CloseAll(l, disconnected, deadline, waits);
    ClosingIsReady(l, disconnected, deadline, waits);
    BalancedIsUnbroken(c, error);
  }

  lemma FinishedReportAcceptable(l: Ledger, error: Option<Fault>, disconnected: bool, waits: Waits)
    requires Inv(l) && CleanExit(l, error) && ReportReadable(l, waits)
    ensures Acceptable(Finish(l, error, disconnected, waits)) <==> IdentitiesAdvance(l) && l.maxQueueDepth <= 1
  {
    var deadline := error == Some(AbsoluteDeadline);
    var c := CloseAll(l, disconnected, deadline, waits);
    ClosingIsReady(l, disconnected, deadline, waits);
    CleanExitLosesNothing(l, error, disconnected, deadline, waits);
    CloseAllCounters(l, disconnected, deadline, waits);
    ClosedIdentitiesIff(l, disconnected, deadline, waits);
    ReportAccepted(c, FinalError(c.ledger, error));
  }

  /** Producer meets consumer, both ways: from any consistent ledger the finished
      report is accepted exactly when the owner kept its queue to one entry and
      its identities advanced. */
  lemma FinishedReportAccepted(l: Ledger, error: Option<Fault>, disconnected: bool, waits: Waits)
    requires Inv(l) && CleanExit(l, error) && ReportReadable(l, waits)
    ensures RunDecoder.DecodeRun(Finish(l, error, disconnected, waits)).Success? <==>
      IdentitiesAdvance(l) && l.maxQueueDepth <= 1
  {
    FinishedReportAcceptable(l, error, disconnected, waits);
    DecodeIffAcceptable(Finish(l, error, disconnected, waits));
  }

  /** Every run of an honest owner that does not end in a failed assertion leaves
      an accepted report: complete, refused, timed out, disconnected, out of time
      or stopped by any other error. */
  lemma HonestRunsAreAccepted(settings: Settings, steps: seq<Step>, end: Ledger, stop: Option<Stop>,
                              error: Option<Fault>, disconnected: bool, waits: Waits)
    requires settings.Valid() && Run(Opened(settings), steps, end, stop, true) && stop != Some(Panic)
    requires stop.Some? ==> error == Some(stop.value.fault)
    requires error.None? ==> end.active.None? && end.queued.None?
    requires ReportReadable(end, waits)
    ensures RunDecoder.DecodeRun(Finish(end, error, disconnected, waits)).Success?
  {
    RunsConserve(settings, steps, end, stop, true);
    HonestRunsAdvance(settings, steps, end, stop);
    FinishedReportAccepted(end, error, disconnected, waits);
  }

  /** What the polling loop leaves, whoever answered it, is accepted exactly then. */
  lemma LoopReportAcceptedIff(settings: Settings, turns: seq<Turn>, disconnected: bool, waits: Waits)
    requires settings.Valid()
    requires Ended(Loop(Opened(settings), turns).1) && ReportReadable(Loop(Opened(settings), turns).0, waits)
    ensures var (now, end) := Loop(Opened(settings), turns);
      RunDecoder.DecodeRun(Finish(now, ErrorOf(end), disconnected, waits)).Success? <==>
      IdentitiesAdvance(now) && now.maxQueueDepth <= 1
  {
    var (now, end) := Loop(Opened(settings), turns);
    var steps, stop := LoopRun(settings, turns, false);
    RunsConserve(settings, steps, now, stop, false);
    FinishedReportAccepted(now, ErrorOf(end), disconnected, waits);
  }

  /** And a loop that was answered honestly always leaves an accepted report. */
  lemma HonestLoopAccepted(settings: Settings, turns: seq<Turn>, disconnected: bool, waits: Waits)
    requires settings.Valid() && HonestLoop(Opened(settings), turns)
    requires Ended(Loop(Opened(settings), turns).1) && ReportReadable(Loop(Opened(settings), turns).0, waits)
    ensures var (now, end) := Loop(Opened(settings), turns);
      RunDecoder.DecodeRun(Finish(now, ErrorOf(end), disconnected, waits)).Success?
  {
    var (now, end) := Loop(Opened(settings), turns);
    var steps, stop := LoopRun(settings, turns, true);
    HonestRunsAreAccepted(settings, steps, now, stop, ErrorOf(end), disconnected, waits);
  }

  lemma UnbalancedIsBroken(l: Ledger, error: Option<Fault>, disconnected: bool, deadline: bool, waits: Waits)
    requires ReportReadable(l, waits) && !Conserved(l)
    ensures Broken(CloseAll(l, disconnected, deadline, waits).ledger, error)
  {
    CloseAllCounters(l, disconnected, deadline, waits);
  }

  function InHand(l: Ledger): nat {
    Held(l.active) + Held(l.queued)
  }

  function ClosedActive(l: Ledger, waits: Waits): (notes: seq<OpenNote>)
    requires ReportReadable(l, waits)
    ensures |notes| == Held(l.active)
  {
    var observed: u64 := l.clock + waits.first;
    if l.active.Some? then [OpenNote(l.active.value, observed)] else []
  }

  function ClosedQueued(l: Ledger, waits: Waits): (notes: seq<OpenNote>)
    requires ReportReadable(l, waits)
    ensures |notes| == Held(l.queued)
  {
    var observed: u64 := l.clock + waits.second + if l.active.Some? then waits.first else 0;
    if l.queued.Some? then [OpenNote(l.queued.value, observed)] else []
  }

  /** What the report closes: the ticket in flight first, then the queued one, and each
      closing reads the clock once more. */
  function Closings(l: Ledger, waits: Waits): (notes: seq<OpenNote>)
    requires ReportReadable(l, waits)
    ensures |notes| == InHand(l)
  {
    ClosedActive(l, waits) + ClosedQueued(l, waits)
  }

  function AsFailures(notes: seq<OpenNote>, reason: Word): (r: seq<FailureNote>)
    ensures |r| == |notes|
  {
    if notes == [] then []
    else [FailureNote(notes[0].ticket, reason, notes[0].observed)] + AsFailures(notes[1..], reason)
  }

  /** The reason such a ticket is noted with, if any. */
  function ClosingReason(disconnected: bool): Word {
    if disconnected then Disconnected else MeasurementDeadline
  }

  lemma AsFailuresOfOne(note: OpenNote, reason: Word)
    ensures AsFailures([note], reason) == [FailureNote(note.ticket, reason, note.observed)]
  {
    assert [note][1..] == [];
  }

  lemma {:induction false} AsFailuresConcat(a: seq<OpenNote>, b: seq<OpenNote>, reason: Word)
    ensures AsFailures(a + b, reason) == AsFailures(a, reason) + AsFailures(b, reason)
  {
    if a == [] {
      assert a + b == b;
    } else {
      assert (a + b)[1..] == a[1..] + b;
      AsFailuresConcat(a[1..], b, reason);
    }
  }

  /** What closing some tickets adds: a record for each, to one list, and a count. */
  predicate Adds(c: Closing, notes: seq<OpenNote>, disconnected: bool, deadline: bool, next: Closing) {
    && next.ledger.failures == c.ledger.failures
         + (if disconnected || deadline then AsFailures(notes, ClosingReason(disconnected)) else [])
    && next.open == c.open + (if disconnected || deadline then [] else notes)
    && next.ledger.disconnects == c.ledger.disconnects + (if disconnected then |notes| else 0)
    && next.ledger.unresolved == c.ledger.unresolved + (if disconnected then 0 else |notes|)
  }

  lemma TicketCloses(c: Closing, ticket: Ticket, disconnected: bool, deadline: bool, wait: nat, observed: u64)
    requires Readable(c.ledger, wait) && observed == c.ledger.clock + wait
    ensures var next := CloseTicket(c, ticket, disconnected, deadline, wait);
      Adds(c, [OpenNote(ticket, observed)], disconnected, deadline, next) && next.ledger.clock == observed
  {
    AsFailuresOfOne(OpenNote(ticket, observed), ClosingReason(disconnected));
  }

  lemma ActiveCloses(l: Ledger, disconnected: bool, deadline: bool, waits: Waits)
    requires ReportReadable(l, waits)
    ensures var next := CloseActive(l, disconnected, deadline, waits);
      && Adds(Opening(l), ClosedActive(l, waits), disconnected, deadline, next)
      && next.ledger.clock == l.clock + if l.active.Some? then waits.first else 0
  {
    if l.active.Some? {
      TicketCloses(Opening(l), l.active.value, disconnected, deadline, waits.first, l.clock + waits.first);
    }
  }

  lemma QueuedCloses(l: Ledger, disconnected: bool, deadline: bool, waits: Waits)
    requires ReportReadable(l, waits)
    ensures var c, next := CloseActive(l, disconnected, deadline, waits), CloseBoth(l, disconnected, deadline, waits);
      && Adds(c, ClosedQueued(l, waits), disconnected, deadline, next)
      && next.ledger.clock == c.ledger.clock + if l.queued.Some? then waits.second else 0
  {
    ActiveCloses(l, disconnected, deadline, waits);
    if l.queued.Some? {
      var c := CloseActive(l, disconnected, deadline, waits);
      TicketCloses(c, l.queued.value, disconnected, deadline, waits.second, c.ledger.clock + waits.second);
    }
  }

  lemma AddsTwice(
    c: Closing, a: seq<OpenNote>, mid: Closing, b: seq<OpenNote>, end: Closing, disconnected: bool, deadline: bool)
    requires Adds(c, a, disconnected, deadline, mid) && Adds(mid, b, disconnected, deadline, end)
    ensures Adds(c, a + b, disconnected, deadline, end)
  {
    AsFailuresConcat(a, b, ClosingReason(disconnected));
  }

  /** What the report adds to an interrupted ledger: each ticket still held is
      counted once and recorded once, behind what was recorded before. */
  lemma CloseAllLists(l: Ledger, disconnected: bool, deadline: bool, waits: Waits)
    requires ReportReadable(l, waits)
    ensures var c := CloseAll(l, disconnected, deadline, waits);
      && Adds(Opening(l), Closings(l, waits), disconnected, deadline, c)
      && c.ledger.clock == l.clock + waits.last
           + (if l.active.Some? then waits.first else 0) + (if l.queued.Some? then waits.second else 0)
  {
    ActiveCloses(l, disconnected, deadline, waits);
    QueuedCloses(l, disconnected, deadline, waits);
    AddsTwice(Opening(l), ClosedActive(l, waits), CloseActive(l, disconnected, deadline, waits),
      ClosedQueued(l, waits), CloseBoth(l, disconnected, deadline, waits), disconnected, deadline);
  }

  /** The counters of a report, against the ledger it was made from. */
  predicate CountsKept(report: Value, l: Ledger, disconnected: bool) {
    && Get(report, Offered) == Number(l.offered) && Get(report, Key.Admitted) == Number(l.admitted)
    && Get(report, Rejected) == Number(l.rejected) && Get(report, Coalesced) == Number(l.coalesced)
    && Get(report, Settled) == Number(l.settled) && Get(report, Timeouts) == Number(l.timeouts)
    && Get(report, RejectedSettlements) == Number(l.rejectedSettlements)
    && Get(report, MaxInFlight) == Number(l.maxInFlight) && Get(report, MaxQueueDepth) == Number(l.maxQueueDepth)
    && Get(report, Disconnects) == Number(l.disconnects + if disconnected then InHand(l) else 0)
    && Get(report, Unresolved) == Number(l.unresolved + if disconnected then 0 else InHand(l))
  }

  /** Its records: every sample and every failure, then what was still held; and the
      time of the last reading. */
  predicate RecordsKept(report: Value, l: Ledger, disconnected: bool, deadline: bool, waits: Waits)
    requires ReportReadable(l, waits)
  {
    var named, closed := disconnected || deadline, Closings(l, waits);
    && Get(report, Samples) == Array(SampleValues(l.samples))
    && Get(report, Failures) ==
         Array(FailureValues(l.failures + (if named then AsFailures(closed, ClosingReason(disconnected)) else [])))
    && Get(report, UnresolvedUpdates) == Array(OpenValues(if named then [] else closed))
    && Get(report, ElapsedNs) == Number(l.clock + waits.last
         + (if l.active.Some? then waits.first else 0) + (if l.queued.Some? then waits.second else 0))
  }

  /** Whatever state a run is interrupted in, the report keeps its raw counters and
      records, adding only what was still held. */
  lemma ReportKeepsRawCounts(l: Ledger, error: Option<Fault>, disconnected: bool, waits: Waits)
    requires ReportReadable(l, waits)
    ensures var report := Finish(l, error, disconnected, waits);
      && CountsKept(report, l, disconnected)
      && RecordsKept(report, l, disconnected, error == Some(AbsoluteDeadline), waits)
  {
    var deadline := error == Some(AbsoluteDeadline);
    var c := CloseAll(l, disconnected, deadline, waits);
    CloseAllCounters(l, disconnected, deadline, waits);
    CloseAllLists(l, disconnected, deadline, waits);
    ClosedCounts(l, c, FinalError(c.ledger, error), disconnected);
    ClosedRecords(l, c, FinalError(c.ledger, error), disconnected, deadline, waits);
  }

  lemma ClosedRecords(l: Ledger, c: Closing, error: Value, disconnected: bool, deadline: bool, waits: Waits)
    requires ReportReadable(l, waits) && Adds(Opening(l), Closings(l, waits), disconnected, deadline, c)
    requires c.ledger.samples == l.samples
    requires c.ledger.clock == l.clock + waits.last
      + (if l.active.Some? then waits.first else 0) + (if l.queued.Some? then waits.second else 0)
    ensures RecordsKept(ReportValueOf(c, error), l, disconnected, deadline, waits)
  {
    ReportLists(c, error);
    ReportBounds(c, error);
  }

  lemma ClosedCounts(l: Ledger, c: Closing, error: Value, disconnected: bool)
    requires var end := c.ledger;
      && end.offered == l.offered && end.admitted == l.admitted && end.rejected == l.rejected
      && end.coalesced == l.coalesced && end.settled == l.settled && end.timeouts == l.timeouts
      && end.rejectedSettlements == l.rejectedSettlements
      && end.maxInFlight == l.maxInFlight && end.maxQueueDepth == l.maxQueueDepth
      && end.disconnects == l.disconnects + (if disconnected then InHand(l) else 0)
      && end.unresolved == l.unresolved + (if disconnected then 0 else InHand(l))
    ensures CountsKept(ReportValueOf(c, error), l, disconnected)
  {
    ReportOffers(c, error);
    ReportOutcomes(c, error);
    ReportBounds(c, error);
  }

  /** The additions cannot wrap, so the check is of the sums themselves. */
  lemma BrokenIff(l: Ledger, error: Option<Fault>)
    requires l.active.None? && l.queued.None?
    ensures Broken(l, error) <==>
      !Conserved(l) || l.offered >= TWO64 || (error.None? && l.offered != l.settings.updates)
  {
  }

  /** What a report says went wrong: that accounting was interrupted when the counters
      do not balance or offers are missing, besides the first error, if there was one. */
  lemma ReportErrorIs(l: Ledger, error: Option<Fault>, disconnected: bool, waits: Waits)
    requires ReportReadable(l, waits)
    ensures var report := Finish(l, error, disconnected, waits);
      var sound := Conserved(l) && l.offered < TWO64 && (error.None? ==> l.offered == l.settings.updates);
      && Get(report, Error) ==
           (if !sound then Text(Diagnostic(error, true))
            else if error.Some? then Text(Diagnostic(error, false)) else Null)
      && Get(report, Status) == Text(if sound && error.None? && l.rejected == 0 then Complete else Failed)
  {
    var deadline := error == Some(AbsoluteDeadline);
    var c := CloseAll(l, disconnected, deadline, waits);
    CloseAllCounters(l, disconnected, deadline, waits);
    CloseAllEmpties(l, disconnected, deadline, waits);
    BrokenIff(c.ledger, error);
    ReportTexts(c, FinalError(c.ledger, error));
    ReportLists(c, FinalError(c.ledger, error));
  }

  lemma CloseAllEmpties(l: Ledger, disconnected: bool, deadline: bool, waits: Waits)
    requires ReportReadable(l, waits)
    ensures var end := CloseAll(l, disconnected, deadline, waits).ledger; end.active.None? && end.queued.None?
  {
  }

  /** If the interrupted counters do not balance, the report says failed and
      names the first error together with the interruption. */
  lemma BrokenAccountingIsFlagged(l: Ledger, error: Option<Fault>, disconnected: bool, waits: Waits)
    requires ReportReadable(l, waits) && !Conserved(l)
    ensures var report := Finish(l, error, disconnected, waits);
      Get(report, Status) == Text(Failed) && Get(report, Error) == Text(Diagnostic(error, true))
  {
    var deadline := error == Some(AbsoluteDeadline);
    var c := CloseAll(l, disconnected, deadline, waits);
    UnbalancedIsBroken(l, error, disconnected, deadline, waits);
    ReportTexts(c, FinalError(c.ledger, error));
    ReportLists(c, FinalError(c.ledger, error));
  }
}
