/** The measurement capture as a value: one ledger, and what each step of the
    measured loop does to it. The policy owner and the clock are adversaries
    whose answers arrive as arguments. */
module CaptureLedger {
  import opened Prelude
  import opened ReportValue
  import RunDecoder

  datatype Rect = Rect(x: int, y: int, width: int, height: int)

  const BASE := Rect(96, 96, 320, 240)

  /** `capacity` is the owner's queue bound, a constant of code that is not here. */
  datatype Settings = Settings(wire: Word, kind: Word, rate: u64, updates: u64, capacity: nat) {
    predicate Valid() {
      && wire in {CurrentIpc, NineP2000L}
      && kind in {Move, Resize}
      && (rate == 60 || rate == 120)
      && 1 <= updates <= RunDecoder.MAX_UPDATES
    }

    function ScheduledNs(sequence: nat): u64
      requires Valid()
      requires 1 <= sequence && (sequence - 1) * RunDecoder.NS_PER_SECOND < TWO64
    {
      var product: u64 := (sequence - 1) * RunDecoder.NS_PER_SECOND;
      product / rate
    }

    /** A sawtooth of period 64 over position or size. */
    function Geometry(sequence: nat): Rect {
      var step := sequence % 64;
      if kind == Move
      then BASE.(x := BASE.x + step, y := BASE.y + step / 2)
      else BASE.(width := BASE.width + step, height := BASE.height + step / 2)
    }
  }

  datatype Ticket = Ticket(
    sequence: nat,
    scheduled: u64,
    enqueued: u64,
    geometry: Rect,
    request: Option<u64>,
    transaction: Option<u64>)

  datatype FailureNote = FailureNote(ticket: Ticket, reason: Word, observed: u64)

  datatype SampleNote = SampleNote(
    sequence: nat,
    request: u64,
    transaction: u64,
    scheduled: u64,
    enqueued: u64,
    settled: u64)

  datatype Ledger = Ledger(
    settings: Settings,
    clock: u64,
    offered: nat,
    admitted: nat,
    rejected: nat,
    coalesced: nat,
    settled: nat,
    timeouts: nat,
    disconnects: nat,
    rejectedSettlements: nat,
    unresolved: nat,
    maxInFlight: nat,
    maxQueueDepth: nat,
    queued: Option<Ticket>,
    active: Option<Ticket>,
    samples: seq<SampleNote>,
    failures: seq<FailureNote>)

  function Opened(settings: Settings): Ledger {
    Ledger(settings, 0, 0, 0, 0, 0, 0, 0, 0, 0, 0, 0, 0, None, None, [], [])
  }

  /** Why a step ends the loop: a returned error, or a failed assertion. */
  datatype Stop = Erred(fault: Fault) | Panic

  // ---- what the owner answers ----

  datatype Admission = Refused(message: string) | Accepted | Duplicate | RejectedCapacity

  /** The owner's queue length and whether a request is in flight, as observed. */
  datatype Sight = Sight(depth: nat, inFlight: bool)

  /** `before` and `after` are the measured Update the owner's queue holds. */
  datatype Reply = Reply(before: Option<Rect>, admission: Admission, after: Option<Rect>, sight: Sight)

  datatype Phase = Begin | Update | End | Cancel

  datatype Cause = Interaction(phase: Phase, kind: Word, geometry: Rect) | OtherCause

  datatype Flight = Flight(request: u64, measuredSource: bool, cause: Cause)

  datatype OwnerView = OwnerView(flight: Option<Flight>, depth: nat)

  datatype Settlement = SettledCommitted | SettledTimedOut | SettledStale | SettledInvalid

  datatype Settling = Settling(request: u64, transaction: u64, outcome: Settlement)

  // ---- the steps ----

  /** A clock reading `wait` nanoseconds after the previous one. */
  predicate Readable(ledger: Ledger, wait: nat) {
    ledger.clock + wait < TWO64
  }

  function ObserveDepth(ledger: Ledger, sight: Sight): (Ledger, Option<Stop>) {
    var seen := ledger.(maxQueueDepth := Max(ledger.maxQueueDepth, sight.depth),
                        maxInFlight := Max(ledger.maxInFlight, if sight.inFlight then 1 else 0));
    (seen, if sight.depth <= ledger.settings.capacity then None else Some(Panic))
  }

  function NoteFailure(ledger: Ledger, ticket: Ticket, reason: Word, wait: nat): Ledger
    requires Readable(ledger, wait)
  {
    var observed: u64 := ledger.clock + wait;
    ledger.(clock := observed, failures := ledger.failures + [FailureNote(ticket, reason, observed)])
  }

  function QueuedGeometry(ledger: Ledger): Option<Rect> {
    if ledger.queued.Some? then Some(ledger.queued.value.geometry) else None
  }

  /** Refusing an offer: the note is a second clock reading. */
  function Refuse(ledger: Ledger, ticket: Ticket, later: nat, next: Option<Stop>): (Ledger, Option<Stop>) {
    var counted := ledger.(rejected := ledger.rejected + 1);
    if !Readable(ledger, later) then (counted, Some(Panic))
    else (NoteFailure(counted, ticket, EnqueueRefused, later), next)
  }

  /** An answer that replaced nothing: the owner's queue must be as it was. */
  function Decline(
    ledger: Ledger, ticket: Ticket, before: Option<Rect>, reply: Reply, later: nat): (Ledger, Option<Stop>) {
    if reply.after != before then (ledger, Some(Panic)) else
    var (refused, stop) := Refuse(ledger, ticket, later, None);
    if stop.Some? then (refused, stop) else ObserveDepth(refused, reply.sight)
  }

  function Admit(
    ledger: Ledger, ticket: Ticket, before: Option<Rect>, reply: Reply, later: nat): (Ledger, Option<Stop>) {
    match reply.admission
    case Refused(message) => Refuse(ledger, ticket, later, Some(Erred(OwnerWords(message))))
    case Accepted =>
      if ledger.queued.Some? || reply.after != Some(ticket.geometry) then (ledger, Some(Panic))
      else ObserveDepth(ledger.(admitted := ledger.admitted + 1, queued := Some(ticket)), reply.sight)
    case Duplicate =>
      if before.Some? && reply.after == Some(ticket.geometry) then
        ObserveDepth(ledger.(coalesced := ledger.coalesced + 1, admitted := ledger.admitted + 1,
                             queued := Some(ticket)), reply.sight)
      else Decline(ledger, ticket, before, reply, later)
    case RejectedCapacity => Decline(ledger, ticket, before, reply, later)
  }

  predicate OfferDefined(ledger: Ledger) {
    ledger.settings.Valid() && ledger.offered * RunDecoder.NS_PER_SECOND < TWO64
  }

  /** The ticket of the next offer, which has no identity yet. */
  function NextTicket(ledger: Ledger, enqueued: u64): Ticket
    requires OfferDefined(ledger)
  {
    var sequence := ledger.offered + 1;
    Ticket(sequence, ledger.settings.ScheduledNs(sequence), enqueued, ledger.settings.Geometry(sequence), None, None)
  }

  function Offer(ledger: Ledger, wait: nat, later: nat, reply: Reply): (Ledger, Option<Stop>)
    requires OfferDefined(ledger)
  {
    var sequence := ledger.offered + 1;
    var geometry := ledger.settings.Geometry(sequence);
    var before := QueuedGeometry(ledger);
    if reply.before != before then (ledger, Some(Panic))
    else if before == Some(geometry) then
      (ledger, Some(Erred(RepeatedQueuedGeometry)))
    else if !Readable(ledger, wait) then (ledger, Some(Panic))
    else
      var enqueued: u64 := ledger.clock + wait;
      Admit(ledger.(clock := enqueued, offered := sequence), NextTicket(ledger, enqueued), before, reply, later)
  }

  function Dispatched(ledger: Ledger, public: Option<OwnerView>): (Ledger, Option<Stop>) {
    if public.None? then (ledger, Some(Erred(OwnerDisappeared))) else
    var view := public.value;
    if view.flight.Some? then
      var flight := view.flight.value;
      if !flight.measuredSource then
        (ledger, Some(Erred(UnmeasuredSource)))
      else if ledger.active.None? && ledger.queued.None? then
        (ledger, Some(Erred(UnmeasuredEntry)))
      else
        var ticket := if ledger.active.Some? then ledger.active.value else ledger.queued.value;
        if flight.cause != Interaction(Update, ledger.settings.kind, ticket.geometry) then
          (ledger, Some(Erred(UnmeasuredCause)))
        else if ledger.active.Some? then
          if ledger.active.value.request != Some(flight.request) then
            (ledger, Some(Erred(IdentityChanged)))
          else ObserveDepth(ledger, Sight(view.depth, true))
        else
          ObserveDepth(ledger.(queued := None, active := Some(ticket.(request := Some(flight.request)))),
                       Sight(view.depth, true))
    else if ledger.active.Some? then
      (ledger, Some(Erred(CustodyLost)))
    else ObserveDepth(ledger, Sight(view.depth, false))
  }

  /** A proposal names the transaction of the active request. */
  function Propose(ledger: Ledger, request: u64, transaction: u64): (Ledger, Option<Stop>) {
    if ledger.active.None? then (ledger, Some(Erred(UnmeasuredProposal)))
    else if ledger.active.value.request != Some(request) then (ledger, Some(Panic))
    else (ledger.(active := Some(ledger.active.value.(transaction := Some(transaction)))), None)
  }

  /** A settlement that is not a commit ends the run with its reason. */
  function FailSettlement(ledger: Ledger, ticket: Ticket, reason: Word, later: nat): (Ledger, Option<Stop>) {
    if !Readable(ledger, later) then (ledger, Some(Panic))
    else (NoteFailure(ledger, ticket, reason, later), Some(Erred(LayoutOutcome(reason))))
  }

  /** `wait` dates the settlement; `later` is the further reading a failure takes. */
  function Sample(ledger: Ledger, result: Settling, wait: nat, later: nat): (Ledger, Option<Stop>) {
    if ledger.active.None? then (ledger, Some(Erred(SettlementWithoutRequest))) else
    var taken := ledger.(active := None);
    if ledger.active.value.request != Some(result.request) then (taken, Some(Panic)) else
    var ticket := ledger.active.value.(transaction := Some(result.transaction));
    match result.outcome
    case SettledTimedOut =>
      FailSettlement(taken.(timeouts := taken.timeouts + 1), ticket, TimedOut, wait + later)
    case SettledStale =>
      FailSettlement(taken.(rejectedSettlements := taken.rejectedSettlements + 1), ticket, RejectedStale, wait + later)
    case SettledInvalid =>
      FailSettlement(taken.(rejectedSettlements := taken.rejectedSettlements + 1), ticket, RejectedInvalid,
                     wait + later)
    case SettledCommitted => CommitSample(taken, ticket, result, wait)
  }

  function CommitSample(ledger: Ledger, ticket: Ticket, result: Settling, wait: nat): (Ledger, Option<Stop>) {
    var counted := ledger.(settled := ledger.settled + 1);
    if !Readable(ledger, wait) then (counted, Some(Panic)) else
    var at: u64 := ledger.clock + wait;
    (counted.(clock := at,
              samples := counted.samples + [SampleNote(ticket.sequence, result.request, result.transaction,
                                                       ticket.scheduled, ticket.enqueued, at)]), None)
  }

  datatype Step =
    | OfferStep(wait: nat, later: nat, reply: Reply)
    | DispatchStep(public: Option<OwnerView>)
    | ProposalStep(request: u64, transaction: u64)
    | SettleStep(result: Settling, wait: nat, later: nat)
    | ObserveStep(sight: Sight)

  /** The loop's own guard: an offer is made only when its slot has come. */
  predicate Enabled(ledger: Ledger, step: Step) {
    step.OfferStep? ==>
      && ledger.settings.Valid()
      && ledger.offered < ledger.settings.updates
      && ledger.clock + step.wait >= ledger.settings.ScheduledNs(ledger.offered + 1)
  }

  function Apply(ledger: Ledger, step: Step): (Ledger, Option<Stop>)
    requires Enabled(ledger, step)
  {
    match step
    case OfferStep(wait, later, reply) => Offer(ledger, wait, later, reply)
    case DispatchStep(public) => Dispatched(ledger, public)
    case ProposalStep(request, transaction) => Propose(ledger, request, transaction)
    case SettleStep(result, wait, later) => Sample(ledger, result, wait, later)
    case ObserveStep(sight) => ObserveDepth(ledger, sight)
  }

  predicate FreshRequest(ledger: Ledger, request: u64) {
    request > 0 && forall i :: 0 <= i < |ledger.samples| ==> ledger.samples[i].request < request
  }

  predicate FreshTransaction(ledger: Ledger, transaction: u64) {
    transaction > 0 && forall i :: 0 <= i < |ledger.samples| ==> ledger.samples[i].transaction < transaction
  }

  /** What the owner is trusted for: its queue holds at most the one measured
      Update, and the identities it issues are positive and increase. */
  predicate Honest(ledger: Ledger, step: Step) {
    match step
    case OfferStep(_, _, reply) => reply.sight.depth <= 1
    case DispatchStep(public) =>
      public.Some? ==>
        && public.value.depth <= 1
        && (public.value.flight.Some? && ledger.active.None? ==>
              FreshRequest(ledger, public.value.flight.value.request))
    case ProposalStep(_, transaction) => transaction > 0
    case SettleStep(result, _, _) => FreshTransaction(ledger, result.transaction)
    case ObserveStep(sight) => sight.depth <= 1
  }

  /** `Run(a, steps, b, stop, honest)`: the steps, each enabled in its turn and,
      when `honest`, answered honestly, lead from a to b; only the last one may
      have stopped the run. */
  ghost predicate Run(start: Ledger, steps: seq<Step>, end: Ledger, stop: Option<Stop>, honest: bool)
    decreases |steps|
  {
    if steps == [] then end == start && stop == None
    else
      var n := |steps| - 1;
      exists mid: Ledger ::
        && Run(start, steps[..n], mid, None, honest)
        && Enabled(mid, steps[n])
        && (honest ==> Honest(mid, steps[n]))
        && Apply(mid, steps[n]) == (end, stop)
  }

  // ---- the report ----

  function OptionalNumber(id: Option<u64>): Value {
    if id.Some? then Number(id.value) else Null
  }

  function FailureValue(note: FailureNote): Value {
    Object(map[
      OfferedSequence := Number(note.ticket.sequence), Reason := Text(note.reason),
      RequestId := OptionalNumber(note.ticket.request), Transaction := OptionalNumber(note.ticket.transaction),
      ScheduledNs := Number(note.ticket.scheduled), EnqueuedNs := Number(note.ticket.enqueued),
      ObservedNs := Number(note.observed)])
  }

  function UnresolvedValue(ticket: Ticket, observed: u64): Value {
    Object(map[
      OfferedSequence := Number(ticket.sequence),
      RequestId := OptionalNumber(ticket.request), Transaction := OptionalNumber(ticket.transaction),
      ScheduledNs := Number(ticket.scheduled), EnqueuedNs := Number(ticket.enqueued),
      ObservedNs := Number(observed)])
  }

  function SampleValue(note: SampleNote): Value {
    Object(map[
      OfferedSequence := Number(note.sequence), RequestId := Number(note.request),
      Transaction := Number(note.transaction), OutcomeName := Text(Committed),
      ScheduledNs := Number(note.scheduled), EnqueuedNs := Number(note.enqueued),
      SettledNs := Number(note.settled)])
  }

  function FailureValues(notes: seq<FailureNote>): (r: seq<Value>)
    ensures |r| == |notes|
    ensures forall i :: 0 <= i < |notes| ==> r[i] == FailureValue(notes[i])
  {
    if notes == [] then [] else [FailureValue(notes[0])] + FailureValues(notes[1..])
  }

  function SampleValues(notes: seq<SampleNote>): (r: seq<Value>)
    ensures |r| == |notes|
    ensures forall i :: 0 <= i < |notes| ==> r[i] == SampleValue(notes[i])
  {
    if notes == [] then [] else [SampleValue(notes[0])] + SampleValues(notes[1..])
  }

  /** A ticket left in custody with no outcome to name. */
  datatype OpenNote = OpenNote(ticket: Ticket, observed: u64)

  function OpenValues(notes: seq<OpenNote>): (r: seq<Value>)
    ensures |r| == |notes|
    ensures forall i :: 0 <= i < |notes| ==> r[i] == UnresolvedValue(notes[i].ticket, notes[i].observed)
  {
    if notes == [] then [] else [UnresolvedValue(notes[0].ticket, notes[0].observed)] + OpenValues(notes[1..])
  }

  datatype Closing = Closing(ledger: Ledger, open: seq<OpenNote>)

  /** One ticket left in custody when the run stops, read `wait` later. */
  function CloseTicket(c: Closing, ticket: Ticket, disconnected: bool, deadline: bool, wait: nat): Closing
    requires Readable(c.ledger, wait)
  {
    var counted := if disconnected then c.ledger.(disconnects := c.ledger.disconnects + 1)
                   else c.ledger.(unresolved := c.ledger.unresolved + 1);
    if disconnected || deadline then
      Closing(NoteFailure(counted, ticket, if disconnected then Disconnected else MeasurementDeadline, wait), c.open)
    else
      var observed: u64 := counted.clock + wait;
      Closing(counted.(clock := observed), c.open + [OpenNote(ticket, observed)])
  }

  /** The three clock readings a report may take; `expect` bounds the capture. */
  datatype Waits = Waits(first: nat, second: nat, last: nat)

  predicate ReportReadable(ledger: Ledger, waits: Waits) {
    ledger.clock + waits.first + waits.second + waits.last < TWO64
  }

  function CloseActive(ledger: Ledger, disconnected: bool, deadline: bool, waits: Waits): (c: Closing)
    requires ReportReadable(ledger, waits)
    ensures c.ledger.clock + waits.second + waits.last < TWO64
  {
    var opening := Closing(ledger.(active := None, queued := None), []);
    if ledger.active.Some? then CloseTicket(opening, ledger.active.value, disconnected, deadline, waits.first)
    else opening
  }

  function CloseBoth(ledger: Ledger, disconnected: bool, deadline: bool, waits: Waits): (c: Closing)
    requires ReportReadable(ledger, waits)
    ensures c.ledger.clock + waits.last < TWO64
  {
    var c := CloseActive(ledger, disconnected, deadline, waits);
    if ledger.queued.Some? then CloseTicket(c, ledger.queued.value, disconnected, deadline, waits.second) else c
  }

  /** Whatever is left in custody is closed, the active ticket first, and the
      elapsed time is read last. */
  function CloseAll(ledger: Ledger, disconnected: bool, deadline: bool, waits: Waits): Closing
    requires ReportReadable(ledger, waits)
  {
    var c := CloseBoth(ledger, disconnected, deadline, waits);
    c.(ledger := c.ledger.(clock := c.ledger.clock + waits.last))
  }

  function Terminal(ledger: Ledger): Option<nat> {
    CheckedAdd(CheckedAdd(CheckedAdd(CheckedAdd(CheckedAdd(Some(ledger.coalesced), ledger.settled), ledger.timeouts),
      ledger.disconnects), ledger.rejectedSettlements), ledger.unresolved)
  }

  predicate Broken(ledger: Ledger, error: Option<Fault>) {
    || CheckedAdd(Some(ledger.admitted), ledger.rejected) != Some(ledger.offered)
    || Terminal(ledger) != Some(ledger.admitted)
    || (error.None? && ledger.offered != ledger.settings.updates)
  }

  /** The first failure is never overwritten: broken accounting only adds to it. */
  function FinalError(ledger: Ledger, error: Option<Fault>): Value {
    if Broken(ledger, error) then Text(Diagnostic(error, true))
    else if error.Some? then Text(Diagnostic(error, false))
    else Null
  }

  function ReportValueOf(c: Closing, error: Value): Value {
    var l := c.ledger;
    Object(map[
      Schema := Number(1), WireName := Text(l.settings.wire), RateHz := Number(l.settings.rate),
      Kind := Text(l.settings.kind), RequestedUpdates := Number(l.settings.updates),
      Offered := Number(l.offered), Key.Admitted := Number(l.admitted), Rejected := Number(l.rejected),
      Coalesced := Number(l.coalesced), Settled := Number(l.settled), Timeouts := Number(l.timeouts),
      Disconnects := Number(l.disconnects), RejectedSettlements := Number(l.rejectedSettlements),
      Unresolved := Number(l.unresolved), MaxQueueDepth := Number(l.maxQueueDepth),
      MaxInFlight := Number(l.maxInFlight), ElapsedNs := Number(l.clock),
      Samples := Array(SampleValues(l.samples)), Failures := Array(FailureValues(l.failures)),
      UnresolvedUpdates := Array(OpenValues(c.open)),
      Error := error,
      Status := Text(if error.Null? && l.rejected == 0 then Complete else Failed),
      Boundary := Text(SessionBoundary), CheckpointMode := Text(NormalCheckpoint),
      FrontendAcks := Text(SuppliedAcks), Pixels := Text(SuppliedPixels), Acceptance := Bool(false)])
  }

  function Finish(ledger: Ledger, error: Option<Fault>, disconnected: bool, waits: Waits): Value
    requires ReportReadable(ledger, waits)
  {
    var c := CloseAll(ledger, disconnected, error == Some(AbsoluteDeadline), waits);
    ReportValueOf(c, FinalError(c.ledger, error))
  }
}
