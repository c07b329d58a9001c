/** What every step of the capture keeps, and hence what holds in every state a
    run can reach, whatever the owner and the clock do. */
module CaptureInvariant {
  import opened Prelude
  import opened ReportValue
  import opened CaptureLedger
  import RunDecoder

  function CountNotes(notes: seq<FailureNote>, category: nat): nat {
    if notes == [] then 0
    else (if notes[0].reason in RunDecoder.REASONS && RunDecoder.Category(notes[0].reason) == category then 1 else 0)
         + CountNotes(notes[1..], category)
  }

  function Held(ticket: Option<Ticket>): nat {
    if ticket.Some? then 1 else 0
  }

  /** Every offer was admitted or rejected, and every admitted one is in exactly
      one place: replaced, settled, failed, or still in custody. */
  predicate Conserved(l: Ledger) {
    && l.admitted + l.rejected == l.offered
    && l.admitted == l.coalesced + l.settled + l.timeouts + l.disconnects + l.rejectedSettlements
                     + l.unresolved + Held(l.queued) + Held(l.active)
  }

  predicate Tallied(l: Ledger) {
    && |l.samples| == l.settled
    && CountNotes(l.failures, 0) == l.rejected
    && CountNotes(l.failures, 1) == l.timeouts
    && CountNotes(l.failures, 2) == 0 && l.disconnects == 0
    && CountNotes(l.failures, 3) == l.rejectedSettlements
    && CountNotes(l.failures, 4) == 0 && l.unresolved == 0
  }

  predicate Bounded(l: Ledger) {
    && l.settings.Valid()
    && l.offered <= l.settings.updates
    && l.maxInFlight <= 1
    && (l.active.Some? ==> l.maxInFlight == 1)
    && (l.settled > 0 ==> l.maxInFlight == 1)
  }

  /** What a ticket is born with and keeps. */
  predicate Minted(settings: Settings, sequence: nat, scheduled: u64, enqueued: u64) {
    && settings.Valid()
    && 1 <= sequence <= RunDecoder.MAX_UPDATES
    && scheduled == settings.ScheduledNs(sequence)
    && scheduled <= enqueued
  }

  predicate TicketMinted(settings: Settings, t: Ticket) {
    Minted(settings, t.sequence, t.scheduled, t.enqueued) && t.geometry == settings.Geometry(t.sequence)
  }

  /** Every ticket and record carries the schedule it was born with. */
  predicate AllMinted(l: Ledger) {
    && (l.queued.Some? ==> TicketMinted(l.settings, l.queued.value))
    && (l.active.Some? ==> TicketMinted(l.settings, l.active.value))
    && (forall i :: 0 <= i < |l.failures| ==> TicketMinted(l.settings, l.failures[i].ticket))
    && (forall i :: 0 <= i < |l.samples| ==>
          Minted(l.settings, l.samples[i].sequence, l.samples[i].scheduled, l.samples[i].enqueued))
  }

  /** The active ticket is older than the queued one, and only it has a request. */
  predicate Custody(l: Ledger) {
    && (l.queued.Some? ==> l.queued.value.request.None? && l.queued.value.transaction.None?
                           && l.queued.value.sequence <= l.offered && l.queued.value.enqueued <= l.clock)
    && (l.active.Some? ==> l.active.value.request.Some?
                           && l.active.value.sequence <= l.offered && l.active.value.enqueued <= l.clock)
    && (l.queued.Some? && l.active.Some? ==> l.active.value.sequence < l.queued.value.sequence)
  }

  /** Samples are in offer order and precede everything still in custody. */
  predicate SamplesPlaced(l: Ledger) {
    && (forall i :: 0 <= i < |l.samples| ==>
          && l.samples[i].sequence <= l.offered
          && l.samples[i].enqueued <= l.samples[i].settled <= l.clock
          && (l.active.Some? ==> l.samples[i].sequence < l.active.value.sequence)
          && (l.queued.Some? ==> l.samples[i].sequence < l.queued.value.sequence))
    && (forall i, j :: 0 <= i < j < |l.samples| ==> l.samples[i].sequence < l.samples[j].sequence)
  }

  /** No offer has two outcomes. */
  predicate FailuresPlaced(l: Ledger) {
    && (forall i :: 0 <= i < |l.failures| ==>
          && l.failures[i].ticket.sequence <= l.offered
          && l.failures[i].reason in RunDecoder.REASONS
          && l.failures[i].ticket.enqueued <= l.failures[i].observed <= l.clock
          && (l.active.Some? ==> l.failures[i].ticket.sequence != l.active.value.sequence)
          && (l.queued.Some? ==> l.failures[i].ticket.sequence != l.queued.value.sequence))
    && (forall i, j :: 0 <= i < j < |l.failures| ==> l.failures[i].ticket.sequence != l.failures[j].ticket.sequence)
    && (forall i, j :: 0 <= i < |l.failures| && 0 <= j < |l.samples| ==>
          l.failures[i].ticket.sequence != l.samples[j].sequence)
  }

  predicate Placed(l: Ledger) {
    Custody(l) && SamplesPlaced(l) && FailuresPlaced(l)
  }

  predicate Counted(l: Ledger) {
    Bounded(l) && Conserved(l) && Tallied(l)
  }

  predicate Inv(l: Ledger) {
    Counted(l) && Placed(l) && AllMinted(l)
  }

  /** While the loop goes on, no settlement has failed. */
  predicate Unfailed(l: Ledger) {
    l.timeouts == 0 && l.rejectedSettlements == 0
  }

  // ---- one step at a time: counters ----

  lemma {:induction false} CountNotesAppend(notes: seq<FailureNote>, note: FailureNote, category: nat)
    ensures CountNotes(notes + [note], category) == CountNotes(notes, category)
            + (if note.reason in RunDecoder.REASONS && RunDecoder.Category(note.reason) == category then 1 else 0)
  {
    if notes == [] {
      assert notes + [note] == [note];
    } else {
      assert (notes + [note])[1..] == notes[1..] + [note];
      CountNotesAppend(notes[1..], note, category);
    }
  }

  /** Noting a failure moves exactly one tally. */
  lemma TallyAfterNote(l: Ledger, ticket: Ticket, reason: Word, wait: nat)
    requires Readable(l, wait) && reason in RunDecoder.REASONS
    ensures var noted := NoteFailure(l, ticket, reason, wait).failures;
      forall c: nat :: c < 5 ==>
        CountNotes(noted, c) == CountNotes(l.failures, c) + (if RunDecoder.Category(reason) == c then 1 else 0)
  {
    var note := FailureNote(ticket, reason, l.clock + wait);
    forall c: nat | c < 5
      ensures CountNotes(l.failures + [note], c) ==
              CountNotes(l.failures, c) + (if RunDecoder.Category(reason) == c then 1 else 0)
    {
      CountNotesAppend(l.failures, note, c);
    }
  }

  lemma RefuseCounts(l: Ledger, ticket: Ticket, later: nat, next: Option<Stop>)
    requires Bounded(l) && Tallied(l) && Unfailed(l) && l.offered > 0 && Conserved(l.(offered := l.offered - 1))
    ensures var r := Refuse(l, ticket, later, next);
      Readable(l, later) ==> Counted(r.0) && Unfailed(r.0)
  {
    if Readable(l, later) {
      TallyAfterNote(l.(rejected := l.rejected + 1), ticket, EnqueueRefused, later);
    }
  }

  lemma DeclineCounts(
    l: Ledger, ticket: Ticket, before: Option<Rect>, reply: Reply, later: nat, end: Ledger, stop: Option<Stop>)
    requires Bounded(l) && Tallied(l) && Unfailed(l) && l.offered > 0 && Conserved(l.(offered := l.offered - 1))
    requires Decline(l, ticket, before, reply, later) == (end, stop) && stop != Some(Panic)
    ensures Counted(end) && Unfailed(end)
  {
    RefuseCounts(l, ticket, later, None);
  }

  lemma AdmitCounts(
    l: Ledger, ticket: Ticket, before: Option<Rect>, reply: Reply, later: nat, end: Ledger, stop: Option<Stop>)
    requires Bounded(l) && Tallied(l) && Unfailed(l) && l.offered > 0 && Conserved(l.(offered := l.offered - 1))
    requires before == QueuedGeometry(l)
    requires Admit(l, ticket, before, reply, later) == (end, stop) && stop != Some(Panic)
    ensures Counted(end) && Unfailed(end)
  {
    match reply.admission
    case Refused(message) => RefuseCounts(l, ticket, later, Some(Erred(OwnerWords(message))));
    case Accepted =>
    case Duplicate =>
      if before.None? || reply.after != Some(ticket.geometry) {
        DeclineCounts(l, ticket, before, reply, later, end, stop);
      }
    case RejectedCapacity => DeclineCounts(l, ticket, before, reply, later, end, stop);
  }

  lemma FailSettlementCounts(l: Ledger, ticket: Ticket, reason: Word, later: nat, end: Ledger, stop: Option<Stop>)
    requires reason in {TimedOut, RejectedStale, RejectedInvalid}
    requires Bounded(l) && Conserved(l) && l.disconnects == 0 && l.unresolved == 0 && |l.samples| == l.settled
    requires forall c: nat :: c < 5 ==>
      CountNotes(l.failures, c) + (if RunDecoder.Category(reason) == c then 1 else 0)
      == [l.rejected, l.timeouts, 0, l.rejectedSettlements, 0][c]
    requires FailSettlement(l, ticket, reason, later) == (end, stop) && stop != Some(Panic)
    ensures Counted(end) && stop.Some?
  {
    TallyAfterNote(l, ticket, reason, later);
  }

  lemma SampleCounts(l: Ledger, result: Settling, wait: nat, later: nat, end: Ledger, stop: Option<Stop>)
    requires Counted(l) && Unfailed(l)
    requires Sample(l, result, wait, later) == (end, stop) && stop != Some(Panic)
    ensures Counted(end) && (stop.None? ==> Unfailed(end))
  {
    if l.active.Some? && l.active.value.request == Some(result.request) {
      var taken := l.(active := None);
      var ticket := l.active.value.(transaction := Some(result.transaction));
      match result.outcome
      case SettledCommitted =>
      case SettledTimedOut =>
        FailSettlementCounts(taken.(timeouts := taken.timeouts + 1), ticket, TimedOut, wait + later, end, stop);
      case SettledStale =>
        FailSettlementCounts(taken.(rejectedSettlements := taken.rejectedSettlements + 1), ticket, RejectedStale,
                             wait + later, end, stop);
      case SettledInvalid =>
        FailSettlementCounts(taken.(rejectedSettlements := taken.rejectedSettlements + 1), ticket, RejectedInvalid,
                             wait + later, end, stop);
    }
  }

  lemma OfferCounts(l: Ledger, wait: nat, later: nat, reply: Reply, end: Ledger, stop: Option<Stop>)
    requires Counted(l) && Unfailed(l) && Enabled(l, OfferStep(wait, later, reply))
    requires Offer(l, wait, later, reply) == (end, stop) && stop != Some(Panic)
    ensures Counted(end) && Unfailed(end)
  {
    if end != l {
      var made, ticket, before := OfferReaches(l, wait, later, reply, end, stop);
      CountedBeforeOffer(l, made.clock);
      AdmitCounts(made, ticket, before, reply, later, end, stop);
    }
  }

  /** An offer that changed anything was put to the owner. */
  lemma OfferReaches(l: Ledger, wait: nat, later: nat, reply: Reply, end: Ledger, stop: Option<Stop>)
    returns (made: Ledger, ticket: Ticket, before: Option<Rect>)
    requires OfferDefined(l) && Offer(l, wait, later, reply) == (end, stop) && stop != Some(Panic) && end != l
    ensures made.clock == l.clock + wait && made == l.(clock := made.clock, offered := l.offered + 1)
    ensures made.settings.Valid() && ticket.sequence == made.offered
    ensures ticket == Ticket(ticket.sequence, made.settings.ScheduledNs(ticket.sequence), made.clock,
                             made.settings.Geometry(ticket.sequence), None, None)
    ensures before == QueuedGeometry(made) && Admit(made, ticket, before, reply, later) == (end, stop)
  {
    var enqueued := l.clock + wait;
    made, ticket, before := l.(clock := enqueued, offered := l.offered + 1), NextTicket(l, enqueued), QueuedGeometry(l);
  }

  lemma CountedBeforeOffer(l: Ledger, enqueued: u64)
    requires Counted(l) && l.offered < l.settings.updates
    ensures var counted := l.(clock := enqueued, offered := l.offered + 1);
      Bounded(counted) && Tallied(counted) && Conserved(counted.(offered := counted.offered - 1))
  {
  }

  /** A ledger that has only looked at the owner. */
  predicate OnlyObserved(l: Ledger, end: Ledger) {
    && end == l.(maxQueueDepth := end.maxQueueDepth, maxInFlight := end.maxInFlight)
    && (end.maxInFlight == l.maxInFlight || end.maxInFlight == 1)
    && (l.maxInFlight == 1 ==> end.maxInFlight == 1)
  }

  /** The queued ticket, now that the owner has it in flight. */
  predicate TakenUp(l: Ledger, end: Ledger) {
    && l.active.None? && l.queued.Some? && end.active.Some? && end.active.value.request.Some?
    && end.active.value == l.queued.value.(request := end.active.value.request)
    && end.maxInFlight == Max(l.maxInFlight, 1)
    && end == l.(queued := None, active := end.active,
                 maxQueueDepth := end.maxQueueDepth, maxInFlight := end.maxInFlight)
  }

  lemma DispatchMoves(l: Ledger, public: Option<OwnerView>, end: Ledger, stop: Option<Stop>)
    requires Dispatched(l, public) == (end, stop) && stop != Some(Panic)
    ensures TakenUp(l, end) || OnlyObserved(l, end)
  {
  }

  lemma DispatchedCounts(l: Ledger, public: Option<OwnerView>, end: Ledger, stop: Option<Stop>)
    requires Counted(l) && Unfailed(l)
    requires Dispatched(l, public) == (end, stop) && stop != Some(Panic)
    ensures Counted(end) && Unfailed(end)
  {
    DispatchMoves(l, public, end, stop);
    if TakenUp(l, end) { TakenUpCounts(l, end); } else { ObservedCounts(l, end); }
  }

  lemma TakenUpCounts(l: Ledger, end: Ledger)
    requires Counted(l) && Unfailed(l) && TakenUp(l, end)
    ensures Counted(end) && Unfailed(end)
  {
  }

  lemma ObservedCounts(l: Ledger, end: Ledger)
    requires Counted(l) && Unfailed(l) && OnlyObserved(l, end)
    ensures Counted(end) && Unfailed(end)
  {
  }

  lemma StepCounts(l: Ledger, step: Step, end: Ledger, stop: Option<Stop>)
    requires Counted(l) && Unfailed(l) && Enabled(l, step)
    requires Apply(l, step) == (end, stop) && stop != Some(Panic)
    ensures Counted(end) && (stop.None? ==> Unfailed(end))
  {
    match step
    case OfferStep(wait, later, reply) => OfferCounts(l, wait, later, reply, end, stop);
    case DispatchStep(public) => DispatchedCounts(l, public, end, stop);
    case ProposalStep(request, transaction) =>
    case SettleStep(result, wait, later) => SampleCounts(l, result, wait, later, end, stop);
    case ObserveStep(sight) =>
  }

  // ---- one step at a time: places ----

  /** An offer the ledger has counted but not yet placed: newer than everything. */
  predicate Newest(l: Ledger, ticket: Ticket) {
    && ticket.sequence == l.offered && ticket.enqueued <= l.clock && ticket.request.None? && ticket.transaction.None?
    && (forall i :: 0 <= i < |l.samples| ==> l.samples[i].sequence < ticket.sequence)
    && (forall i :: 0 <= i < |l.failures| ==> l.failures[i].ticket.sequence < ticket.sequence)
    && (l.active.Some? ==> l.active.value.sequence < ticket.sequence)
    && (l.queued.Some? ==> l.queued.value.sequence < ticket.sequence)
  }

  lemma RefusePlaces(l: Ledger, ticket: Ticket, later: nat, next: Option<Stop>)
    requires Placed(l) && Newest(l, ticket)
    ensures Readable(l, later) ==> Placed(Refuse(l, ticket, later, next).0)
  {
  }

  lemma DeclinePlaces(
    l: Ledger, ticket: Ticket, before: Option<Rect>, reply: Reply, later: nat, end: Ledger, stop: Option<Stop>)
    requires Placed(l) && Newest(l, ticket)
    requires Decline(l, ticket, before, reply, later) == (end, stop) && stop != Some(Panic)
    ensures Placed(end)
  {
    RefusePlaces(l, ticket, later, None);
  }

  /** The newest ticket takes the queue, whether or not it was free. */
  lemma QueuePlaces(l: Ledger, ticket: Ticket)
    requires Placed(l) && Newest(l, ticket)
    ensures Placed(l.(queued := Some(ticket)))
  {
  }

  lemma SamePlaces(l: Ledger, end: Ledger)
    requires Placed(l)
    requires end.queued == l.queued && end.active == l.active && end.samples == l.samples && end.failures == l.failures
    requires end.clock >= l.clock && end.offered >= l.offered
    ensures Placed(end)
  {
  }

  lemma AdmitPlaces(
    l: Ledger, ticket: Ticket, before: Option<Rect>, reply: Reply, later: nat, end: Ledger, stop: Option<Stop>)
    requires Placed(l) && Newest(l, ticket)
    requires Admit(l, ticket, before, reply, later) == (end, stop) && stop != Some(Panic)
    ensures Placed(end)
  {
    QueuePlaces(l, ticket);
    match reply.admission
    case Refused(message) => RefusePlaces(l, ticket, later, Some(Erred(OwnerWords(message))));
    case Accepted => SamePlaces(l.(queued := Some(ticket)), end);
    case Duplicate =>
      if before.None? || reply.after != Some(ticket.geometry) {
        DeclinePlaces(l, ticket, before, reply, later, end, stop);
      } else {
        SamePlaces(l.(queued := Some(ticket)), end);
      }
    case RejectedCapacity => DeclinePlaces(l, ticket, before, reply, later, end, stop);
  }

  lemma OfferPlaces(l: Ledger, wait: nat, later: nat, reply: Reply, end: Ledger, stop: Option<Stop>)
    requires Placed(l) && Enabled(l, OfferStep(wait, later, reply))
    requires Offer(l, wait, later, reply) == (end, stop) && stop != Some(Panic)
    ensures Placed(end)
  {
    if end != l {
      var made, ticket, before := OfferReaches(l, wait, later, reply, end, stop);
      AdmitPlaces(made, ticket, before, reply, later, end, stop);
    }
  }

  lemma DispatchedPlaces(l: Ledger, public: Option<OwnerView>, end: Ledger, stop: Option<Stop>)
    requires Placed(l)
    requires Dispatched(l, public) == (end, stop) && stop != Some(Panic)
    ensures Placed(end)
  {
    DispatchMoves(l, public, end, stop);
    if TakenUp(l, end) { TakenUpPlaces(l, end); } else { SamePlaces(l, end); }
  }

  lemma TakenUpPlaces(l: Ledger, end: Ledger)
    requires Placed(l) && TakenUp(l, end)
    ensures Placed(end)
  {
  }

  lemma SamplePlaces(l: Ledger, result: Settling, wait: nat, later: nat, end: Ledger, stop: Option<Stop>)
    requires Placed(l)
    requires Sample(l, result, wait, later) == (end, stop) && stop != Some(Panic)
    ensures Placed(end)
  {
    if l.active.Some? {
      if result.outcome.SettledCommitted? {
        CommitPlaces(l, l.active.value, end);
      } else {
        FailPlaces(l, l.active.value, end);
      }
    }
  }

  lemma CommitPlaces(l: Ledger, ticket: Ticket, end: Ledger)
    requires Placed(l) && l.active == Some(ticket)
    requires end.active.None? && end.queued == l.queued && end.failures == l.failures
    requires |end.samples| == |l.samples| + 1 && end.clock >= l.clock && end.offered == l.offered
    requires var note := end.samples[|l.samples|];
      && end.samples == l.samples + [note]
      && note.sequence == ticket.sequence && note.enqueued == ticket.enqueued && note.settled == end.clock
    ensures Placed(end)
  {
  }

  lemma FailPlaces(l: Ledger, ticket: Ticket, end: Ledger)
    requires Placed(l) && l.active == Some(ticket)
    requires end.active.None? && end.queued == l.queued && end.samples == l.samples
    requires |end.failures| == |l.failures| + 1 && end.clock >= l.clock && end.offered == l.offered
    requires var note := end.failures[|l.failures|];
      && end.failures == l.failures + [note] && note.reason in RunDecoder.REASONS
      && note.ticket.sequence == ticket.sequence && note.ticket.enqueued == ticket.enqueued
      && note.observed == end.clock
    ensures Placed(end)
  {
  }

  lemma StepPlaces(l: Ledger, step: Step, end: Ledger, stop: Option<Stop>)
    requires Placed(l) && Enabled(l, step)
    requires Apply(l, step) == (end, stop) && stop != Some(Panic)
    ensures Placed(end)
  {
    match step
    case OfferStep(wait, later, reply) => OfferPlaces(l, wait, later, reply, end, stop);
    case DispatchStep(public) => DispatchedPlaces(l, public, end, stop);
    case ProposalStep(request, transaction) =>
    case SettleStep(result, wait, later) => SamplePlaces(l, result, wait, later, end, stop);
    case ObserveStep(sight) =>
  }

  // ---- one step at a time: schedule ----

  /** Tickets are minted once; every other step only moves them. */
  ghost predicate OnlyMoves(l: Ledger, ticket: Ticket, end: Ledger) {
    && end.settings == l.settings
    && (end.queued == l.queued || end.queued.None? || end.queued == Some(ticket))
    && (end.active.Some? ==>
          || (l.active.Some? && SameMint(end.active.value, l.active.value))
          || (l.queued.Some? && SameMint(end.active.value, l.queued.value)))
    && (end.samples == l.samples
        || (exists note: SampleNote :: end.samples == l.samples + [note] && l.active.Some?
              && note.sequence == l.active.value.sequence && note.scheduled == l.active.value.scheduled
              && note.enqueued == l.active.value.enqueued))
    && (end.failures == l.failures
        || (exists note: FailureNote :: end.failures == l.failures + [note]
              && (note.ticket == ticket || (l.active.Some? && SameMint(note.ticket, l.active.value)))))
  }

  predicate SameMint(a: Ticket, b: Ticket) {
    a.sequence == b.sequence && a.scheduled == b.scheduled && a.enqueued == b.enqueued && a.geometry == b.geometry
  }

  lemma MovesMint(l: Ledger, ticket: Ticket, end: Ledger)
    requires AllMinted(l) && TicketMinted(l.settings, ticket) && OnlyMoves(l, ticket, end)
    ensures AllMinted(end)
  {
  }

  lemma AdmitMoves(
    l: Ledger, ticket: Ticket, before: Option<Rect>, reply: Reply, later: nat, end: Ledger, stop: Option<Stop>)
    requires Admit(l, ticket, before, reply, later) == (end, stop) && stop != Some(Panic)
    ensures OnlyMoves(l, ticket, end)
  {
  }

  lemma StepMints(l: Ledger, step: Step, end: Ledger, stop: Option<Stop>)
    requires AllMinted(l) && Enabled(l, step)
    requires Apply(l, step) == (end, stop) && stop != Some(Panic)
    ensures AllMinted(end) && end.settings == l.settings
  {
    if step.OfferStep? {
      OfferMints(l, step.wait, step.later, step.reply, end, stop);
    } else if step.SettleStep? {
      SampleMints(l, step.result, step.wait, step.later, end, stop);
    } else if l.active.Some? {
      MovesMint(l, l.active.value, end);
    } else if l.queued.Some? {
      MovesMint(l, l.queued.value, end);
    }
  }

  lemma OfferMints(l: Ledger, wait: nat, later: nat, reply: Reply, end: Ledger, stop: Option<Stop>)
    requires AllMinted(l) && Enabled(l, OfferStep(wait, later, reply))
    requires Offer(l, wait, later, reply) == (end, stop) && stop != Some(Panic)
    ensures AllMinted(end) && end.settings == l.settings
  {
    if end != l {
      var made, ticket, before := OfferReaches(l, wait, later, reply, end, stop);
      AdmitMoves(made, ticket, before, reply, later, end, stop);
      MovesMint(made, ticket, end);
    }
  }

  lemma SampleMints(l: Ledger, result: Settling, wait: nat, later: nat, end: Ledger, stop: Option<Stop>)
    requires AllMinted(l)
    requires Sample(l, result, wait, later) == (end, stop) && stop != Some(Panic)
    ensures AllMinted(end) && end.settings == l.settings
  {
    if l.active.Some? {
      MovesMint(l, l.active.value, end);
    }
  }

  // ---- whole runs ----

  lemma StepKeeps(l: Ledger, step: Step, end: Ledger, stop: Option<Stop>)
    requires Inv(l) && Unfailed(l) && Enabled(l, step)
    requires Apply(l, step) == (end, stop) && stop != Some(Panic)
    ensures Inv(end) && end.settings == l.settings
    ensures stop.None? ==> Unfailed(end)
  {
    StepCounts(l, step, end, stop);
    StepPlaces(l, step, end, stop);
    StepMints(l, step, end, stop);
  }

  /** Conservation, order of custody, timing and distinct identities hold in
      every state any run reaches without a failed assertion. */
  lemma {:induction false} RunsConserve(
    settings: Settings, steps: seq<Step>, end: Ledger, stop: Option<Stop>, honest: bool)
    requires settings.Valid()
    requires Run(Opened(settings), steps, end, stop, honest) && stop != Some(Panic)
    ensures Inv(end) && end.settings == settings
    ensures stop.None? ==> Unfailed(end)
    decreases |steps|
  {
    if steps == [] {
    } else {
      var n := |steps| - 1;
      var mid :| Run(Opened(settings), steps[..n], mid, None, honest) && Enabled(mid, steps[n])
                 && Apply(mid, steps[n]) == (end, stop);
      RunsConserve(settings, steps[..n], mid, None, honest);
      StepKeeps(mid, steps[n], end, stop);
    }
  }

  // ---- identities ----

  predicate Positive(id: Option<u64>) {
    id.Some? ==> id.value > 0
  }

  /** The identities in a ledger are positive, and settled ones increase. */
  predicate IdentitiesAdvance(l: Ledger) {
    && (forall i :: 0 <= i < |l.samples| ==> l.samples[i].request > 0 && l.samples[i].transaction > 0)
    && (forall i, j :: 0 <= i < j < |l.samples| ==>
          l.samples[i].request < l.samples[j].request && l.samples[i].transaction < l.samples[j].transaction)
    && (forall i :: 0 <= i < |l.failures| ==>
          Positive(l.failures[i].ticket.request) && Positive(l.failures[i].ticket.transaction))
    && (l.active.Some? ==> Positive(l.active.value.request) && Positive(l.active.value.transaction))
    && (l.queued.Some? ==> Positive(l.queued.value.request) && Positive(l.queued.value.transaction))
  }

  predicate ActiveIsFresh(l: Ledger) {
    l.active.Some? && l.active.value.request.Some? ==> FreshRequest(l, l.active.value.request.value)
  }

  predicate Advancing(l: Ledger) {
    IdentitiesAdvance(l) && ActiveIsFresh(l) && l.maxQueueDepth <= 1
  }

  lemma OfferAdvances(l: Ledger, wait: nat, later: nat, reply: Reply, end: Ledger, stop: Option<Stop>)
    requires Advancing(l) && reply.sight.depth <= 1 && Enabled(l, OfferStep(wait, later, reply))
    requires Offer(l, wait, later, reply) == (end, stop) && stop != Some(Panic)
    ensures Advancing(end)
  {
    if end != l {
      var made, ticket, before := OfferReaches(l, wait, later, reply, end, stop);
      AdmitAdvances(made, ticket, before, reply, later, end, stop);
    }
  }

  lemma RefuseAdvances(l: Ledger, ticket: Ticket, later: nat, next: Option<Stop>)
    requires Advancing(l) && ticket.request.None? && ticket.transaction.None?
    ensures Advancing(Refuse(l, ticket, later, next).0)
  {
  }

  lemma DeclineAdvances(
    l: Ledger, ticket: Ticket, before: Option<Rect>, reply: Reply, later: nat, end: Ledger, stop: Option<Stop>)
    requires Advancing(l) && reply.sight.depth <= 1 && ticket.request.None? && ticket.transaction.None?
    requires Decline(l, ticket, before, reply, later) == (end, stop) && stop != Some(Panic)
    ensures Advancing(end)
  {
    RefuseAdvances(l, ticket, later, None);
  }

  lemma QueueAdvances(l: Ledger, ticket: Ticket, end: Ledger)
    requires Advancing(l) && ticket.request.None? && ticket.transaction.None?
    requires end.samples == l.samples && end.failures == l.failures && end.active == l.active
    requires end.queued == Some(ticket) && end.maxQueueDepth <= 1
    ensures Advancing(end)
  {
  }

  lemma AdmitAdvances(
    l: Ledger, ticket: Ticket, before: Option<Rect>, reply: Reply, later: nat, end: Ledger, stop: Option<Stop>)
    requires Advancing(l) && reply.sight.depth <= 1 && ticket.request.None? && ticket.transaction.None?
    requires Admit(l, ticket, before, reply, later) == (end, stop) && stop != Some(Panic)
    ensures Advancing(end)
  {
    match reply.admission
    case Refused(message) => RefuseAdvances(l, ticket, later, Some(Erred(OwnerWords(message))));
    case Accepted => QueueAdvances(l, ticket, end);
    case Duplicate =>
      if before.None? || reply.after != Some(ticket.geometry) {
        DeclineAdvances(l, ticket, before, reply, later, end, stop);
      } else {
        QueueAdvances(l, ticket, end);
      }
    case RejectedCapacity => DeclineAdvances(l, ticket, before, reply, later, end, stop);
  }

  lemma SampleAdvances(l: Ledger, result: Settling, wait: nat, later: nat, end: Ledger, stop: Option<Stop>)
    requires Advancing(l) && FreshTransaction(l, result.transaction)
    requires Sample(l, result, wait, later) == (end, stop) && stop != Some(Panic)
    ensures Advancing(end)
  {
    if l.active.Some? {
      var ticket := l.active.value.(transaction := Some(result.transaction));
      if result.outcome.SettledCommitted? {
        CommitAdvances(l, end, SampleNote(ticket.sequence, result.request, result.transaction, ticket.scheduled,
                                          ticket.enqueued, end.clock));
      } else {
        FailAdvances(l, end, ticket);
      }
    }
  }

  lemma CommitAdvances(l: Ledger, end: Ledger, note: SampleNote)
    requires Advancing(l) && FreshRequest(l, note.request) && FreshTransaction(l, note.transaction)
    requires end.samples == l.samples + [note] && end.failures == l.failures
    requires end.active.None? && end.queued == l.queued
    requires end.maxQueueDepth == l.maxQueueDepth
    ensures Advancing(end)
  {
  }

  lemma FailAdvances(l: Ledger, end: Ledger, ticket: Ticket)
    requires Advancing(l) && Positive(ticket.request) && Positive(ticket.transaction)
    requires |end.failures| == |l.failures| + 1 && end.failures == l.failures + [end.failures[|l.failures|]]
    requires end.failures[|l.failures|].ticket == ticket
    requires end.samples == l.samples && end.active.None?
    requires end.queued == l.queued && end.maxQueueDepth == l.maxQueueDepth
    ensures Advancing(end)
  {
  }

  lemma HonestStepAdvances(l: Ledger, step: Step, end: Ledger, stop: Option<Stop>)
    requires Custody(l) && Advancing(l) && Enabled(l, step) && Honest(l, step)
    requires Apply(l, step) == (end, stop) && stop != Some(Panic)
    ensures Advancing(end)
  {
    match step
    case OfferStep(wait, later, reply) => OfferAdvances(l, wait, later, reply, end, stop);
    case DispatchStep(public) =>
    case ProposalStep(request, transaction) =>
    case SettleStep(result, wait, later) => SampleAdvances(l, result, wait, later, end, stop);
    case ObserveStep(sight) =>
  }

  /** An honest owner makes every reachable ledger's identities advance. */
  lemma {:induction false} HonestRunsAdvance(settings: Settings, steps: seq<Step>, end: Ledger, stop: Option<Stop>)
    requires settings.Valid()
    requires Run(Opened(settings), steps, end, stop, true) && stop != Some(Panic)
    ensures Advancing(end)
    decreases |steps|
  {
    if steps == [] {
    } else {
      var n := |steps| - 1;
      var mid :| Run(Opened(settings), steps[..n], mid, None, true) && Enabled(mid, steps[n])
                 && Honest(mid, steps[n]) && Apply(mid, steps[n]) == (end, stop);
      HonestRunsAdvance(settings, steps[..n], mid, None);
      RunsConserve(settings, steps[..n], mid, None, true);
      HonestStepAdvances(mid, steps[n], end, stop);
    }
  }

  // ---- something always settles ----

  /** Not every admitted offer was replaced: the last one never is. */
  predicate SomeRetained(l: Ledger) {
    l.admitted > 0 ==> l.coalesced < l.admitted
  }

  lemma StepRetains(l: Ledger, step: Step, end: Ledger, stop: Option<Stop>)
    requires Counted(l) && SomeRetained(l) && Enabled(l, step)
    requires Apply(l, step) == (end, stop) && stop != Some(Panic)
    ensures SomeRetained(end)
  {
    if step.OfferStep? && end != l {
      var made, ticket, before := OfferReaches(l, step.wait, step.later, step.reply, end, stop);
      AdmitRetains(made, ticket, before, step.reply, step.later, end, stop);
    }
  }

  lemma AdmitRetains(
    l: Ledger, ticket: Ticket, before: Option<Rect>, reply: Reply, later: nat, end: Ledger, stop: Option<Stop>)
    requires SomeRetained(l) && before == QueuedGeometry(l) && l.admitted >= l.coalesced + Held(l.queued)
    requires Admit(l, ticket, before, reply, later) == (end, stop) && stop != Some(Panic)
    ensures SomeRetained(end)
  {
  }

  lemma {:induction false} RunsRetain(
    settings: Settings, steps: seq<Step>, end: Ledger, stop: Option<Stop>, honest: bool)
    requires settings.Valid()
    requires Run(Opened(settings), steps, end, stop, honest) && stop != Some(Panic)
    ensures SomeRetained(end)
    decreases |steps|
  {
    if steps == [] {
    } else {
      var n := |steps| - 1;
      var mid :| Run(Opened(settings), steps[..n], mid, None, honest) && Enabled(mid, steps[n])
                 && Apply(mid, steps[n]) == (end, stop);
      RunsRetain(settings, steps[..n], mid, None, honest);
      RunsConserve(settings, steps[..n], mid, None, honest);
      StepRetains(mid, steps[n], end, stop);
    }
  }

  /** A run that made every offer, had none rejected and left nothing in custody
      admitted them all and settled at least one. */
  lemma FullRunsSettle(settings: Settings, steps: seq<Step>, end: Ledger, honest: bool)
    requires settings.Valid() && Run(Opened(settings), steps, end, None, honest)
    requires end.offered == settings.updates && end.rejected == 0 && end.active.None? && end.queued.None?
    ensures end.admitted == settings.updates && end.samples != []
  {
    RunsConserve(settings, steps, end, None, honest);
    RunsRetain(settings, steps, end, None, honest);
  }

  // ---- the sawtooth ----

  /** Two offers have the same geometry exactly when they are a whole number of
      sawtooth periods apart. */
  lemma GeometryRepeats(settings: Settings, a: nat, b: nat)
    ensures settings.Geometry(a) == settings.Geometry(b) <==> a % 64 == b % 64
  {
  }

  /** A move shifts the window by the offset of its offer, keeping its size; a resize
      keeps its corner and grows it by as much. The offset runs through 0..63. */
  lemma GeometryShows(settings: Settings, sequence: nat) returns (offset: nat)
    ensures offset < 64 && (sequence - offset) % 64 == 0
    ensures var r := settings.Geometry(sequence);
      var right, bottom := r.x + r.width, r.y + r.height;
      && right == 96 + 320 + offset && 2 * (bottom - 96 - 240) <= offset <= 2 * (bottom - 96 - 240) + 1
      && (settings.kind == Move ==> r.width == 320 && r.height == 240)
      && (settings.kind != Move ==> r.x == 96 && r.y == 96)
  {
    offset := sequence % 64;
  }

  predicate RefusalNoted(notes: seq<FailureNote>, sequence: nat) {
    exists i :: 0 <= i < |notes| && notes[i].ticket.sequence == sequence && notes[i].reason == EnqueueRefused
  }

  /** The queued ticket is the latest offer that was not rejected: everything
      after it was refused, and noted so. */
  predicate QueueIsLatest(l: Ledger) {
    l.queued.Some? ==>
      && l.offered - l.queued.value.sequence <= l.rejected
      && forall k: nat :: l.queued.value.sequence < k <= l.offered ==> RefusalNoted(l.failures, k)
  }

  lemma NotesStay(notes: seq<FailureNote>, more: seq<FailureNote>, sequence: nat)
    requires RefusalNoted(notes, sequence) && notes <= more
    ensures RefusalNoted(more, sequence)
  {
    var i :| 0 <= i < |notes| && notes[i].ticket.sequence == sequence && notes[i].reason == EnqueueRefused;
    assert more[i] == notes[i];
  }

  /** A step that leaves the queue and the offers alone, or empties the queue. */
  lemma LatestStays(l: Ledger, end: Ledger)
    requires QueueIsLatest(l) && l.failures <= end.failures
    requires end.queued.Some? ==> end.queued == l.queued && end.offered == l.offered && end.rejected == l.rejected
    ensures QueueIsLatest(end)
  {
    if end.queued.Some? {
      forall k: nat | l.queued.value.sequence < k <= l.offered ensures RefusalNoted(end.failures, k) {
        NotesStay(l.failures, end.failures, k);
      }
    }
  }

  /** The latest offer was refused and noted. */
  lemma RefusalKeepsLatest(l: Ledger, end: Ledger)
    requires QueueIsLatest(l) && l.failures <= end.failures && RefusalNoted(end.failures, end.offered)
    requires end.queued == l.queued && end.offered == l.offered + 1 && end.rejected == l.rejected + 1
    ensures QueueIsLatest(end)
  {
    LatestStays(l, end.(offered := l.offered, rejected := l.rejected));
  }

  lemma RefuseNotes(l: Ledger, ticket: Ticket, later: nat, next: Option<Stop>)
    requires Readable(l, later)
    ensures var end := Refuse(l, ticket, later, next).0;
      && l.failures <= end.failures && RefusalNoted(end.failures, ticket.sequence)
      && end.queued == l.queued && end.offered == l.offered && end.rejected == l.rejected + 1
  {
    var end := Refuse(l, ticket, later, next).0;
    var last := |end.failures| - 1;
    assert end.failures[last].ticket == ticket && end.failures[last].reason == EnqueueRefused;
  }

  lemma AdmitKeepsLatest(
    l: Ledger, made: Ledger, ticket: Ticket, before: Option<Rect>, reply: Reply, later: nat,
    end: Ledger, stop: Option<Stop>)
    requires QueueIsLatest(l) && made == l.(clock := made.clock, offered := l.offered + 1)
    requires ticket.sequence == made.offered
    requires Admit(made, ticket, before, reply, later) == (end, stop) && stop != Some(Panic)
    ensures QueueIsLatest(end)
  {
    if end.queued != Some(ticket) && Readable(made, later) {
      RefuseNotes(made, ticket, later, None);
      RefusalKeepsLatest(l, end);
    }
  }

  lemma StepKeepsLatest(l: Ledger, step: Step, end: Ledger, stop: Option<Stop>)
    requires Enabled(l, step) && QueueIsLatest(l)
    requires Apply(l, step) == (end, stop) && stop != Some(Panic)
    ensures QueueIsLatest(end)
  {
    if step.OfferStep? && end != l {
      var made, ticket, before := OfferReaches(l, step.wait, step.later, step.reply, end, stop);
      AdmitKeepsLatest(l, made, ticket, before, step.reply, step.later, end, stop);
    } else {
      LatestStays(l, end);
    }
  }

  lemma {:induction false} RunsKeepLatest(
    settings: Settings, steps: seq<Step>, end: Ledger, stop: Option<Stop>, honest: bool)
    requires settings.Valid()
    requires Run(Opened(settings), steps, end, stop, honest) && stop != Some(Panic)
    ensures QueueIsLatest(end)
    decreases |steps|
  {
    if steps == [] {
    } else {
      var n := |steps| - 1;
      var mid :| Run(Opened(settings), steps[..n], mid, None, honest) && Enabled(mid, steps[n])
                 && Apply(mid, steps[n]) == (end, stop);
      RunsKeepLatest(settings, steps[..n], mid, None, honest);
      StepKeepsLatest(mid, steps[n], end, stop);
    }
  }

  lemma PeriodsApart(older: nat, newest: nat)
    requires older <= newest && older % 64 == (newest + 1) % 64
    ensures newest - older >= 63
  {
  }

  /** The repeated-geometry guard cannot fire because of a stall alone: it needs
      63 offers the owner rejected. */
  lemma RepeatNeedsRejections(settings: Settings, steps: seq<Step>, end: Ledger, honest: bool)
    requires settings.Valid() && Run(Opened(settings), steps, end, None, honest)
    requires QueuedGeometry(end) == Some(settings.Geometry(end.offered + 1))
    ensures end.rejected >= 63
  {
    RunsKeepLatest(settings, steps, end, None, honest);
    RunsConserve(settings, steps, end, None, honest);
    QueueAgreesOnlyAPeriodLater(end);
  }

  lemma QueueAgreesOnlyAPeriodLater(l: Ledger)
    requires AllMinted(l) && Custody(l) && QueueIsLatest(l)
    requires QueuedGeometry(l) == Some(l.settings.Geometry(l.offered + 1))
    ensures l.rejected >= 63
  {
    var sequence := l.queued.value.sequence;
    GeometryRepeats(l.settings, sequence, l.offered + 1);
    PeriodsApart(sequence, l.offered);
  }

  /** When the guard fires, exactly: the offers since the queued one, counting the
      one about to be made, fill whole periods. */
  lemma RepeatGuardIff(l: Ledger, wait: nat, later: nat, reply: Reply)
    requires Inv(l) && OfferDefined(l) && reply.before == QueuedGeometry(l)
    ensures Offer(l, wait, later, reply).1 == Some(Erred(RepeatedQueuedGeometry)) <==> PeriodsSinceQueued(l)
  {
    QueueRepeatsIff(l);
    OfferRepeats(l, wait, later, reply);
  }

  predicate PeriodsSinceQueued(l: Ledger) {
    l.queued.Some? && (l.offered + 1 - l.queued.value.sequence) % 64 == 0
  }

  lemma QueueRepeatsIff(l: Ledger)
    requires AllMinted(l)
    ensures QueuedGeometry(l) == Some(l.settings.Geometry(l.offered + 1)) <==> PeriodsSinceQueued(l)
  {
    if l.queued.Some? {
      GeometryRepeats(l.settings, l.queued.value.sequence, l.offered + 1);
      PeriodsApartIff(l.queued.value.sequence, l.offered + 1);
    }
  }

  lemma PeriodsApartIff(a: nat, b: nat)
    ensures (b - a) % 64 == 0 <==> a % 64 == b % 64
  {
  }

  lemma OfferRepeats(l: Ledger, wait: nat, later: nat, reply: Reply)
    requires OfferDefined(l) && reply.before == QueuedGeometry(l)
    ensures Offer(l, wait, later, reply).1 == Some(Erred(RepeatedQueuedGeometry)) <==>
      QueuedGeometry(l) == Some(l.settings.Geometry(l.offered + 1))
    ensures QueuedGeometry(l) == Some(l.settings.Geometry(l.offered + 1)) ==> Offer(l, wait, later, reply).0 == l
  {
  }

  /** A ledger whose first offer is queued and whose other n were rejected. */
  predicate FirstQueued(l: Ledger, settings: Settings, n: nat)
    requires settings.Valid()
  {
    && l.settings == settings && l.offered == n + 1 && l.rejected == n && n < RunDecoder.MAX_UPDATES
    && QueuedGeometry(l) == Some(settings.Geometry(1)) && l.clock == settings.ScheduledNs(n + 1)
  }

  lemma {:induction false} RejectionsPile(settings: Settings, n: nat) returns (steps: seq<Step>, end: Ledger)
    requires settings.Valid() && n <= 63 && n < settings.updates
    ensures Run(Opened(settings), steps, end, None, true) && FirstQueued(end, settings, n)
  {
    if n == 0 {
      steps, end := FirstOfferQueued(settings);
    } else {
      var before, mid := RejectionsPile(settings, n - 1);
      var step, next := RejectedStep(settings, n, mid);
      steps := HonestExtends(Opened(settings), before, mid, step, next);
      end := next;
    }
  }

  /** 63 rejections are also enough: an honest owner whose queue stays full can
      bring the capture to the guard. */
  lemma RejectionsReachGuard(settings: Settings) returns (steps: seq<Step>, end: Ledger)
    requires settings.Valid() && settings.updates > 63
    ensures Run(Opened(settings), steps, end, None, true) && end.rejected == 63
    ensures QueuedGeometry(end) == Some(settings.Geometry(end.offered + 1))
  {
    var n: nat :| n == 63;
    steps, end := RejectionsPile(settings, n);
    PeriodBehindFirst(settings, n, end);
  }

  lemma PeriodBehindFirst(settings: Settings, n: nat, l: Ledger)
    requires settings.Valid() && FirstQueued(l, settings, n) && (n + 1) % 64 == 0
    ensures QueuedGeometry(l) == Some(settings.Geometry(l.offered + 1))
  {
    GeometryRepeats(settings, 1, n + 2);
  }

  lemma HonestExtends(start: Ledger, before: seq<Step>, mid: Ledger, step: Step, end: Ledger)
    returns (steps: seq<Step>)
    requires Run(start, before, mid, None, true) && Enabled(mid, step) && Honest(mid, step)
    requires Apply(mid, step) == (end, None)
    ensures Run(start, steps, end, None, true)
  {
    steps := before + [step];
    assert steps[..|steps| - 1] == before;
  }

  lemma FirstOfferQueued(settings: Settings) returns (steps: seq<Step>, end: Ledger)
    requires settings.Valid()
    ensures Run(Opened(settings), steps, end, None, true) && FirstQueued(end, settings, 0)
  {
    var step := OfferStep(0, 0, Reply(None, Accepted, Some(settings.Geometry(1)), Sight(0, false)));
    end := Apply(Opened(settings), step).0;
    steps := HonestExtends(Opened(settings), [], Opened(settings), step, end);
  }

  lemma SlotsAdvance(settings: Settings, n: nat)
    requires settings.Valid() && 1 <= n < RunDecoder.MAX_UPDATES
    ensures settings.ScheduledNs(n) <= settings.ScheduledNs(n + 1)
  {
  }

  lemma RejectedStep(settings: Settings, n: nat, l: Ledger) returns (step: Step, end: Ledger)
    requires settings.Valid() && 1 <= n <= 63 && n < settings.updates && FirstQueued(l, settings, n - 1)
    ensures Enabled(l, step) && Honest(l, step) && Apply(l, step) == (end, None) && FirstQueued(end, settings, n)
  {
    GeometryRepeats(settings, 1, n + 1);
    SlotsAdvance(settings, n);
    var wait := settings.ScheduledNs(n + 1) - settings.ScheduledNs(n);
    var first := Some(settings.Geometry(1));
    var reply := Reply(first, RejectedCapacity, first, Sight(0, false));
    step := OfferStep(wait, 0, reply);
    end := RejectedOffer(settings, n, l, wait, reply);
  }

  lemma RejectedOffer(settings: Settings, n: nat, l: Ledger, wait: nat, reply: Reply) returns (end: Ledger)
    requires settings.Valid() && 1 <= n <= 63 && n < settings.updates && FirstQueued(l, settings, n - 1)
    requires l.clock + wait == settings.ScheduledNs(n + 1)
    requires settings.Geometry(1) != settings.Geometry(n + 1)
    requires var first := Some(settings.Geometry(1));
      reply == Reply(first, RejectedCapacity, first, Sight(0, false))
    ensures Offer(l, wait, 0, reply) == (end, None) && FirstQueued(end, settings, n)
  {
    end := Offer(l, wait, 0, reply).0;
  }
}
