/** The capture as the fixture keeps it: fields updated in place, and the polling
    loop that drives them. Every method is proved against the ledger step it
    performs, and the loop against the turns it is given. */
module CaptureObject {
  import opened Prelude
  import opened ReportValue
  import opened CaptureLedger

  class Capture {
    const settings: Settings
    var clock: u64
    var offered: nat
    var admitted: nat
    var rejected: nat
    var coalesced: nat
    var settled: nat
    var timeouts: nat
    var disconnects: nat
    var rejectedSettlements: nat
    var unresolved: nat
    var maxInFlight: nat
    var maxQueueDepth: nat
    var queued: Option<Ticket>
    var active: Option<Ticket>
    var samples: seq<SampleNote>
    var failures: seq<FailureNote>

    ghost function State(): Ledger
      reads this
    {
      Ledger(settings, clock, offered, admitted, rejected, coalesced, settled, timeouts, disconnects,
             rejectedSettlements, unresolved, maxInFlight, maxQueueDepth, queued, active, samples, failures)
    }

    constructor (settings: Settings)
      ensures State() == Opened(settings)
    {
      this.settings := settings;
      clock, offered, admitted, rejected, coalesced, settled := 0, 0, 0, 0, 0, 0;
      timeouts, disconnects, rejectedSettlements, unresolved := 0, 0, 0, 0;
      maxInFlight, maxQueueDepth := 0, 0;
      queued, active, samples, failures := None, None, [], [];
    }

    method Failure(ticket: Ticket, reason: Word, wait: nat)
      requires Readable(State(), wait)
      modifies this
      ensures State() == NoteFailure(old(State()), ticket, reason, wait)
    {
      clock := clock + wait;
      failures := failures + [FailureNote(ticket, reason, clock)];
    }

    method Observe(sight: Sight) returns (stop: Option<Stop>)
      modifies this
      ensures (State(), stop) == ObserveDepth(old(State()), sight)
    {
      maxQueueDepth := Max(maxQueueDepth, sight.depth);
      maxInFlight := Max(maxInFlight, if sight.inFlight then 1 else 0);
      stop := if sight.depth <= settings.capacity then None else Some(Panic);
    }

    method RefuseOffer(ticket: Ticket, later: nat, next: Option<Stop>) returns (stop: Option<Stop>)
      modifies this
      ensures (State(), stop) == Refuse(old(State()), ticket, later, next)
    {
      rejected := rejected + 1;
      if clock + later >= TWO64 { return Some(Panic); }
      Failure(ticket, EnqueueRefused, later);
      stop := next;
    }

    method Offer(wait: nat, later: nat, reply: Reply) returns (stop: Option<Stop>)
      requires OfferDefined(State())
      modifies this
      ensures (State(), stop) == CaptureLedger.Offer(old(State()), wait, later, reply)
    {
      var sequence := offered + 1;
      var geometry := settings.Geometry(sequence);
      var before := if queued.Some? then Some(queued.value.geometry) else None;
      if reply.before != before { return Some(Panic); }
      if before == Some(geometry) { return Some(Erred(RepeatedQueuedGeometry)); }
      if clock + wait >= TWO64 { return Some(Panic); }
      var ticket := Ticket(sequence, settings.ScheduledNs(sequence), clock + wait, geometry, None, None);
      clock := clock + wait;
      offered := offered + 1;
      stop := AdmitOffer(ticket, before, reply, later);
    }

    method AdmitOffer(ticket: Ticket, before: Option<Rect>, reply: Reply, later: nat) returns (stop: Option<Stop>)
      modifies this
      ensures (State(), stop) == Admit(old(State()), ticket, before, reply, later)
    {
      match reply.admission {
        case Refused(message) =>
          stop := RefuseOffer(ticket, later, Some(Erred(OwnerWords(message))));
        case Accepted =>
          if queued.Some? || reply.after != Some(ticket.geometry) { return Some(Panic); }
          admitted := admitted + 1;
          queued := Some(ticket);
          stop := Observe(reply.sight);
        case Duplicate =>
          if before.Some? && reply.after == Some(ticket.geometry) {
            coalesced := coalesced + 1;
            admitted := admitted + 1;
            queued := Some(ticket);
            stop := Observe(reply.sight);
          } else {
            stop := DeclineOffer(ticket, before, reply, later);
          }
        case RejectedCapacity =>
          stop := DeclineOffer(ticket, before, reply, later);
      }
    }

    method DeclineOffer(ticket: Ticket, before: Option<Rect>, reply: Reply, later: nat) returns (stop: Option<Stop>)
      modifies this
      ensures (State(), stop) == Decline(old(State()), ticket, before, reply, later)
    {
      if reply.after != before { return Some(Panic); }
      stop := RefuseOffer(ticket, later, None);
      if stop.None? {
        stop := Observe(reply.sight);
      }
    }

    method Dispatched(public: Option<OwnerView>) returns (stop: Option<Stop>)
      modifies this
      ensures (State(), stop) == CaptureLedger.Dispatched(old(State()), public)
    {
      if public.None? { return Some(Erred(OwnerDisappeared)); }
      var view := public.value;
      if view.flight.Some? {
        var flight := view.flight.value;
        if !flight.measuredSource { return Some(Erred(UnmeasuredSource)); }
        var candidate := if active.Some? then active else queued;
        if candidate.None? { return Some(Erred(UnmeasuredEntry)); }
        if flight.cause != Interaction(Update, settings.kind, candidate.value.geometry) {
          return Some(Erred(UnmeasuredCause));
        }
        if active.Some? {
          if active.value.request != Some(flight.request) { return Some(Erred(IdentityChanged)); }
        } else {
          queued := None;
          active := Some(candidate.value.(request := Some(flight.request)));
        }
      } else if active.Some? {
        return Some(Erred(CustodyLost));
      }
      stop := Observe(Sight(view.depth, view.flight.Some?));
    }

    method Propose(request: u64, transaction: u64) returns (stop: Option<Stop>)
      modifies this
      ensures (State(), stop) == CaptureLedger.Propose(old(State()), request, transaction)
    {
      if active.None? { return Some(Erred(UnmeasuredProposal)); }
      if active.value.request != Some(request) { return Some(Panic); }
      active := Some(active.value.(transaction := Some(transaction)));
      stop := None;
    }

    method FailedSettlement(ticket: Ticket, reason: Word, later: nat) returns (stop: Option<Stop>)
      modifies this
      ensures (State(), stop) == FailSettlement(old(State()), ticket, reason, later)
    {
      if clock + later >= TWO64 { return Some(Panic); }
      Failure(ticket, reason, later);
      stop := Some(Erred(LayoutOutcome(reason)));
    }

    method Committed(ticket: Ticket, result: Settling, wait: nat) returns (stop: Option<Stop>)
      modifies this
      ensures (State(), stop) == CommitSample(old(State()), ticket, result, wait)
    {
      settled := settled + 1;
      if clock + wait >= TWO64 { return Some(Panic); }
      clock := clock + wait;
      samples := samples + [SampleNote(ticket.sequence, result.request, result.transaction,
                                       ticket.scheduled, ticket.enqueued, clock)];
      stop := None;
    }

    method Sample(result: Settling, wait: nat, later: nat) returns (stop: Option<Stop>)
      modifies this
      ensures (State(), stop) == CaptureLedger.Sample(old(State()), result, wait, later)
    {
      if active.None? { return Some(Erred(SettlementWithoutRequest)); }
      var ticket := active.value;
      active := None;
      if ticket.request != Some(result.request) { return Some(Panic); }
      ticket := ticket.(transaction := Some(result.transaction));
      match result.outcome {
        case SettledCommitted =>
          stop := Committed(ticket, result, wait);
        case SettledTimedOut =>
          timeouts := timeouts + 1;
          stop := FailedSettlement(ticket, TimedOut, wait + later);
        case SettledStale =>
          rejectedSettlements := rejectedSettlements + 1;
          stop := FailedSettlement(ticket, RejectedStale, wait + later);
        case SettledInvalid =>
          rejectedSettlements := rejectedSettlements + 1;
          stop := FailedSettlement(ticket, RejectedInvalid, wait + later);
      }
    }

    /** Closes custody of one ticket, counting it where it was lost. */
    method CloseOne(ticket: Ticket, disconnected: bool, deadline: bool, wait: nat, records: seq<OpenNote>)
        returns (next: seq<OpenNote>)
      requires Readable(State(), wait)
      modifies this
      ensures Closing(State(), next) ==
        CloseTicket(Closing(old(State()), records), ticket, disconnected, deadline, wait)
    {
      if disconnected { disconnects := disconnects + 1; } else { unresolved := unresolved + 1; }
      next := records;
      if disconnected || deadline {
        Failure(ticket, if disconnected then Disconnected else MeasurementDeadline, wait);
      } else {
        clock := clock + wait;
        next := records + [OpenNote(ticket, clock)];
      }
    }

    /** Closes custody of whatever was left, the active ticket first. */
    method Close(disconnected: bool, deadline: bool, waits: Waits) returns (records: seq<OpenNote>)
      requires ReportReadable(State(), waits)
      modifies this
      ensures Closing(State(), records) == CloseBoth(old(State()), disconnected, deadline, waits)
    {
      var left := [(active, waits.first), (queued, waits.second)];
      active, queued, records := None, None, [];
      for i := 0 to 2
        invariant i == 0 ==> State() == old(State()).(active := None, queued := None) && records == []
        invariant i <= 1 ==> State().clock + waits.second + waits.last < TWO64
        invariant i == 1 ==> Closing(State(), records) == CloseActive(old(State()), disconnected, deadline, waits)
        invariant i == 2 ==> Closing(State(), records) == CloseBoth(old(State()), disconnected, deadline, waits)
      {
        if left[i].0.Some? {
          records := CloseOne(left[i].0.value, disconnected, deadline, left[i].1, records);
        }
      }
    }

    method Finish(error: Option<Fault>, disconnected: bool, waits: Waits) returns (report: Value)
      requires ReportReadable(State(), waits)
      modifies this
      ensures report == CaptureLedger.Finish(old(State()), error, disconnected, waits)
      ensures State() == CloseAll(old(State()), disconnected, error == Some(AbsoluteDeadline), waits).ledger
    {
      ghost var before := State();
      var records := Close(disconnected, error == Some(AbsoluteDeadline), waits);
      clock := clock + waits.last;
      ghost var closed := Closing(State(), records);
      assert closed == CloseAll(before, disconnected, error == Some(AbsoluteDeadline), waits);
      report := Report(error, records);
      FinishIs(before, error, disconnected, waits, closed);
    }

    method Report(error: Option<Fault>, records: seq<OpenNote>) returns (report: Value)
      ensures report == ReportValueOf(Closing(State(), records), FinalError(State(), error))
    {
      var terminal := CheckedAdd(CheckedAdd(CheckedAdd(CheckedAdd(CheckedAdd(
        Some(coalesced), settled), timeouts), disconnects), rejectedSettlements), unresolved);
      var broken := CheckedAdd(Some(admitted), rejected) != Some(offered)
                    || terminal != Some(admitted)
                    || (error.None? && offered != settings.updates);
      var final := if broken then Text(Diagnostic(error, true))
                   else if error.Some? then Text(Diagnostic(error, false)) else Null;
      report := Object(map[
        Schema := Number(1), WireName := Text(settings.wire), RateHz := Number(settings.rate),
        Kind := Text(settings.kind), RequestedUpdates := Number(settings.updates),
        Offered := Number(offered), Admitted := Number(admitted), Rejected := Number(rejected),
        Coalesced := Number(coalesced), Settled := Number(settled), Timeouts := Number(timeouts),
        Disconnects := Number(disconnects), RejectedSettlements := Number(rejectedSettlements),
        Unresolved := Number(unresolved), MaxQueueDepth := Number(maxQueueDepth),
        MaxInFlight := Number(maxInFlight), ElapsedNs := Number(clock),
        Samples := Array(SampleValues(samples)), Failures := Array(FailureValues(failures)),
        UnresolvedUpdates := Array(OpenValues(records)), Error := final,
        Status := Text(if final.Null? && rejected == 0 then Complete else Failed),
        Boundary := Text(SessionBoundary), CheckpointMode := Text(NormalCheckpoint),
        FrontendAcks := Text(SuppliedAcks), Pixels := Text(SuppliedPixels), Acceptance := Bool(false)]);
    }
  }

  lemma FinishIs(
    l: Ledger, error: Option<Fault>, disconnected: bool, waits: Waits, closed: Closing)
    requires ReportReadable(l, waits)
    requires closed == CloseAll(l, disconnected, error == Some(AbsoluteDeadline), waits)
    ensures CaptureLedger.Finish(l, error, disconnected, waits)
         == ReportValueOf(closed, FinalError(closed.ledger, error))
  {
  }

  // ---- the polling loop ----

  /** What a capture may take beyond its last slot. */
  const DRAIN_BUDGET: nat := 12_000_000_000

  /** What the clock and the owner answer to one turn of the inner offer loop. The
      clock is read to see whether the slot has come, `look` later to see whether
      there is time left, and `wait` later for the offer itself. */
  datatype OfferTurn = OfferTurn(due: nat, look: nat, wait: nat, later: nat, reply: Reply)

  datatype Identity = Identity(request: u64, transaction: u64)

  datatype Poll = PollFailed(text: string) | Polled(proposal: Option<Option<Identity>>)

  datatype Outcome = SettleFailed(text: string) | NotSettled | Settles(result: Settling, wait: nat, later: nat)

  /** What they answer to one whole turn of the outer loop, which begins with a
      look at the clock. */
  datatype Turn = Turn(
    down: bool,
    look: nat,
    offers: seq<OfferTurn>,
    poll: Poll,
    downAfter: bool,
    public: Option<OwnerView>,
    outcome: Outcome,
    sight: Sight,
    idle: bool)

  datatype LoopEnd = Running | Finished | Stopped(stop: Stop)

  function MakeOffer(l: Ledger, turn: OfferTurn): (Ledger, Option<Stop>)
    requires OfferDefined(l)
  {
    CaptureLedger.Offer(l, turn.due + turn.look + turn.wait, turn.later, turn.reply)
  }

  lemma OfferKeepsSettings(l: Ledger, turn: OfferTurn)
    requires OfferDefined(l)
    ensures MakeOffer(l, turn).0.settings == l.settings
  {
  }

  /** The inner loop on the ledger: every slot that has come is offered, until one
      has not, or the deadline or the offer itself ends the run. */
  function OffersDue(l: Ledger, offers: seq<OfferTurn>): (Ledger, Option<Stop>)
    requires l.settings.Valid()
    decreases |offers|
  {
    if offers == [] || !Due(l, offers[0]) then (l, None)
    else if Late(l, offers[0].due + offers[0].look) then (l, Some(Erred(AbsoluteDeadline)))
    else
      OfferKeepsSettings(l, offers[0]);
      var (next, stop) := MakeOffer(l, offers[0]);
      if stop.Some? then (next, stop) else OffersDue(next, offers[1..])
  }

  predicate Due(l: Ledger, turn: OfferTurn)
    requires l.settings.Valid()
  {
    l.offered < l.settings.updates && l.clock + turn.due >= l.settings.ScheduledNs(l.offered + 1)
  }

  /** A reading at or past the end of the drain budget. */
  predicate Late(l: Ledger, look: nat)
    requires l.settings.Valid()
  {
    l.clock + look >= l.settings.ScheduledNs(l.settings.updates) + DRAIN_BUDGET
  }

  lemma OffersStop(l: Ledger, offers: seq<OfferTurn>, i: nat)
    requires i <= |offers| && l.settings.Valid()
    requires i == |offers| || !Due(l, offers[i]) || Late(l, offers[i].due + offers[i].look)
    ensures OffersDue(l, offers[i..]) ==
      (l, if i == |offers| || !Due(l, offers[i]) then None else Some(Erred(AbsoluteDeadline)))
  {
  }

  lemma OffersGoOn(
    l: Ledger, offers: seq<OfferTurn>, i: nat, next: Ledger, stop: Option<Stop>)
    requires i < |offers| && l.settings.Valid() && Due(l, offers[i]) && !Late(l, offers[i].due + offers[i].look)
    requires MakeOffer(l, offers[i]) == (next, stop)
    ensures next.settings == l.settings
    ensures OffersDue(l, offers[i..]) == if stop.Some? then (next, stop) else OffersDue(next, offers[i + 1..])
  {
    OfferKeepsSettings(l, offers[i]);
    assert offers[i..][0] == offers[i] && offers[i..][1..] == offers[i + 1..];
  }

  /** What the poll found: dispatch, proposal, settlement, and the end. */
  function AfterOffers(l: Ledger, turn: Turn): (Ledger, LoopEnd) {
    if turn.poll.PollFailed? then (l, Stopped(Erred(OwnerWords(turn.poll.text))))
    else if turn.downAfter then (l, Stopped(Erred(TransportFailed)))
    else
      var (dispatched, stop) := CaptureLedger.Dispatched(l, turn.public);
      if stop.Some? then (dispatched, Stopped(stop.value))
      else if turn.poll.proposal.None? then AfterProposal(dispatched, turn)
      else if turn.poll.proposal.value.None? then (dispatched, Stopped(Erred(ProposalWithoutIdentity)))
      else
        var id := turn.poll.proposal.value.value;
        var (proposed, stop) := CaptureLedger.Propose(dispatched, id.request, id.transaction);
        if stop.Some? then (proposed, Stopped(stop.value)) else AfterProposal(proposed, turn)
  }

  function AfterProposal(l: Ledger, turn: Turn): (Ledger, LoopEnd) {
    match turn.outcome
    case SettleFailed(text) => (l, Stopped(Erred(OwnerWords(text))))
    case NotSettled => AfterSettlement(l, turn)
    case Settles(result, wait, later) =>
      if result.outcome.SettledCommitted? && l.active.None? then (l, Stopped(Panic))
      else
        var (settled, stop) := CaptureLedger.Sample(l, result, wait, later);
        if stop.Some? then (settled, Stopped(stop.value)) else AfterSettlement(settled, turn)
  }

  function AfterSettlement(l: Ledger, turn: Turn): (Ledger, LoopEnd) {
    var (seen, stop) := ObserveDepth(l, turn.sight);
    if stop.Some? then (seen, Stopped(stop.value))
    else if seen.offered != seen.settings.updates || !turn.idle then (seen, Running)
    else if seen.active.Some? || seen.queued.Some? then (seen, Stopped(Panic))
    else (seen, Finished)
  }

  function OneTurn(l: Ledger, turn: Turn): (Ledger, LoopEnd)
    requires l.settings.Valid()
  {
    if turn.down then (l, Stopped(Erred(TransportFailed)))
    else if Late(l, turn.look) then (l, Stopped(Erred(AbsoluteDeadline)))
    else
      var (offered, stop) := OffersDue(l, turn.offers);
      if stop.Some? then (offered, Stopped(stop.value)) else AfterOffers(offered, turn)
  }

  lemma TurnKeepsSettings(l: Ledger, turn: Turn)
    requires l.settings.Valid()
    ensures OneTurn(l, turn).0.settings == l.settings
  {
    OffersKeepSettings(l, turn.offers);
    AfterOffersKeepSettings(OffersDue(l, turn.offers).0, turn);
  }

  lemma {:induction false} OffersKeepSettings(l: Ledger, offers: seq<OfferTurn>)
    requires l.settings.Valid()
    ensures OffersDue(l, offers).0.settings == l.settings
    decreases |offers|
  {
    if offers == [] || !Due(l, offers[0]) || Late(l, offers[0].due + offers[0].look) {
    } else {
      OfferKeepsSettings(l, offers[0]);
      OffersKeepSettings(MakeOffer(l, offers[0]).0, offers[1..]);
    }
  }

  lemma AfterOffersKeepSettings(l: Ledger, turn: Turn)
    ensures AfterOffers(l, turn).0.settings == l.settings
  {
    var dispatched := CaptureLedger.Dispatched(l, turn.public).0;
    AfterProposalKeepsSettings(dispatched, turn);
    if turn.poll.Polled? && turn.poll.proposal.Some? && turn.poll.proposal.value.Some? {
      var id := turn.poll.proposal.value.value;
      AfterProposalKeepsSettings(CaptureLedger.Propose(dispatched, id.request, id.transaction).0, turn);
    }
  }

  lemma AfterProposalKeepsSettings(l: Ledger, turn: Turn)
    ensures AfterProposal(l, turn).0.settings == l.settings
  {
  }

  /** The outer loop on the ledger, for as long as there are answers. */
  function Loop(l: Ledger, turns: seq<Turn>): (Ledger, LoopEnd)
    requires l.settings.Valid()
    decreases |turns|
  {
    if turns == [] then (l, Running)
    else
      TurnKeepsSettings(l, turns[0]);
      var (next, end) := OneTurn(l, turns[0]);
      if end != Running then (next, end) else Loop(next, turns[1..])
  }

  lemma LoopGoesOn(l: Ledger, turns: seq<Turn>, i: nat)
    requires l.settings.Valid() && i < |turns|
    ensures var (next, end) := OneTurn(l, turns[i]);
      && next.settings == l.settings
      && Loop(l, turns[i..]) == if end != Running then (next, end) else Loop(next, turns[i + 1..])
  {
    TurnKeepsSettings(l, turns[i]);
    assert turns[i..][0] == turns[i] && turns[i..][1..] == turns[i + 1..];
  }

  method OfferOne(c: Capture, offers: seq<OfferTurn>, i: nat) returns (stop: Option<Stop>)
    requires c.settings.Valid() && i < |offers| && Due(c.State(), offers[i])
    requires !Late(c.State(), offers[i].due + offers[i].look)
    modifies c
    ensures OffersDue(old(c.State()), offers[i..]) ==
      if stop.Some? then (c.State(), stop) else OffersDue(c.State(), offers[i + 1..])
  {
    var turn := offers[i];
    ghost var before := c.State();
    stop := c.Offer(turn.due + turn.look + turn.wait, turn.later, turn.reply);
    OffersGoOn(before, offers, i, c.State(), stop);
  }

  /** The inner loop: every elapsed slot is offered. */
  method OfferDue(c: Capture, offers: seq<OfferTurn>) returns (stop: Option<Stop>)
    requires c.settings.Valid()
    modifies c
    ensures (c.State(), stop) == OffersDue(old(c.State()), offers)
  {
    var i := 0;
    assert offers[0..] == offers;
    while i < |offers| && c.offered < c.settings.updates
          && c.clock + offers[i].due >= c.settings.ScheduledNs(c.offered + 1)
      invariant c.settings.Valid() && i <= |offers|
      invariant OffersDue(old(c.State()), offers) == OffersDue(c.State(), offers[i..])
      decreases |offers| - i
    {
      if c.clock + offers[i].due + offers[i].look >= c.settings.ScheduledNs(c.settings.updates) + DRAIN_BUDGET {
        OffersStop(c.State(), offers, i);
        return Some(Erred(AbsoluteDeadline));
      }
      stop := OfferOne(c, offers, i);
      if stop.Some? { return; }
      i := i + 1;
    }
    OffersStop(c.State(), offers, i);
    stop := None;
  }

  /** One turn of the outer loop after its offers. */
  method Settle(c: Capture, turn: Turn) returns (end: LoopEnd)
    modifies c
    ensures (c.State(), end) == AfterOffers(old(c.State()), turn)
  {
    if turn.poll.PollFailed? { return Stopped(Erred(OwnerWords(turn.poll.text))); }
    if turn.downAfter { return Stopped(Erred(TransportFailed)); }
    var stop := c.Dispatched(turn.public);
    if stop.Some? { return Stopped(stop.value); }
    if turn.poll.proposal.Some? {
      if turn.poll.proposal.value.None? { return Stopped(Erred(ProposalWithoutIdentity)); }
      var id := turn.poll.proposal.value.value;
      stop := c.Propose(id.request, id.transaction);
      if stop.Some? { return Stopped(stop.value); }
    }
    end := Conclude(c, turn);
  }

  method Conclude(c: Capture, turn: Turn) returns (end: LoopEnd)
    modifies c
    ensures (c.State(), end) == AfterProposal(old(c.State()), turn)
  {
    match turn.outcome {
      case SettleFailed(text) => return Stopped(Erred(OwnerWords(text)));
      case NotSettled =>
      case Settles(result, wait, later) =>
        if result.outcome.SettledCommitted? && c.active.None? { return Stopped(Panic); }
        var stop := c.Sample(result, wait, later);
        if stop.Some? { return Stopped(stop.value); }
    }
    end := Observed(c, turn);
  }

  /** The turn's last look at the owner, and whether the loop is done. */
  method Observed(c: Capture, turn: Turn) returns (end: LoopEnd)
    modifies c
    ensures (c.State(), end) == AfterSettlement(old(c.State()), turn)
  {
    var stop := c.Observe(turn.sight);
    if stop.Some? { return Stopped(stop.value); }
    if c.offered == c.settings.updates && turn.idle {
      if c.active.Some? || c.queued.Some? { return Stopped(Panic); }
      return Finished;
    }
    end := Running;
  }

  method TakeTurn(c: Capture, turn: Turn) returns (end: LoopEnd)
    requires c.settings.Valid()
    modifies c
    ensures (c.State(), end) == OneTurn(old(c.State()), turn)
  {
    if turn.down { return Stopped(Erred(TransportFailed)); }
    if c.clock + turn.look >= c.settings.ScheduledNs(c.settings.updates) + DRAIN_BUDGET {
      return Stopped(Erred(AbsoluteDeadline));
    }
    var stop := OfferDue(c, turn.offers);
    if stop.Some? { return Stopped(stop.value); }
    end := Settle(c, turn);
  }

  /** Whatever the clock and the owner answer, the loop does exactly what its turns
      prescribe. `Running` means the answers ran out before the loop ended. */
  method MeasuredLoop(c: Capture, turns: seq<Turn>) returns (end: LoopEnd)
    requires c.settings.Valid()
    modifies c
    ensures (c.State(), end) == Loop(old(c.State()), turns)
  {
    end := Running;
    assert turns[0..] == turns;
    for i := 0 to |turns|
      invariant c.settings.Valid() && end == Running
      invariant Loop(old(c.State()), turns) == Loop(c.State(), turns[i..])
    {
      LoopGoesOn(c.State(), turns, i);
      end := TakeTurn(c, turns[i]);
      if end != Running { return; }
    }
  }
}
