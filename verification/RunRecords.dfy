/** What a run leaves in the ledger, read off its steps: every counter, every
    clock reading and every record is determined by the answers the steps were
    given. */
module RunRecords {
  import opened Prelude
  import opened ReportValue
  import opened CaptureLedger

  // ---- what one step says ----

  /** A duplicate replaced the queued update when the queue changed. */
  predicate Replaces(step: Step) {
    step.OfferStep? && step.reply.admission.Duplicate? && step.reply.after != step.reply.before
  }

  predicate Admits(step: Step) {
    step.OfferStep? && (step.reply.admission.Accepted? || Replaces(step))
  }

  predicate Offers(step: Step) {
    step.OfferStep?
  }

  predicate Rejects(step: Step) {
    step.OfferStep? && !Admits(step)
  }

  predicate Commits(step: Step) {
    step.SettleStep? && step.result.outcome.SettledCommitted?
  }

  predicate TimesOut(step: Step) {
    step.SettleStep? && step.result.outcome.SettledTimedOut?
  }

  predicate IsStale(step: Step) {
    step.SettleStep? && step.result.outcome.SettledStale?
  }

  predicate IsInvalid(step: Step) {
    step.SettleStep? && step.result.outcome.SettledInvalid?
  }

  predicate Fails(step: Step) {
    TimesOut(step) || IsStale(step) || IsInvalid(step)
  }

  /** The reason a step leaves in the failures, when it leaves one. */
  function ReasonOf(step: Step): Word
    requires Rejects(step) || Fails(step)
  {
    if Rejects(step) then EnqueueRefused
    else if TimesOut(step) then TimedOut
    else if IsStale(step) then RejectedStale
    else RejectedInvalid
  }

  /** How far a step moves the clock: noting a failure takes a second reading. */
  function Duration(step: Step): nat {
    match step
    case OfferStep(wait, later, _) => if Rejects(step) then wait + later else wait
    case SettleStep(_, wait, later) => if Fails(step) then wait + later else wait
    case _ => 0
  }

  // ---- what the steps say together ----

  function Count(steps: seq<Step>, p: Step -> bool): nat {
    if steps == [] then 0
    else Count(steps[..|steps| - 1], p) + if p(steps[|steps| - 1]) then 1 else 0
  }

  function Elapsed(steps: seq<Step>): nat {
    if steps == [] then 0 else Elapsed(steps[..|steps| - 1]) + Duration(steps[|steps| - 1])
  }

  /** When each offer was made, in the order of the offers. */
  function OfferTimes(steps: seq<Step>): (times: seq<nat>) {
    if steps == [] then []
    else
      var n := |steps| - 1;
      OfferTimes(steps[..n]) + if Offers(steps[n]) then [Elapsed(steps[..n]) + steps[n].wait] else []
  }

  datatype Holding = Holding(sequence: nat, request: nat, transaction: Option<nat>)

  /** Which offers are in custody: the one that waits, and the one in flight. */
  datatype Custody = Custody(waiting: Option<nat>, flying: Option<Holding>)

  predicate HasFlight(public: Option<OwnerView>) {
    public.Some? && public.value.flight.Some?
  }

  /** The latest admitted offer waits until a flight takes it, and flies until it is
      settled; a proposal names its transaction. */
  function CustodyOf(steps: seq<Step>): Custody {
    if steps == [] then Custody(None, None)
    else
      var n := |steps| - 1;
      var held := CustodyOf(steps[..n]);
      match steps[n]
      case OfferStep(_, _, _) => if Admits(steps[n]) then held.(waiting := Some(Count(steps, Offers))) else held
      case DispatchStep(public) =>
        if held.flying.None? && held.waiting.Some? && HasFlight(public)
        then Custody(None, Some(Holding(held.waiting.value, public.value.flight.value.request, None))) else held
      case ProposalStep(_, transaction) =>
        if held.flying.Some? then held.(flying := Some(held.flying.value.(transaction := Some(transaction)))) else held
      case SettleStep(_, _, _) => held.(flying := None)
      case ObserveStep(_) => held
  }

  /** The offer in flight, and 0 when there is none. */
  function InFlight(steps: seq<Step>): nat {
    var flying := CustodyOf(steps).flying;
    if flying.Some? then flying.value.sequence else 0
  }

  datatype Commitment = Commitment(sequence: nat, request: nat, transaction: nat, settled: nat)

  /** Which offers were committed, by whom and when, in order. */
  function Commitments(steps: seq<Step>): seq<Commitment> {
    if steps == [] then []
    else
      var n := |steps| - 1;
      Commitments(steps[..n])
      + if Commits(steps[n])
        then [Commitment(InFlight(steps[..n]), steps[n].result.request, steps[n].result.transaction, Elapsed(steps))]
        else []
  }

  /** A refused offer has no identities; a failed settlement names both. */
  datatype Mishap = Mishap(
    sequence: nat, request: Option<u64>, transaction: Option<u64>, reason: Word, observed: nat)

  function MishapOf(sequence: nat, step: Step, observed: nat): Mishap
    requires Rejects(step) || Fails(step)
  {
    if Rejects(step) then Mishap(sequence, None, None, ReasonOf(step), observed)
    else Mishap(sequence, Some(step.result.request), Some(step.result.transaction), ReasonOf(step), observed)
  }

  /** Which offers failed, why, and when it was noted, in order. */
  function Mishaps(steps: seq<Step>): seq<Mishap> {
    if steps == [] then []
    else
      var n := |steps| - 1;
      Mishaps(steps[..n])
      + if Rejects(steps[n]) then [MishapOf(Count(steps, Offers), steps[n], Elapsed(steps))]
        else if Fails(steps[n]) then [MishapOf(InFlight(steps[..n]), steps[n], Elapsed(steps))]
        else []
  }

  /** What a step saw of the owner; a refused offer sees nothing. */
  function Seen(step: Step): Sight {
    match step
    case OfferStep(_, _, reply) => if reply.admission.Refused? then Sight(0, false) else reply.sight
    case DispatchStep(public) => if public.Some? then Sight(public.value.depth, HasFlight(public)) else Sight(0, false)
    case ObserveStep(sight) => sight
    case _ => Sight(0, false)
  }

  function Deepest(steps: seq<Step>): nat {
    if steps == [] then 0 else Max(Deepest(steps[..|steps| - 1]), Seen(steps[|steps| - 1]).depth)
  }

  predicate FlightSeen(steps: seq<Step>) {
    exists i :: 0 <= i < |steps| && Seen(steps[i]).inFlight
  }

  // ---- what the ledger says ----

  function CommitmentsIn(samples: seq<SampleNote>): (r: seq<Commitment>)
    ensures |r| == |samples|
    ensures forall i :: 0 <= i < |r| ==> r[i] == CommitmentIn(samples[i])
  {
    seq(|samples|, i requires 0 <= i < |samples| => CommitmentIn(samples[i]))
  }

  function CommitmentIn(note: SampleNote): Commitment {
    Commitment(note.sequence, note.request, note.transaction, note.settled)
  }

  function MishapsIn(failures: seq<FailureNote>): (r: seq<Mishap>)
    ensures |r| == |failures|
    ensures forall i :: 0 <= i < |r| ==> r[i] == MishapIn(failures[i])
  {
    seq(|failures|, i requires 0 <= i < |failures| => MishapIn(failures[i]))
  }

  function MishapIn(note: FailureNote): Mishap {
    Mishap(note.ticket.sequence, note.ticket.request, note.ticket.transaction, note.reason, note.observed)
  }

  predicate OffersCounted(l: Ledger, steps: seq<Step>) {
    && l.offered == Count(steps, Offers)
    && l.admitted == Count(steps, Admits)
    && l.coalesced == Count(steps, Replaces)
    && l.rejected == Count(steps, Rejects)
  }

  predicate OutcomesCounted(l: Ledger, steps: seq<Step>) {
    && l.settled == Count(steps, Commits)
    && l.timeouts == Count(steps, TimesOut)
    && l.rejectedSettlements == Count(steps, IsStale) + Count(steps, IsInvalid)
  }

  predicate RecordsListed(l: Ledger, steps: seq<Step>) {
    && l.clock == Elapsed(steps)
    && CommitmentsIn(l.samples) == Commitments(steps)
    && MishapsIn(l.failures) == Mishaps(steps)
  }

  predicate CustodyHeld(l: Ledger, steps: seq<Step>) {
    var held := CustodyOf(steps);
    && (l.queued.Some? <==> held.waiting.Some?) && (l.queued.Some? ==> l.queued.value.sequence == held.waiting.value)
    && (l.active.Some? <==> held.flying.Some?)
    && (l.active.Some? ==> HeldAs(l.active.value, held.flying.value))
    && (l.queued.Some? ==> l.queued.value.request.None? && l.queued.value.transaction.None?)
  }

  predicate HeldAs(ticket: Ticket, holding: Holding) {
    && ticket.sequence == holding.sequence && ticket.request == Some(holding.request)
    && (ticket.transaction.Some? <==> holding.transaction.Some?)
    && (ticket.transaction.Some? ==> ticket.transaction.value == holding.transaction.value)
  }

  predicate MaximaSeen(l: Ledger, steps: seq<Step>) {
    l.maxQueueDepth == Deepest(steps) && l.maxInFlight == if FlightSeen(steps) then 1 else 0
  }

  predicate MadeAt(sequence: nat, enqueued: nat, times: seq<nat>) {
    1 <= sequence <= |times| && enqueued == times[sequence - 1]
  }

  predicate TicketMadeAt(ticket: Ticket, times: seq<nat>) {
    MadeAt(ticket.sequence, ticket.enqueued, times)
  }

  /** Every ticket and record carries the instant at which its own offer was made. */
  predicate OffersTimed(l: Ledger, times: seq<nat>) {
    && |times| == l.offered
    && (l.queued.Some? ==> TicketMadeAt(l.queued.value, times))
    && (l.active.Some? ==> TicketMadeAt(l.active.value, times))
    && (forall i :: 0 <= i < |l.failures| ==> TicketMadeAt(l.failures[i].ticket, times))
    && (forall i :: 0 <= i < |l.samples| ==> MadeAt(l.samples[i].sequence, l.samples[i].enqueued, times))
  }

  /** Of the complaints that stop a run only two come from a step that did something:
      a refused offer's and a failed settlement's. */
  predicate LeavesTrace(stop: Option<Stop>) {
    stop.None? || (stop.value.Erred? && (stop.value.fault.OwnerWords? || stop.value.fault.LayoutOutcome?))
  }

  /** The steps that did something. */
  function Counted(steps: seq<Step>, stop: Option<Stop>): seq<Step> {
    if steps != [] && !LeavesTrace(stop) then steps[..|steps| - 1] else steps
  }

  // ---- one step ----

  /** A step that did something. */
  predicate Traced(l: Ledger, step: Step, end: Ledger, stop: Option<Stop>) {
    Enabled(l, step) && Apply(l, step) == (end, stop) && LeavesTrace(stop)
  }

  /** What an offer does, by its answer: first what it is put to the owner as. */
  lemma OfferMade(l: Ledger, step: Step, end: Ledger, stop: Option<Stop>) returns (made: Ledger, ticket: Ticket)
    requires step.OfferStep? && Traced(l, step, end, stop)
    ensures made == l.(clock := made.clock, offered := l.offered + 1) && made.clock == l.clock + step.wait
    ensures ticket.sequence == made.offered && ticket.enqueued == made.clock
    ensures ticket.request.None? && ticket.transaction.None?
    ensures step.reply.before == QueuedGeometry(l) != Some(ticket.geometry)
    ensures Admit(made, ticket, QueuedGeometry(l), step.reply, step.later) == (end, stop)
  {
    var enqueued := l.clock + step.wait;
    made, ticket := l.(clock := enqueued, offered := l.offered + 1), NextTicket(l, enqueued);
  }

  /** A ledger in which the owner took an offer. */
  predicate Taken(l: Ledger, ticket: Ticket, replaced: bool, end: Ledger) {
    && end.admitted == l.admitted + 1 && end.coalesced == l.coalesced + (if replaced then 1 else 0)
    && end.queued == Some(ticket)
    && end == l.(admitted := end.admitted, coalesced := end.coalesced, queued := end.queued,
                 maxQueueDepth := end.maxQueueDepth, maxInFlight := end.maxInFlight)
  }

  /** And one in which it did not. */
  predicate TurnedDown(l: Ledger, ticket: Ticket, later: nat, end: Ledger) {
    && end.rejected == l.rejected + 1 && end.clock == l.clock + later
    && end.failures == l.failures + [FailureNote(ticket, EnqueueRefused, end.clock)]
    && end == l.(rejected := end.rejected, clock := end.clock, failures := end.failures,
                 maxQueueDepth := end.maxQueueDepth, maxInFlight := end.maxInFlight)
  }

  lemma AdmitAnswers(l: Ledger, ticket: Ticket, before: Option<Rect>, step: Step, end: Ledger, stop: Option<Stop>)
    requires step.OfferStep? && step.reply.before == before != Some(ticket.geometry)
    requires Admit(l, ticket, before, step.reply, step.later) == (end, stop) && LeavesTrace(stop)
    ensures if Admits(step) then Taken(l, ticket, Replaces(step), end) else TurnedDown(l, ticket, step.later, end)
  {
  }

  lemma AdmitSees(l: Ledger, ticket: Ticket, before: Option<Rect>, step: Step, end: Ledger, stop: Option<Stop>)
    requires step.OfferStep? && Admit(l, ticket, before, step.reply, step.later) == (end, stop) && LeavesTrace(stop)
    ensures end.maxQueueDepth == Max(l.maxQueueDepth, Seen(step).depth)
    ensures end.maxInFlight == if Seen(step).inFlight then Max(l.maxInFlight, 1) else l.maxInFlight
  {
  }

  lemma OfferLeaves(l: Ledger, step: Step, end: Ledger, stop: Option<Stop>)
    requires step.OfferStep? && Traced(l, step, end, stop)
    ensures end.offered == l.offered + 1 && end.clock == l.clock + Duration(step)
    ensures end.admitted == l.admitted + (if Admits(step) then 1 else 0)
    ensures end.coalesced == l.coalesced + (if Replaces(step) then 1 else 0)
    ensures end.rejected == l.rejected + (if Rejects(step) then 1 else 0)
    ensures end.settled == l.settled && end.timeouts == l.timeouts
    ensures end.rejectedSettlements == l.rejectedSettlements
  {
    var made, ticket := OfferMade(l, step, end, stop);
    AdmitAnswers(made, ticket, QueuedGeometry(l), step, end, stop);
  }

  lemma OfferWrites(l: Ledger, step: Step, end: Ledger, stop: Option<Stop>) returns (ticket: Ticket)
    requires step.OfferStep? && Traced(l, step, end, stop)
    ensures ticket.sequence == l.offered + 1 && ticket.enqueued == l.clock + step.wait
    ensures ticket.request.None? && ticket.transaction.None?
    ensures end.samples == l.samples && end.active == l.active
    ensures Admits(step) ==> end.queued == Some(ticket) && end.failures == l.failures
    ensures Rejects(step) ==>
      end.queued == l.queued && end.failures == l.failures + [FailureNote(ticket, EnqueueRefused, end.clock)]
  {
    var made;
    made, ticket := OfferMade(l, step, end, stop);
    AdmitAnswers(made, ticket, QueuedGeometry(l), step, end, stop);
  }

  lemma SettleLeaves(l: Ledger, step: Step, end: Ledger, stop: Option<Stop>)
    requires step.SettleStep? && Traced(l, step, end, stop)
    ensures end.clock == l.clock + Duration(step)
    ensures end.offered == l.offered && end.admitted == l.admitted
    ensures end.coalesced == l.coalesced && end.rejected == l.rejected
    ensures end.settled == l.settled + (if Commits(step) then 1 else 0)
    ensures end.timeouts == l.timeouts + (if TimesOut(step) then 1 else 0)
    ensures end.rejectedSettlements == l.rejectedSettlements + (if IsStale(step) || IsInvalid(step) then 1 else 0)
    ensures stop == if Fails(step) then Some(Erred(LayoutOutcome(ReasonOf(step)))) else None
  {
  }

  lemma SettleWrites(l: Ledger, step: Step, end: Ledger, stop: Option<Stop>)
    requires step.SettleStep? && Traced(l, step, end, stop)
    ensures l.active.Some? && l.active.value.request == Some(step.result.request)
    ensures end.active.None? && end.queued == l.queued
    ensures var ticket, result := l.active.value.(transaction := Some(step.result.transaction)), step.result;
      && (Commits(step) ==>
            && end.failures == l.failures
            && end.samples == l.samples + [SampleNote(ticket.sequence, result.request, result.transaction,
                                                      ticket.scheduled, ticket.enqueued, end.clock)])
      && (Fails(step) ==>
            && end.samples == l.samples
            && end.failures == l.failures + [FailureNote(ticket, ReasonOf(step), end.clock)])
  {
  }

  lemma OtherLeaves(l: Ledger, step: Step, end: Ledger, stop: Option<Stop>)
    requires !step.OfferStep? && !step.SettleStep? && Traced(l, step, end, stop)
    ensures stop.None? && end.clock == l.clock && end.samples == l.samples && end.failures == l.failures
    ensures end.offered == l.offered && end.admitted == l.admitted && end.coalesced == l.coalesced
    ensures end.rejected == l.rejected && end.settled == l.settled && end.timeouts == l.timeouts
    ensures end.rejectedSettlements == l.rejectedSettlements
    ensures end.queued.Some? ==> end.queued == l.queued
    ensures end.active.Some? ==> SameOffer(end.active, l.active) || SameOffer(end.active, l.queued)
  {
  }

  predicate SameOffer(a: Option<Ticket>, b: Option<Ticket>) {
    a.Some? && b.Some? && a.value.sequence == b.value.sequence && a.value.enqueued == b.value.enqueued
  }

  lemma CountLast(steps: seq<Step>, step: Step, p: Step -> bool)
    ensures Count(steps + [step], p) == Count(steps, p) + if p(step) then 1 else 0
  {
    assert (steps + [step])[..|steps|] == steps;
  }

  lemma OffersStayCounted(l: Ledger, steps: seq<Step>, step: Step, end: Ledger, stop: Option<Stop>)
    requires OffersCounted(l, steps) && Traced(l, step, end, stop)
    ensures OffersCounted(end, steps + [step])
  {
    CountLast(steps, step, Offers);
    CountLast(steps, step, Admits);
    CountLast(steps, step, Replaces);
    CountLast(steps, step, Rejects);
    if step.OfferStep? {
      OfferLeaves(l, step, end, stop);
    } else if step.SettleStep? {
      SettleLeaves(l, step, end, stop);
    } else {
      OtherLeaves(l, step, end, stop);
    }
  }

  lemma OutcomesStayCounted(l: Ledger, steps: seq<Step>, step: Step, end: Ledger, stop: Option<Stop>)
    requires OutcomesCounted(l, steps) && Traced(l, step, end, stop)
    ensures OutcomesCounted(end, steps + [step])
  {
    CountLast(steps, step, Commits);
    CountLast(steps, step, TimesOut);
    CountLast(steps, step, IsStale);
    CountLast(steps, step, IsInvalid);
    if step.OfferStep? {
      OfferLeaves(l, step, end, stop);
    } else if step.SettleStep? {
      SettleLeaves(l, step, end, stop);
    } else {
      OtherLeaves(l, step, end, stop);
    }
  }

  lemma CommitmentsGrow(samples: seq<SampleNote>, note: SampleNote)
    ensures CommitmentsIn(samples + [note]) == CommitmentsIn(samples) + [CommitmentIn(note)]
  {
  }

  lemma MishapsGrow(failures: seq<FailureNote>, note: FailureNote)
    ensures MishapsIn(failures + [note]) == MishapsIn(failures) + [MishapIn(note)]
  {
  }

  lemma LastStep(steps: seq<Step>, step: Step)
    ensures (steps + [step])[..|steps|] == steps
  {
  }

  lemma RecordsStayListed(l: Ledger, steps: seq<Step>, step: Step, end: Ledger, stop: Option<Stop>)
    requires OffersCounted(l, steps) && RecordsListed(l, steps) && CustodyHeld(l, steps) && Traced(l, step, end, stop)
    ensures RecordsListed(end, steps + [step])
  {
    LastStep(steps, step);
    if step.OfferStep? {
      OfferLeaves(l, step, end, stop);
      var ticket := OfferWrites(l, step, end, stop);
      CountLast(steps, step, Offers);
      if Rejects(step) { MishapsGrow(l.failures, FailureNote(ticket, EnqueueRefused, end.clock)); }
    } else if step.SettleStep? {
      SettlementListed(l, steps, step, end, stop);
    } else {
      OtherLeaves(l, step, end, stop);
    }
  }

  lemma SettlementListed(l: Ledger, steps: seq<Step>, step: Step, end: Ledger, stop: Option<Stop>)
    requires RecordsListed(l, steps) && CustodyHeld(l, steps) && step.SettleStep? && Traced(l, step, end, stop)
    ensures RecordsListed(end, steps + [step])
  {
    LastStep(steps, step);
    SettleLeaves(l, step, end, stop);
    SettleWrites(l, step, end, stop);
    if Commits(step) {
      CommitmentsGrow(l.samples, end.samples[|l.samples|]);
    } else {
      MishapsGrow(l.failures, end.failures[|l.failures|]);
    }
  }

  lemma OffersStayTimed(l: Ledger, steps: seq<Step>, step: Step, end: Ledger, stop: Option<Stop>)
    requires l.clock == Elapsed(steps) && OffersTimed(l, OfferTimes(steps)) && Traced(l, step, end, stop)
    ensures OffersTimed(end, OfferTimes(steps + [step]))
  {
    LastStep(steps, step);
    if step.OfferStep? {
      OfferLeaves(l, step, end, stop);
      var ticket := OfferWrites(l, step, end, stop);
    } else if step.SettleStep? {
      SettleLeaves(l, step, end, stop);
      SettleWrites(l, step, end, stop);
    } else {
      OtherLeaves(l, step, end, stop);
    }
  }

  lemma DispatchHolds(l: Ledger, steps: seq<Step>, public: Option<OwnerView>, end: Ledger, stop: Option<Stop>)
    requires CustodyHeld(l, steps) && Traced(l, DispatchStep(public), end, stop)
    ensures CustodyHeld(end, steps + [DispatchStep(public)])
  {
    LastStep(steps, DispatchStep(public));
  }

  lemma ProposalHolds(l: Ledger, steps: seq<Step>, request: u64, transaction: u64, end: Ledger, stop: Option<Stop>)
    requires CustodyHeld(l, steps) && Traced(l, ProposalStep(request, transaction), end, stop)
    ensures CustodyHeld(end, steps + [ProposalStep(request, transaction)])
  {
    LastStep(steps, ProposalStep(request, transaction));
  }

  lemma CustodyStaysHeld(l: Ledger, steps: seq<Step>, step: Step, end: Ledger, stop: Option<Stop>)
    requires OffersCounted(l, steps) && CustodyHeld(l, steps) && Traced(l, step, end, stop)
    ensures CustodyHeld(end, steps + [step])
  {
    LastStep(steps, step);
    match step
    case OfferStep(_, _, _) =>
      var ticket := OfferWrites(l, step, end, stop);
      CountLast(steps, step, Offers);
    case DispatchStep(public) => DispatchHolds(l, steps, public, end, stop);
    case ProposalStep(request, transaction) => ProposalHolds(l, steps, request, transaction, end, stop);
    case SettleStep(_, _, _) => SettleWrites(l, step, end, stop);
    case ObserveStep(_) =>
  }

  lemma StepSees(l: Ledger, step: Step, end: Ledger, stop: Option<Stop>)
    requires Traced(l, step, end, stop)
    ensures end.maxQueueDepth == Max(l.maxQueueDepth, Seen(step).depth)
    ensures end.maxInFlight == if Seen(step).inFlight then Max(l.maxInFlight, 1) else l.maxInFlight
  {
    match step
    case OfferStep(_, _, _) =>
      var made, ticket := OfferMade(l, step, end, stop);
      AdmitSees(made, ticket, QueuedGeometry(l), step, end, stop);
    case DispatchStep(_) =>
    case ProposalStep(_, _) =>
    case SettleStep(_, _, _) =>
    case ObserveStep(_) =>
  }

  lemma MaximaStaySeen(l: Ledger, steps: seq<Step>, step: Step, end: Ledger, stop: Option<Stop>)
    requires MaximaSeen(l, steps) && Traced(l, step, end, stop)
    ensures MaximaSeen(end, steps + [step])
  {
    var longer := steps + [step];
    LastStep(steps, step);
    StepSees(l, step, end, stop);
    if FlightSeen(steps) {
      var i :| 0 <= i < |steps| && Seen(steps[i]).inFlight;
      assert longer[i] == steps[i];
    }
    if Seen(step).inFlight { assert Seen(longer[|steps|]).inFlight; }
    assert FlightSeen(longer) <==> FlightSeen(steps) || Seen(step).inFlight;
  }

  // ---- whole runs ----

  /** The ledger is exactly what the steps tell. */
  predicate Told(l: Ledger, steps: seq<Step>) {
    && OffersCounted(l, steps) && OutcomesCounted(l, steps) && RecordsListed(l, steps)
    && CustodyHeld(l, steps) && MaximaSeen(l, steps) && OffersTimed(l, OfferTimes(steps))
  }

  lemma StepTells(l: Ledger, steps: seq<Step>, step: Step, end: Ledger, stop: Option<Stop>)
    requires Told(l, steps) && Traced(l, step, end, stop)
    ensures Told(end, steps + [step])
  {
    OffersStayCounted(l, steps, step, end, stop);
    OutcomesStayCounted(l, steps, step, end, stop);
    RecordsStayListed(l, steps, step, end, stop);
    CustodyStaysHeld(l, steps, step, end, stop);
    MaximaStaySeen(l, steps, step, end, stop);
    OffersStayTimed(l, steps, step, end, stop);
  }

  /** Any other complaint leaves the ledger as it was. */
  lemma UncountedChangesNothing(l: Ledger, step: Step, end: Ledger, stop: Option<Stop>)
    requires Enabled(l, step) && Apply(l, step) == (end, stop) && stop != Some(Panic) && !LeavesTrace(stop)
    ensures end == l
  {
    match step
    case OfferStep(wait, later, reply) => OfferUncounted(l, wait, later, reply, end, stop);
    case DispatchStep(public) =>
    case ProposalStep(_, _) =>
    case SettleStep(result, wait, later) =>
    case ObserveStep(_) =>
  }

  lemma OfferUncounted(l: Ledger, wait: nat, later: nat, reply: Reply, end: Ledger, stop: Option<Stop>)
    requires OfferDefined(l) && Offer(l, wait, later, reply) == (end, stop) && stop != Some(Panic) && !LeavesTrace(stop)
    ensures end == l
  {
  }

  lemma NothingToTell(settings: Settings)
    ensures Told(Opened(settings), [])
  {
  }

  /** Whatever a run did, the ledger it leaves is the one its steps tell of. */
  lemma {:induction false} RunsRecord(
    settings: Settings, steps: seq<Step>, end: Ledger, stop: Option<Stop>, honest: bool)
    requires Run(Opened(settings), steps, end, stop, honest) && stop != Some(Panic)
    ensures Told(end, Counted(steps, stop))
    decreases |steps|
  {
    if steps == [] {
      NothingToTell(settings);
    } else {
      var n := |steps| - 1;
      var mid :| Run(Opened(settings), steps[..n], mid, None, honest) && Enabled(mid, steps[n])
                 && Apply(mid, steps[n]) == (end, stop);
      RunsRecord(settings, steps[..n], mid, None, honest);
      LastTells(mid, steps, end, stop);
    }
  }

  lemma LastTells(mid: Ledger, steps: seq<Step>, end: Ledger, stop: Option<Stop>)
    requires steps != [] && Told(mid, steps[..|steps| - 1])
    requires Enabled(mid, steps[|steps| - 1]) && Apply(mid, steps[|steps| - 1]) == (end, stop) && stop != Some(Panic)
    ensures Told(end, Counted(steps, stop))
  {
    var n := |steps| - 1;
    if LeavesTrace(stop) {
      assert steps == steps[..n] + [steps[n]];
      StepTells(mid, steps[..n], steps[n], end, stop);
    } else {
      UncountedChangesNothing(mid, steps[n], end, stop);
    }
  }

  // ---- reasons ----

  /** How many of the noted failures have a reason. */
  function Naming(mishaps: seq<Mishap>, reason: Word): nat {
    if mishaps == [] then 0
    else Naming(mishaps[..|mishaps| - 1], reason) + if mishaps[|mishaps| - 1].reason == reason then 1 else 0
  }

  lemma NamingGrows(mishaps: seq<Mishap>, next: Mishap, reason: Word)
    ensures Naming(mishaps + [next], reason) == Naming(mishaps, reason) + if next.reason == reason then 1 else 0
  {
    assert (mishaps + [next])[..|mishaps|] == mishaps;
  }

  /** The steps that leave a given reason. */
  predicate Leaves(step: Step, reason: Word) {
    (Rejects(step) || Fails(step)) && ReasonOf(step) == reason
  }

  lemma {:induction false} NamingCounts(steps: seq<Step>, reason: Word, p: Step -> bool)
    requires forall i :: 0 <= i < |steps| ==> (p(steps[i]) <==> Leaves(steps[i], reason))
    ensures Naming(Mishaps(steps), reason) == Count(steps, p)
  {
    if steps == [] {
    } else {
      var n := |steps| - 1;
      NamingCounts(steps[..n], reason, p);
      if Rejects(steps[n]) || Fails(steps[n]) {
        var sequence := if Rejects(steps[n]) then Count(steps, Offers) else InFlight(steps[..n]);
        NamingGrows(Mishaps(steps[..n]), MishapOf(sequence, steps[n], Elapsed(steps)), reason);
      } else {
        assert Mishaps(steps) == Mishaps(steps[..n]);
      }
    }
  }

  lemma {:induction false} NobodyLeaves(steps: seq<Step>, reason: Word)
    requires reason !in {EnqueueRefused, TimedOut, RejectedStale, RejectedInvalid}
    ensures Naming(Mishaps(steps), reason) == 0
  {
    NamingCounts(steps, reason, step => false);
    NoneCounted(steps);
  }

  lemma {:induction false} NoneCounted(steps: seq<Step>)
    ensures Count(steps, step => false) == 0
  {
    if steps == [] {
    } else {
      NoneCounted(steps[..|steps| - 1]);
    }
  }

  lemma ReasonsCounted(steps: seq<Step>)
    ensures Naming(Mishaps(steps), EnqueueRefused) == Count(steps, Rejects)
    ensures Naming(Mishaps(steps), TimedOut) == Count(steps, TimesOut)
    ensures Naming(Mishaps(steps), RejectedStale) == Count(steps, IsStale)
    ensures Naming(Mishaps(steps), RejectedInvalid) == Count(steps, IsInvalid)
  {
    NamingCounts(steps, EnqueueRefused, Rejects);
    NamingCounts(steps, TimedOut, TimesOut);
    NamingCounts(steps, RejectedStale, IsStale);
    NamingCounts(steps, RejectedInvalid, IsInvalid);
  }

  /** In every run the counters and the notes of each reason agree with the steps of
      the like-named outcome, and nothing else is noted while it lasts. */
  lemma OutcomesNoted(settings: Settings, steps: seq<Step>, end: Ledger, stop: Option<Stop>, honest: bool)
    requires Run(Opened(settings), steps, end, stop, honest) && stop != Some(Panic)
    ensures var counted, noted := Counted(steps, stop), MishapsIn(end.failures);
      && end.timeouts == Count(counted, TimesOut) == Naming(noted, TimedOut)
      && end.rejectedSettlements == Count(counted, IsStale) + Count(counted, IsInvalid)
      && Count(counted, IsStale) == Naming(noted, RejectedStale)
      && Count(counted, IsInvalid) == Naming(noted, RejectedInvalid)
      && end.rejected == Count(counted, Rejects) == Naming(noted, EnqueueRefused)
      && end.settled == Count(counted, Commits) == |end.samples|
      && Naming(noted, Disconnected) == 0 && Naming(noted, MeasurementDeadline) == 0
  {
    var counted := Counted(steps, stop);
    RunsRecord(settings, steps, end, stop, honest);
    ReasonsCounted(counted);
    NobodyLeaves(counted, Disconnected);
    NobodyLeaves(counted, MeasurementDeadline);
    CommitmentsCounted(counted);
  }

  lemma {:induction false} CommitmentsCounted(steps: seq<Step>)
    ensures |Commitments(steps)| == Count(steps, Commits)
  {
    if steps == [] {
    } else {
      CommitmentsCounted(steps[..|steps| - 1]);
    }
  }

  /** A run stops with a settlement's reason exactly when that settlement failed with
      it, and with the owner's words exactly when those refused an offer. */
  lemma RunStopNames(settings: Settings, steps: seq<Step>, end: Ledger, stop: Option<Stop>, honest: bool)
    requires Run(Opened(settings), steps, end, stop, honest) && steps != [] && LeavesTrace(stop)
    ensures var last := steps[|steps| - 1];
      stop ==
        if Fails(last) then Some(Erred(LayoutOutcome(ReasonOf(last))))
        else if last.OfferStep? && last.reply.admission.Refused?
        then Some(Erred(OwnerWords(last.reply.admission.message)))
        else None
  {
    var last := steps[|steps| - 1];
    var mid :| Enabled(mid, last) && Apply(mid, last) == (end, stop);
    if last.SettleStep? {
      SettleLeaves(mid, last, end, stop);
    } else if last.OfferStep? {
      OfferStopNames(mid, last, end, stop);
    } else {
      OtherLeaves(mid, last, end, stop);
    }
  }

  lemma OfferStopNames(l: Ledger, step: Step, end: Ledger, stop: Option<Stop>)
    requires step.OfferStep? && Traced(l, step, end, stop)
    ensures stop ==
      if step.reply.admission.Refused? then Some(Erred(OwnerWords(step.reply.admission.message))) else None
  {
  }

  // ---- when a run goes on ----

  /** An offer's answer agrees with the ledger and with the owner's own queue. */
  predicate AnswerFits(l: Ledger, step: Step)
    requires step.OfferStep?
  {
    var geometry, reply := l.settings.Geometry(l.offered + 1), step.reply;
    && reply.before == QueuedGeometry(l) != Some(geometry)
    && reply.after == (if Admits(step) then Some(geometry) else reply.before)
    && (reply.admission.Accepted? ==> l.queued.None?) && (reply.admission.Duplicate? && Admits(step) ==> l.queued.Some?)
    && reply.sight.depth <= l.settings.capacity
  }

  /** An offer lets the run go on exactly when it was not refused in words, its answer
      fits and the clock can still be read. */
  lemma OfferGoesOnIff(l: Ledger, step: Step)
    requires step.OfferStep? && Enabled(l, step)
    ensures Apply(l, step).1.None? <==>
      AnswerFits(l, step) && !step.reply.admission.Refused? && l.clock + Duration(step) < TWO64
  {
  }

  /** What the owner shows in flight is the measured update in custody: the active one
      under its own request or, when none is active, the queued one. */
  predicate Measured(l: Ledger, view: OwnerView) {
    match view.flight
    case None => l.active.None?
    case Some(flight) =>
      && flight.measuredSource && (l.active.Some? || l.queued.Some?)
      && (l.active.Some? ==> l.active.value.request == Some(flight.request))
      && flight.cause == Interaction(Update, l.settings.kind,
           if l.active.Some? then l.active.value.geometry else l.queued.value.geometry)
  }

  lemma DispatchGoesOnIff(l: Ledger, public: Option<OwnerView>)
    ensures Apply(l, DispatchStep(public)).1.None? <==>
      public.Some? && Measured(l, public.value) && public.value.depth <= l.settings.capacity
  {
  }

  /** Which of the dispatch's complaints is made. */
  lemma DispatchComplains(l: Ledger, public: Option<OwnerView>, fault: Fault)
    requires Apply(l, DispatchStep(public)).1 == Some(Erred(fault))
    ensures if public.None? then fault == OwnerDisappeared
      else if public.value.flight.None? then fault == CustodyLost && l.active.Some?
      else
        var flight, held := public.value.flight.value, if l.active.Some? then l.active else l.queued;
        if !flight.measuredSource then fault == UnmeasuredSource
        else if held.None? then fault == UnmeasuredEntry
        else if flight.cause != Interaction(Update, l.settings.kind, held.value.geometry) then fault == UnmeasuredCause
        else fault == IdentityChanged && held.value.request != Some(flight.request)
  {
  }

  lemma ProposalGoesOnIff(l: Ledger, request: u64, transaction: u64)
    ensures Apply(l, ProposalStep(request, transaction)).1.None? <==>
      l.active.Some? && l.active.value.request == Some(request)
    ensures Apply(l, ProposalStep(request, transaction)).1 == Some(Erred(UnmeasuredProposal)) <==> l.active.None?
  {
  }

  /** A settlement lets the run go on exactly when it commits the active request. */
  lemma SettlementGoesOnIff(l: Ledger, step: Step)
    requires step.SettleStep?
    ensures Apply(l, step).1.None? <==>
      && l.active.Some? && l.active.value.request == Some(step.result.request)
      && Commits(step) && l.clock + step.wait < TWO64
    ensures Apply(l, step).1 == Some(Erred(SettlementWithoutRequest)) <==> l.active.None?
  {
  }
}
