/** What the polling loop does is a run of the ledger: of any owner's, and of an
    honest one's when each turn is answered honestly. */
module LoopRuns {
  import opened Prelude
  import opened ReportValue
  import opened CaptureLedger
  import opened CaptureObject

  /** An owner to be trusted, for one turn: its queue never holds more than the one
      measured Update, and the identities it issues are fresh. */
  predicate HonestTurn(l: Ledger, turn: Turn) {
    && (forall i :: 0 <= i < |turn.offers| ==> turn.offers[i].reply.sight.depth <= 1)
    && turn.sight.depth <= 1
    && (turn.public.Some? ==>
          && turn.public.value.depth <= 1
          && (turn.public.value.flight.Some? && l.active.None? ==>
                FreshRequest(l, turn.public.value.flight.value.request)))
    && (turn.poll.Polled? && turn.poll.proposal.Some? && turn.poll.proposal.value.Some? ==>
          turn.poll.proposal.value.value.transaction > 0)
    && (turn.outcome.Settles? ==> FreshTransaction(l, turn.outcome.result.transaction))
  }

  /** And for every turn the loop takes. */
  predicate HonestLoop(l: Ledger, turns: seq<Turn>)
    requires l.settings.Valid()
    decreases |turns|
  {
    if turns == [] then true
    else
      TurnKeepsSettings(l, turns[0]);
      var (next, end) := OneTurn(l, turns[0]);
      HonestTurn(l, turns[0]) && (end == Running ==> HonestLoop(next, turns[1..]))
  }

  /** The loop's end is that of a run: finished with every offer made and nothing
      in custody, or stopped by the run's last step or by the loop itself. */
  ghost predicate Traces(start: Ledger, steps: seq<Step>, now: Ledger, end: LoopEnd, honest: bool) {
    exists stop :: Run(start, steps, now, stop, honest)
      && (stop.Some? ==> end == Stopped(stop.value)) && (end.Finished? ==> Done(now))
  }

  /** The loop returned, with or without an error. */
  predicate Ended(end: LoopEnd) {
    end.Finished? || (end.Stopped? && end.stop.Erred?)
  }

  function ErrorOf(end: LoopEnd): Option<Fault>
    requires Ended(end)
  {
    if end.Finished? then None else Some(end.stop.fault)
  }

  predicate Done(l: Ledger) {
    l.offered == l.settings.updates && l.active.None? && l.queued.None?
  }

  lemma Extend(
    start: Ledger, before: seq<Step>, mid: Ledger, step: Step, end: Ledger, stop: Option<Stop>, honest: bool)
    returns (steps: seq<Step>)
    requires Run(start, before, mid, None, honest) && Enabled(mid, step) && Apply(mid, step) == (end, stop)
    requires honest ==> Honest(mid, step)
    ensures Run(start, steps, end, stop, honest)
  {
    steps := before + [step];
    assert steps[..|steps| - 1] == before;
  }

  predicate Shallow(offers: seq<OfferTurn>) {
    forall i :: 0 <= i < |offers| ==> offers[i].reply.sight.depth <= 1
  }

  /** Offering neither dispatches nor settles. */
  predicate SameFlight(l: Ledger, next: Ledger) {
    next.settings == l.settings && next.active == l.active && next.samples == l.samples
  }

  lemma OfferKeepsFlight(l: Ledger, turn: OfferTurn)
    requires OfferDefined(l)
    ensures SameFlight(l, MakeOffer(l, turn).0)
  {
  }

  /** The inner loop is a run of offers; the deadline ends the loop, not the run. */
  lemma {:induction false} OffersRun(
    start: Ledger, before: seq<Step>, l: Ledger, offers: seq<OfferTurn>, honest: bool)
    returns (steps: seq<Step>, last: Option<Stop>)
    requires l.settings.Valid() && Run(start, before, l, None, honest) && (honest ==> Shallow(offers))
    ensures var (next, stop) := OffersDue(l, offers);
      && Run(start, steps, next, last, honest) && SameFlight(l, next)
      && (last.Some? ==> stop == last) && (stop == Some(Panic) ==> last == stop)
    decreases |offers|
  {
    if offers == [] || !Due(l, offers[0]) || Late(l, offers[0].due + offers[0].look) {
      steps, last := before, None;
    } else {
      var (next, stop) := MakeOffer(l, offers[0]);
      OfferKeepsFlight(l, offers[0]);
      var step := OfferStep(offers[0].due + offers[0].look + offers[0].wait, offers[0].later, offers[0].reply);
      var made := Extend(start, before, l, step, next, stop, honest);
      if stop.Some? {
        steps, last := made, stop;
      } else {
        steps, last := OffersRun(start, made, next, offers[1..], honest);
      }
    }
  }

  lemma SettlementTraces(start: Ledger, before: seq<Step>, l: Ledger, turn: Turn, honest: bool)
    returns (steps: seq<Step>)
    requires Run(start, before, l, None, honest) && (honest ==> turn.sight.depth <= 1)
    ensures var (now, end) := AfterSettlement(l, turn); Traces(start, steps, now, end, honest)
  {
    var (seen, stop) := ObserveDepth(l, turn.sight);
    steps := Extend(start, before, l, ObserveStep(turn.sight), seen, stop, honest);
  }

  /** The part of a turn's honesty that concerns what follows its dispatch. */
  predicate HonestAfter(l: Ledger, turn: Turn) {
    turn.sight.depth <= 1 && (turn.outcome.Settles? ==> FreshTransaction(l, turn.outcome.result.transaction))
  }

  lemma ProposalTraces(start: Ledger, before: seq<Step>, l: Ledger, turn: Turn, honest: bool)
    returns (steps: seq<Step>)
    requires Run(start, before, l, None, honest) && (honest ==> HonestAfter(l, turn))
    ensures var (now, end) := AfterProposal(l, turn); Traces(start, steps, now, end, honest)
  {
    match turn.outcome
    case SettleFailed(text) => steps := before;
    case NotSettled => steps := SettlementTraces(start, before, l, turn, honest);
    case Settles(result, wait, later) =>
      if result.outcome.SettledCommitted? && l.active.None? {
        steps := before;
      } else {
        var (settled, stop) := CaptureLedger.Sample(l, result, wait, later);
        steps := Extend(start, before, l, SettleStep(result, wait, later), settled, stop, honest);
        if stop.None? { steps := SettlementTraces(start, steps, settled, turn, honest); }
      }
  }

  lemma PollTraces(start: Ledger, before: seq<Step>, l: Ledger, turn: Turn, honest: bool)
    returns (steps: seq<Step>)
    requires Run(start, before, l, None, honest) && (honest ==> HonestTurn(l, turn))
    ensures var (now, end) := AfterOffers(l, turn); Traces(start, steps, now, end, honest)
  {
    steps := before;
    if turn.poll.Polled? && !turn.downAfter {
      var (dispatched, stop) := CaptureLedger.Dispatched(l, turn.public);
      steps := Extend(start, before, l, DispatchStep(turn.public), dispatched, stop, honest);
      DispatchKeepsSamples(l, turn.public);
      if stop.Some? || turn.poll.proposal == Some(None) {
      } else if turn.poll.proposal.None? {
        steps := ProposalTraces(start, steps, dispatched, turn, honest);
      } else {
        var id := turn.poll.proposal.value.value;
        var (proposed, stop) := CaptureLedger.Propose(dispatched, id.request, id.transaction);
        steps := Extend(start, steps, dispatched, ProposalStep(id.request, id.transaction), proposed, stop, honest);
        if stop.None? { steps := ProposalTraces(start, steps, proposed, turn, honest); }
      }
    }
  }

  lemma DispatchKeepsSamples(l: Ledger, public: Option<OwnerView>)
    ensures CaptureLedger.Dispatched(l, public).0.samples == l.samples
  {
  }

  lemma TurnTraces(start: Ledger, before: seq<Step>, l: Ledger, turn: Turn, honest: bool)
    returns (steps: seq<Step>)
    requires l.settings.Valid() && Run(start, before, l, None, honest) && (honest ==> HonestTurn(l, turn))
    ensures var (now, end) := OneTurn(l, turn); Traces(start, steps, now, end, honest)
  {
    steps := before;
    if !turn.down && !Late(l, turn.look) {
      var (offered, stop) := OffersDue(l, turn.offers);
      var last;
      steps, last := OffersRun(start, before, l, turn.offers, honest);
      if stop.None? {
        steps := PollTraces(start, steps, offered, turn, honest);
      }
    }
  }

  /** Whatever the turns say, the loop performs a run; an honest one when they are
      answered honestly. */
  lemma {:induction false} LoopTraces(start: Ledger, before: seq<Step>, l: Ledger, turns: seq<Turn>, honest: bool)
    returns (steps: seq<Step>)
    requires l.settings.Valid() && Run(start, before, l, None, honest) && (honest ==> HonestLoop(l, turns))
    ensures var (now, end) := Loop(l, turns); Traces(start, steps, now, end, honest)
    decreases |turns|
  {
    if turns == [] {
      steps := before;
    } else {
      TurnKeepsSettings(l, turns[0]);
      var (next, end) := OneTurn(l, turns[0]);
      steps := TurnTraces(start, before, l, turns[0], honest);
      if end == Running {
        steps := LoopTraces(start, steps, next, turns[1..], honest);
      }
    }
  }

  /** The same for a loop that starts with a new capture. */
  lemma LoopRun(settings: Settings, turns: seq<Turn>, honest: bool)
    returns (steps: seq<Step>, stop: Option<Stop>)
    requires settings.Valid() && (honest ==> HonestLoop(Opened(settings), turns))
    ensures var (now, end) := Loop(Opened(settings), turns);
      && Run(Opened(settings), steps, now, stop, honest)
      && (stop.Some? ==> end == Stopped(stop.value)) && (end.Finished? ==> Done(now))
  {
    var (now, end) := Loop(Opened(settings), turns);
    assert Run(Opened(settings), [], Opened(settings), None, honest);
    steps := LoopTraces(Opened(settings), [], Opened(settings), turns, honest);
    stop :| Run(Opened(settings), steps, now, stop, honest)
      && (stop.Some? ==> end == Stopped(stop.value)) && (end.Finished? ==> Done(now));
  }
}
