/** When the polling loop goes on, and how it ends: the exact condition on what
    its turns were answered, for every end. The ledger's steps are the only
    vocabulary; the loop's own functions appear only as what is explained. */
module LoopEnds {
  import opened Prelude
  import opened ReportValue
  import opened CaptureLedger
  import opened CaptureObject

  // ---- the clock ----

  /** A reading `due` after the ledger's last one is not before the next slot. */
  predicate SlotCome(l: Ledger, due: nat) {
    l.offered < l.settings.updates && l.offered * 1_000_000_000 < (l.clock + due + 1) * l.settings.rate
  }

  /** A reading before the end of the twelve seconds that follow the last slot. */
  predicate InTime(l: Ledger, reading: nat) {
    (l.clock + reading + 1 - 12_000_000_000) * l.settings.rate <= (l.settings.updates - 1) * 1_000_000_000
  }

  /** The quotient is reached exactly when one nanosecond more passes the product. */
  lemma QuotientReached(product: nat, rate: nat, reading: int)
    requires rate > 0
    ensures reading >= product / rate <==> product < (reading + 1) * rate
  {
    var quotient := product / rate;
    assert quotient * rate <= product < (quotient + 1) * rate;
    if reading >= quotient {
      Scaled(quotient + 1, reading + 1, rate);
    } else {
      Scaled(reading + 1, quotient, rate);
    }
  }

  lemma Scaled(a: int, b: int, c: nat)
    requires a <= b
    ensures a * c <= b * c
  {
    var d: nat := b - a;
    assert b * c == a * c + d * c;
    MulMonotone(0, d, c);
  }

  lemma DueIff(l: Ledger, offer: OfferTurn)
    requires l.settings.Valid()
    ensures Due(l, offer) <==> SlotCome(l, offer.due)
  {
    QuotientReached(l.offered * 1_000_000_000, l.settings.rate, l.clock + offer.due);
  }

  lemma LateIff(l: Ledger, reading: nat)
    requires l.settings.Valid()
    ensures Late(l, reading) <==> !InTime(l, reading)
  {
    QuotientReached((l.settings.updates - 1) * 1_000_000_000, l.settings.rate, l.clock + reading - 12_000_000_000);
  }

  // ---- the offers of one turn ----

  function OfferOf(offer: OfferTurn): Step {
    OfferStep(offer.due + offer.look + offer.wait, offer.later, offer.reply)
  }

  predicate Takes(l: Ledger, step: Step, next: Ledger, stop: Option<Stop>) {
    Enabled(l, step) && Apply(l, step) == (next, stop)
  }

  /** Offers made one after the other, each once its slot had come and in time, and
      none of them stopping the run. */
  ghost predicate OffersMade(l: Ledger, offers: seq<OfferTurn>, end: Ledger)
    decreases |offers|
  {
    if offers == [] then end == l
    else
      && SlotCome(l, offers[0].due) && InTime(l, offers[0].due + offers[0].look)
      && exists next :: Takes(l, OfferOf(offers[0]), next, None) && OffersMade(next, offers[1..], end)
  }

  /** What ends the offers: a slot that has not come, the deadline, or an offer. */
  predicate OffersStopAt(l: Ledger, offers: seq<OfferTurn>, j: nat, end: Ledger, stop: Option<Stop>)
    requires j <= |offers|
  {
    if j == |offers| || !SlotCome(l, offers[j].due) then end == l && stop.None?
    else if !InTime(l, offers[j].due + offers[j].look) then end == l && stop == Some(Erred(AbsoluteDeadline))
    else stop.Some? && Takes(l, OfferOf(offers[j]), end, stop)
  }

  lemma OfferTaken(l: Ledger, offer: OfferTurn)
    requires l.settings.Valid() && Due(l, offer)
    ensures Takes(l, OfferOf(offer), MakeOffer(l, offer).0, MakeOffer(l, offer).1)
    ensures MakeOffer(l, offer).0.settings == l.settings
  {
    OfferKeepsSettings(l, offer);
  }

  lemma {:induction false} OffersEnd(l: Ledger, offers: seq<OfferTurn>) returns (j: nat, mid: Ledger)
    requires l.settings.Valid()
    ensures j <= |offers| && mid.settings == l.settings && OffersMade(l, offers[..j], mid)
    ensures var (end, stop) := OffersDue(l, offers); OffersStopAt(mid, offers, j, end, stop)
    decreases |offers|
  {
    j, mid := 0, l;
    if offers == [] {
    } else {
      DueIff(l, offers[0]);
      LateIff(l, offers[0].due + offers[0].look);
      if Due(l, offers[0]) && !Late(l, offers[0].due + offers[0].look) {
        OfferTaken(l, offers[0]);
        var (next, stop) := MakeOffer(l, offers[0]);
        if stop.None? {
          j, mid := OffersEnd(next, offers[1..]);
          assert offers[..j + 1][0] == offers[0] && offers[..j + 1][1..] == offers[1..][..j];
          j := j + 1;
        }
      }
    }
  }

  lemma {:induction false} OffersDetermined(
    l: Ledger, offers: seq<OfferTurn>, j: nat, mid: Ledger, end: Ledger, stop: Option<Stop>)
    requires l.settings.Valid() && j <= |offers|
    requires OffersMade(l, offers[..j], mid) && OffersStopAt(mid, offers, j, end, stop)
    ensures OffersDue(l, offers) == (end, stop) && mid.settings == l.settings
    decreases j
  {
    if offers != [] {
      DueIff(l, offers[0]);
      LateIff(l, offers[0].due + offers[0].look);
      if Due(l, offers[0]) { OfferTaken(l, offers[0]); }
    }
    if j > 0 {
      assert offers[..j][0] == offers[0] && offers[..j][1..] == offers[1..][..j - 1];
      OffersDetermined(MakeOffer(l, offers[0]).0, offers[1..], j - 1, mid, end, stop);
    }
  }

  // ---- what follows the offers ----

  /** The steps the owner's answers ask for once the poll was answered. A proposal
      without an identity ends the turn after its dispatch, and a failed settlement
      before it is sampled. */
  function StepsOf(turn: Turn): (steps: seq<Step>)
    requires turn.poll.Polled?
    ensures forall i :: 0 <= i < |steps| ==> !steps[i].OfferStep?
  {
    [DispatchStep(turn.public)]
    + (if turn.poll.proposal == Some(None) then [] else NamingSteps(turn.poll.proposal) + SettlingSteps(turn))
  }

  function NamingSteps(proposal: Option<Option<Identity>>): (steps: seq<Step>)
    requires proposal != Some(None)
    ensures forall i :: 0 <= i < |steps| ==> !steps[i].OfferStep?
  {
    if proposal.None? then []
    else [ProposalStep(proposal.value.value.request, proposal.value.value.transaction)]
  }

  function SettlingSteps(turn: Turn): (steps: seq<Step>)
    ensures forall i :: 0 <= i < |steps| ==> !steps[i].OfferStep?
  {
    match turn.outcome
    case SettleFailed(_) => []
    case NotSettled => [ObserveStep(turn.sight)]
    case Settles(result, wait, later) => [SettleStep(result, wait, later), ObserveStep(turn.sight)]
  }

  /** The answers that end a turn which no step has stopped. */
  function Complaint(turn: Turn): Option<Fault>
    requires turn.poll.Polled?
  {
    if turn.poll.proposal == Some(None) then Some(ProposalWithoutIdentity)
    else if turn.outcome.SettleFailed? then Some(OwnerWords(turn.outcome.text))
    else None
  }

  /** A commit's geometry is looked up in the active ticket before it is sampled, so
      without one it is a failed assertion. */
  function Unwound(turn: Turn, stop: Stop): Stop {
    if stop == Erred(SettlementWithoutRequest) && turn.outcome.Settles? && turn.outcome.result.outcome.SettledCommitted?
    then Panic else stop
  }

  /** Steps taken one after the other, up to the first that stops. */
  function Perform(l: Ledger, steps: seq<Step>): (Ledger, Option<Stop>)
    requires forall i :: 0 <= i < |steps| ==> !steps[i].OfferStep?
    decreases |steps|
  {
    if steps == [] then (l, None)
    else
      var (next, stop) := Apply(l, steps[0]);
      if stop.Some? then (next, stop) else Perform(next, steps[1..])
  }

  predicate AllOffered(l: Ledger) {
    l.offered == l.settings.updates
  }

  predicate NoCustody(l: Ledger) {
    l.active.None? && l.queued.None?
  }

  /** How a turn whose steps were all taken and which brought no complaint ends. */
  function Verdict(l: Ledger, turn: Turn): LoopEnd {
    if !(AllOffered(l) && turn.idle) then Running else if NoCustody(l) then Finished else Stopped(Panic)
  }

  /** And how it ends if one of its steps stopped, or there was a complaint. */
  function EndOf(now: Ledger, stop: Option<Stop>, turn: Turn): LoopEnd
    requires turn.poll.Polled?
  {
    if stop.Some? then Stopped(Unwound(turn, stop.value))
    else if Complaint(turn).Some? then Stopped(Erred(Complaint(turn).value))
    else Verdict(now, turn)
  }

  lemma PerformFirst(l: Ledger, step: Step, rest: seq<Step>)
    requires !step.OfferStep? && forall i :: 0 <= i < |rest| ==> !rest[i].OfferStep?
    ensures var (next, stop) := Apply(l, step);
      Perform(l, [step] + rest) == if stop.Some? then (next, stop) else Perform(next, rest)
  {
    assert ([step] + rest)[1..] == rest;
  }

  lemma SettlingEnds(l: Ledger, turn: Turn)
    requires turn.poll.Polled? && turn.poll.proposal != Some(None)
    ensures var (now, stop) := Perform(l, SettlingSteps(turn));
      AfterProposal(l, turn) == (now, EndOf(now, stop, turn))
  {
    ObservingEnds(l, turn);
    if turn.outcome.Settles? {
      var r := turn.outcome;
      PerformFirst(l, SettleStep(r.result, r.wait, r.later), [ObserveStep(turn.sight)]);
      ObservingEnds(CaptureLedger.Sample(l, r.result, r.wait, r.later).0, turn);
      SampleFaults(l, r.result, r.wait, r.later);
    }
  }

  lemma SampleFaults(l: Ledger, result: Settling, wait: nat, later: nat)
    ensures CaptureLedger.Sample(l, result, wait, later).1 == Some(Erred(SettlementWithoutRequest)) <==> l.active.None?
    ensures l.active.None? ==> CaptureLedger.Sample(l, result, wait, later).0 == l
  {
  }

  lemma ObservingEnds(l: Ledger, turn: Turn)
    ensures var (now, stop) := Perform(l, [ObserveStep(turn.sight)]);
      && AfterSettlement(l, turn) == (now, if stop.Some? then Stopped(stop.value) else Verdict(now, turn))
      && (stop.Some? ==> stop.value == Panic)
  {
    PerformFirst(l, ObserveStep(turn.sight), []);
    assert [ObserveStep(turn.sight)] + [] == [ObserveStep(turn.sight)];
  }

  lemma PollEnds(l: Ledger, turn: Turn)
    requires turn.poll.Polled? && !turn.downAfter
    ensures var (now, stop) := Perform(l, StepsOf(turn));
      AfterOffers(l, turn) == (now, EndOf(now, stop, turn))
  {
    var proposal := turn.poll.proposal;
    var rest := if proposal == Some(None) then [] else NamingSteps(proposal) + SettlingSteps(turn);
    PerformFirst(l, DispatchStep(turn.public), rest);
    DispatchFaults(l, turn.public);
    var (dispatched, stop) := CaptureLedger.Dispatched(l, turn.public);
    if proposal != Some(None) && stop.None? { NamingEnds(dispatched, turn); }
  }

  lemma DispatchFaults(l: Ledger, public: Option<OwnerView>)
    ensures CaptureLedger.Dispatched(l, public).1 != Some(Erred(SettlementWithoutRequest))
  {
  }

  lemma NamingEnds(l: Ledger, turn: Turn)
    requires turn.poll.Polled? && turn.poll.proposal != Some(None)
    ensures var (now, stop) := Perform(l, NamingSteps(turn.poll.proposal) + SettlingSteps(turn));
      var after := if turn.poll.proposal.None? then AfterProposal(l, turn)
        else
          var id := turn.poll.proposal.value.value;
          var (proposed, stop) := CaptureLedger.Propose(l, id.request, id.transaction);
          if stop.Some? then (proposed, Stopped(stop.value)) else AfterProposal(proposed, turn);
      after == (now, EndOf(now, stop, turn))
  {
    if turn.poll.proposal.None? {
      assert NamingSteps(turn.poll.proposal) + SettlingSteps(turn) == SettlingSteps(turn);
      SettlingEnds(l, turn);
    } else {
      var id := turn.poll.proposal.value.value;
      PerformFirst(l, ProposalStep(id.request, id.transaction), SettlingSteps(turn));
      SettlingEnds(CaptureLedger.Propose(l, id.request, id.transaction).0, turn);
    }
  }

  // ---- one turn ----

  /** Every slot that had come was offered, as long as there were answers. */
  ghost predicate OffersDone(l: Ledger, turn: Turn, mid: Ledger) {
    && !turn.down && InTime(l, turn.look)
    && exists j :: 0 <= j <= |turn.offers| && OffersMade(l, turn.offers[..j], mid)
         && (j == |turn.offers| || !SlotCome(mid, turn.offers[j].due))
  }

  ghost predicate PollAnswered(l: Ledger, turn: Turn, mid: Ledger) {
    OffersDone(l, turn, mid) && turn.poll.Polled? && !turn.downAfter
  }

  /** A turn that ran to its last look at the owner. */
  ghost predicate Passes(l: Ledger, turn: Turn, now: Ledger) {
    exists mid ::
      PollAnswered(l, turn, mid) && Complaint(turn).None? && Perform(mid, StepsOf(turn)) == (now, None)
  }

  ghost predicate GoesOn(l: Ledger, turn: Turn, now: Ledger) {
    Passes(l, turn, now) && !(AllOffered(now) && turn.idle)
  }

  ghost predicate Finishes(l: Ledger, turn: Turn, now: Ledger) {
    Passes(l, turn, now) && AllOffered(now) && turn.idle && NoCustody(now)
  }

  /** The transport was down when the turn began, or after its poll. */
  ghost predicate LosesTransport(l: Ledger, turn: Turn, now: Ledger) {
    || (turn.down && now == l)
    || (OffersDone(l, turn, now) && turn.poll.Polled? && turn.downAfter)
  }

  /** The deadline had passed when the turn began, or at a slot that had come. */
  ghost predicate RunsOutOfTime(l: Ledger, turn: Turn, now: Ledger) {
    && !turn.down
    && (!InTime(l, turn.look) ==> now == l)
    && (InTime(l, turn.look) ==>
          exists j :: 0 <= j < |turn.offers| && OffersMade(l, turn.offers[..j], now)
            && SlotCome(now, turn.offers[j].due) && !InTime(now, turn.offers[j].due + turn.offers[j].look))
  }

  /** An offer stopped the run. */
  ghost predicate OfferStops(l: Ledger, turn: Turn, now: Ledger, stop: Stop) {
    && !turn.down && InTime(l, turn.look)
    && exists j, mid :: StopsAt(l, turn, j, mid, now, stop)
  }

  /** It was the j-th, and was made when its slot had come and in time. */
  ghost predicate StopsAt(l: Ledger, turn: Turn, j: int, mid: Ledger, now: Ledger, stop: Stop) {
    && 0 <= j < |turn.offers| && OffersMade(l, turn.offers[..j], mid)
    && SlotCome(mid, turn.offers[j].due) && InTime(mid, turn.offers[j].due + turn.offers[j].look)
    && Takes(mid, OfferOf(turn.offers[j]), now, Some(stop))
  }

  /** The owner's own words came with an offer, with the poll or with a settlement. */
  ghost predicate HearsOwner(l: Ledger, turn: Turn, now: Ledger, text: string) {
    || OfferStops(l, turn, now, Erred(OwnerWords(text)))
    || (OffersDone(l, turn, now) && turn.poll == PollFailed(text))
    || (turn.outcome == SettleFailed(text)
        && exists mid :: PollAnswered(l, turn, mid) && turn.poll.proposal != Some(None)
             && Perform(mid, StepsOf(turn)) == (now, None))
  }

  ghost predicate LosesProposal(l: Ledger, turn: Turn, now: Ledger) {
    exists mid :: PollAnswered(l, turn, mid) && turn.poll.proposal == Some(None)
      && Perform(mid, StepsOf(turn)) == (now, None)
  }

  /** A step after the poll stopped the run. */
  ghost predicate AnswerStops(l: Ledger, turn: Turn, now: Ledger, stop: Stop) {
    exists mid, cause :: PollAnswered(l, turn, mid) && Perform(mid, StepsOf(turn)) == (now, Some(cause))
      && stop == Unwound(turn, cause)
  }

  ghost predicate LeavesCustody(l: Ledger, turn: Turn, now: Ledger) {
    Passes(l, turn, now) && AllOffered(now) && turn.idle && !NoCustody(now)
  }

  /** What one turn does to the ledger and to the loop. */
  ghost predicate TurnEnds(l: Ledger, turn: Turn, now: Ledger, end: LoopEnd) {
    match end
    case Running => GoesOn(l, turn, now)
    case Finished => Finishes(l, turn, now)
    case Stopped(Panic) =>
      LeavesCustody(l, turn, now) || OfferStops(l, turn, now, Panic) || AnswerStops(l, turn, now, Panic)
    case Stopped(Erred(TransportFailed)) => LosesTransport(l, turn, now)
    case Stopped(Erred(AbsoluteDeadline)) => RunsOutOfTime(l, turn, now)
    case Stopped(Erred(OwnerWords(text))) => HearsOwner(l, turn, now, text)
    case Stopped(Erred(ProposalWithoutIdentity)) => LosesProposal(l, turn, now)
    case Stopped(stop) => OfferStops(l, turn, now, stop) || AnswerStops(l, turn, now, stop)
  }

  /** The loop's own complaints are not what a step can stop with. */
  predicate LoopsOwn(fault: Fault) {
    fault.TransportFailed? || fault.AbsoluteDeadline? || fault.ProposalWithoutIdentity? || fault.OwnerWords?
  }

  lemma OfferFaults(l: Ledger, offer: OfferTurn, now: Ledger, stop: Stop)
    requires Takes(l, OfferOf(offer), now, Some(stop))
    ensures stop == Panic || stop.fault.RepeatedQueuedGeometry? || stop.fault.OwnerWords?
  {
  }

  lemma {:induction false} AnswerFaults(l: Ledger, steps: seq<Step>)
    requires forall i :: 0 <= i < |steps| ==> !steps[i].OfferStep?
    ensures var stop := Perform(l, steps).1; stop.Some? && stop.value.Erred? ==> !LoopsOwn(stop.value.fault)
    decreases |steps|
  {
    if steps == [] {
    } else {
      StepFaults(l, steps[0]);
      AnswerFaults(Apply(l, steps[0]).0, steps[1..]);
    }
  }

  lemma StepFaults(l: Ledger, step: Step)
    requires !step.OfferStep?
    ensures var stop := Apply(l, step).1; stop.Some? && stop.value.Erred? ==> !LoopsOwn(stop.value.fault)
  {
  }

  lemma TurnSays(l: Ledger, turn: Turn)
    requires l.settings.Valid()
    ensures var (now, end) := OneTurn(l, turn); TurnEnds(l, turn, now, end)
  {
    LateIff(l, turn.look);
    if !turn.down && !Late(l, turn.look) {
      var j, mid := OffersEnd(l, turn.offers);
      var (offered, stop) := OffersDue(l, turn.offers);
      if stop.Some? {
        OffersSay(l, turn, j, mid, offered, stop.value);
      } else {
        assert OffersDone(l, turn, offered);
        PollSays(l, turn, offered);
      }
    }
  }

  lemma OffersSay(l: Ledger, turn: Turn, j: nat, mid: Ledger, now: Ledger, stop: Stop)
    requires !turn.down && InTime(l, turn.look)
    requires j <= |turn.offers| && OffersMade(l, turn.offers[..j], mid)
    requires OffersStopAt(mid, turn.offers, j, now, Some(stop))
    ensures TurnEnds(l, turn, now, Stopped(stop))
  {
    if InTime(mid, turn.offers[j].due + turn.offers[j].look) {
      OfferFaults(mid, turn.offers[j], now, stop);
      assert StopsAt(l, turn, j, mid, now, stop);
      assert OfferStops(l, turn, now, stop);
    }
  }

  lemma PollSays(l: Ledger, turn: Turn, mid: Ledger)
    requires OffersDone(l, turn, mid)
    ensures var (now, end) := AfterOffers(mid, turn); TurnEnds(l, turn, now, end)
  {
    if turn.poll.Polled? && !turn.downAfter {
      PollEnds(mid, turn);
      var (now, stop) := Perform(mid, StepsOf(turn));
      AnswerFaults(mid, StepsOf(turn));
      if stop.Some? {
        assert AnswerStops(l, turn, now, Unwound(turn, stop.value));
      } else if Complaint(turn).None? {
        assert Passes(l, turn, now);
      }
    }
  }

  lemma OffersDoneAre(l: Ledger, turn: Turn, mid: Ledger)
    requires l.settings.Valid() && OffersDone(l, turn, mid)
    ensures OneTurn(l, turn) == AfterOffers(mid, turn) && mid.settings == l.settings
  {
    LateIff(l, turn.look);
    var j :| 0 <= j <= |turn.offers| && OffersMade(l, turn.offers[..j], mid)
      && (j == |turn.offers| || !SlotCome(mid, turn.offers[j].due));
    OffersDetermined(l, turn.offers, j, mid, mid, None);
  }

  lemma OfferStopsIs(l: Ledger, turn: Turn, now: Ledger, stop: Stop)
    requires l.settings.Valid() && OfferStops(l, turn, now, stop)
    ensures OneTurn(l, turn) == (now, Stopped(stop))
  {
    LateIff(l, turn.look);
    var j, mid :| StopsAt(l, turn, j, mid, now, stop);
    StopsAtIs(l, turn, j, mid, now, stop);
    StoppedTurn(l, turn, now, stop);
  }

  lemma StopsAtIs(l: Ledger, turn: Turn, j: int, mid: Ledger, now: Ledger, stop: Stop)
    requires l.settings.Valid() && StopsAt(l, turn, j, mid, now, stop)
    ensures OffersDue(l, turn.offers) == (now, Some(stop))
  {
    OffersDetermined(l, turn.offers, j, mid, now, Some(stop));
  }

  lemma StoppedTurn(l: Ledger, turn: Turn, now: Ledger, stop: Stop)
    requires l.settings.Valid() && !turn.down && !Late(l, turn.look)
    requires OffersDue(l, turn.offers) == (now, Some(stop))
    ensures OneTurn(l, turn) == (now, Stopped(stop))
  {
  }

  lemma RunsOutOfTimeIs(l: Ledger, turn: Turn, now: Ledger)
    requires l.settings.Valid() && RunsOutOfTime(l, turn, now)
    ensures OneTurn(l, turn) == (now, Stopped(Erred(AbsoluteDeadline)))
  {
    LateIff(l, turn.look);
    if InTime(l, turn.look) {
      var j :| 0 <= j < |turn.offers| && OffersMade(l, turn.offers[..j], now)
        && SlotCome(now, turn.offers[j].due) && !InTime(now, turn.offers[j].due + turn.offers[j].look);
      OffersDetermined(l, turn.offers, j, now, now, Some(Erred(AbsoluteDeadline)));
    }
  }

  lemma PollAnsweredIs(l: Ledger, turn: Turn, mid: Ledger)
    requires l.settings.Valid() && PollAnswered(l, turn, mid)
    ensures var (now, stop) := Perform(mid, StepsOf(turn)); OneTurn(l, turn) == (now, EndOf(now, stop, turn))
  {
    OffersDoneAre(l, turn, mid);
    PollEnds(mid, turn);
  }

  lemma PassesIs(l: Ledger, turn: Turn, now: Ledger)
    requires l.settings.Valid() && Passes(l, turn, now)
    ensures OneTurn(l, turn) == (now, Verdict(now, turn))
  {
    var mid :|
      PollAnswered(l, turn, mid) && Complaint(turn).None? && Perform(mid, StepsOf(turn)) == (now, None);
    PollAnsweredIs(l, turn, mid);
  }

  lemma AnswerStopsIs(l: Ledger, turn: Turn, now: Ledger, stop: Stop)
    requires l.settings.Valid() && AnswerStops(l, turn, now, stop)
    ensures OneTurn(l, turn) == (now, Stopped(stop))
  {
    var mid, cause :| PollAnswered(l, turn, mid) && Perform(mid, StepsOf(turn)) == (now, Some(cause))
      && stop == Unwound(turn, cause);
    PollAnsweredIs(l, turn, mid);
  }

  lemma HearsOwnerIs(l: Ledger, turn: Turn, now: Ledger, text: string)
    requires l.settings.Valid() && HearsOwner(l, turn, now, text)
    ensures OneTurn(l, turn) == (now, Stopped(Erred(OwnerWords(text))))
  {
    if OfferStops(l, turn, now, Erred(OwnerWords(text))) {
      OfferStopsIs(l, turn, now, Erred(OwnerWords(text)));
    } else if OffersDone(l, turn, now) && turn.poll == PollFailed(text) {
      OffersDoneAre(l, turn, now);
    } else {
      var mid :| PollAnswered(l, turn, mid) && turn.poll.proposal != Some(None)
        && Perform(mid, StepsOf(turn)) == (now, None);
      PollAnsweredIs(l, turn, mid);
    }
  }

  lemma LosesProposalIs(l: Ledger, turn: Turn, now: Ledger)
    requires l.settings.Valid() && LosesProposal(l, turn, now)
    ensures OneTurn(l, turn) == (now, Stopped(Erred(ProposalWithoutIdentity)))
  {
    var mid :| PollAnswered(l, turn, mid) && turn.poll.proposal == Some(None)
      && Perform(mid, StepsOf(turn)) == (now, None);
    PollAnsweredIs(l, turn, mid);
  }

  lemma LosesTransportIs(l: Ledger, turn: Turn, now: Ledger)
    requires l.settings.Valid() && LosesTransport(l, turn, now)
    ensures OneTurn(l, turn) == (now, Stopped(Erred(TransportFailed)))
  {
    if !turn.down { OffersDoneAre(l, turn, now); }
  }

  lemma StepStopsIs(l: Ledger, turn: Turn, now: Ledger, stop: Stop)
    requires l.settings.Valid() && (OfferStops(l, turn, now, stop) || AnswerStops(l, turn, now, stop))
    ensures OneTurn(l, turn) == (now, Stopped(stop))
  {
    if OfferStops(l, turn, now, stop) {
      OfferStopsIs(l, turn, now, stop);
    } else {
      AnswerStopsIs(l, turn, now, stop);
    }
  }

  lemma TurnDetermined(l: Ledger, turn: Turn, now: Ledger, end: LoopEnd)
    requires l.settings.Valid() && TurnEnds(l, turn, now, end)
    ensures OneTurn(l, turn) == (now, end)
  {
    match end
    case Running => PassesIs(l, turn, now);
    case Finished => PassesIs(l, turn, now);
    case Stopped(Panic) =>
      if LeavesCustody(l, turn, now) { PassesIs(l, turn, now); } else { StepStopsIs(l, turn, now, Panic); }
    case Stopped(Erred(TransportFailed)) => LosesTransportIs(l, turn, now);
    case Stopped(Erred(AbsoluteDeadline)) => RunsOutOfTimeIs(l, turn, now);
    case Stopped(Erred(OwnerWords(text))) => HearsOwnerIs(l, turn, now, text);
    case Stopped(Erred(ProposalWithoutIdentity)) => LosesProposalIs(l, turn, now);
    case Stopped(stop) => StepStopsIs(l, turn, now, stop);
  }

  lemma TurnIff(l: Ledger, turn: Turn, now: Ledger, end: LoopEnd)
    requires l.settings.Valid()
    ensures OneTurn(l, turn) == (now, end) <==> TurnEnds(l, turn, now, end)
  {
    if OneTurn(l, turn) == (now, end) { TurnSays(l, turn); }
    if TurnEnds(l, turn, now, end) { TurnDetermined(l, turn, now, end); }
  }

  // ---- the loop ----

  /** Turns after each of which the loop went on. */
  ghost predicate Survived(l: Ledger, turns: seq<Turn>, now: Ledger)
    decreases |turns|
  {
    if turns == [] then now == l
    else exists next :: GoesOn(l, turns[0], next) && Survived(next, turns[1..], now)
  }

  /** The loop is still running exactly when every turn passed: none found the
      transport down, before or after its poll, or the deadline over; every slot that
      had come was offered while there were answers; no step stopped; and the owner
      was not idle with every offer made. */
  lemma {:induction false} RunningIff(l: Ledger, turns: seq<Turn>, now: Ledger)
    requires l.settings.Valid()
    ensures Loop(l, turns) == (now, Running) <==> Survived(l, turns, now)
    decreases |turns|
  {
    if turns == [] {
    } else {
      TurnKeepsSettings(l, turns[0]);
      var (next, end) := OneTurn(l, turns[0]);
      TurnIff(l, turns[0], next, Running);
      if end == Running { RunningIff(next, turns[1..], now); }
      forall other | GoesOn(l, turns[0], other) ensures end == Running && other == next {
        TurnIff(l, turns[0], other, Running);
      }
    }
  }

  /** The i-th turn is the first that does not go on. */
  ghost predicate EndsAt(l: Ledger, turns: seq<Turn>, i: int, mid: Ledger, now: Ledger, end: LoopEnd) {
    0 <= i < |turns| && Survived(l, turns[..i], mid) && TurnEnds(mid, turns[i], now, end)
  }

  /** The first turn that does not go on decides the end. */
  lemma {:induction false} EndsIff(l: Ledger, turns: seq<Turn>, now: Ledger, end: LoopEnd)
    requires l.settings.Valid() && end != Running
    ensures Loop(l, turns) == (now, end) <==> exists i, mid :: EndsAt(l, turns, i, mid, now, end)
  {
    if Loop(l, turns) == (now, end) {
      var i, mid := EndingTurn(l, turns, now, end);
    }
    forall i, mid | EndsAt(l, turns, i, mid, now, end) ensures Loop(l, turns) == (now, end) {
      LoopStops(l, turns, i, mid, now, end);
    }
  }

  lemma EndsAtOnce(l: Ledger, turns: seq<Turn>, now: Ledger, end: LoopEnd)
    requires l.settings.Valid() && turns != [] && OneTurn(l, turns[0]) == (now, end)
    ensures EndsAt(l, turns, 0, l, now, end)
  {
    TurnIff(l, turns[0], now, end);
  }

  lemma EndsLater(l: Ledger, turns: seq<Turn>, next: Ledger, i: nat, mid: Ledger, now: Ledger, end: LoopEnd)
    requires turns != [] && GoesOn(l, turns[0], next) && EndsAt(next, turns[1..], i, mid, now, end)
    ensures EndsAt(l, turns, i + 1, mid, now, end)
  {
    assert turns[..i + 1][0] == turns[0] && turns[..i + 1][1..] == turns[1..][..i];
  }

  lemma {:induction false} EndingTurn(l: Ledger, turns: seq<Turn>, now: Ledger, end: LoopEnd)
    returns (i: nat, mid: Ledger)
    requires l.settings.Valid() && end != Running && Loop(l, turns) == (now, end)
    ensures EndsAt(l, turns, i, mid, now, end)
    decreases |turns|
  {
    TurnKeepsSettings(l, turns[0]);
    var (next, first) := OneTurn(l, turns[0]);
    if first == Running {
      TurnIff(l, turns[0], next, Running);
      i, mid := EndingTurn(next, turns[1..], now, end);
      EndsLater(l, turns, next, i, mid, now, end);
      i := i + 1;
    } else {
      EndsAtOnce(l, turns, now, end);
      i, mid := 0, l;
    }
  }

  lemma {:induction false} LoopStops(
    l: Ledger, turns: seq<Turn>, i: nat, mid: Ledger, now: Ledger, end: LoopEnd)
    requires l.settings.Valid() && end != Running && EndsAt(l, turns, i, mid, now, end)
    ensures Loop(l, turns) == (now, end)
    decreases i
  {
    TurnKeepsSettings(l, turns[0]);
    if i == 0 {
      TurnIff(l, turns[0], now, end);
    } else {
      assert turns[..i][0] == turns[0] && turns[..i][1..] == turns[1..][..i - 1];
      var next :| GoesOn(l, turns[0], next) && Survived(next, turns[1..][..i - 1], mid);
      TurnIff(l, turns[0], next, Running);
      LoopStops(next, turns[1..], i - 1, mid, now, end);
    }
  }
}
