/** That nothing above is empty talk: for every command there is an honest owner
    under which the polling loop finishes, and a whole acceptance campaign of such
    captures is reported and passes the latency gate. */
module Completable {
  import opened Prelude
  import opened CaptureLedger
  import opened Polling = CaptureObject
  import opened LoopRuns

  // ---- one capture ----

  /** A prompt owner: it takes up, answers and settles each update in the turn in
      which it was offered. */
  function PromptTurn(settings: Settings, k: nat): Turn
    requires settings.Valid() && 1 <= k <= settings.updates
  {
    var due := settings.ScheduledNs(k) - if k == 1 then 0 else settings.ScheduledNs(k - 1);
    var geometry := settings.Geometry(k);
    Turn(false, 0,
      [OfferTurn(due, 0, 0, 0, Reply(None, Accepted, Some(geometry), Sight(1, false)))],
      Polled(Some(Some(Identity(k, k)))), false,
      Some(OwnerView(Some(Flight(k, true, Interaction(Update, settings.kind, geometry))), 0)),
      Settles(Settling(k, k, SettledCommitted), 0, 0), Sight(0, false), k == settings.updates)
  }

  function PromptNote(settings: Settings, k: nat): SampleNote
    requires settings.Valid() && 1 <= k <= settings.updates
  {
    var at := settings.ScheduledNs(k);
    SampleNote(k, k, k, at, at, at)
  }

  /** k updates were offered on time and settled at once. */
  predicate Prompt(l: Ledger, settings: Settings, k: nat)
    requires settings.Valid() && k <= settings.updates
  {
    && l.settings == settings && l.offered == k && l.admitted == k && l.settled == k
    && l.rejected == 0 && l.coalesced == 0 && l.timeouts == 0 && l.disconnects == 0
    && l.rejectedSettlements == 0 && l.unresolved == 0
    && l.clock == (if k == 0 then 0 else settings.ScheduledNs(k))
    && l.queued.None? && l.active.None? && l.failures == []
    && |l.samples| == k && forall i :: 0 <= i < k ==> l.samples[i] == PromptNote(settings, i + 1)
  }

  /** The ledger between the offer and its dispatch. */
  function Queued(l: Ledger, settings: Settings, k: nat): Ledger
    requires settings.Valid() && 1 <= k <= settings.updates
  {
    var at := settings.ScheduledNs(k);
    l.(clock := at, offered := k, admitted := l.admitted + 1,
       queued := Some(Ticket(k, at, at, settings.Geometry(k), None, None)), maxQueueDepth := Max(l.maxQueueDepth, 1),
       maxInFlight := Max(l.maxInFlight, 0))
  }

  lemma SlotsInOrder(settings: Settings, j: nat, k: nat)
    requires settings.Valid() && 1 <= j <= k <= settings.updates
    ensures settings.ScheduledNs(j) <= settings.ScheduledNs(k)
  {
  }

  lemma PromptOffer(l: Ledger, settings: Settings, k: nat)
    requires settings.Valid() && settings.capacity >= 1 && 1 <= k <= settings.updates && Prompt(l, settings, k - 1)
    ensures Due(l, PromptTurn(settings, k).offers[0])
    ensures MakeOffer(l, PromptTurn(settings, k).offers[0]) == (Queued(l, settings, k), None)
  {
    if k > 1 { SlotsInOrder(settings, k - 1, k); }
    assert settings.ScheduledNs(1) == 0;
  }

  /** The prompt owner is done long before the drain budget is. */
  lemma PromptInTime(l: Ledger, settings: Settings, k: nat)
    requires settings.Valid() && 1 <= k <= settings.updates && Prompt(l, settings, k - 1)
    ensures !Late(l, PromptTurn(settings, k).look)
    ensures !Late(l, PromptTurn(settings, k).offers[0].due + PromptTurn(settings, k).offers[0].look)
  {
    if k > 1 { SlotsInOrder(settings, k - 1, k); }
    SlotsInOrder(settings, k, settings.updates);
    assert settings.ScheduledNs(1) == 0;
  }

  lemma PromptOffers(l: Ledger, settings: Settings, k: nat)
    requires settings.Valid() && settings.capacity >= 1 && 1 <= k <= settings.updates && Prompt(l, settings, k - 1)
    ensures OffersDue(l, PromptTurn(settings, k).offers) == (Queued(l, settings, k), None)
  {
    PromptOffer(l, settings, k);
    PromptInTime(l, settings, k);
    var offers := PromptTurn(settings, k).offers;
    assert offers[1..] == [];
    OneOffer(l, offers[0], Queued(l, settings, k));
    assert offers == [offers[0]];
  }

  lemma OneOffer(l: Ledger, turn: OfferTurn, next: Ledger)
    requires l.settings.Valid() && Due(l, turn) && !Late(l, turn.due + turn.look) && MakeOffer(l, turn) == (next, None)
    ensures OffersDue(l, [turn]) == (next, None)
  {
    OfferKeepsSettings(l, turn);
    assert [turn][1..] == [];
  }

  /** The ledger with the update in flight, and then named. */
  function InFlight(l: Ledger, settings: Settings, k: nat, named: bool): Ledger
    requires settings.Valid() && 1 <= k <= settings.updates
  {
    var at := settings.ScheduledNs(k);
    var transaction := if named then Some(k) else None;
    Queued(l, settings, k).(queued := None,
      active := Some(Ticket(k, at, at, settings.Geometry(k), Some(k), transaction)),
      maxInFlight := Max(Max(l.maxInFlight, 0), 1))
  }

  lemma PromptDispatch(l: Ledger, settings: Settings, k: nat)
    requires settings.Valid() && 1 <= k <= settings.updates && Prompt(l, settings, k - 1)
    ensures Dispatched(Queued(l, settings, k), PromptTurn(settings, k).public)
         == (InFlight(l, settings, k, false), None)
  {
  }

  lemma PromptProposal(l: Ledger, settings: Settings, k: nat)
    requires settings.Valid() && 1 <= k <= settings.updates && Prompt(l, settings, k - 1)
    ensures Propose(InFlight(l, settings, k, false), k, k) == (InFlight(l, settings, k, true), None)
  {
  }

  function Settled(l: Ledger, settings: Settings, k: nat): Ledger
    requires settings.Valid() && 1 <= k <= settings.updates
  {
    InFlight(l, settings, k, true).(active := None, settled := l.settled + 1,
      samples := l.samples + [PromptNote(settings, k)])
  }

  lemma PromptSample(l: Ledger, settings: Settings, k: nat)
    requires settings.Valid() && 1 <= k <= settings.updates && Prompt(l, settings, k - 1)
    ensures Sample(InFlight(l, settings, k, true), Settling(k, k, SettledCommitted), 0, 0)
         == (Settled(l, settings, k), None)
    ensures Prompt(Settled(l, settings, k), settings, k)
  {
  }

  lemma PromptSettlement(l: Ledger, settings: Settings, k: nat) returns (next: Ledger)
    requires settings.Valid() && 1 <= k <= settings.updates && Prompt(l, settings, k - 1)
    ensures AfterProposal(InFlight(l, settings, k, true), PromptTurn(settings, k))
         == (next, if k == settings.updates then Finished else Running)
    ensures Prompt(next, settings, k)
  {
    var turn, settled := PromptTurn(settings, k), Settled(l, settings, k);
    PromptSample(l, settings, k);
    next := AfterSettlement(settled, turn).0;
    QuietEnd(settled, turn);
  }

  lemma QuietEnd(l: Ledger, turn: Turn)
    requires turn.sight == Sight(0, false) && l.active.None? && l.queued.None?
    requires turn.idle <==> l.offered == l.settings.updates
    ensures var (next, end) := AfterSettlement(l, turn);
      && next == l.(maxQueueDepth := next.maxQueueDepth, maxInFlight := next.maxInFlight)
      && end == if turn.idle then Finished else Running
  {
  }

  lemma PromptPoll(l: Ledger, settings: Settings, k: nat) returns (next: Ledger)
    requires settings.Valid() && 1 <= k <= settings.updates && Prompt(l, settings, k - 1)
    ensures AfterOffers(Queued(l, settings, k), PromptTurn(settings, k))
         == (next, if k == settings.updates then Finished else Running)
    ensures Prompt(next, settings, k)
  {
    PromptDispatch(l, settings, k);
    PromptProposal(l, settings, k);
    next := PromptSettlement(l, settings, k);
  }

  /** One turn settles one more update. */
  lemma {:induction false} PromptTurnSettles(l: Ledger, settings: Settings, k: nat) returns (turn: Turn, next: Ledger)
    requires settings.Valid() && settings.capacity >= 1 && 1 <= k <= settings.updates && Prompt(l, settings, k - 1)
    ensures OneTurn(l, turn) == (next, if k == settings.updates then Finished else Running)
    ensures Prompt(next, settings, k) && HonestTurn(l, turn)
  {
    turn := PromptTurn(settings, k);
    PromptInTime(l, settings, k);
    PromptOffers(l, settings, k);
    next := PromptPoll(l, settings, k);
  }

  lemma {:induction false} LoopBegins(l: Ledger, turn: Turn, rest: seq<Turn>, next: Ledger, end: LoopEnd)
    requires l.settings.Valid() && OneTurn(l, turn) == (next, end) && HonestTurn(l, turn)
    ensures next.settings == l.settings
    ensures end != Running ==> Loop(l, [turn] + rest) == (next, end) && HonestLoop(l, [turn] + rest)
    ensures end == Running ==> Loop(l, [turn] + rest) == Loop(next, rest)
    ensures end == Running && HonestLoop(next, rest) ==> HonestLoop(l, [turn] + rest)
  {
    TurnKeepsSettings(l, turn);
    assert ([turn] + rest)[0] == turn && ([turn] + rest)[1..] == rest;
  }

  /** Turns that finish the loop with every update settled and nothing lost. */
  predicate Finishes(l: Ledger, settings: Settings, turns: seq<Turn>)
    requires settings.Valid() && l.settings == settings
  {
    && HonestLoop(l, turns) && Loop(l, turns).1 == Finished
    && Prompt(Loop(l, turns).0, settings, settings.updates)
  }

  lemma {:induction false} PromptTurnsFinish(l: Ledger, settings: Settings, k: nat) returns (turns: seq<Turn>)
    requires settings.Valid() && settings.capacity >= 1 && k < settings.updates && Prompt(l, settings, k)
    ensures Finishes(l, settings, turns)
    decreases settings.updates - k
  {
    var turn, next := PromptTurnSettles(l, settings, k + 1);
    if k + 1 == settings.updates {
      turns := [turn] + [];
      LoopBegins(l, turn, [], next, Finished);
    } else {
      var rest := PromptTurnsFinish(next, settings, k + 1);
      turns := [turn] + rest;
      LoopBegins(l, turn, rest, next, Running);
    }
  }

  /** The answers of a prompt owner to one whole capture. */
  ghost function PromptAnswers(settings: Settings): (turns: seq<Turn>)
    requires settings.Valid() && settings.capacity >= 1
    ensures Finishes(Opened(settings), settings, turns)
  {
    PromptAnswersExist(settings);
    var turns :| Finishes(Opened(settings), settings, turns);
    turns
  }

  lemma {:induction false} PromptAnswersExist(settings: Settings)
    requires settings.Valid() && settings.capacity >= 1
    ensures exists turns :: Finishes(Opened(settings), settings, turns)
  {
    var turns := PromptTurnsFinish(Opened(settings), settings, 0);
  }
}
