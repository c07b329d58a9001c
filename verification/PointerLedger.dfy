/** The pointer-offer ledger: every routed interaction is offered once and must
    end replaced by a later update, cancelled by a later cancel, or committed. */
module PointerLedger {
  import opened Prelude

  const CAPACITY: nat := 32

  datatype Mode = Move | Resize

  datatype Phase = Begin | Update | End | Cancel

  datatype Rect = Rect(x: int, y: int, width: int, height: int)

  datatype Identity = Identity(epoch: u64, request: u64, transaction: u64)

  datatype Disposition = Replaced(successor: nat) | Cancelled(successor: nat) | Committed(at: u64)

  datatype Offer = Offer(
    mode: Mode,
    phase: Phase,
    geometry: Rect,
    enqueuedNs: u64,
    request: Option<Identity>,
    disposition: Option<Disposition>)

  datatype Book = Book(clock: u64, offers: seq<Offer>)

  // ---- the validity checker ----

  predicate Succeeds(offers: seq<Offer>, id: nat, next: nat)
    requires id < |offers|
  {
    && id < next < |offers|
    && offers[next].mode == offers[id].mode
    && offers[next].enqueuedNs >= offers[id].enqueuedNs
  }

  /** A disposition that, taken alone, is coherent. */
  predicate Settled(offers: seq<Offer>, id: nat)
    requires id < |offers|
  {
    match offers[id].disposition
    case None => false
    case Some(Committed(at)) => at >= offers[id].enqueuedNs && offers[id].request.Some?
    case Some(Replaced(next)) =>
      && offers[id].request.None? && offers[id].phase == Update
      && Succeeds(offers, id, next)
      && offers[next].phase == Update && offers[next].geometry != offers[id].geometry
    case Some(Cancelled(next)) =>
      offers[id].request.None? && Succeeds(offers, id, next) && offers[next].phase == Cancel
  }

  predicate IsCommitted(o: Offer) {
    o.disposition.Some? && o.disposition.value.Committed?
  }

  /** No request settled two offers. */
  predicate RequestsDistinct(offers: seq<Offer>) {
    forall i, j :: 0 <= i < j < |offers| && IsCommitted(offers[i]) && IsCommitted(offers[j]) ==>
      offers[i].request != offers[j].request
  }

  predicate Valid(offers: seq<Offer>) {
    (forall id :: 0 <= id < |offers| ==> Settled(offers, id)) && RequestsDistinct(offers)
  }

  /** The checker as it runs: one pass with an accumulating set of requests. */
  method Check(offers: seq<Offer>) returns (valid: bool)
    ensures valid == Valid(offers)
  {
    var requests: set<Identity> := {};
    for id := 0 to |offers|
      invariant forall i :: 0 <= i < id ==> Settled(offers, i)
      invariant RequestsDistinct(offers[..id])
      invariant forall r :: r in requests <==>
        exists i :: 0 <= i < id && IsCommitted(offers[i]) && offers[i].request == Some(r)
    {
      if !Settled(offers, id) { return false; }
      if IsCommitted(offers[id]) {
        var r := offers[id].request.value;
        if r in requests {
          return false;
        }
        requests := requests + {r};
      }
    }
    assert offers[..|offers|] == offers;
    valid := true;
  }

  // ---- chains of succession ----

  /** Where an accepted offer's successors lead: strictly forward, always within
      one mode, never earlier, to a committed offer. */
  function Outcome(offers: seq<Offer>, id: nat): (last: nat)
    requires Valid(offers) && id < |offers|
    ensures id <= last < |offers|
    ensures IsCommitted(offers[last])
    ensures offers[last].mode == offers[id].mode && offers[last].enqueuedNs >= offers[id].enqueuedNs
    ensures last == id <==> IsCommitted(offers[id])
    decreases |offers| - id
  {
    assert Settled(offers, id);
    match offers[id].disposition.value
    case Committed(_) => id
    case Replaced(next) => Outcome(offers, next)
    case Cancelled(next) => Outcome(offers, next)
  }

  /** Whether the chain of successors ever follows a cancellation. */
  predicate EverCancelled(offers: seq<Offer>, id: nat)
    requires Valid(offers) && id < |offers|
    decreases |offers| - id
  {
    assert Settled(offers, id);
    match offers[id].disposition.value
    case Committed(_) => false
    case Replaced(next) => EverCancelled(offers, next)
    case Cancelled(_) => true
  }

  /** What is finally committed for an offer: a cancel when its chain was ever
      cancelled, and otherwise an offer of its own phase. */
  lemma {:induction false} OutcomePhase(offers: seq<Offer>, id: nat)
    requires Valid(offers) && id < |offers|
    ensures offers[Outcome(offers, id)].phase == if EverCancelled(offers, id) then Cancel else offers[id].phase
    decreases |offers| - id
  {
    assert Settled(offers, id);
    match offers[id].disposition.value
    case Committed(_) =>
    case Replaced(next) => OutcomePhase(offers, next);
    case Cancelled(next) => OutcomePhase(offers, next);
  }

  function FirstEdge(offers: seq<Offer>): (r: Option<nat>)
    ensures r.Some? ==> r.value < |offers| && offers[r.value].disposition.Some? && !IsCommitted(offers[r.value])
    ensures r.None? ==> forall i :: 0 <= i < |offers| && offers[i].disposition.Some? ==> IsCommitted(offers[i])
  {
    if offers == [] then None
    else if offers[0].disposition.Some? && !IsCommitted(offers[0]) then Some(0)
    else
      match FirstEdge(offers[1..])
      case None => None
      case Some(i) => Some(i + 1)
  }

  /** The closing checks: the ledger is accepted, and once an edge is erased it
      no longer is. The second check never fails; only the absence of an edge
      to erase can end this badly for an accepted ledger. */
  method Finish(offers: seq<Offer>) returns (ok: bool)
    ensures ok <==> Valid(offers) && exists o :: o in offers && !IsCommitted(o)
  {
    var valid := Check(offers);
    if !valid { return false; }
    var edge := FirstEdge(offers);
    if edge.None? {
      forall o | o in offers ensures IsCommitted(o) {
        var i :| 0 <= i < |offers| && offers[i] == o;
        assert Settled(offers, i);
      }
      return false;
    }
    assert offers[edge.value] in offers;
    var missing := offers[edge.value := offers[edge.value].(disposition := None)];
    MissingEdgeRefused(offers, edge.value);
    var stillValid := Check(missing);
    return !stillValid;
  }

  /** Losing any single disposition is noticed. */
  lemma MissingEdgeRefused(offers: seq<Offer>, id: nat)
    requires id < |offers|
    ensures !Valid(offers[id := offers[id].(disposition := None)])
  {
    var missing := offers[id := offers[id].(disposition := None)];
    assert !Settled(missing, id);
  }

  // ---- the steps ----

  datatype Admission = Admitted | Duplicate | Refused

  /** What the owner's queue showed around an offer: the measured updates in it
      before and after, and, for a cancel, whether it leads the queue and whether
      any interaction it made obsolete is still there. */
  datatype Reply = Reply(
    before: seq<Rect>,
    admission: Admission,
    after: seq<Rect>,
    cancelLeads: bool,
    obsoleteLeft: bool)

  predicate Undecided(o: Offer, mode: Mode) {
    o.mode == mode && o.request.None? && o.disposition.None?
  }

  predicate Waiting(o: Offer) {
    o.request.None? && o.disposition.None? && o.phase == Update
  }

  predicate ReplaceableAt(offers: seq<Offer>, mode: Mode, i: nat)
    requires i < |offers|
  {
    offers[i].mode == mode && Waiting(offers[i])
  }

  /** The first update of this mode still waiting in the queue. */
  function FirstWaiting(offers: seq<Offer>, mode: Mode, from: nat): (r: Option<nat>)
    requires from <= |offers|
    ensures r.Some? ==> from <= r.value < |offers| && ReplaceableAt(offers, mode, r.value)
    ensures forall i :: from <= i < |offers| && ReplaceableAt(offers, mode, i) ==> r.Some? && r.value <= i
    decreases |offers| - from
  {
    if from == |offers| then None
    else if ReplaceableAt(offers, mode, from) then Some(from)
    else FirstWaiting(offers, mode, from + 1)
  }

  /** A cancel settles every undecided offer of its mode. */
  function CancelAll(offers: seq<Offer>, mode: Mode, cancel: nat): (r: seq<Offer>)
    ensures |r| == |offers|
    ensures forall i :: 0 <= i < |offers| ==>
      r[i] == if Undecided(offers[i], mode) then offers[i].(disposition := Some(Cancelled(cancel))) else offers[i]
  {
    if offers == [] then []
    else
      var n := |offers| - 1;
      CancelAll(offers[..n], mode, cancel)
      + [if Undecided(offers[n], mode) then offers[n].(disposition := Some(Cancelled(cancel))) else offers[n]]
  }

  /** `None` is a failed assertion of the fixture. */
  function RouteOffer(book: Book, mode: Mode, phase: Phase, geometry: Rect, wait: nat, reply: Reply): Option<Book> {
    var offers, id := book.offers, |book.offers|;
    var replaced := FirstWaiting(offers, mode, 0);
    var replacement := phase == Update && replaced.Some?;
    if id >= CAPACITY || book.clock + wait >= TWO64 then None
    else if replacement
         && (geometry == offers[replaced.value].geometry || offers[replaced.value].geometry !in reply.before) then None
    else if reply.admission != (if replacement then Duplicate else Admitted) then None
    else if phase == Update && reply.after != [geometry] then None
    else if phase == Cancel && (!reply.cancelLeads || reply.obsoleteLeft) then None
    else
      var now: u64 := book.clock + wait;
      var settled :=
        if phase == Cancel then CancelAll(offers, mode, id)
        else if replacement then offers[replaced.value := offers[replaced.value].(disposition := Some(Replaced(id)))]
        else offers;
      Some(Book(now, settled + [Offer(mode, phase, geometry, now, None, None)]))
  }

  /** What the request in flight was asked for. */
  datatype Cause = Cause(mode: Mode, phase: Phase, geometry: Rect)

  function CauseOf(o: Offer): Cause {
    Cause(o.mode, o.phase, o.geometry)
  }

  /** The peer's answer gives the undecided offer it was caused by its identity. */
  function ProposeOn(book: Book, id: nat, cause: Cause, identity: Identity): Option<Book> {
    if id >= |book.offers| || book.offers[id].request.Some? || book.offers[id].disposition.Some? then None
    else if cause != CauseOf(book.offers[id]) then None
    else Some(book.(offers := book.offers[id := book.offers[id].(request := Some(identity))]))
  }

  function CommitOn(book: Book, id: nat, wait: nat): Option<Book> {
    if id >= |book.offers| || book.offers[id].disposition.Some? || book.clock + wait >= TWO64 then None
    else
      var now: u64 := book.clock + wait;
      Some(Book(now, book.offers[id := book.offers[id].(disposition := Some(Committed(now)))]))
  }

  datatype Step =
    | OfferStep(mode: Mode, phase: Phase, geometry: Rect, wait: nat, reply: Reply)
    | ProposeStep(id: nat, cause: Cause, identity: Identity)
    | CommitStep(id: nat, wait: nat)

  function Apply(book: Book, step: Step): Option<Book> {
    match step
    case OfferStep(mode, phase, geometry, wait, reply) => RouteOffer(book, mode, phase, geometry, wait, reply)
    case ProposeStep(id, cause, identity) => ProposeOn(book, id, cause, identity)
    case CommitStep(id, wait) => CommitOn(book, id, wait)
  }

  function Execute(book: Book, steps: seq<Step>): Option<Book> {
    if steps == [] then Some(book)
    else
      match Execute(book, steps[..|steps| - 1])
      case None => None
      case Some(mid) => Apply(mid, steps[|steps| - 1])
  }

  // ---- the ledger in place ----

  class Accounting {
    var clock: u64
    var offers: seq<Offer>

    ghost function State(): Book
      reads this
    {
      Book(clock, offers)
    }

    constructor ()
      ensures State() == Book(0, [])
    {
      clock, offers := 0, [];
    }

    method RoutedOffer(mode: Mode, phase: Phase, geometry: Rect, wait: nat, reply: Reply) returns (id: Option<nat>)
      modifies this
      ensures id.Some? <==> RouteOffer(old(State()), mode, phase, geometry, wait, reply).Some?
      ensures id.Some? ==> id.value == |old(offers)|
      ensures id.Some? ==> Some(State()) == RouteOffer(old(State()), mode, phase, geometry, wait, reply)
      ensures id.None? ==> State() == old(State())
    {
      if |offers| >= CAPACITY { return None; }
      var next := |offers|;
      var replaced := FirstWaiting(offers, mode, 0);
      var replacement := phase == Update && replaced.Some?;
      if replacement {
        var earlier := offers[replaced.value];
        if geometry == earlier.geometry || earlier.geometry !in reply.before { return None; }
      }
      if clock + wait >= TWO64 || reply.admission != (if replacement then Duplicate else Admitted) { return None; }
      if phase == Update && reply.after != [geometry] { return None; }
      if phase == Cancel && (!reply.cancelLeads || reply.obsoleteLeft) { return None; }
      clock := clock + wait;
      if phase == Cancel {
        CancelPending(mode, next);
      } else if replacement {
        offers := offers[replaced.value := offers[replaced.value].(disposition := Some(Replaced(next)))];
      }
      offers := offers + [Offer(mode, phase, geometry, clock, None, None)];
      id := Some(next);
    }

    method CancelPending(mode: Mode, cancel: nat)
      modifies this`offers
      ensures offers == CancelAll(old(offers), mode, cancel)
    {
      ghost var goal := CancelAll(offers, mode, cancel);
      var i := 0;
      while i < |offers|
        invariant i <= |offers| == |goal|
        invariant forall j :: 0 <= j < i ==> offers[j] == goal[j]
        invariant forall j :: i <= j < |offers| ==> offers[j] == old(offers)[j]
      {
        if Undecided(offers[i], mode) {
          offers := offers[i := offers[i].(disposition := Some(Cancelled(cancel)))];
        }
        i := i + 1;
      }
    }

    method Proposal(id: nat, cause: Cause, identity: Identity) returns (ok: bool)
      modifies this`offers
      ensures ok <==> ProposeOn(old(State()), id, cause, identity).Some?
      ensures ok ==> Some(State()) == ProposeOn(old(State()), id, cause, identity)
      ensures !ok ==> State() == old(State())
    {
      if id >= |offers| || offers[id].request.Some? || offers[id].disposition.Some? { return false; }
      if cause != CauseOf(offers[id]) { return false; }
      offers := offers[id := offers[id].(request := Some(identity))];
      ok := true;
    }

    method Commit(id: nat, wait: nat) returns (ok: bool)
      modifies this
      ensures ok <==> CommitOn(old(State()), id, wait).Some?
      ensures ok ==> Some(State()) == CommitOn(old(State()), id, wait)
      ensures !ok ==> State() == old(State())
    {
      if id >= |offers| || offers[id].disposition.Some? || clock + wait >= TWO64 { return false; }
      clock := clock + wait;
      offers := offers[id := offers[id].(disposition := Some(Committed(clock)))];
      ok := true;
    }
  }

  // ---- every run ----

  /** Coherent so far: undecided offers are allowed, and so is a commit whose
      offer has no request. */
  predicate Coherent(offers: seq<Offer>, id: nat)
    requires id < |offers|
  {
    match offers[id].disposition
    case None => true
    case Some(Committed(at)) => at >= offers[id].enqueuedNs
    case Some(Replaced(_)) => Settled(offers, id)
    case Some(Cancelled(_)) => Settled(offers, id)
  }

  /** The queue coalesces: each mode has at most one update waiting. */
  predicate OneWaiting(offers: seq<Offer>) {
    forall i, j :: 0 <= i < j < |offers| && offers[i].mode == offers[j].mode && Waiting(offers[i]) ==>
      !Waiting(offers[j])
  }

  /** A cancel leaves nothing of its mode undecided behind it. */
  predicate CancelsClear(offers: seq<Offer>) {
    forall i, j :: 0 <= i < j < |offers| && offers[j].phase == Cancel ==> !Undecided(offers[i], offers[j].mode)
  }

  predicate Inv(book: Book) {
    && |book.offers| <= CAPACITY
    && AllCoherent(book)
    && OneWaiting(book.offers)
    && CancelsClear(book.offers)
  }

  lemma FirstIsOnly(offers: seq<Offer>, mode: Mode, i: nat)
    requires OneWaiting(offers) && i < |offers| && ReplaceableAt(offers, mode, i)
    ensures FirstWaiting(offers, mode, 0) == Some(i)
  {
    var first := FirstWaiting(offers, mode, 0).value;
    assert Waiting(offers[first]);
  }

  lemma OfferLeavesOneWaiting(
    book: Book, mode: Mode, phase: Phase, geometry: Rect, wait: nat, reply: Reply)
    requires Inv(book) && RouteOffer(book, mode, phase, geometry, wait, reply).Some?
    ensures OneWaiting(RouteOffer(book, mode, phase, geometry, wait, reply).value.offers)
  {
    var offers := book.offers;
    var after := RouteOffer(book, mode, phase, geometry, wait, reply).value.offers;
    forall i, j | 0 <= i < j < |after| && after[i].mode == after[j].mode && Waiting(after[i])
      ensures !Waiting(after[j])
    {
      if j == |offers| && ReplaceableAt(offers, mode, i) {
        FirstIsOnly(offers, mode, i);
      }
    }
  }

  lemma OfferKeeps(book: Book, mode: Mode, phase: Phase, geometry: Rect, wait: nat, reply: Reply)
    requires Inv(book) && RouteOffer(book, mode, phase, geometry, wait, reply).Some?
    ensures Inv(RouteOffer(book, mode, phase, geometry, wait, reply).value)
  {
    OfferLeavesCoherent(book, mode, phase, geometry, wait, reply);
    OfferLeavesOneWaiting(book, mode, phase, geometry, wait, reply);
    OfferLeavesCleared(book, mode, phase, geometry, wait, reply);
  }

  predicate AllCoherent(book: Book) {
    forall id :: 0 <= id < |book.offers| ==> Coherent(book.offers, id) && book.offers[id].enqueuedNs <= book.clock
  }

  lemma OfferLeavesCoherent(
    book: Book, mode: Mode, phase: Phase, geometry: Rect, wait: nat, reply: Reply)
    requires AllCoherent(book) && RouteOffer(book, mode, phase, geometry, wait, reply).Some?
    ensures AllCoherent(RouteOffer(book, mode, phase, geometry, wait, reply).value)
  {
    var after := RouteOffer(book, mode, phase, geometry, wait, reply).value;
    forall i | 0 <= i < |after.offers|
      ensures Coherent(after.offers, i) && after.offers[i].enqueuedNs <= after.clock
    {
      if i < |book.offers| {
        assert Coherent(book.offers, i);
      }
    }
  }

  lemma OfferLeavesCleared(
    book: Book, mode: Mode, phase: Phase, geometry: Rect, wait: nat, reply: Reply)
    requires CancelsClear(book.offers) && RouteOffer(book, mode, phase, geometry, wait, reply).Some?
    ensures CancelsClear(RouteOffer(book, mode, phase, geometry, wait, reply).value.offers)
  {
  }

  lemma StepKeeps(book: Book, step: Step)
    requires Inv(book) && Apply(book, step).Some?
    ensures Inv(Apply(book, step).value)
  {
    match step
    case OfferStep(mode, phase, geometry, wait, reply) => OfferKeeps(book, mode, phase, geometry, wait, reply);
    case ProposeStep(id, cause, identity) =>
      forall i | 0 <= i < |book.offers| ensures Coherent(Apply(book, step).value.offers, i) {
        assert Coherent(book.offers, i);
      }
    case CommitStep(id, wait) =>
      forall i | 0 <= i < |book.offers| ensures Coherent(Apply(book, step).value.offers, i) {
        assert Coherent(book.offers, i);
      }
  }

  lemma {:induction false} RunsKeep(steps: seq<Step>)
    requires Execute(Book(0, []), steps).Some?
    ensures Inv(Execute(Book(0, []), steps).value)
  {
    if steps == [] {
    } else {
      RunsKeep(steps[..|steps| - 1]);
      StepKeeps(Execute(Book(0, []), steps[..|steps| - 1]).value, steps[|steps| - 1]);
    }
  }

  /** What a run must have done for its ledger to be accepted: decide every offer,
      commit only answered offers, and never reuse a request. */
  predicate Finished(offers: seq<Offer>) {
    && (forall i :: 0 <= i < |offers| ==> offers[i].disposition.Some?)
    && (forall i :: 0 <= i < |offers| && IsCommitted(offers[i]) ==> offers[i].request.Some?)
    && RequestsDistinct(offers)
  }

  lemma RunAcceptedIff(steps: seq<Step>)
    requires Execute(Book(0, []), steps).Some?
    ensures Valid(Execute(Book(0, []), steps).value.offers) <==> Finished(Execute(Book(0, []), steps).value.offers)
  {
    RunsKeep(steps);
    var offers := Execute(Book(0, []), steps).value.offers;
    forall i | 0 <= i < |offers|
      ensures Settled(offers, i) <==>
        offers[i].disposition.Some? && (IsCommitted(offers[i]) ==> offers[i].request.Some?)
    {
      assert Coherent(offers, i);
    }
  }

  /** The fixture's discipline: identities are fresh, and only an answered offer
      is committed. */
  predicate Disciplined(book: Book, step: Step) {
    match step
    case OfferStep(_, _, _, _, _) => true
    case ProposeStep(_, _, identity) => forall i :: 0 <= i < |book.offers| ==> book.offers[i].request != Some(identity)
    case CommitStep(id, _) => id < |book.offers| ==> book.offers[id].request.Some?
  }

  predicate DisciplinedRun(steps: seq<Step>) {
    steps == []
    || (DisciplinedRun(steps[..|steps| - 1])
        && Execute(Book(0, []), steps[..|steps| - 1]).Some?
        && Disciplined(Execute(Book(0, []), steps[..|steps| - 1]).value, steps[|steps| - 1]))
  }

  /** Distinct requests everywhere, and answers for every commit. */
  predicate Answered(offers: seq<Offer>) {
    && (forall i, j :: 0 <= i < j < |offers| && offers[i].request.Some? ==> offers[i].request != offers[j].request)
    && (forall i :: 0 <= i < |offers| && IsCommitted(offers[i]) ==> offers[i].request.Some?)
  }

  lemma DisciplinedStepAnswers(book: Book, step: Step)
    requires Answered(book.offers) && Disciplined(book, step) && Apply(book, step).Some?
    ensures Answered(Apply(book, step).value.offers)
  {
  }

  lemma {:induction false} DisciplineAnswers(steps: seq<Step>)
    requires DisciplinedRun(steps) && Execute(Book(0, []), steps).Some?
    ensures Answered(Execute(Book(0, []), steps).value.offers)
  {
    if steps == [] {
    } else {
      DisciplineAnswers(steps[..|steps| - 1]);
      DisciplinedStepAnswers(Execute(Book(0, []), steps[..|steps| - 1]).value, steps[|steps| - 1]);
    }
  }

  /** Every disciplined run that decides all its offers leaves an accepted ledger. */
  lemma DisciplinedRunAccepted(steps: seq<Step>)
    requires DisciplinedRun(steps) && Execute(Book(0, []), steps).Some?
    requires forall o :: o in Execute(Book(0, []), steps).value.offers ==> o.disposition.Some?
    ensures Valid(Execute(Book(0, []), steps).value.offers)
  {
    RunAcceptedIff(steps);
    DisciplineAnswers(steps);
  }
}
