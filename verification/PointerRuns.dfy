/** What the pointer ledger holds after a run, told by the run's steps; when each
    step is accepted; and what an accepted ledger is. */
module PointerRuns {
  import opened Prelude
  import opened PointerLedger

  // ---- the checker, clause by clause ----

  predicate HasSuccessor(o: Offer) {
    o.disposition.Some? && !o.disposition.value.Committed?
  }

  /** A successor is a later offer of the same mode, not enqueued earlier, and only
      offers that were never answered have one. */
  predicate LeadsOn(offers: seq<Offer>, id: nat)
    requires id < |offers|
  {
    HasSuccessor(offers[id]) ==>
      var next := offers[id].disposition.value.successor;
      && offers[id].request.None? && id < next < |offers|
      && offers[next].mode == offers[id].mode && offers[next].enqueuedNs >= offers[id].enqueuedNs
  }

  /** An update is replaced by an update elsewhere; anything is cancelled by a cancel. */
  predicate SuccessorFits(offers: seq<Offer>, id: nat)
    requires id < |offers|
  {
    HasSuccessor(offers[id]) && offers[id].disposition.value.successor < |offers| ==>
      var next := offers[offers[id].disposition.value.successor];
      if offers[id].disposition.value.Cancelled? then next.phase == Cancel
      else offers[id].phase == Update && next.phase == Update && next.geometry != offers[id].geometry
  }

  /** A commit is answered, and not earlier than its offer. */
  predicate CommitAnswered(o: Offer) {
    IsCommitted(o) ==> o.request.Some? && o.disposition.value.at >= o.enqueuedNs
  }

  lemma SettledIff(offers: seq<Offer>, id: nat)
    requires id < |offers|
    ensures Settled(offers, id) <==>
      && offers[id].disposition.Some?
      && LeadsOn(offers, id) && SuccessorFits(offers, id) && CommitAnswered(offers[id])
  {
  }

  /** A ledger is accepted exactly when every offer is decided, successors lead on and
      fit, commits are answered, and no request commits two offers. */
  lemma ValidIff(offers: seq<Offer>)
    ensures Valid(offers) <==>
      && (forall id :: 0 <= id < |offers| ==>
            && offers[id].disposition.Some?
            && LeadsOn(offers, id) && SuccessorFits(offers, id) && CommitAnswered(offers[id]))
      && (forall i, j :: 0 <= i < j < |offers| && IsCommitted(offers[i]) && IsCommitted(offers[j]) ==>
            offers[i].request != offers[j].request)
  {
    forall id | 0 <= id < |offers| {
      SettledIff(offers, id);
    }
  }

  // ---- one step ----

  predicate SomeWaiting(offers: seq<Offer>, mode: Mode) {
    exists i :: 0 <= i < |offers| && offers[i].mode == mode && Waiting(offers[i])
  }

  /** What the owner's queue must show for an offer to be taken. */
  predicate QueueFits(offers: seq<Offer>, mode: Mode, phase: Phase, geometry: Rect, reply: Reply) {
    && (phase == Update ==> reply.after == [geometry])
    && (phase == Cancel ==> reply.cancelLeads && !reply.obsoleteLeft)
    && reply.admission == (if phase == Update && SomeWaiting(offers, mode) then Duplicate else Admitted)
    && (phase == Update ==>
          forall i :: 0 <= i < |offers| && offers[i].mode == mode && Waiting(offers[i]) ==>
            geometry != offers[i].geometry && offers[i].geometry in reply.before)
  }

  /** An offer is taken exactly when there is room, the clock can be read and the queue
      shows what it must. */
  lemma OfferTakenIff(book: Book, mode: Mode, phase: Phase, geometry: Rect, wait: nat, reply: Reply)
    requires Inv(book)
    ensures RouteOffer(book, mode, phase, geometry, wait, reply).Some? <==>
      |book.offers| < 32 && book.clock + wait < TWO64 && QueueFits(book.offers, mode, phase, geometry, reply)
  {
    WaitingIsFirst(book.offers, mode);
  }

  lemma WaitingIsFirst(offers: seq<Offer>, mode: Mode)
    requires OneWaiting(offers)
    ensures FirstWaiting(offers, mode, 0).Some? <==> SomeWaiting(offers, mode)
    ensures forall i :: 0 <= i < |offers| && offers[i].mode == mode && Waiting(offers[i]) ==>
      FirstWaiting(offers, mode, 0) == Some(i)
  {
    forall i | 0 <= i < |offers| && offers[i].mode == mode && Waiting(offers[i])
      ensures FirstWaiting(offers, mode, 0) == Some(i)
    {
      FirstIsOnly(offers, mode, i);
    }
  }

  /** What a new offer does to an earlier one. */
  function Decided(o: Offer, mode: Mode, phase: Phase, id: nat): Offer {
    if phase == Cancel && Undecided(o, mode) then o.(disposition := Some(Cancelled(id)))
    else if phase == Update && o.mode == mode && Waiting(o) then o.(disposition := Some(Replaced(id)))
    else o
  }

  /** A cancel decides every undecided offer of its mode, an update the one that waits,
      and nothing else is touched. */
  lemma OfferDecides(book: Book, mode: Mode, phase: Phase, geometry: Rect, wait: nat, reply: Reply)
    requires Inv(book) && RouteOffer(book, mode, phase, geometry, wait, reply).Some?
    ensures var next, id := RouteOffer(book, mode, phase, geometry, wait, reply).value, |book.offers|;
      && next.clock == book.clock + wait && |next.offers| == id + 1
      && next.offers[id] == Offer(mode, phase, geometry, next.clock, None, None)
      && forall i :: 0 <= i < id ==> next.offers[i] == Decided(book.offers[i], mode, phase, id)
  {
    WaitingIsFirst(book.offers, mode);
  }

  lemma AnswerTakenIff(book: Book, id: nat, cause: Cause, identity: Identity)
    ensures ProposeOn(book, id, cause, identity).Some? <==>
      && id < |book.offers| && book.offers[id].request.None? && book.offers[id].disposition.None?
      && cause.mode == book.offers[id].mode && cause.phase == book.offers[id].phase
      && cause.geometry == book.offers[id].geometry
  {
  }

  lemma CommitTakenIff(book: Book, id: nat, wait: nat)
    ensures CommitOn(book, id, wait).Some? <==>
      id < |book.offers| && book.offers[id].disposition.None? && book.clock + wait < TWO64
  {
  }

  // ---- whole runs ----

  function Duration(step: Step): nat {
    match step
    case OfferStep(_, _, _, wait, _) => wait
    case ProposeStep(_, _, _) => 0
    case CommitStep(_, wait) => wait
  }

  function Elapsed(steps: seq<Step>): nat {
    if steps == [] then 0 else Elapsed(steps[..|steps| - 1]) + Duration(steps[|steps| - 1])
  }

  datatype Birth = Birth(mode: Mode, phase: Phase, geometry: Rect, at: nat)

  /** The offers a run makes, in order. */
  function Births(steps: seq<Step>): seq<Birth> {
    if steps == [] then []
    else
      var last := steps[|steps| - 1];
      Births(steps[..|steps| - 1])
      + if last.OfferStep? then [Birth(last.mode, last.phase, last.geometry, Elapsed(steps))] else []
  }

  predicate BornAs(o: Offer, b: Birth) {
    o.mode == b.mode && o.phase == b.phase && o.geometry == b.geometry && o.enqueuedNs == b.at
  }

  predicate AllBorn(book: Book, steps: seq<Step>) {
    && book.clock == Elapsed(steps) && |book.offers| == |Births(steps)|
    && forall i :: 0 <= i < |book.offers| ==> BornAs(book.offers[i], Births(steps)[i])
  }

  /** An answer that was caused by the offer it was taken for. */
  predicate AnswersOffer(step: Step, o: Offer, id: nat) {
    && step.ProposeStep? && step.id == id && o.request == Some(step.identity)
    && step.cause.mode == o.mode && step.cause.phase == o.phase && step.cause.geometry == o.geometry
  }

  ghost predicate AllAnswered(offers: seq<Offer>, steps: seq<Step>) {
    forall id :: 0 <= id < |offers| && offers[id].request.Some? ==>
      exists k :: 0 <= k < |steps| && AnswersOffer(steps[k], offers[id], id)
  }

  /** The commit of an offer, at the time it was made. */
  predicate CommitsOffer(steps: seq<Step>, k: nat, o: Offer, id: nat) {
    && k < |steps| && steps[k].CommitStep? && steps[k].id == id
    && o.disposition.Some? && o.disposition.value.Committed? && o.disposition.value.at == Elapsed(steps[..k + 1])
  }

  ghost predicate AllCommitted(offers: seq<Offer>, steps: seq<Step>) {
    forall id :: 0 <= id < |offers| && IsCommitted(offers[id]) ==>
      exists k: nat :: CommitsOffer(steps, k, offers[id], id)
  }

  lemma StepBears(book: Book, steps: seq<Step>, step: Step, next: Book)
    requires Inv(book) && AllBorn(book, steps) && Apply(book, step) == Some(next)
    ensures AllBorn(next, steps + [step])
  {
    assert (steps + [step])[..|steps|] == steps;
    match step
    case OfferStep(mode, phase, geometry, wait, reply) => OfferDecides(book, mode, phase, geometry, wait, reply);
    case ProposeStep(_, _, _) =>
    case CommitStep(_, _) =>
  }

  /** What a step can do to the request of an offer: only an answer gives one. */
  lemma StepRequests(book: Book, step: Step, next: Book, id: nat)
    requires Inv(book) && Apply(book, step) == Some(next) && id < |next.offers| && next.offers[id].request.Some?
    ensures AnswersOffer(step, next.offers[id], id)
      || (id < |book.offers| && SameAnswer(book.offers[id], next.offers[id]))
  {
    if step.OfferStep? {
      OfferDecides(book, step.mode, step.phase, step.geometry, step.wait, step.reply);
    }
  }

  predicate SameAnswer(a: Offer, b: Offer) {
    a.mode == b.mode && a.phase == b.phase && a.geometry == b.geometry && a.request == b.request
  }

  lemma StepAnswers(book: Book, steps: seq<Step>, step: Step, next: Book)
    requires Inv(book) && AllAnswered(book.offers, steps) && Apply(book, step) == Some(next)
    ensures AllAnswered(next.offers, steps + [step])
  {
    var longer := steps + [step];
    forall id | 0 <= id < |next.offers| && next.offers[id].request.Some?
      ensures exists k :: 0 <= k < |longer| && AnswersOffer(longer[k], next.offers[id], id)
    {
      StepRequests(book, step, next, id);
      if AnswersOffer(step, next.offers[id], id) {
        assert AnswersOffer(longer[|steps|], next.offers[id], id);
      } else {
        var k :| 0 <= k < |steps| && AnswersOffer(steps[k], book.offers[id], id);
        assert AnswersOffer(longer[k], next.offers[id], id);
      }
    }
  }

  /** And only a commit commits, at the time it is made. */
  lemma StepCommits(book: Book, step: Step, next: Book, id: nat)
    requires Inv(book) && Apply(book, step) == Some(next) && id < |next.offers| && IsCommitted(next.offers[id])
    ensures (step.CommitStep? && step.id == id && next.offers[id].disposition == Some(Committed(next.clock)))
      || (id < |book.offers| && book.offers[id].disposition == next.offers[id].disposition)
  {
    if step.OfferStep? {
      OfferDecides(book, step.mode, step.phase, step.geometry, step.wait, step.reply);
    }
  }

  lemma StepCommitments(book: Book, steps: seq<Step>, step: Step, next: Book)
    requires Inv(book) && AllCommitted(book.offers, steps) && Apply(book, step) == Some(next)
    requires next.clock == Elapsed(steps + [step])
    ensures AllCommitted(next.offers, steps + [step])
  {
    var longer := steps + [step];
    forall id | 0 <= id < |next.offers| && IsCommitted(next.offers[id])
      ensures exists k: nat :: CommitsOffer(longer, k, next.offers[id], id)
    {
      StepCommits(book, step, next, id);
      if step.CommitStep? && step.id == id && next.offers[id].disposition == Some(Committed(next.clock)) {
        assert longer[..|steps| + 1] == longer;
        assert CommitsOffer(longer, |steps|, next.offers[id], id);
      } else {
        var k: nat :| CommitsOffer(steps, k, book.offers[id], id);
        assert longer[..k + 1] == steps[..k + 1];
        assert CommitsOffer(longer, k, next.offers[id], id);
      }
    }
  }

  /** After any run the ledger holds the offers that were made, with their times; every
      identity came from an answer that its offer caused, and every commit's time is
      that of its commit. */
  lemma {:induction false} RunsTell(steps: seq<Step>)
    requires Execute(Book(0, []), steps).Some?
    ensures var book := Execute(Book(0, []), steps).value;
      AllBorn(book, steps) && AllAnswered(book.offers, steps) && AllCommitted(book.offers, steps)
  {
    if steps == [] {
    } else {
      var n := |steps| - 1;
      RunsKeep(steps[..n]);
      RunsTell(steps[..n]);
      var mid, book := Execute(Book(0, []), steps[..n]).value, Execute(Book(0, []), steps).value;
      assert steps == steps[..n] + [steps[n]];
      StepBears(mid, steps[..n], steps[n], book);
      StepAnswers(mid, steps[..n], steps[n], book);
      StepCommitments(mid, steps[..n], steps[n], book);
    }
  }
}
