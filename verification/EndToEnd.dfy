/** The three parts joined: a campaign whose captures are what the polling loop
    reports, taken in the order the driver commands, is a campaign the report
    accepts. */
module EndToEnd {
  import opened Prelude
  import opened ReportValue
  import opened CaptureLedger
  import opened CaptureInvariant
  import opened LoopRuns
  import opened ProducerConsumer
  import opened Campaign
  import opened CampaignDriver
  import opened Polling = CaptureObject
  import opened Completable
  import Budgets
  import NearestRank
  import RunDecoder
  import RunMeaning

  /** One capture: what answered its polling loop, whether the transport was down
      when it ended, and the clock readings while its report was made. */
  datatype Measurement = Measurement(settings: Settings, turns: seq<Turn>, disconnected: bool, waits: Waits)

  function Now(c: Measurement): Ledger
    requires c.settings.Valid()
  {
    Loop(Opened(c.settings), c.turns).0
  }

  function EndOf(c: Measurement): LoopEnd
    requires c.settings.Valid()
  {
    Loop(Opened(c.settings), c.turns).1
  }

  /** The loop returned, and its owner was honest. */
  predicate Honestly(c: Measurement) {
    && c.settings.Valid() && HonestLoop(Opened(c.settings), c.turns)
    && Ended(EndOf(c)) && ReportReadable(Now(c), c.waits)
  }

  function ReportOf(c: Measurement): Value
    requires Honestly(c)
  {
    Finish(Now(c), ErrorOf(EndOf(c)), c.disconnected, c.waits)
  }

  /** What is left when the report has closed all custody. */
  function Closed(c: Measurement): Closing
    requires Honestly(c)
  {
    CloseAll(Now(c), c.disconnected, ErrorOf(EndOf(c)) == Some(AbsoluteDeadline), c.waits)
  }

  /** What the decoder makes of a report: the closed ledger's counters, its error,
      and every sample. */
  function RunOf(c: Measurement): RunDecoder.Run
    requires Honestly(c) && Words(Closed(c).ledger) && Closed(c).ledger.settings == c.settings
  {
    HeaderOf(Closed(c).ledger, FinalError(Closed(c).ledger, ErrorOf(EndOf(c)))).(
      samples := RunMeaning.SamplesOf(SampleValues(Now(c).samples)))
  }

  /** What was commanded and what was counted come back from the report. */
  lemma CaptureReadsBack(c: Measurement)
    requires Honestly(c)
    ensures Words(Closed(c).ledger) && Closed(c).ledger.settings == c.settings
    ensures RunDecoder.DecodeRun(ReportOf(c)) == Success(RunOf(c))
  {
    var steps, stop := LoopRun(c.settings, c.turns, true);
    HonestLoopAccepted(c.settings, c.turns, c.disconnected, c.waits);
    RunsConserve(c.settings, steps, Now(c), stop, true);
    HonestRunsAdvance(c.settings, steps, Now(c), stop);
    HeaderOfReport(Now(c), ErrorOf(EndOf(c)), c.disconnected, c.waits);
    var header := RunMeaning.AcceptedHeader(ReportOf(c));
  }

  lemma HeaderOfReport(l: Ledger, error: Option<Fault>, disconnected: bool, waits: Waits)
    requires Inv(l) && l.maxQueueDepth <= 1 && ReportReadable(l, waits)
    ensures var report := Finish(l, error, disconnected, waits);
      var closed := CloseAll(l, disconnected, error == Some(AbsoluteDeadline), waits).ledger;
      && Words(closed) && closed.settings == l.settings
      && RunDecoder.DecodeHeader(report) == Success(HeaderOf(closed, FinalError(closed, error)))
      && Get(report, Samples) == Array(SampleValues(l.samples))
  {
    var deadline := error == Some(AbsoluteDeadline);
    var c := CloseAll(l, disconnected, deadline, waits);
    ClosingIsReady(l, disconnected, deadline, waits);
    CloseAllCounters(l, disconnected, deadline, waits);
    WordsWithinDepth(c);
    HeaderReadsBack(c, FinalError(c.ledger, error));
    ReportLists(c, FinalError(c.ledger, error));
  }

  lemma CountsReadBack(c: Measurement)
    requires Honestly(c)
    ensures RunDecoder.DecodeRun(ReportOf(c)).Success?
    ensures var run := RunDecoder.DecodeRun(ReportOf(c)).value;
      && run.wire == c.settings.wire && run.kind == c.settings.kind
      && run.rateHz == c.settings.rate && run.requestedUpdates == c.settings.updates
      && run.admitted == Now(c).admitted && run.coalesced == Now(c).coalesced && run.settled == Now(c).settled
      && |run.samples| == |Now(c).samples|
  {
    CaptureReadsBack(c);
    CloseAllCounters(Now(c), c.disconnected, ErrorOf(EndOf(c)) == Some(AbsoluteDeadline), c.waits);
  }

  /** Each capture was configured by its command, and its row names it. */
  predicate AnswersCommand(n: nat, updates: nat, c: Measurement, row: Row, i: nat)
    requires n > 0
  {
    var command := CommandAt(n, i);
    && Honestly(c)
    && c.settings.wire == command.wire && c.settings.kind == command.key.kind
    && c.settings.rate == command.key.rateHz && c.settings.updates == updates
    && row.ordinal == command.ordinal && row.pair == command.key.pair && row.load == command.key.load
    && row.capture == ReportOf(c)
  }

  lemma AnsweredRowIsDriven(n: nat, updates: nat, c: Measurement, row: Row, i: nat)
    requires n > 0 && AnswersCommand(n, updates, c, row, i)
    ensures DrivenRow(n, updates, row, i)
  {
    CountsReadBack(c);
  }

  /** A capture that settled an update and, for acceptance, admitted enough. */
  predicate Productive(mode: Mode, c: Measurement) {
    && c.settings.Valid() && Now(c).samples != []
    && (mode == AcceptanceMode ==> Now(c).admitted >= ACCEPTANCE_ADMITTED)
  }

  lemma ProductiveRowMeasured(mode: Mode, c: Measurement, row: Row)
    requires Honestly(c) && Productive(mode, c) && row.capture == ReportOf(c)
    ensures RowMeasured(mode, row)
  {
    CountsReadBack(c);
  }

  /** What `report` makes of such rows: whatever the honest owner did in each of
      the commanded captures, and however its loop returned, the campaign is
      reported as long as every capture settled an update and, for acceptance,
      admitted enough. */
  lemma CampaignOfLoopsReported(
    mode: Mode, n: nat, updates: nat, captures: seq<Measurement>, rows: seq<Row>)
    requires 1 <= n <= PAIRS && (mode == AcceptanceMode ==> n == PAIRS)
    requires |captures| == |rows| == 16 * n
    requires forall i :: 0 <= i < |rows| ==> AnswersCommand(n, updates, captures[i], rows[i], i)
    requires forall i :: 0 <= i < |captures| ==> Productive(mode, captures[i])
    ensures Report(mode, rows).Success?
  {
    forall i | 0 <= i < |rows| ensures DrivenRow(n, updates, rows[i], i) && RowMeasured(mode, rows[i]) {
      AnsweredRowIsDriven(n, updates, captures[i], rows[i], i);
      ProductiveRowMeasured(mode, captures[i], rows[i]);
    }
    DrivenCampaignReported(mode, n, updates, rows);
  }

  /** What the driver lets through: the fixture fails unless its loop finished and
      nothing was rejected, and the first failure ends the campaign. */
  predicate Passed(c: Measurement) {
    c.settings.Valid() && EndOf(c) == Finished && Now(c).rejected == 0
  }

  lemma PassedSettles(c: Measurement)
    requires Honestly(c) && Passed(c)
    ensures Now(c).admitted == c.settings.updates && Now(c).samples != []
  {
    var steps, stop := LoopRun(c.settings, c.turns, true);
    RunsConserve(c.settings, steps, Now(c), stop, true);
    FullRunsSettle(c.settings, steps, Now(c), true);
  }

  /** The driver's two campaigns: one pair of 16 updates, or five of 10000. */
  function PairsOf(mode: Mode): nat {
    if mode == Smoke then 1 else PAIRS
  }

  function UpdatesOf(mode: Mode): nat {
    if mode == Smoke then 16 else 10_000
  }

  /** From owner to report: a campaign the driver completes, with an honest owner
      in every capture, is reported. Nothing else is asked of the captures. */
  lemma CompletedCampaignReported(mode: Mode, captures: seq<Measurement>, rows: seq<Row>)
    requires |captures| == |rows| == 16 * PairsOf(mode)
    requires forall i :: 0 <= i < |rows| ==>
      AnswersCommand(PairsOf(mode), UpdatesOf(mode), captures[i], rows[i], i) && Passed(captures[i])
    ensures Report(mode, rows).Success?
  {
    forall i | 0 <= i < |captures| ensures Productive(mode, captures[i]) {
      assert AnswersCommand(PairsOf(mode), UpdatesOf(mode), captures[i], rows[i], i);
      PassedSettles(captures[i]);
    }
    CampaignOfLoopsReported(mode, PairsOf(mode), UpdatesOf(mode), captures, rows);
  }

  // ---- such campaigns exist, and can pass the gate ----

  /** A capture that passed decodes as complete, with no failed work. */
  lemma PassedIsComplete(c: Measurement)
    requires Honestly(c) && Passed(c)
    ensures RunDecoder.DecodeRun(ReportOf(c)).Success?
    ensures var run := RunDecoder.DecodeRun(ReportOf(c)).value; run.status == Complete && Budgets.NoFailedWork(run)
  {
    var steps, stop := LoopRun(c.settings, c.turns, true);
    RunsConserve(c.settings, steps, Now(c), stop, true);
    CaptureReadsBack(c);
    CleanLedgerCloses(Now(c), c.disconnected, c.waits);
  }

  /** Nothing in custody: the report closes nothing and adds no error. */
  lemma CleanLedgerCloses(l: Ledger, disconnected: bool, waits: Waits)
    requires Inv(l) && Unfailed(l) && Done(l) && l.rejected == 0 && ReportReadable(l, waits)
    ensures var closed := CloseAll(l, disconnected, false, waits).ledger;
      && closed == l.(active := None, queued := None, clock := closed.clock)
      && FinalError(closed, None) == Null
  {
    var c := CloseAll(l, disconnected, false, waits);
    CloseAllCounters(l, disconnected, false, waits);
    ClosingIsReady(l, disconnected, false, waits);
    BalancedIsUnbroken(c, None);
  }

  /** A prompt owner answers the i-th command; the owner's bound is any positive one. */
  ghost function PromptMeasurement(n: nat, updates: nat, capacity: nat, i: nat): Measurement
    requires 1 <= n <= PAIRS && i < 16 * n && 1 <= updates <= RunDecoder.MAX_UPDATES && capacity >= 1
  {
    CommandedSettings(n, i);
    var command := CommandAt(n, i);
    var settings := Settings(command.wire, command.key.kind, command.key.rateHz, updates, capacity);
    Measurement(settings, PromptAnswers(settings), false, Waits(0, 0, 0))
  }

  lemma CommandedSettings(n: nat, i: nat)
    requires 1 <= n <= PAIRS && i < 16 * n
    ensures var command := CommandAt(n, i);
      && command.wire in {CurrentIpc, NineP2000L} && command.key.kind in {Move, Resize}
      && (command.key.rateHz == 60 || command.key.rateHz == 120) && 1 <= command.key.pair <= PAIRS
  {
    CommandedKeysInProduct(n, i);
  }

  lemma PromptPasses(n: nat, updates: nat, capacity: nat, i: nat)
    requires 1 <= n <= PAIRS && i < 16 * n && 1 <= updates <= RunDecoder.MAX_UPDATES && capacity >= 1
    ensures var c := PromptMeasurement(n, updates, capacity, i);
      Honestly(c) && Passed(c) && Prompt(Now(c), c.settings, updates)
  {
  }

  ghost function PromptRow(n: nat, updates: nat, capacity: nat, i: nat): Row
    requires 1 <= n <= PAIRS && i < 16 * n && 1 <= updates <= RunDecoder.MAX_UPDATES && capacity >= 1
  {
    PromptPasses(n, updates, capacity, i);
    CommandedSettings(n, i);
    var command := CommandAt(n, i);
    Row(command.ordinal, command.key.pair, command.key.load, ReportOf(PromptMeasurement(n, updates, capacity, i)),
        None, None)
  }

  ghost function PromptRows(n: nat, updates: nat, capacity: nat, count: nat): (rows: seq<Row>)
    requires 1 <= n <= PAIRS && count <= 16 * n && 1 <= updates <= RunDecoder.MAX_UPDATES && capacity >= 1
    ensures |rows| == count
    ensures forall i :: 0 <= i < count ==> rows[i] == PromptRow(n, updates, capacity, i)
  {
    if count == 0 then []
    else PromptRows(n, updates, capacity, count - 1) + [PromptRow(n, updates, capacity, count - 1)]
  }

  /** A run whose every update settled the moment it was due. */
  predicate PromptRun(run: RunDecoder.Run, updates: nat) {
    && run.status == Complete && Budgets.NoFailedWork(run)
    && run.coalesced == 0 && run.settled == updates && run.admitted == updates && |run.samples| == updates
    && forall i :: 0 <= i < updates ==>
         && run.samples[i].offeredSequence == i + 1
         && run.samples[i].scheduledNs == run.samples[i].enqueuedNs == run.samples[i].settledNs
  }

  lemma NoteReadsBack(note: SampleNote)
    requires note.sequence < TWO64
    ensures RunMeaning.SampleOf(SampleValue(note)) ==
      RunDecoder.Sample(note.sequence, note.request, note.transaction, note.scheduled, note.enqueued, note.settled)
  {
    SampleMembers(note);
    SampleTimes(note);
  }

  lemma PromptDecodes(n: nat, updates: nat, capacity: nat, i: nat)
    requires 1 <= n <= PAIRS && i < 16 * n && 1 <= updates <= RunDecoder.MAX_UPDATES && capacity >= 1
    ensures Honestly(PromptMeasurement(n, updates, capacity, i))
    ensures var decoded := RunDecoder.DecodeRun(ReportOf(PromptMeasurement(n, updates, capacity, i)));
      decoded.Success? && PromptRun(decoded.value, updates)
  {
    var c := PromptMeasurement(n, updates, capacity, i);
    PromptPasses(n, updates, capacity, i);
    CountsReadBack(c);
    PassedIsComplete(c);
    CaptureReadsBack(c);
    PromptSamples(c.settings, Now(c), RunDecoder.DecodeRun(ReportOf(c)).value.samples);
  }

  lemma PromptSamples(settings: Settings, l: Ledger, samples: seq<RunDecoder.Sample>)
    requires settings.Valid() && Prompt(l, settings, settings.updates)
    requires samples == RunMeaning.SamplesOf(SampleValues(l.samples))
    ensures forall k :: 0 <= k < |samples| ==>
      && samples[k].offeredSequence == k + 1
      && samples[k].scheduledNs == samples[k].enqueuedNs == samples[k].settledNs
  {
    forall k | 0 <= k < |samples|
      ensures samples[k].offeredSequence == k + 1
      ensures samples[k].scheduledNs == samples[k].enqueuedNs == samples[k].settledNs
    {
      NoteReadsBack(l.samples[k]);
    }
  }

  lemma ZeroDistribution(values: seq<u64>)
    requires values != [] && forall i :: 0 <= i < |values| ==> values[i] == 0
    ensures NearestRank.Distribute(values) == Success(NearestRank.Distribution(0, 0, 0, 0))
  {
    NearestRank.DistributionOrdered(values);
  }

  lemma {:induction false} PromptPairMeets(ipc: RunDecoder.Run, files: RunDecoder.Run, updates: nat)
    requires updates > 0 && PromptRun(ipc, updates) && PromptRun(files, updates)
    requires Budgets.WellTimed(ipc) && Budgets.WellTimed(files)
    ensures Budgets.MeetsBudgets(ipc, files)
  {
    ZeroDistribution(Budgets.Latencies(ipc.samples));
    ZeroDistribution(Budgets.Latencies(files.samples));
    SameSequences(ipc, files, updates);
  }

  lemma {:induction false} SameSequences(ipc: RunDecoder.Run, files: RunDecoder.Run, updates: nat)
    requires PromptRun(ipc, updates) && PromptRun(files, updates)
    ensures Budgets.RetainedSequences(ipc.samples) == Budgets.RetainedSequences(files.samples)
  {
  }

  ghost function PromptMeasurements(n: nat, updates: nat, capacity: nat, count: nat): (r: seq<Measurement>)
    requires 1 <= n <= PAIRS && count <= 16 * n && 1 <= updates <= RunDecoder.MAX_UPDATES && capacity >= 1
    ensures |r| == count
    ensures forall i :: 0 <= i < count ==> r[i] == PromptMeasurement(n, updates, capacity, i)
  {
    if count == 0 then []
    else PromptMeasurements(n, updates, capacity, count - 1) + [PromptMeasurement(n, updates, capacity, count - 1)]
  }

  lemma PromptAnswersCommand(n: nat, updates: nat, capacity: nat, i: nat)
    requires 1 <= n <= PAIRS && i < 16 * n && 1 <= updates <= RunDecoder.MAX_UPDATES && capacity >= 1
    ensures var c := PromptMeasurement(n, updates, capacity, i);
      AnswersCommand(n, updates, c, PromptRow(n, updates, capacity, i), i) && Passed(c)
  {
    PromptPasses(n, updates, capacity, i);
  }

  /** For every mode there is a campaign the driver completes and the report accepts. */
  lemma {:induction false} SomeCampaignReported(mode: Mode, capacity: nat) returns (rows: seq<Row>)
    requires capacity >= 1
    ensures rows == PromptRows(PairsOf(mode), UpdatesOf(mode), capacity, 16 * PairsOf(mode))
    ensures Report(mode, rows).Success?
  {
    var n, updates := PairsOf(mode), UpdatesOf(mode);
    rows := PromptRows(n, updates, capacity, 16 * n);
    var captures := PromptMeasurements(n, updates, capacity, 16 * n);
    forall i | 0 <= i < |rows| ensures AnswersCommand(n, updates, captures[i], rows[i], i) && Passed(captures[i]) {
      PromptAnswersCommand(n, updates, capacity, i);
    }
    CompletedCampaignReported(mode, captures, rows);
  }

  lemma PromptEntry(n: nat, updates: nat, capacity: nat, row: Row, i: nat, e: Entry)
    requires 1 <= n <= PAIRS && i < 16 * n && 1 <= updates <= RunDecoder.MAX_UPDATES && capacity >= 1
    requires row == PromptRow(n, updates, capacity, i) && CollectRow(row, i) == Success(e)
    ensures PromptRun(e.run, updates)
  {
    PromptDecodes(n, updates, capacity, i);
  }

  lemma PromptEntriesMeet(n: nat, updates: nat, capacity: nat, rows: seq<Row>, entries: seq<Entry>)
    requires 1 <= n <= PAIRS && 1 <= updates <= RunDecoder.MAX_UPDATES && capacity >= 1
    requires rows == PromptRows(n, updates, capacity, 16 * n)
    requires Sequence(Attempts(rows)) == Success(entries) && Judgeable(entries)
    ensures AllPairsMeet(entries)
  {
    SequenceSucceeds(Attempts(rows));
    forall i | 0 <= i < |entries| ensures PromptRun(entries[i].run, updates) {
      PromptEntry(n, updates, capacity, rows[i], i, entries[i]);
    }
    forall i, j | 0 <= i < |entries| && 0 <= j < |entries| && Opposed(entries[i], entries[j])
      ensures Budgets.MeetsBudgets(entries[i].run, entries[j].run)
    {
      PromptPairMeets(entries[i].run, entries[j].run, updates);
    }
  }

  lemma PromptCampaignPasses(mode: Mode, capacity: nat) returns (rows: seq<Row>)
    requires capacity >= 1
    ensures Report(mode, rows).Success?
    ensures mode == AcceptanceMode ==> Report(mode, rows).value.latencyGatePass
  {
    var n, updates := PairsOf(mode), UpdatesOf(mode);
    rows := SomeCampaignReported(mode, capacity);
    GateIff(mode, rows);
    PromptEntriesMeet(n, updates, capacity, rows, Sequence(Attempts(rows)).value);
  }

  /** And an acceptance campaign that passes the latency gate. */
  lemma GateReachable(capacity: nat) returns (rows: seq<Row>)
    requires capacity >= 1
    ensures Report(AcceptanceMode, rows).Success? && Report(AcceptanceMode, rows).value.latencyGatePass
  {
    rows := PromptCampaignPasses(AcceptanceMode, capacity);
  }
}
