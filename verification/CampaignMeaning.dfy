/** What a campaign report says, and of which rows there is one: stated on the rows
    and the captures they decode to, and proved of the grouping and judging loops. */
module CampaignMeaning {
  import opened Prelude
  import opened ReportValue
  import opened RunDecoder
  import opened Campaign
  import Budgets

  // ---- rows ----

  /** A row in its place in the execution order, with the capture it decodes to. */
  predicate Taken(row: Row, i: nat, e: Entry) {
    && row.ordinal == i + 1 && 1 <= row.pair <= 5
    && DecodeRun(row.capture) == Success(e.run)
    && e.key == GroupKey(e.run.kind, e.run.rateHz, row.load, row.pair) && e.index == i
    && e.checkpointSaves == row.checkpointSaves && e.checkpointMaxGapMs == row.checkpointMaxGapMs
  }

  ghost predicate AllTaken(rows: seq<Row>, entries: seq<Entry>) {
    |rows| == |entries| && forall i :: 0 <= i < |rows| ==> Taken(rows[i], i, entries[i])
  }

  lemma RowTakenIff(row: Row, i: nat, e: Entry)
    ensures CollectRow(row, i) == Success(e) <==> Taken(row, i, e)
  {
    if DecodeRun(row.capture).Success? {
      Budgets.DecodedIsWellTimed(row.capture);
      Budgets.RunMeaning.AcceptedCountersBalance(row.capture);
    }
  }

  /** The rows are all collected exactly when each is in its place and decodes. */
  lemma RowsTakenIff(rows: seq<Row>, entries: seq<Entry>)
    ensures Sequence(Attempts(rows)) == Success(entries) <==> AllTaken(rows, entries)
  {
    var attempts := Attempts(rows);
    SequenceSucceeds(attempts);
    if Sequence(attempts) == Success(entries) {
      forall i | 0 <= i < |rows| ensures Taken(rows[i], i, entries[i]) {
        RowTakenIff(rows[i], i, entries[i]);
      }
    }
    if AllTaken(rows, entries) {
      forall i | 0 <= i < |rows| ensures attempts[i] == Success(entries[i]) {
        RowTakenIff(rows[i], i, entries[i]);
      }
      AllSucceed(attempts);
      assert Sequence(attempts).value == entries;
    }
  }

  lemma TakenIsPlaced(rows: seq<Row>, entries: seq<Entry>)
    requires AllTaken(rows, entries)
    ensures Sound(Attempts(rows)) && Judgeable(entries) && Placed(entries)
  {
    RowsTakenIff(rows, entries);
    AttemptsAreSound(rows);
    GatheredIsJudgeable(Attempts(rows));
  }

  // ---- groups ----

  /** What two captures of one group must share and have. */
  predicate MeetsTerms(mode: Mode, a: Run, b: Run) {
    && a.requestedUpdates == b.requestedUpdates && a.samples != [] && b.samples != []
    && (mode == AcceptanceMode ==> a.admitted >= 10_000 && b.admitted >= 10_000)
  }

  predicate FitsAt(mode: Mode, entries: seq<Entry>, key: GroupKey, i: nat) {
    CoveredAt(entries, key, i) && MeetsTerms(mode, entries[i].run, entries[i + 1].run)
  }

  ghost predicate GroupFits(mode: Mode, entries: seq<Entry>, key: GroupKey) {
    exists i: nat :: FitsAt(mode, entries, key, i)
  }

  /** A pair is reported about the two captures of its own key, each under its wire. */
  predicate ReportedAt(entries: seq<Entry>, p: PairReport, i: nat) {
    && CoveredAt(entries, p.key, i)
    && p.ipc == (if p.key.pair % 2 == 1 then entries[i] else entries[i + 1])
    && p.files == (if p.key.pair % 2 == 1 then entries[i + 1] else entries[i])
    && p.ipc.run.wire == CurrentIpc && p.files.run.wire == NineP2000L
  }

  ghost predicate PairSays(entries: seq<Entry>, p: PairReport) {
    && Budgets.WellTimed(p.ipc.run) && Budgets.WellTimed(p.files.run)
    && Budgets.Compares(p.comparison, p.ipc.run, p.files.run)
    && exists i: nat :: ReportedAt(entries, p, i)
  }

  lemma CoverageAt(entries: seq<Entry>, key: GroupKey) returns (i: nat)
    requires Placed(entries) && AdjacentPair(key, Members(entries, key))
    ensures CoveredAt(entries, key, i) && Members(entries, key) == [entries[i], entries[i + 1]]
  {
    AdjacentIsCovered(entries, key);
    i :| CoveredAt(entries, key, i);
    TwoMembers(entries, key, i);
  }

  /** A favourable verdict reports its pair, and the pair fits. */
  lemma VerdictSays(mode: Mode, entries: seq<Entry>, key: GroupKey, p: PairReport)
    requires Judgeable(entries) && Placed(entries) && Judge(mode, key, Members(entries, key)) == Success(p)
    ensures p.key == key && PairSays(entries, p) && GroupFits(mode, entries, key)
  {
    var m := Members(entries, key);
    JudgedIsPair(mode, key, m);
    JudgedFrom(mode, key, m, p);
    var i := CoverageAt(entries, key);
    Budgets.CompareIff(p.ipc.run, p.files.run, p.comparison);
    JudgedParts(mode, key, m, p);
    assert ReportedAt(entries, p, i);
    assert FitsAt(mode, entries, key, i);
  }

  lemma JudgedParts(mode: Mode, key: GroupKey, m: seq<Entry>, p: PairReport)
    requires Judgeable(m) && Judge(mode, key, m) == Success(p)
    ensures p.key == key && |m| == 2
    ensures p.ipc == (if key.pair % 2 == 1 then m[0] else m[1])
    ensures p.files == (if key.pair % 2 == 1 then m[1] else m[0])
    ensures mode == AcceptanceMode ==> p.ipc.run.admitted >= 10_000 && p.files.run.admitted >= 10_000
  {
  }

  /** The captures were decoded to the kind and rate their key records. */
  predicate KeysTold(entries: seq<Entry>) {
    forall i :: 0 <= i < |entries| ==>
      entries[i].key.kind == entries[i].run.kind && entries[i].key.rateHz == entries[i].run.rateHz
  }

  lemma FittingIsJudged(mode: Mode, entries: seq<Entry>, key: GroupKey)
    requires Judgeable(entries) && Placed(entries) && KeysTold(entries) && GroupFits(mode, entries, key)
    ensures Judge(mode, key, Members(entries, key)).Success?
  {
    var i: nat :| FitsAt(mode, entries, key, i);
    TwoMembers(entries, key, i);
    PairIsJudged(mode, key, entries[i], entries[i + 1]);
  }

  lemma PairIsJudged(mode: Mode, key: GroupKey, a: Entry, b: Entry)
    requires Judgeable([a, b]) && a.key == key && b.key == key && b.index == a.index + 1
    requires KeysTold([a, b]) && InWireOrder(key.pair, a.run, b.run) && MeetsTerms(mode, a.run, b.run)
    ensures Judge(mode, key, [a, b]).Success?
  {
    assert [a, b][0] == a && [a, b][1] == b;
    var ipc, files := if key.pair % 2 == 1 then a else b, if key.pair % 2 == 1 then b else a;
    Budgets.ComparedIff(ipc.run, files.run);
  }

  // ---- verdicts ----

  /** The order of the keys: by kind, then rate, then load, then pair number. */
  predicate KeyBefore(a: GroupKey, b: GroupKey) {
    if a.kind != b.kind then a.kind == Move
    else if a.rateHz != b.rateHz then a.rateHz < b.rateHz
    else if a.load != b.load then a.load == Cpu
    else a.pair < b.pair
  }

  predicate KeysAscend(keys: seq<GroupKey>) {
    forall j, k :: 0 <= j < k < |keys| ==> KeyBefore(keys[j], keys[k])
  }

  lemma KeyParts(k: nat)
    requires k < GROUPS
    ensures k == k / 20 * 20 + k / 10 % 2 * 10 + k / 5 % 2 * 5 + k % 5
  {
    assert k / 20 == k / 5 / 4 && k / 10 == k / 5 / 2;
  }

  lemma LaterKey(j: nat, k: nat)
    requires j < k < GROUPS
    ensures KeyBefore(KeyAt(j), KeyAt(k))
  {
    KeyParts(j);
    KeyParts(k);
  }

  lemma AllKeysAscend()
    ensures KeysAscend(AllKeys())
  {
    forall j, k | 0 <= j < k < GROUPS ensures KeyBefore(AllKeys()[j], AllKeys()[k]) {
      LaterKey(j, k);
    }
  }

  predicate PairsAscend(pairs: seq<PairReport>) {
    forall j, k :: 0 <= j < k < |pairs| ==> KeyBefore(pairs[j].key, pairs[k].key)
  }

  /** Every pair is the verdict on its own key's members. */
  ghost predicate PairsJudged(mode: Mode, entries: seq<Entry>, keys: seq<GroupKey>, pairs: seq<PairReport>)
    requires Judgeable(entries)
  {
    forall n :: 0 <= n < |pairs| ==>
      pairs[n].key in keys && Judge(mode, pairs[n].key, Members(entries, pairs[n].key)) == Success(pairs[n])
  }

  /** And every key that has members has a pair. */
  ghost predicate PairsReach(entries: seq<Entry>, keys: seq<GroupKey>, pairs: seq<PairReport>) {
    forall key :: key in keys && Members(entries, key) != [] ==> HasPair(pairs, key)
  }

  ghost predicate HasPair(pairs: seq<PairReport>, key: GroupKey) {
    exists n :: 0 <= n < |pairs| && pairs[n].key == key
  }

  lemma FrontSucceeds<T, E>(front: seq<Result<T, E>>, next: Result<T, E>)
    requires Sequence(front + [next]).Success?
    ensures next.Success? && Sequence(front).Success?
    ensures Sequence(front + [next]).value == Sequence(front).value + [next.value]
  {
    assert (front + [next])[..|front|] == front;
  }

  /** The last key adds its verdict, if it has members. */
  lemma LastVerdict(mode: Mode, entries: seq<Entry>, keys: seq<GroupKey>, pairs: seq<PairReport>)
    returns (earlier: seq<PairReport>)
    requires Judgeable(entries) && keys != [] && Sequence(Verdicts(mode, entries, keys)) == Success(pairs)
    ensures Sequence(Verdicts(mode, entries, keys[..|keys| - 1])) == Success(earlier)
    ensures var members := Members(entries, keys[|keys| - 1]);
      && (members == [] ==> pairs == earlier)
      && (members != [] ==>
            pairs != [] && pairs == earlier + [pairs[|pairs| - 1]]
            && Judge(mode, keys[|keys| - 1], members) == Success(pairs[|pairs| - 1]))
  {
    var last := |keys| - 1;
    var front, members := Verdicts(mode, entries, keys[..last]), Members(entries, keys[last]);
    if members == [] {
      assert Verdicts(mode, entries, keys) == front;
      earlier := pairs;
    } else {
      FrontSucceeds(front, Judge(mode, keys[last], members));
      earlier := Sequence(front).value;
    }
  }

  lemma {:induction false} VerdictsCover(mode: Mode, entries: seq<Entry>, keys: seq<GroupKey>, pairs: seq<PairReport>)
    requires Judgeable(entries) && KeysAscend(keys)
    requires Sequence(Verdicts(mode, entries, keys)) == Success(pairs)
    ensures PairsAscend(pairs) && PairsJudged(mode, entries, keys, pairs) && PairsReach(entries, keys, pairs)
  {
    if keys == [] {
    } else {
      var earlier := LastVerdict(mode, entries, keys, pairs);
      VerdictsCover(mode, entries, keys[..|keys| - 1], earlier);
      if pairs == earlier {
        OneMoreEmpty(mode, entries, keys, pairs);
      } else {
        OneMoreCovers(mode, entries, keys, earlier, pairs[|pairs| - 1]);
      }
    }
  }

  lemma OneMoreCovers(mode: Mode, entries: seq<Entry>, keys: seq<GroupKey>, earlier: seq<PairReport>, p: PairReport)
    requires Judgeable(entries) && keys != [] && KeysAscend(keys) && PairsAscend(earlier)
    requires PairsJudged(mode, entries, keys[..|keys| - 1], earlier) && PairsReach(entries, keys[..|keys| - 1], earlier)
    requires Judge(mode, keys[|keys| - 1], Members(entries, keys[|keys| - 1])) == Success(p)
    ensures PairsAscend(earlier + [p]) && PairsJudged(mode, entries, keys, earlier + [p])
    ensures PairsReach(entries, keys, earlier + [p])
  {
    JudgedParts(mode, keys[|keys| - 1], Members(entries, keys[|keys| - 1]), p);
    OneMoreJudged(mode, entries, keys, earlier, p);
    OneMoreAscends(mode, entries, keys, earlier, p);
    OneMoreReached(entries, keys, earlier, p);
  }

  lemma LastKey(keys: seq<GroupKey>, key: GroupKey)
    requires keys != []
    ensures key in keys <==> key in keys[..|keys| - 1] || key == keys[|keys| - 1]
  {
    assert keys == keys[..|keys| - 1] + [keys[|keys| - 1]];
  }

  lemma OneMoreEmpty(mode: Mode, entries: seq<Entry>, keys: seq<GroupKey>, pairs: seq<PairReport>)
    requires Judgeable(entries) && keys != [] && Members(entries, keys[|keys| - 1]) == []
    requires PairsJudged(mode, entries, keys[..|keys| - 1], pairs) && PairsReach(entries, keys[..|keys| - 1], pairs)
    ensures PairsJudged(mode, entries, keys, pairs) && PairsReach(entries, keys, pairs)
  {
    forall key { LastKey(keys, key); }
  }

  lemma OneMoreJudged(mode: Mode, entries: seq<Entry>, keys: seq<GroupKey>, earlier: seq<PairReport>, p: PairReport)
    requires Judgeable(entries) && keys != [] && PairsJudged(mode, entries, keys[..|keys| - 1], earlier)
    requires p.key == keys[|keys| - 1] && Judge(mode, p.key, Members(entries, p.key)) == Success(p)
    ensures PairsJudged(mode, entries, keys, earlier + [p])
  {
    var pairs := earlier + [p];
    forall n | 0 <= n < |pairs|
      ensures pairs[n].key in keys && Judge(mode, pairs[n].key, Members(entries, pairs[n].key)) == Success(pairs[n])
    {
      LastKey(keys, pairs[n].key);
      if n < |earlier| { assert earlier[n] == pairs[n]; }
    }
  }

  lemma OneMoreAscends(mode: Mode, entries: seq<Entry>, keys: seq<GroupKey>, earlier: seq<PairReport>, p: PairReport)
    requires Judgeable(entries) && keys != [] && KeysAscend(keys) && p.key == keys[|keys| - 1]
    requires PairsAscend(earlier) && PairsJudged(mode, entries, keys[..|keys| - 1], earlier)
    ensures PairsAscend(earlier + [p])
  {
    var last := |keys| - 1;
    forall n | 0 <= n < |earlier| ensures KeyBefore(earlier[n].key, p.key) {
      assert earlier[n].key in keys[..last];
      var j :| 0 <= j < last && keys[..last][j] == earlier[n].key;
      assert KeyBefore(keys[j], keys[last]);
    }
  }

  lemma OneMoreReached(entries: seq<Entry>, keys: seq<GroupKey>, earlier: seq<PairReport>, p: PairReport)
    requires keys != [] && PairsReach(entries, keys[..|keys| - 1], earlier) && p.key == keys[|keys| - 1]
    ensures PairsReach(entries, keys, earlier + [p])
  {
    var pairs := earlier + [p];
    forall key | key in keys && Members(entries, key) != [] ensures HasPair(pairs, key) {
      LastKey(keys, key);
      if key == p.key {
        assert pairs[|earlier|].key == key;
      } else {
        var n :| 0 <= n < |earlier| && earlier[n].key == key;
        assert pairs[n].key == key;
      }
    }
  }

  // ---- the report ----

  /** What a report says of the captures it was made from. */
  ghost predicate ReportSays(mode: Mode, entries: seq<Entry>, report: CampaignReport) {
    && report.mode == mode && PairsAscend(report.pairs)
    && (forall n :: 0 <= n < |report.pairs| ==> PairSays(entries, report.pairs[n]))
    && (forall i :: 0 <= i < |entries| ==> HasPair(report.pairs, entries[i].key))
    && (report.budgetsPass <==> forall n :: 0 <= n < |report.pairs| ==> report.pairs[n].comparison.budgetsPass)
    && (report.latencyGatePass <==> mode == AcceptanceMode && report.budgetsPass)
  }

  /** Rows are reported on the captures they decode to, taken in their order: one pair
      for every condition and pair number that occurs, about its own two captures. */
  lemma ReportIsAbout(mode: Mode, rows: seq<Row>) returns (entries: seq<Entry>)
    requires Report(mode, rows).Success?
    ensures AllTaken(rows, entries) && ReportSays(mode, entries, Report(mode, rows).value)
  {
    ReportParts(mode, rows);
    entries := Sequence(Attempts(rows)).value;
    RowsTakenIff(rows, entries);
    var report := Report(mode, rows).value;
    AllKeysAscend();
    VerdictsCover(mode, entries, AllKeys(), report.pairs);
    forall n | 0 <= n < |report.pairs| ensures PairSays(entries, report.pairs[n]) {
      VerdictSays(mode, entries, report.pairs[n].key, report.pairs[n]);
    }
    forall i | 0 <= i < |entries| ensures HasPair(report.pairs, entries[i].key) {
      KeysEnumerateProduct(entries[i].key);
      MembersComplete(entries, entries[i].key, i);
    }
    ReportFlags(mode, rows);
  }

  lemma ReportFlags(mode: Mode, rows: seq<Row>)
    requires Report(mode, rows).Success?
    ensures var report := Report(mode, rows).value;
      && report.mode == mode
      && (report.budgetsPass <==> forall n :: 0 <= n < |report.pairs| ==> report.pairs[n].comparison.budgetsPass)
      && (report.latencyGatePass <==> mode == AcceptanceMode && report.budgetsPass)
  {
    var report := Report(mode, rows).value;
    assert report.budgetsPass <==> AllPass(report.pairs);
    assert AllPass(report.pairs) <==> forall n :: 0 <= n < |report.pairs| ==> report.pairs[n].comparison.budgetsPass;
  }

  /** Every condition and pair number occurs. */
  ghost predicate AllOccur(entries: seq<Entry>) {
    forall key :: InProduct(key) ==> exists i :: 0 <= i < |entries| && entries[i].key == key
  }

  /** Rows that can be reported: at most eighty, each in its place and decoded, in groups
      that fit; and for acceptance every group. */
  ghost predicate Reportable(mode: Mode, rows: seq<Row>, entries: seq<Entry>) {
    && 1 <= |rows| <= 80 && AllTaken(rows, entries)
    && (forall i :: 0 <= i < |entries| ==> GroupFits(mode, entries, entries[i].key))
    && (mode == AcceptanceMode ==> AllOccur(entries))
  }

  /** There is a report exactly for such rows. */
  lemma ReportIff(mode: Mode, rows: seq<Row>)
    ensures Report(mode, rows).Success? <==> exists entries :: Reportable(mode, rows, entries)
  {
    if Report(mode, rows).Success? {
      var entries := ReportedIsReportable(mode, rows);
    }
    forall entries | Reportable(mode, rows, entries) ensures Report(mode, rows).Success? {
      ReportableIsReported(mode, rows, entries);
    }
  }

  lemma ReportedIsReportable(mode: Mode, rows: seq<Row>) returns (entries: seq<Entry>)
    requires Report(mode, rows).Success?
    ensures Reportable(mode, rows, entries)
  {
    ReportParts(mode, rows);
    entries := Sequence(Attempts(rows)).value;
    RowsTakenIff(rows, entries);
    var pairs := Report(mode, rows).value.pairs;
    forall i | 0 <= i < |entries| ensures GroupFits(mode, entries, entries[i].key) {
      ReportedFits(mode, entries, pairs, i);
    }
    if mode == AcceptanceMode { AcceptedOccur(entries, pairs); }
  }

  lemma ReportedFits(mode: Mode, entries: seq<Entry>, pairs: seq<PairReport>, i: nat)
    requires Judgeable(entries) && Placed(entries) && i < |entries|
    requires Sequence(Verdicts(mode, entries, AllKeys())) == Success(pairs)
    ensures GroupFits(mode, entries, entries[i].key)
  {
    AllKeysAscend();
    VerdictsCover(mode, entries, AllKeys(), pairs);
    KeysEnumerateProduct(entries[i].key);
    MembersComplete(entries, entries[i].key, i);
    var n :| 0 <= n < |pairs| && pairs[n].key == entries[i].key;
    VerdictSays(mode, entries, entries[i].key, pairs[n]);
  }

  lemma AcceptedOccur(entries: seq<Entry>, pairs: seq<PairReport>)
    requires Judgeable(entries) && Placed(entries)
    requires Sequence(Verdicts(AcceptanceMode, entries, AllKeys())) == Success(pairs) && |pairs| == GROUPS
    ensures AllOccur(entries)
  {
    EntriesCoverProduct(entries, pairs);
    forall key | InProduct(key) ensures exists i :: 0 <= i < |entries| && entries[i].key == key {
      var i: nat :| CoveredAt(entries, key, i);
    }
  }

  lemma ReportableIsReported(mode: Mode, rows: seq<Row>, entries: seq<Entry>)
    requires Reportable(mode, rows, entries)
    ensures Report(mode, rows).Success?
  {
    TakenIsPlaced(rows, entries);
    RowsTakenIff(rows, entries);
    TakenKeysTold(rows, entries);
    forall key | key in AllKeys() && Members(entries, key) != []
      ensures Judge(mode, key, Members(entries, key)).Success?
    {
      MembersSome(entries, key);
      FittingIsJudged(mode, entries, key);
    }
    VerdictsSucceed(mode, entries, AllKeys());
    if mode == AcceptanceMode { OccurringHaveMembers(entries); }
    Concluded(mode, rows, entries);
  }

  lemma OccurringHaveMembers(entries: seq<Entry>)
    requires AllOccur(entries)
    ensures forall key :: key in AllKeys() ==> Members(entries, key) != []
  {
    forall key | key in AllKeys() ensures Members(entries, key) != [] {
      var k :| 0 <= k < GROUPS && AllKeys()[k] == key;
      assert InProduct(KeyAt(k));
      var i :| 0 <= i < |entries| && entries[i].key == key;
      MembersComplete(entries, key, i);
    }
  }

  lemma Concluded(mode: Mode, rows: seq<Row>, entries: seq<Entry>)
    requires 1 <= |rows| <= 80 && Sequence(Attempts(rows)) == Success(entries) && Judgeable(entries)
    requires var pairs := Sequence(Verdicts(mode, entries, AllKeys()));
      pairs.Success? && (mode == AcceptanceMode ==> |pairs.value| == GROUPS)
    ensures Report(mode, rows).Success?
  {
    AttemptsAreSound(rows);
  }

  // ---- refusals ----

  /** What is wrong with a row. */
  predicate RowBlamed(row: Row, i: nat, error: CampaignError) {
    match error
    case OrderNotContiguous => row.ordinal != i + 1
    case PairOutOfRange => !(1 <= row.pair <= 5)
    case CaptureRefused(refusal) => DecodeRun(row.capture) == Failure(refusal)
    case _ => false
  }

  /** The first row that something is wrong with. */
  ghost predicate FirstBlamed(rows: seq<Row>, i: int, error: CampaignError) {
    && 0 <= i < |rows| && RowBlamed(rows[i], i, error)
    && forall j :: 0 <= j < i ==> CanBeTaken(rows[j], j)
  }

  ghost predicate CanBeTaken(row: Row, i: nat) {
    exists e :: Taken(row, i, e)
  }

  /** What is wrong with a group that occurs. */
  ghost predicate GroupBlamed(mode: Mode, entries: seq<Entry>, key: GroupKey, error: CampaignError) {
    && (exists i :: 0 <= i < |entries| && entries[i].key == key)
    && match error
       case NotAdjacentOrAlternating => !Covered(entries, key)
       case TooFewAdmitted =>
         mode == AcceptanceMode
         && exists i :: 0 <= i < |entries| && entries[i].key == key && entries[i].run.admitted < 10_000
       case Uncomparable(WorkloadsDiffer) =>
         exists i: nat :: CoveredAt(entries, key, i)
           && entries[i].run.requestedUpdates != entries[i + 1].run.requestedUpdates
       case Uncomparable(NothingSettled) =>
         exists i :: 0 <= i < |entries| && entries[i].key == key && entries[i].run.samples == []
       case _ => false
  }

  ghost predicate CampaignBlamed(mode: Mode, rows: seq<Row>, error: CampaignError) {
    || (error == CaptureCountOutOfRange && !(1 <= |rows| <= 80))
    || (exists i :: FirstBlamed(rows, i, error))
    || (exists entries :: AllTaken(rows, entries) && EntriesBlamed(mode, entries, error))
  }

  ghost predicate EntriesBlamed(mode: Mode, entries: seq<Entry>, error: CampaignError) {
    || (error == ConditionsMissing && mode == AcceptanceMode && !AllOccur(entries))
    || (exists key :: GroupBlamed(mode, entries, key, error))
  }

  lemma RowFails(row: Row, i: nat)
    requires CollectRow(row, i).Failure?
    ensures RowBlamed(row, i, CollectRow(row, i).error)
  {
  }

  lemma JudgeFails(mode: Mode, key: GroupKey, a: Entry, b: Entry)
    requires Judgeable([a, b]) && AdjacentPair(key, [a, b]) && KeysTold([a, b]) && a.key == key && b.key == key
    requires Judge(mode, key, [a, b]).Failure?
    ensures var error := Judge(mode, key, [a, b]).error;
      || (error == TooFewAdmitted && mode == AcceptanceMode && (a.run.admitted < 10_000 || b.run.admitted < 10_000))
      || (error == Uncomparable(Budgets.WorkloadsDiffer) && a.run.requestedUpdates != b.run.requestedUpdates)
      || (error == Uncomparable(Budgets.NothingSettled) && (a.run.samples == [] || b.run.samples == []))
  {
    assert [a, b][0] == a && [a, b][1] == b;
    if key.pair % 2 == 1 {
      PairFails(mode, key, [a, b], a, b);
    } else {
      PairFails(mode, key, [a, b], b, a);
    }
  }

  lemma PairFails(mode: Mode, key: GroupKey, m: seq<Entry>, ipc: Entry, files: Entry)
    requires Judgeable(m) && AdjacentPair(key, m) && Judge(mode, key, m).Failure?
    requires ipc == (if key.pair % 2 == 1 then m[0] else m[1]) && files == (if key.pair % 2 == 1 then m[1] else m[0])
    requires ipc.run.kind == files.run.kind && ipc.run.rateHz == files.run.rateHz
    ensures var error := Judge(mode, key, m).error;
      || (error == TooFewAdmitted && mode == AcceptanceMode
          && (ipc.run.admitted < 10_000 || files.run.admitted < 10_000))
      || (error == Uncomparable(Budgets.WorkloadsDiffer) && ipc.run.requestedUpdates != files.run.requestedUpdates)
      || (error == Uncomparable(Budgets.NothingSettled) && (ipc.run.samples == [] || files.run.samples == []))
  {
    PairJudged(mode, key, m, ipc, files);
    var compared := Budgets.Compare(ipc.run, files.run);
    if compared.Failure? { Budgets.CompareFails(ipc.run, files.run); }
  }

  lemma PairJudged(mode: Mode, key: GroupKey, m: seq<Entry>, ipc: Entry, files: Entry)
    requires Judgeable(m) && AdjacentPair(key, m)
    requires ipc == (if key.pair % 2 == 1 then m[0] else m[1]) && files == (if key.pair % 2 == 1 then m[1] else m[0])
    ensures ipc.run.wire == CurrentIpc && files.run.wire == NineP2000L
    ensures Judge(mode, key, m) ==
      if mode == AcceptanceMode && (ipc.run.admitted < 10_000 || files.run.admitted < 10_000)
      then Failure(TooFewAdmitted)
      else match Budgets.Compare(ipc.run, files.run)
           case Failure(error) => Failure(Uncomparable(error))
           case Success(comparison) => Success(PairReport(key, comparison, ipc, files))
  {
  }

  lemma GroupFails(mode: Mode, entries: seq<Entry>, key: GroupKey)
    requires Judgeable(entries) && Placed(entries) && KeysTold(entries) && Members(entries, key) != []
    requires Judge(mode, key, Members(entries, key)).Failure?
    ensures GroupBlamed(mode, entries, key, Judge(mode, key, Members(entries, key)).error)
  {
    MembersSome(entries, key);
    var m := Members(entries, key);
    if AdjacentPair(key, m) {
      var i := CoverageAt(entries, key);
      JudgeFails(mode, key, entries[i], entries[i + 1]);
    } else {
      NotCovered(entries, key);
      NotAdjacent(mode, key, m);
    }
  }

  lemma NotCovered(entries: seq<Entry>, key: GroupKey)
    requires Placed(entries) && !AdjacentPair(key, Members(entries, key))
    ensures !Covered(entries, key)
  {
    if Covered(entries, key) {
      var i: nat :| CoveredAt(entries, key, i);
      TwoMembers(entries, key, i);
    }
  }

  lemma NotAdjacent(mode: Mode, key: GroupKey, m: seq<Entry>)
    requires Judgeable(m) && !AdjacentPair(key, m)
    ensures Judge(mode, key, m) == Failure(NotAdjacentOrAlternating)
  {
  }

  lemma TakenKeysTold(rows: seq<Row>, entries: seq<Entry>)
    requires AllTaken(rows, entries)
    ensures KeysTold(entries)
  {
    forall i | 0 <= i < |entries|
      ensures entries[i].key.kind == entries[i].run.kind && entries[i].key.rateHz == entries[i].run.rateHz
    {
      assert Taken(rows[i], i, entries[i]);
    }
  }

  lemma RowTakes(row: Row, i: nat)
    requires CollectRow(row, i).Success?
    ensures CanBeTaken(row, i)
  {
    RowTakenIff(row, i, CollectRow(row, i).value);
  }

  lemma {:induction false} RowsFail(rows: seq<Row>)
    requires Sequence(Attempts(rows)).Failure?
    ensures exists i :: FirstBlamed(rows, i, Sequence(Attempts(rows)).error)
  {
    var error := Sequence(Attempts(rows)).error;
    var i := FirstFailure(Attempts(rows));
    RowFails(rows[i], i);
    forall j | 0 <= j < i ensures CanBeTaken(rows[j], j) {
      RowTakes(rows[j], j);
    }
    assert FirstBlamed(rows, i, error);
  }

  lemma VerdictsFail(mode: Mode, entries: seq<Entry>)
    requires Judgeable(entries) && Placed(entries) && KeysTold(entries)
    requires Sequence(Verdicts(mode, entries, AllKeys())).Failure?
    ensures EntriesBlamed(mode, entries, Sequence(Verdicts(mode, entries, AllKeys())).error)
  {
    var verdicts := Verdicts(mode, entries, AllKeys());
    var i := FirstFailure(verdicts);
    var key := VerdictFrom(mode, entries, AllKeys(), verdicts[i]);
    GroupFails(mode, entries, key);
  }

  lemma {:induction false} ConditionsFail(entries: seq<Entry>)
    requires Judgeable(entries) && Sequence(Verdicts(AcceptanceMode, entries, AllKeys())).Success?
    requires |Sequence(Verdicts(AcceptanceMode, entries, AllKeys())).value| != GROUPS
    ensures !AllOccur(entries)
  {
    var verdicts := Verdicts(AcceptanceMode, entries, AllKeys());
    SequenceSucceeds(verdicts);
    if AllOccur(entries) {
      OccurringHaveMembers(entries);
      forall key | key in AllKeys() ensures Judge(AcceptanceMode, key, Members(entries, key)).Success? {
        VerdictOf(AcceptanceMode, entries, AllKeys(), key);
      }
      VerdictsSucceed(AcceptanceMode, entries, AllKeys());
    }
  }

  /** A refused campaign has the defect its refusal names. */
  lemma RefusalNamesDefect(mode: Mode, rows: seq<Row>, error: CampaignError)
    requires Report(mode, rows) == Failure(error)
    ensures CampaignBlamed(mode, rows, error)
  {
    if 1 <= |rows| <= 80 {
      AttemptsAreSound(rows);
      if Sequence(Attempts(rows)).Failure? {
        RowsFail(rows);
      } else {
        var entries := Sequence(Attempts(rows)).value;
        RowsTakenIff(rows, entries);
        TakenIsPlaced(rows, entries);
        TakenKeysTold(rows, entries);
        EntriesFail(mode, rows, entries, error);
      }
    }
  }

  lemma {:induction false} EntriesFail(mode: Mode, rows: seq<Row>, entries: seq<Entry>, error: CampaignError)
    requires 1 <= |rows| <= 80 && Report(mode, rows) == Failure(error)
    requires Sequence(Attempts(rows)) == Success(entries)
    requires Judgeable(entries) && Placed(entries) && KeysTold(entries)
    ensures EntriesBlamed(mode, entries, error)
  {
    AttemptsAreSound(rows);
    if Sequence(Verdicts(mode, entries, AllKeys())).Failure? {
      VerdictsFail(mode, entries);
    } else {
      ConditionsFail(entries);
    }
  }
}
