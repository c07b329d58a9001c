/** The campaign report: captures are grouped by condition and pair, every group
    must hold one adjacent pair in the alternating order, and an acceptance
    campaign must cover every condition five times. */
module Campaign {
  import opened Prelude
  import opened ReportValue
  import opened RunDecoder
  import Budgets
  import RunMeaning

  const MAX_CAPTURES: nat := 80
  const PAIRS: nat := 5
  const GROUPS: nat := 40
  const ACCEPTANCE_ADMITTED: nat := 10_000

  datatype Mode = Smoke | AcceptanceMode

  datatype Load = Cpu | Idle

  /** One manifest entry; the checkpoint columns are only carried along. */
  datatype Row = Row(
    ordinal: u64,
    pair: u64,
    load: Load,
    capture: Value,
    checkpointSaves: Option<u64>,
    checkpointMaxGapMs: Option<u64>)

  datatype GroupKey = GroupKey(kind: Word, rateHz: nat, load: Load, pair: nat)

  datatype Entry = Entry(
    key: GroupKey,
    index: nat,
    run: Run,
    checkpointSaves: Option<u64>,
    checkpointMaxGapMs: Option<u64>)

  datatype CampaignError =
    | CaptureCountOutOfRange
    | OrderNotContiguous
    | PairOutOfRange
    | CaptureRefused(refusal: Refusal)
    | NotAdjacentOrAlternating
    | TooFewAdmitted
    | Uncomparable(error: Budgets.CompareError)
    | ConditionsMissing

  datatype PairReport = PairReport(key: GroupKey, comparison: Budgets.Comparison, ipc: Entry, files: Entry)

  datatype CampaignReport = CampaignReport(mode: Mode, pairs: seq<PairReport>, budgetsPass: bool, latencyGatePass: bool)

  /** The product of conditions and pair numbers, in the order of the group map. */
  function KeyAt(k: nat): GroupKey {
    GroupKey(if k / 20 == 0 then Move else Resize,
             if k / 10 % 2 == 0 then 60 else 120,
             if k / 5 % 2 == 0 then Cpu else Idle,
             k % 5 + 1)
  }

  /** The keys a group map can hold, in its order. */
  function AllKeys(): (keys: seq<GroupKey>)
    ensures |keys| == GROUPS && forall k :: 0 <= k < GROUPS ==> keys[k] == KeyAt(k)
  {
    seq(GROUPS, (k: nat) => KeyAt(k))
  }

  predicate InProduct(key: GroupKey) {
    && key.kind in {Move, Resize} && (key.rateHz == 60 || key.rateHz == 120) && 1 <= key.pair <= PAIRS
  }

  function CollectRow(row: Row, index: nat): (r: Result<Entry, CampaignError>)
    ensures r.Success? ==> Budgets.WellTimed(r.value.run) && InProduct(r.value.key) && r.value.index == index
  {
    if row.ordinal != index + 1 then Failure(OrderNotContiguous)
    else if row.pair < 1 || row.pair > PAIRS then Failure(PairOutOfRange)
    else
      match DecodeRun(row.capture)
      case Failure(refusal) => Failure(CaptureRefused(refusal))
      case Success(run) =>
        Budgets.DecodedIsWellTimed(row.capture);
        RunMeaning.AcceptedCountersBalance(row.capture);
        Success(Entry(GroupKey(run.kind, run.rateHz, row.load, row.pair), index, run,
                      row.checkpointSaves, row.checkpointMaxGapMs))
  }

  predicate Judgeable(entries: seq<Entry>) {
    forall i :: 0 <= i < |entries| ==> Budgets.WellTimed(entries[i].run) && InProduct(entries[i].key)
  }

  type Attempt = Result<Entry, CampaignError>

  /** Each row, checked and decoded in its place. */
  function Attempts(rows: seq<Row>): (r: seq<Attempt>)
    ensures |r| == |rows|
    ensures forall i :: 0 <= i < |rows| ==> r[i] == CollectRow(rows[i], i)
  {
    if rows == [] then [] else
    var n := |rows| - 1;
    Attempts(rows[..n]) + [CollectRow(rows[n], n)]
  }

  predicate Sound(attempts: seq<Attempt>) {
    forall i :: 0 <= i < |attempts| && attempts[i].Success? ==>
      var e := attempts[i].value;
      Budgets.WellTimed(e.run) && InProduct(e.key) && e.index == i
  }

  lemma AttemptsAreSound(rows: seq<Row>)
    ensures Sound(Attempts(rows))
  {
  }

  lemma GatheredIsJudgeable(attempts: seq<Attempt>)
    requires Sound(attempts)
    ensures Sequence(attempts).Success? ==>
      && Judgeable(Sequence(attempts).value) && Placed(Sequence(attempts).value)
      && |Sequence(attempts).value| == |attempts|
  {
    SequenceSucceeds(attempts);
  }

  /** Entries know their own place. */
  predicate Placed(entries: seq<Entry>) {
    forall i :: 0 <= i < |entries| ==> entries[i].index == i
  }

  /** The members of one group, in execution order. */
  function Members(entries: seq<Entry>, key: GroupKey): (r: seq<Entry>)
    ensures Judgeable(entries) ==> Judgeable(r)
    ensures forall i :: 0 <= i < |r| ==> r[i] in entries && r[i].key == key
  {
    if entries == [] then []
    else
      var n := |entries| - 1;
      Members(entries[..n], key) + (if entries[n].key == key then [entries[n]] else [])
  }

  /** Which wire runs first alternates with the pair number. */
  predicate InWireOrder(pair: nat, first: Run, second: Run) {
    if pair % 2 == 1
    then first.wire == CurrentIpc && second.wire == NineP2000L
    else first.wire == NineP2000L && second.wire == CurrentIpc
  }

  predicate AdjacentPair(key: GroupKey, members: seq<Entry>) {
    && |members| == 2
    && InWireOrder(key.pair, members[0].run, members[1].run)
    && members[1].index == members[0].index + 1
  }

  function Judge(mode: Mode, key: GroupKey, members: seq<Entry>): Result<PairReport, CampaignError>
    requires Judgeable(members)
  {
    if !AdjacentPair(key, members) then Failure(NotAdjacentOrAlternating) else
    var ipc := if key.pair % 2 == 1 then members[0] else members[1];
    var files := if key.pair % 2 == 1 then members[1] else members[0];
    if mode == AcceptanceMode && (ipc.run.admitted < ACCEPTANCE_ADMITTED || files.run.admitted < ACCEPTANCE_ADMITTED)
    then Failure(TooFewAdmitted) else
    match Budgets.Compare(ipc.run, files.run)
    case Failure(error) => Failure(Uncomparable(error))
    case Success(comparison) => Success(PairReport(key, comparison, ipc, files))
  }

  type Verdict = Result<PairReport, CampaignError>

  /** The groups that exist among some keys, judged in order. */
  function Verdicts(mode: Mode, entries: seq<Entry>, keys: seq<GroupKey>): seq<Verdict>
    requires Judgeable(entries)
  {
    if keys == [] then []
    else
      var n := |keys| - 1;
      var members := Members(entries, keys[n]);
      Verdicts(mode, entries, keys[..n]) + (if members == [] then [] else [Judge(mode, keys[n], members)])
  }

  function AllPass(pairs: seq<PairReport>): bool {
    forall p | p in pairs :: p.comparison.budgetsPass
  }

  function Conclude(mode: Mode, attempts: seq<Attempt>): Result<CampaignReport, CampaignError>
    requires Sound(attempts)
  {
    GatheredIsJudgeable(attempts);
    var entries :- Sequence(attempts);
    var pairs :- Sequence(Verdicts(mode, entries, AllKeys()));
    if mode == AcceptanceMode && |pairs| != GROUPS then Failure(ConditionsMissing) else
    Success(CampaignReport(mode, pairs, AllPass(pairs), mode == AcceptanceMode && AllPass(pairs)))
  }

  function Report(mode: Mode, rows: seq<Row>): Result<CampaignReport, CampaignError> {
    if |rows| == 0 || |rows| > MAX_CAPTURES then Failure(CaptureCountOutOfRange) else
    AttemptsAreSound(rows);
    Conclude(mode, Attempts(rows))
  }

  // ---- the report as it runs ----

  /** A group map holds, under every key present, exactly that key's members. */
  ghost predicate Grouped(groups: map<GroupKey, seq<Entry>>, entries: seq<Entry>) {
    && (forall key :: key in groups ==> groups[key] == Members(entries, key) && groups[key] != [])
    && (forall key :: key !in groups ==> Members(entries, key) == [])
  }

  /** Every decoded row joins its group; the first refused row ends the loop. */
  method Group(attempts: seq<Attempt>) returns (result: Result<map<GroupKey, seq<Entry>>, CampaignError>)
    ensures result.Failure? ==> Sequence(attempts) == Failure(result.error)
    ensures result.Success? ==> Sequence(attempts).Success? && Grouped(result.value, Sequence(attempts).value)
  {
    var groups: map<GroupKey, seq<Entry>> := map[];
    ghost var entries: seq<Entry> := [];
    for index := 0 to |attempts|
      invariant Sequence(attempts[..index]) == Success(entries) && Grouped(groups, entries)
    {
      assert attempts[..index + 1] == attempts[..index] + [attempts[index]];
      SequenceExtends(attempts[..index], attempts[index]);
      if attempts[index].Failure? {
        SequenceFails(attempts, index + 1);
        return Failure(attempts[index].error);
      }
      groups := AddToGroup(groups, entries, attempts[index].value);
      entries := entries + [attempts[index].value];
    }
    assert attempts[..|attempts|] == attempts;
    result := Success(groups);
  }

  method AddToGroup(groups: map<GroupKey, seq<Entry>>, ghost entries: seq<Entry>, entry: Entry)
      returns (next: map<GroupKey, seq<Entry>>)
    requires Grouped(groups, entries)
    ensures Grouped(next, entries + [entry])
  {
    forall key ensures Members(entries + [entry], key) ==
                       Members(entries, key) + (if entry.key == key then [entry] else [])
    {
      MembersGrow(entries, entry, key);
    }
    next := groups[entry.key := (if entry.key in groups then groups[entry.key] else []) + [entry]];
  }

  lemma MembersGrow(entries: seq<Entry>, entry: Entry, key: GroupKey)
    ensures Members(entries + [entry], key) == Members(entries, key) + (if entry.key == key then [entry] else [])
  {
    assert (entries + [entry])[..|entries|] == entries;
  }

  method JudgeGroups(mode: Mode, groups: map<GroupKey, seq<Entry>>, keys: seq<GroupKey>, ghost entries: seq<Entry>)
      returns (verdicts: seq<Verdict>)
    requires Judgeable(entries) && Grouped(groups, entries)
    ensures verdicts == Verdicts(mode, entries, keys)
  {
    verdicts := [];
    for k := 0 to |keys|
      invariant verdicts == Verdicts(mode, entries, keys[..k])
    {
      VerdictsStep(mode, entries, keys, k);
      if keys[k] in groups {
        verdicts := verdicts + [Judge(mode, keys[k], groups[keys[k]])];
      }
    }
    assert keys[..|keys|] == keys;
  }

  lemma VerdictsStep(mode: Mode, entries: seq<Entry>, keys: seq<GroupKey>, k: nat)
    requires Judgeable(entries) && k < |keys|
    ensures Verdicts(mode, entries, keys[..k + 1]) == Verdicts(mode, entries, keys[..k])
      + (if Members(entries, keys[k]) == [] then [] else [Judge(mode, keys[k], Members(entries, keys[k]))])
  {
    assert keys[..k + 1][..k] == keys[..k];
  }

  method CheckPass(pairs: seq<PairReport>) returns (pass: bool)
    ensures pass == AllPass(pairs)
  {
    pass := true;
    for i := 0 to |pairs|
      invariant pass == AllPass(pairs[..i])
    {
      assert pairs[..i + 1] == pairs[..i] + [pairs[i]];
      pass := pass && pairs[i].comparison.budgetsPass;
    }
    assert pairs[..|pairs|] == pairs;
  }

  method ConcludeReport(mode: Mode, attempts: seq<Attempt>) returns (result: Result<CampaignReport, CampaignError>)
    requires Sound(attempts)
    ensures result == Conclude(mode, attempts)
  {
    GatheredIsJudgeable(attempts);
    var grouped := Group(attempts);
    if grouped.Failure? { return Failure(grouped.error); }
    var verdicts := JudgeGroups(mode, grouped.value, AllKeys(), Sequence(attempts).value);
    var judged := Sequence(verdicts);
    if judged.Failure? { return Failure(judged.error); }
    var pairs := judged.value;
    if mode == AcceptanceMode && |pairs| != GROUPS { return Failure(ConditionsMissing); }
    var pass := CheckPass(pairs);
    result := Success(CampaignReport(mode, pairs, pass, mode == AcceptanceMode && pass));
  }

  method MakeReport(mode: Mode, rows: seq<Row>) returns (result: Result<CampaignReport, CampaignError>)
    ensures result == Report(mode, rows)
  {
    if |rows| == 0 || |rows| > MAX_CAPTURES { return Failure(CaptureCountOutOfRange); }
    AttemptsAreSound(rows);
    result := ConcludeReport(mode, Attempts(rows));
  }

  // ---- groups and verdicts ----

  lemma {:induction false} NoMembers(entries: seq<Entry>, key: GroupKey)
    requires forall i :: 0 <= i < |entries| ==> entries[i].key != key
    ensures Members(entries, key) == []
  {
    if entries == [] {
    } else {
      NoMembers(entries[..|entries| - 1], key);
    }
  }

  lemma {:induction false} TwoMembers(entries: seq<Entry>, key: GroupKey, a: nat)
    requires a + 1 < |entries|
    requires forall i :: 0 <= i < |entries| ==> (entries[i].key == key <==> i == a || i == a + 1)
    ensures Members(entries, key) == [entries[a], entries[a + 1]]
  {
    var n := |entries| - 1;
    if a + 1 < n {
      TwoMembers(entries[..n], key, a);
    } else {
      var front := entries[..n];
      NoMembers(front[..a], key);
      assert Members(front, key) == [entries[a]];
    }
  }

  lemma MembersSome(entries: seq<Entry>, key: GroupKey)
    requires Members(entries, key) != []
    ensures exists i :: 0 <= i < |entries| && entries[i].key == key
  {
    var e := Members(entries, key)[0];
    assert e in entries && e.key == key;
  }

  lemma {:induction false} VerdictsSucceed(mode: Mode, entries: seq<Entry>, keys: seq<GroupKey>)
    requires Judgeable(entries)
    requires forall key :: key in keys && Members(entries, key) != [] ==>
      Judge(mode, key, Members(entries, key)).Success?
    ensures Sequence(Verdicts(mode, entries, keys)).Success?
    ensures (forall key :: key in keys ==> Members(entries, key) != []) ==>
      |Sequence(Verdicts(mode, entries, keys)).value| == |keys|
  {
    if keys == [] {
    } else {
      var last := |keys| - 1;
      assert keys == keys[..last] + [keys[last]];
      VerdictsSucceed(mode, entries, keys[..last]);
      VerdictsStep(mode, entries, keys, last);
      assert keys[..last + 1] == keys;
      if Members(entries, keys[last]) != [] {
        SequenceExtends(Verdicts(mode, entries, keys[..last]), Judge(mode, keys[last], Members(entries, keys[last])));
      } else {
        assert Verdicts(mode, entries, keys) == Verdicts(mode, entries, keys[..last]);
      }
    }
  }

  // ---- coverage ----

  lemma KeysEnumerateProduct(key: GroupKey)
    requires InProduct(key)
    ensures key in AllKeys()
  {
    assert AllKeys()[KeyIndex(key)] == key;
  }

  function KeyIndex(key: GroupKey): int {
    (if key.kind == Move then 0 else 20) + (if key.rateHz == 60 then 0 else 10) + (if key.load == Cpu then 0 else 5)
    + key.pair - 1
  }

  lemma KeyIndexInverts(k: nat)
    requires k < GROUPS
    ensures KeyIndex(KeyAt(k)) == k
  {
    var condition := k / 5;
    assert k / 20 == condition / 4 && k / 10 == condition / 2;
    assert condition == condition / 4 * 4 + condition / 2 % 2 * 2 + condition % 2;
  }

  lemma KeysAreDistinct()
    ensures NoDup(AllKeys())
  {
    forall j, k | 0 <= j < k < GROUPS ensures AllKeys()[j] != AllKeys()[k] {
      KeyIndexInverts(j);
      KeyIndexInverts(k);
    }
  }

  /** Members of some groups together. */
  function Total(entries: seq<Entry>, keys: seq<GroupKey>): nat {
    if keys == [] then 0
    else Total(entries, keys[..|keys| - 1]) + |Members(entries, keys[|keys| - 1])|
  }

  lemma {:induction false} TotalEmpty(keys: seq<GroupKey>)
    ensures Total([], keys) == 0
  {
    if keys == [] {
    } else {
      TotalEmpty(keys[..|keys| - 1]);
    }
  }

  lemma {:induction false} TotalGrows(entries: seq<Entry>, entry: Entry, keys: seq<GroupKey>)
    requires NoDup(keys)
    ensures Total(entries + [entry], keys) == Total(entries, keys) + (if entry.key in keys then 1 else 0)
  {
    if keys == [] {
    } else {
      var n := |keys| - 1;
      TotalGrows(entries, entry, keys[..n]);
      MembersGrow(entries, entry, keys[n]);
      LastApart(keys, entry.key);
    }
  }

  lemma LastApart(keys: seq<GroupKey>, key: GroupKey)
    requires NoDup(keys) && keys != []
    ensures var n := |keys| - 1;
      && (key in keys <==> key in keys[..n] || key == keys[n])
      && !(key in keys[..n] && key == keys[n])
  {
    var n := |keys| - 1;
    assert keys == keys[..n] + [keys[n]];
  }

  /** The groups partition the entries. */
  lemma GroupsPartition(entries: seq<Entry>)
    requires Judgeable(entries)
    ensures Total(entries, AllKeys()) == |entries|
  {
    forall i | 0 <= i < |entries| ensures entries[i].key in AllKeys() {
      KeysEnumerateProduct(entries[i].key);
    }
    KeysAreDistinct();
    KeysPartition(entries, AllKeys());
  }

  lemma {:induction false} KeysPartition(entries: seq<Entry>, keys: seq<GroupKey>)
    requires NoDup(keys) && forall i :: 0 <= i < |entries| ==> entries[i].key in keys
    ensures Total(entries, keys) == |entries|
  {
    if entries == [] {
      TotalEmpty(keys);
    } else {
      var n := |entries| - 1;
      KeysPartition(entries[..n], keys);
      TotalGrows(entries[..n], entries[n], keys);
      assert entries == entries[..n] + [entries[n]];
    }
  }

  lemma JudgedIsPair(mode: Mode, key: GroupKey, members: seq<Entry>)
    requires Judgeable(members) && Judge(mode, key, members).Success?
    ensures AdjacentPair(key, members)
  {
  }

  /** When every verdict is favourable the groups are pairs, and as many as the
      verdicts. */
  lemma {:induction false} JudgedGroups(mode: Mode, entries: seq<Entry>, keys: seq<GroupKey>)
    requires Judgeable(entries) && forall v :: v in Verdicts(mode, entries, keys) ==> v.Success?
    ensures |Verdicts(mode, entries, keys)| <= |keys|
    ensures Total(entries, keys) == 2 * |Verdicts(mode, entries, keys)|
    ensures |Verdicts(mode, entries, keys)| == |keys| ==> forall key :: key in keys ==> Members(entries, key) != []
  {
    if keys == [] {
    } else {
      var n := |keys| - 1;
      var members := Members(entries, keys[n]);
      var front := Verdicts(mode, entries, keys[..n]);
      assert keys == keys[..n] + [keys[n]];
      assert forall v :: v in front ==> v in Verdicts(mode, entries, keys);
      JudgedGroups(mode, entries, keys[..n]);
      if members != [] {
        assert Judge(mode, keys[n], members) in Verdicts(mode, entries, keys);
        JudgedIsPair(mode, keys[n], members);
      }
    }
  }

  lemma {:induction false} VerdictOf(mode: Mode, entries: seq<Entry>, keys: seq<GroupKey>, key: GroupKey)
    requires Judgeable(entries) && key in keys && Members(entries, key) != []
    ensures Judge(mode, key, Members(entries, key)) in Verdicts(mode, entries, keys)
  {
    var n := |keys| - 1;
    if keys[n] != key {
      assert key in keys[..n];
      VerdictOf(mode, entries, keys[..n], key);
    }
  }

  /** Entries i and i + 1, and no others, belong to one condition and pair
      number, in the wire order its parity asks for. */
  predicate CoveredAt(entries: seq<Entry>, key: GroupKey, i: nat) {
    && i + 1 < |entries|
    && entries[i].key == key && entries[i + 1].key == key
    && InWireOrder(key.pair, entries[i].run, entries[i + 1].run)
    && forall j :: 0 <= j < |entries| && entries[j].key == key ==> j == i || j == i + 1
  }

  ghost predicate Covered(entries: seq<Entry>, key: GroupKey) {
    exists i :: CoveredAt(entries, key, i)
  }

  lemma {:induction false} MembersComplete(entries: seq<Entry>, key: GroupKey, i: nat)
    requires i < |entries| && entries[i].key == key
    ensures entries[i] in Members(entries, key)
  {
    var n := |entries| - 1;
    if i < n {
      MembersComplete(entries[..n], key, i);
    }
  }

  lemma AdjacentIsCovered(entries: seq<Entry>, key: GroupKey)
    requires Placed(entries) && AdjacentPair(key, Members(entries, key))
    ensures Covered(entries, key)
  {
    var members := Members(entries, key);
    assert members[0] in entries && members[1] in entries;
    var i := members[0].index;
    assert entries[i] == members[0] && entries[i + 1] == members[1];
    forall j | 0 <= j < |entries| && entries[j].key == key ensures j == i || j == i + 1 {
      MembersComplete(entries, key, j);
      assert entries[j] == members[0] || entries[j] == members[1];
    }
    assert CoveredAt(entries, key, i);
  }

  /** What a successful report was made from. */
  lemma ReportParts(mode: Mode, rows: seq<Row>)
    requires Report(mode, rows).Success?
    ensures Sequence(Attempts(rows)).Success?
    ensures var entries := Sequence(Attempts(rows)).value;
      && |entries| == |rows| && Judgeable(entries) && Placed(entries)
      && Sequence(Verdicts(mode, entries, AllKeys())) == Success(Report(mode, rows).value.pairs)
      && (mode == AcceptanceMode ==> |Report(mode, rows).value.pairs| == GROUPS)
  {
    AttemptsAreSound(rows);
    GatheredIsJudgeable(Attempts(rows));
  }

  lemma {:induction false} EntriesCoverProduct(entries: seq<Entry>, pairs: seq<PairReport>)
    requires Judgeable(entries) && Placed(entries)
    requires Sequence(Verdicts(AcceptanceMode, entries, AllKeys())) == Success(pairs) && |pairs| == GROUPS
    ensures |entries| == 80
    ensures forall key :: InProduct(key) ==> Covered(entries, key)
  {
    var keys := AllKeys();
    SequenceSucceeds(Verdicts(AcceptanceMode, entries, keys));
    GroupsPartition(entries);
    JudgedGroups(AcceptanceMode, entries, keys);
    forall key | InProduct(key) ensures Covered(entries, key) {
      KeysEnumerateProduct(key);
      VerdictOf(AcceptanceMode, entries, keys, key);
      JudgedIsPair(AcceptanceMode, key, Members(entries, key));
      AdjacentIsCovered(entries, key);
    }
  }

  /** A successful acceptance report covers exactly the whole product: eighty
      captures, two for each of the forty conditions and pair numbers. */
  lemma {:induction false} AcceptanceCoversProduct(rows: seq<Row>)
    requires Report(AcceptanceMode, rows).Success?
    ensures |rows| == 80
    ensures Sequence(Attempts(rows)).Success?
    ensures forall key :: InProduct(key) ==> Covered(Sequence(Attempts(rows)).value, key)
  {
    ReportParts(AcceptanceMode, rows);
    EntriesCoverProduct(Sequence(Attempts(rows)).value, Report(AcceptanceMode, rows).value.pairs);
  }

  predicate Passed(run: Run) {
    run.status == Complete && run.admitted >= ACCEPTANCE_ADMITTED && Budgets.NoFailedWork(run)
  }

  lemma PassingJudgement(key: GroupKey, m: seq<Entry>)
    requires Judgeable(m) && Judge(AcceptanceMode, key, m).Success?
    requires Judge(AcceptanceMode, key, m).value.comparison.budgetsPass
    ensures |m| == 2 && Passed(m[0].run) && Passed(m[1].run)
    ensures Budgets.RetainedSequences(m[0].run.samples) == Budgets.RetainedSequences(m[1].run.samples)
  {
    var report := Judge(AcceptanceMode, key, m).value;
    Budgets.BudgetsPassIff(report.ipc.run, report.files.run, report.comparison);
  }

  lemma {:induction false} GateJudgesEntry(entries: seq<Entry>, pairs: seq<PairReport>, i: nat)
    requires Judgeable(entries) && i < |entries|
    requires Sequence(Verdicts(AcceptanceMode, entries, AllKeys())) == Success(pairs) && AllPass(pairs)
    ensures var verdict := Judge(AcceptanceMode, entries[i].key, Members(entries, entries[i].key));
      verdict.Success? && verdict.value.comparison.budgetsPass
  {
    var key := entries[i].key;
    var verdicts := Verdicts(AcceptanceMode, entries, AllKeys());
    SequenceSucceeds(verdicts);
    KeysEnumerateProduct(key);
    MembersComplete(entries, key, i);
    VerdictOf(AcceptanceMode, entries, AllKeys(), key);
    var n :| 0 <= n < |verdicts| && verdicts[n] == Judge(AcceptanceMode, key, Members(entries, key));
    assert pairs[n] in pairs;
  }

  /** Captures of one condition and pair retained the same offers. */
  ghost predicate PairedAlike(entries: seq<Entry>) {
    forall i, j :: 0 <= i < |entries| && 0 <= j < |entries| && entries[i].key == entries[j].key ==>
      Budgets.RetainedSequences(entries[i].run.samples) == Budgets.RetainedSequences(entries[j].run.samples)
  }

  lemma EntryPasses(entries: seq<Entry>, pairs: seq<PairReport>, i: nat)
    requires Judgeable(entries) && i < |entries|
    requires Sequence(Verdicts(AcceptanceMode, entries, AllKeys())) == Success(pairs) && AllPass(pairs)
    ensures var m := Members(entries, entries[i].key);
      && |m| == 2 && Passed(m[0].run) && Passed(m[1].run)
      && Budgets.RetainedSequences(m[0].run.samples) == Budgets.RetainedSequences(m[1].run.samples)
  {
    GateJudgesEntry(entries, pairs, i);
    PassingJudgement(entries[i].key, Members(entries, entries[i].key));
  }

  lemma PairOrEither(m: seq<Entry>, e: Entry)
    requires |m| == 2 && e in m
    ensures e == m[0] || e == m[1]
  {
  }

  lemma {:induction false} PassingPairs(entries: seq<Entry>, pairs: seq<PairReport>, i: nat, j: nat)
    requires Judgeable(entries) && i < |entries| && j < |entries| && entries[i].key == entries[j].key
    requires Sequence(Verdicts(AcceptanceMode, entries, AllKeys())) == Success(pairs) && AllPass(pairs)
    ensures Passed(entries[i].run)
    ensures Budgets.RetainedSequences(entries[i].run.samples) == Budgets.RetainedSequences(entries[j].run.samples)
  {
    var m := Members(entries, entries[i].key);
    EntryPasses(entries, pairs, i);
    MembersComplete(entries, entries[i].key, i);
    MembersComplete(entries, entries[i].key, j);
    PairOrEither(m, entries[i]);
    PairOrEither(m, entries[j]);
  }

  /** The latency gate passes only for a full acceptance campaign in which every
      capture is complete with at least ten thousand admitted updates and no
      failed work, and both captures of every pair retained the same offers. */
  lemma GateMeansCompletePairs(mode: Mode, rows: seq<Row>)
    requires Report(mode, rows).Success? && Report(mode, rows).value.latencyGatePass
    ensures mode == AcceptanceMode && |rows| == 80 && Sequence(Attempts(rows)).Success?
    ensures var entries := Sequence(Attempts(rows)).value;
      && (forall i :: 0 <= i < |entries| ==> Passed(entries[i].run))
      && PairedAlike(entries)
  {
    GatePassesIff(mode, rows);
    AcceptanceCoversProduct(rows);
    ReportParts(mode, rows);
    var entries, pairs := Sequence(Attempts(rows)).value, Report(mode, rows).value.pairs;
    forall i, j | 0 <= i < |entries| && 0 <= j < |entries| && entries[i].key == entries[j].key
      ensures Passed(entries[i].run)
      ensures Budgets.RetainedSequences(entries[i].run.samples) == Budgets.RetainedSequences(entries[j].run.samples)
    {
      PassingPairs(entries, pairs, i, j);
    }
    forall i | 0 <= i < |entries| ensures Passed(entries[i].run) {
      PassingPairs(entries, pairs, i, i);
    }
  }

  // ---- the gate, exactly ----

  /** The two captures of every group meet every budget. */
  ghost predicate AllPairsMeet(entries: seq<Entry>)
    requires Judgeable(entries)
  {
    forall i, j :: 0 <= i < |entries| && 0 <= j < |entries| && Opposed(entries[i], entries[j]) ==>
      Budgets.MeetsBudgets(entries[i].run, entries[j].run)
  }

  predicate Opposed(ipc: Entry, files: Entry) {
    ipc.key == files.key && ipc.run.wire == CurrentIpc && files.run.wire == NineP2000L
  }

  /** What a favourable verdict was made from. */
  lemma JudgedFrom(mode: Mode, key: GroupKey, m: seq<Entry>, p: PairReport)
    requires Judgeable(m) && Judge(mode, key, m) == Success(p)
    ensures |m| == 2 && ((p.ipc == m[0] && p.files == m[1]) || (p.ipc == m[1] && p.files == m[0]))
    ensures p.ipc.run.wire == CurrentIpc && p.files.run.wire == NineP2000L
    ensures Budgets.WellTimed(p.ipc.run) && Budgets.WellTimed(p.files.run)
    ensures Budgets.Compare(p.ipc.run, p.files.run) == Success(p.comparison)
  {
  }

  lemma {:induction false} VerdictFrom(mode: Mode, entries: seq<Entry>, keys: seq<GroupKey>, v: Verdict)
    returns (key: GroupKey)
    requires Judgeable(entries) && v in Verdicts(mode, entries, keys)
    ensures v == Judge(mode, key, Members(entries, key)) && Members(entries, key) != []
  {
    var n := |keys| - 1;
    if v in Verdicts(mode, entries, keys[..n]) {
      key := VerdictFrom(mode, entries, keys[..n], v);
    } else {
      key := keys[n];
    }
  }

  lemma PairPasses(mode: Mode, entries: seq<Entry>, pairs: seq<PairReport>, n: nat)
    requires Judgeable(entries) && n < |pairs| && AllPairsMeet(entries)
    requires Sequence(Verdicts(mode, entries, AllKeys())) == Success(pairs)
    ensures pairs[n].comparison.budgetsPass
  {
    var verdicts := Verdicts(mode, entries, AllKeys());
    SequenceSucceeds(verdicts);
    var key := VerdictFrom(mode, entries, AllKeys(), verdicts[n]);
    var m := Members(entries, key);
    var p := pairs[n];
    JudgedFrom(mode, key, m, p);
    assert p.ipc in entries && p.files in entries && Opposed(p.ipc, p.files);
    var i :| 0 <= i < |entries| && entries[i] == p.ipc;
    var j :| 0 <= j < |entries| && entries[j] == p.files;
    Budgets.BudgetsPassIff(p.ipc.run, p.files.run, p.comparison);
  }

  /** The two wires tell the members of a judged pair apart. */
  lemma MembersByWire(m: seq<Entry>, p: PairReport, a: Entry, b: Entry)
    requires |m| == 2 && ((p.ipc == m[0] && p.files == m[1]) || (p.ipc == m[1] && p.files == m[0]))
    requires p.ipc.run.wire == CurrentIpc && p.files.run.wire == NineP2000L
    requires a in m && b in m && a.run.wire == CurrentIpc && b.run.wire == NineP2000L
    ensures a == p.ipc && b == p.files
  {
  }

  lemma JudgedMeets(mode: Mode, key: GroupKey, m: seq<Entry>, p: PairReport, a: Entry, b: Entry)
    requires Judgeable(m) && Judge(mode, key, m) == Success(p) && p.comparison.budgetsPass
    requires a in m && b in m && a.run.wire == CurrentIpc && b.run.wire == NineP2000L
    ensures Budgets.WellTimed(a.run) && Budgets.WellTimed(b.run) && Budgets.MeetsBudgets(a.run, b.run)
  {
    JudgedFrom(mode, key, m, p);
    MembersByWire(m, p, a, b);
    Budgets.BudgetsPassIff(a.run, b.run, p.comparison);
  }

  lemma {:induction false} OpposedMeet(entries: seq<Entry>, pairs: seq<PairReport>, i: nat, j: nat)
    requires Judgeable(entries) && i < |entries| && j < |entries| && Opposed(entries[i], entries[j])
    requires Sequence(Verdicts(AcceptanceMode, entries, AllKeys())) == Success(pairs) && AllPass(pairs)
    ensures Budgets.MeetsBudgets(entries[i].run, entries[j].run)
  {
    var key := entries[i].key;
    GateJudgesEntry(entries, pairs, i);
    MembersComplete(entries, key, i);
    MembersComplete(entries, key, j);
    var m := Members(entries, key);
    JudgedMeets(AcceptanceMode, key, m, Judge(AcceptanceMode, key, m).value, entries[i], entries[j]);
  }

  /** The latency gate, exactly: an acceptance report passes it if and only if both
      captures of every pair are complete with no failed work, retained the same
      offers, and keep the p95, p99 and interval budgets. */
  lemma GateIff(mode: Mode, rows: seq<Row>)
    requires Report(mode, rows).Success?
    ensures Sequence(Attempts(rows)).Success? && Judgeable(Sequence(Attempts(rows)).value)
    ensures Report(mode, rows).value.latencyGatePass <==>
      mode == AcceptanceMode && AllPairsMeet(Sequence(Attempts(rows)).value)
  {
    ReportParts(mode, rows);
    GatePassesIff(mode, rows);
    var entries, pairs := Sequence(Attempts(rows)).value, Report(mode, rows).value.pairs;
    if mode == AcceptanceMode && AllPairsMeet(entries) {
      forall n | 0 <= n < |pairs| ensures pairs[n].comparison.budgetsPass {
        PairPasses(mode, entries, pairs, n);
      }
    }
    if mode == AcceptanceMode && AllPass(pairs) {
      forall i, j | 0 <= i < |entries| && 0 <= j < |entries| && Opposed(entries[i], entries[j])
        ensures Budgets.MeetsBudgets(entries[i].run, entries[j].run)
      {
        OpposedMeet(entries, pairs, i, j);
      }
    }
  }

  lemma GatePassesIff(mode: Mode, rows: seq<Row>)
    requires Report(mode, rows).Success?
    ensures Report(mode, rows).value.latencyGatePass <==>
      mode == AcceptanceMode && AllPass(Report(mode, rows).value.pairs)
  {
  }
}
