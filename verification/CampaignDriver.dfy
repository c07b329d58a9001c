/** The measurement driver: five nested loops that command one capture at a time,
    and the proof that the order they emit is the order the report demands. */
module CampaignDriver {
  import opened Prelude
  import opened ReportValue
  import opened RunDecoder
  import opened Campaign
  import Budgets

  datatype Command = Command(ordinal: nat, key: GroupKey, wire: Word)

  /** The eight conditions in the order the three outer loops visit them. */
  function ConditionKey(condition: nat, pair: nat): GroupKey {
    GroupKey(if condition / 4 == 0 then Move else Resize,
             if condition / 2 % 2 == 0 then 60 else 120,
             if condition % 2 == 0 then Idle else Cpu,
             pair)
  }

  function WireAt(pair: nat, turn: nat): Word {
    if (pair % 2 == 1) == (turn == 0) then CurrentIpc else NineP2000L
  }

  /** The condition and pair number of the g-th group. */
  function GroupAt(n: nat, g: nat): GroupKey
    requires n > 0
  {
    ConditionKey(g / n, g % n + 1)
  }

  /** The i-th command of a campaign of n pairs for each condition. */
  function CommandAt(n: nat, i: nat): Command
    requires n > 0
  {
    var key := GroupAt(n, i / 2);
    Command(i + 1, key, WireAt(key.pair, i % 2))
  }

  ghost predicate InOrder(n: nat, commands: seq<Command>)
    requires n > 0
  {
    forall i :: 0 <= i < |commands| ==> commands[i] == CommandAt(n, i)
  }

  lemma {:induction false} DivideBack(c: nat, n: nat, p: nat)
    requires p < n
    ensures (c * n + p) / n == c && (c * n + p) % n == p
    decreases c
  {
    if c == 0 {
    } else {
      DivideBack(c - 1, n, p);
      var smaller := (c - 1) * n + p;
      assert c * n + p == smaller + n;
      AddDivisor(smaller, n);
    }
  }

  lemma AddDivisor(a: nat, n: nat)
    requires n > 0
    ensures (a + n) / n == a / n + 1 && (a + n) % n == a % n
  {
    var q, r := a / n, a % n;
    assert a + n == (q + 1) * n + r;
    QuotientUnique(a + n, n, q + 1, r);
  }

  lemma QuotientUnique(a: nat, n: nat, q: nat, r: nat)
    requires r < n && a == q * n + r
    ensures a / n == q && a % n == r
  {
    var q', r' := a / n, a % n;
    assert a == q' * n + r';
    MulMonotone(q + 1, q', n);
    MulMonotone(q' + 1, q, n);
  }

  /** The loops' own coordinates name the next command. */
  lemma CommandOf(n: nat, condition: nat, pair: nat, turn: nat)
    requires 1 <= pair <= n && turn < 2
    ensures CommandAt(n, 2 * (condition * n + (pair - 1)) + turn) ==
      Command(2 * (condition * n + (pair - 1)) + turn + 1, ConditionKey(condition, pair), WireAt(pair, turn))
  {
    var group := condition * n + (pair - 1);
    DivideBack(condition, n, pair - 1);
    assert (2 * group + turn) / 2 == group && (2 * group + turn) % 2 == turn;
  }

  method CommandPair(n: nat, key: GroupKey, condition: nat, commands: seq<Command>) returns (next: seq<Command>)
    requires 1 <= key.pair <= n && key == ConditionKey(condition, key.pair)
    requires |commands| == 2 * (condition * n + (key.pair - 1)) && InOrder(n, commands)
    ensures |next| == |commands| + 2 && InOrder(n, next)
  {
    next := commands;
    var wires := if key.pair % 2 == 1 then [CurrentIpc, NineP2000L] else [NineP2000L, CurrentIpc];
    for turn := 0 to 2
      invariant |next| == |commands| + turn && InOrder(n, next)
    {
      CommandOf(n, condition, key.pair, turn);
      next := next + [Command(|next| + 1, key, wires[turn])];
    }
  }

  method CommandCondition(n: nat, kind: Word, rate: nat, load: Load, condition: nat, commands: seq<Command>)
      returns (next: seq<Command>)
    requires n > 0 && forall pair :: ConditionKey(condition, pair) == GroupKey(kind, rate, load, pair)
    requires |commands| == 2 * (condition * n) && InOrder(n, commands)
    ensures |next| == 2 * ((condition + 1) * n) && InOrder(n, next)
  {
    next := commands;
    for pair := 1 to n + 1
      invariant |next| == 2 * (condition * n + (pair - 1)) && InOrder(n, next)
    {
      next := CommandPair(n, GroupKey(kind, rate, load, pair), condition, next);
    }
    assert (condition + 1) * n == condition * n + n;
  }

  /** The whole campaign, in execution order. */
  method Exercise(n: nat) returns (commands: seq<Command>)
    requires n > 0
    ensures |commands| == 16 * n && InOrder(n, commands)
  {
    commands := [];
    var kinds, rates, loads := [Move, Resize], [60, 120], [Idle, Cpu];
    for k := 0 to 2
      invariant |commands| == 2 * (4 * k * n) && InOrder(n, commands)
    {
      for r := 0 to 2
        invariant |commands| == 2 * ((4 * k + 2 * r) * n) && InOrder(n, commands)
      {
        for l := 0 to 2
          invariant |commands| == 2 * ((4 * k + 2 * r + l) * n) && InOrder(n, commands)
        {
          commands := CommandCondition(n, kinds[k], rates[r], loads[l], 4 * k + 2 * r + l, commands);
        }
      }
    }
  }

  // ---- the emitted order, judged ----

  /** Captures taken in the emitted order, each as it was commanded. */
  ghost predicate AsCommanded(n: nat, entries: seq<Entry>)
    requires n > 0
  {
    && |entries| == 16 * n
    && forall i :: 0 <= i < |entries| ==>
         && entries[i].index == i
         && entries[i].key == CommandAt(n, i).key
         && entries[i].run.wire == CommandAt(n, i).wire
  }

  lemma KeyDetermined(a: nat, p: nat, b: nat, q: nat)
    requires a < 8 && b < 8 && ConditionKey(a, p) == ConditionKey(b, q)
    ensures a == b && p == q
  {
    ConditionDetermined(a, b, p);
  }

  lemma Recompose(g: nat, n: nat, a: nat, p: nat)
    requires n > 0 && a == g / n && p == g % n
    ensures g == a * n + p
  {
  }

  lemma GroupParts(n: nat, g: nat) returns (a: nat, p: nat)
    requires n > 0 && g < 8 * n
    ensures g == a * n + p && a < 8 && p < n && GroupAt(n, g) == ConditionKey(a, p + 1)
  {
    a, p := g / n, g % n;
    ConditionBound(n, g);
    Recompose(g, n, a, p);
  }

  lemma GroupDetermined(n: nat, g: nat, h: nat)
    requires n > 0 && g < 8 * n && h < 8 * n && GroupAt(n, g) == GroupAt(n, h)
    ensures g == h
  {
    var a, p := GroupParts(n, g);
    var b, q := GroupParts(n, h);
    KeyDetermined(a, p + 1, b, q + 1);
  }

  lemma SameGroup(n: nat, i: nat, j: nat)
    requires n > 0 && i < 16 * n && j < 16 * n
    ensures CommandAt(n, i).key == CommandAt(n, j).key <==> i / 2 == j / 2
  {
    if GroupAt(n, i / 2) == GroupAt(n, j / 2) {
      GroupDetermined(n, i / 2, j / 2);
    }
  }

  lemma ConditionBound(n: nat, g: nat)
    requires n > 0 && g < 8 * n
    ensures g / n < 8
  {
    MulMonotone(8, g / n, n);
  }

  lemma ConditionDetermined(a: nat, b: nat, pair: nat)
    requires a < 8 && b < 8 && ConditionKey(a, pair) == ConditionKey(b, pair)
    ensures a == b
  {
    assert a == a / 4 * 4 + a / 2 % 2 * 2 + a % 2;
    assert b == b / 4 * 4 + b / 2 % 2 * 2 + b % 2;
  }

  /** Whatever the pair count, every commanded group is one adjacent pair in the
      wire order its parity asks for. */
  lemma CommandedGroupsAlternate(n: nat, entries: seq<Entry>, i: nat)
    requires n > 0 && AsCommanded(n, entries) && i < |entries|
    ensures AdjacentPair(entries[i].key, Members(entries, entries[i].key))
  {
    var g := i / 2;
    assert g < 8 * n;
    GroupIsPair(n, entries, i, g);
    TurnsAlternate(n, entries, g);
    PairIsAdjacent(entries, entries[i].key, 2 * g);
  }

  lemma PairIsAdjacent(entries: seq<Entry>, key: GroupKey, a: nat)
    requires a + 1 < |entries| && entries[a + 1].index == entries[a].index + 1
    requires InWireOrder(key.pair, entries[a].run, entries[a + 1].run)
    requires forall j :: 0 <= j < |entries| ==> (entries[j].key == key <==> j == a || j == a + 1)
    ensures AdjacentPair(key, Members(entries, key))
  {
    TwoMembers(entries, key, a);
  }

  lemma GroupIsPair(n: nat, entries: seq<Entry>, i: nat, g: nat)
    requires n > 0 && AsCommanded(n, entries) && i < |entries| && g == i / 2
    ensures forall j :: 0 <= j < |entries| ==>
      (entries[j].key == entries[i].key <==> j == 2 * g || j == 2 * g + 1)
  {
    forall j | 0 <= j < |entries| ensures entries[j].key == entries[i].key <==> j == 2 * g || j == 2 * g + 1 {
      SameGroup(n, i, j);
      assert j / 2 == g <==> j == 2 * g || j == 2 * g + 1;
    }
  }

  lemma TurnsAlternate(n: nat, entries: seq<Entry>, g: nat)
    requires n > 0 && AsCommanded(n, entries) && 2 * g + 1 < |entries|
    ensures entries[2 * g].key == GroupAt(n, g) == entries[2 * g + 1].key
    ensures InWireOrder(GroupAt(n, g).pair, entries[2 * g].run, entries[2 * g + 1].run)
    ensures entries[2 * g + 1].index == entries[2 * g].index + 1
  {
    assert (2 * g) / 2 == g && (2 * g) % 2 == 0;
    assert (2 * g + 1) / 2 == g && (2 * g + 1) % 2 == 1;
  }

  lemma CommandedKeysInProduct(n: nat, i: nat)
    requires 1 <= n <= PAIRS && i < 16 * n
    ensures InProduct(CommandAt(n, i).key)
  {
    assert i / 2 % n < n;
  }

  lemma PairReached(n: nat, entries: seq<Entry>, condition: nat, pair: nat)
    requires 1 <= pair <= n && condition < 8 && AsCommanded(n, entries)
    ensures Members(entries, ConditionKey(condition, pair)) != []
  {
    var group := condition * n + (pair - 1);
    GroupBound(n, condition, pair);
    CommandOf(n, condition, pair, 0);
    MembersComplete(entries, ConditionKey(condition, pair), 2 * group);
  }

  lemma GroupBound(n: nat, condition: nat, pair: nat)
    requires 1 <= pair <= n && condition < 8
    ensures condition * n + (pair - 1) < 8 * n
  {
    MulMonotone(condition + 1, 8, n);
  }

  /** Five pairs of every condition reach every key. */
  lemma FivePairsReachEveryKey(entries: seq<Entry>, key: GroupKey)
    requires AsCommanded(PAIRS, entries) && InProduct(key)
    ensures Members(entries, key) != []
  {
    var condition := ConditionOf(key);
    PairReached(PAIRS, entries, condition, key.pair);
  }

  // ---- the order, told by the commands ----

  /** Moves before resizes, 60 Hz before 120 Hz, idle before loaded, then by pair
      number; and within a pair the wire that its parity puts first. */
  predicate CommandedBefore(a: Command, b: Command) {
    if a.key.kind != b.key.kind then a.key.kind == Move
    else if a.key.rateHz != b.key.rateHz then a.key.rateHz < b.key.rateHz
    else if a.key.load != b.key.load then a.key.load == Idle
    else if a.key.pair != b.key.pair then a.key.pair < b.key.pair
    else a.wire != b.wire && (a.wire == CurrentIpc <==> a.key.pair % 2 == 1)
  }

  lemma ConditionsAscend(a: nat, b: nat, p: nat, q: nat, w: Word, v: Word)
    requires a < b < 8
    ensures CommandedBefore(Command(0, ConditionKey(a, p), w), Command(0, ConditionKey(b, q), v))
  {
    assert a == a / 4 * 4 + a / 2 % 2 * 2 + a % 2;
    assert b == b / 4 * 4 + b / 2 % 2 * 2 + b % 2;
  }

  lemma GroupsOrdered(n: nat, g: nat, a: nat, p: nat, h: nat, b: nat, q: nat)
    requires g == a * n + p && h == b * n + q && p < n && q < n && g <= h
    ensures a <= b && (a == b ==> p <= q && (p == q ==> g == h))
  {
    if b < a { MulMonotone(b + 1, a, n); }
  }

  lemma CommandsAscend(n: nat, i: nat, j: nat)
    requires n > 0 && i < j < 16 * n
    ensures CommandedBefore(CommandAt(n, i), CommandAt(n, j))
  {
    var a, p := GroupParts(n, i / 2);
    var b, q := GroupParts(n, j / 2);
    assert i / 2 <= j / 2 && (i / 2 == j / 2 ==> i % 2 == 0 && j % 2 == 1);
    GroupsOrdered(n, i / 2, a, p, j / 2, b, q);
    if a != b {
      ConditionsAscend(a, b, p + 1, q + 1, CommandAt(n, i).wire, CommandAt(n, j).wire);
    }
  }

  lemma ConditionOf(key: GroupKey) returns (condition: nat)
    requires key.kind in {Move, Resize} && (key.rateHz == 60 || key.rateHz == 120)
    ensures condition < 8 && ConditionKey(condition, key.pair) == key
  {
    condition := (if key.kind == Move then 0 else 4) + (if key.rateHz == 60 then 0 else 2)
                 + (if key.load == Idle then 0 else 1);
  }

  /** Every command of the campaign's conditions, pairs and wires is given. */
  lemma CommandGiven(n: nat, key: GroupKey, wire: Word) returns (i: nat)
    requires n > 0 && key.kind in {Move, Resize} && (key.rateHz == 60 || key.rateHz == 120)
    requires 1 <= key.pair <= n && wire in {CurrentIpc, NineP2000L}
    ensures i < 16 * n && CommandAt(n, i) == Command(i + 1, key, wire)
  {
    var condition := ConditionOf(key);
    var turn := if (key.pair % 2 == 1) == (wire == CurrentIpc) then 0 else 1;
    assert WireAt(key.pair, turn) == wire;
    i := GroupTurn(n, condition, key.pair, turn);
  }

  lemma GroupTurn(n: nat, condition: nat, pair: nat, turn: nat) returns (i: nat)
    requires 1 <= pair <= n && condition < 8 && turn < 2
    ensures i < 16 * n && CommandAt(n, i) == Command(i + 1, ConditionKey(condition, pair), WireAt(pair, turn))
  {
    i := 2 * (condition * n + (pair - 1)) + turn;
    GroupBound(n, condition, pair);
    CommandOf(n, condition, pair, turn);
  }

  // ---- the report of a driven campaign ----

  /** Rows the driver wrote: in order, each capture checked against its command. */
  ghost predicate Driven(n: nat, updates: nat, rows: seq<Row>)
    requires n > 0
  {
    && |rows| == 16 * n
    && forall i :: 0 <= i < |rows| ==> DrivenRow(n, updates, rows[i], i)
  }

  predicate DrivenRow(n: nat, updates: nat, row: Row, i: nat)
    requires n > 0
  {
    var command, run := CommandAt(n, i), DecodeRun(row.capture);
    && row.ordinal == command.ordinal && row.pair == command.key.pair && row.load == command.key.load
    && run.Success?
    && run.value.wire == command.wire && run.value.kind == command.key.kind
    && run.value.rateHz == command.key.rateHz && run.value.requestedUpdates == updates
  }

  lemma DrivenRowCollected(n: nat, updates: nat, row: Row, i: nat)
    requires 1 <= n <= PAIRS && i < 16 * n && DrivenRow(n, updates, row, i)
    ensures AttemptAsCommanded(n, updates, CollectRow(row, i), i)
  {
    CommandedKeysInProduct(n, i);
  }

  predicate AttemptAsCommanded(n: nat, updates: nat, attempt: Attempt, i: nat)
    requires n > 0
  {
    && attempt.Success?
    && attempt.value.key == CommandAt(n, i).key && attempt.value.index == i
    && attempt.value.run.wire == CommandAt(n, i).wire
    && attempt.value.run.kind == attempt.value.key.kind && attempt.value.run.rateHz == attempt.value.key.rateHz
    && attempt.value.run.requestedUpdates == updates
  }

  /** The run itself answers the command its key records. */
  predicate AnswersKey(e: Entry, updates: nat) {
    e.run.kind == e.key.kind && e.run.rateHz == e.key.rateHz && e.run.requestedUpdates == updates
  }

  lemma CommandedAttempts(n: nat, updates: nat, attempts: seq<Attempt>)
    requires n > 0 && |attempts| == 16 * n && Sound(attempts)
    requires forall i :: 0 <= i < |attempts| ==> AttemptAsCommanded(n, updates, attempts[i], i)
    ensures Sequence(attempts).Success?
    ensures var entries := Sequence(attempts).value;
      && Judgeable(entries) && AsCommanded(n, entries)
      && forall i :: 0 <= i < |entries| ==> AnswersKey(entries[i], updates)
  {
    AllSucceed(attempts);
    GatheredIsJudgeable(attempts);
    SequenceSucceeds(attempts);
    forall i | 0 <= i < |attempts| ensures attempts[i] == Success(Sequence(attempts).value[i]) {
      assert AttemptAsCommanded(n, updates, attempts[i], i);
    }
  }

  /** Driven rows are contiguous, decode, and come out as commanded. */
  lemma DrivenIsCommanded(n: nat, updates: nat, rows: seq<Row>)
    requires 1 <= n <= PAIRS && Driven(n, updates, rows)
    ensures Sound(Attempts(rows)) && Sequence(Attempts(rows)).Success?
    ensures var entries := Sequence(Attempts(rows)).value;
      && Judgeable(entries) && AsCommanded(n, entries)
      && forall i :: 0 <= i < |entries| ==> AnswersKey(entries[i], updates)
  {
    AttemptsAreSound(rows);
    var attempts := Attempts(rows);
    forall i | 0 <= i < |attempts| ensures AttemptAsCommanded(n, updates, attempts[i], i) {
      assert DrivenRow(n, updates, rows[i], i);
      DrivenRowCollected(n, updates, rows[i], i);
    }
    CommandedAttempts(n, updates, attempts);
  }

  /** What of an entry only the measurement itself can supply. */
  predicate Measured(mode: Mode, e: Entry) {
    e.run.samples != [] && (mode == AcceptanceMode ==> e.run.admitted >= ACCEPTANCE_ADMITTED)
  }

  lemma CommandedPairJudged(mode: Mode, n: nat, updates: nat, entries: seq<Entry>, i: nat)
    requires n > 0 && Judgeable(entries) && AsCommanded(n, entries) && i < |entries|
    requires forall j :: 0 <= j < |entries| ==> Measured(mode, entries[j]) && AnswersKey(entries[j], updates)
    ensures Judge(mode, entries[i].key, Members(entries, entries[i].key)).Success?
  {
    var key := entries[i].key;
    var m := Members(entries, key);
    CommandedGroupsAlternate(n, entries, i);
    assert m[0] in entries && m[1] in entries;
    var first, second := if key.pair % 2 == 1 then m[0] else m[1], if key.pair % 2 == 1 then m[1] else m[0];
    Budgets.ComparedIff(first.run, second.run);
  }

  lemma CommandedGroupJudged(mode: Mode, n: nat, updates: nat, entries: seq<Entry>, key: GroupKey)
    requires n > 0 && Judgeable(entries) && AsCommanded(n, entries) && Members(entries, key) != []
    requires forall j :: 0 <= j < |entries| ==> Measured(mode, entries[j]) && AnswersKey(entries[j], updates)
    ensures Judge(mode, key, Members(entries, key)).Success?
  {
    MembersSome(entries, key);
    var i :| 0 <= i < |entries| && entries[i].key == key;
    CommandedPairJudged(mode, n, updates, entries, i);
  }

  /** A row whose capture settled something and, for acceptance, admitted enough. */
  predicate RowMeasured(mode: Mode, row: Row) {
    DecodeRun(row.capture).Success? ==>
      && DecodeRun(row.capture).value.samples != []
      && (mode == AcceptanceMode ==> DecodeRun(row.capture).value.admitted >= ACCEPTANCE_ADMITTED)
  }

  lemma MeasuredRowCollected(mode: Mode, row: Row, i: nat)
    requires RowMeasured(mode, row) && CollectRow(row, i).Success?
    ensures Measured(mode, CollectRow(row, i).value)
  {
  }

  lemma {:induction false} CommandedIsConcluded(mode: Mode, n: nat, updates: nat, attempts: seq<Attempt>)
    requires n > 0 && (mode == AcceptanceMode ==> n == PAIRS) && Sound(attempts) && Sequence(attempts).Success?
    requires AsCommanded(n, Sequence(attempts).value)
    requires forall i :: 0 <= i < |Sequence(attempts).value| ==>
      Measured(mode, Sequence(attempts).value[i]) && AnswersKey(Sequence(attempts).value[i], updates)
    ensures Conclude(mode, attempts).Success?
  {
    GatheredIsJudgeable(attempts);
    var entries := Sequence(attempts).value;
    forall key | key in AllKeys() && Members(entries, key) != []
      ensures Judge(mode, key, Members(entries, key)).Success?
    {
      CommandedGroupJudged(mode, n, updates, entries, key);
    }
    VerdictsSucceed(mode, entries, AllKeys());
    if mode == AcceptanceMode {
      forall key | key in AllKeys() ensures Members(entries, key) != [] {
        FivePairsReachEveryKey(entries, key);
      }
    }
  }

  /** The report accepts the execution order the driver emits: a smoke campaign of
      one pair or an acceptance campaign of five is reported, whatever the captures
      measured, as soon as each settled something and, for acceptance, admitted
      enough. */
  lemma {:induction false} DrivenCampaignReported(mode: Mode, n: nat, updates: nat, rows: seq<Row>)
    requires 1 <= n <= PAIRS && (mode == AcceptanceMode ==> n == PAIRS) && Driven(n, updates, rows)
    requires forall i :: 0 <= i < |rows| ==> RowMeasured(mode, rows[i])
    ensures Report(mode, rows).Success?
  {
    DrivenIsCommanded(n, updates, rows);
    MeasuredEntries(mode, rows);
    CommandedIsConcluded(mode, n, updates, Attempts(rows));
    ReportConcludes(mode, rows);
  }

  lemma MeasuredEntries(mode: Mode, rows: seq<Row>)
    requires Sequence(Attempts(rows)).Success?
    requires forall i :: 0 <= i < |rows| ==> RowMeasured(mode, rows[i])
    ensures |Sequence(Attempts(rows)).value| == |rows|
    ensures forall i :: 0 <= i < |rows| ==> Measured(mode, Sequence(Attempts(rows)).value[i])
  {
    var attempts := Attempts(rows);
    SequenceSucceeds(attempts);
    forall i | 0 <= i < |rows| ensures Measured(mode, Sequence(attempts).value[i]) {
      assert attempts[i] == CollectRow(rows[i], i);
      MeasuredRowCollected(mode, rows[i], i);
    }
  }

  lemma ReportConcludes(mode: Mode, rows: seq<Row>)
    requires 0 < |rows| <= MAX_CAPTURES
    ensures Sound(Attempts(rows)) && Report(mode, rows) == Conclude(mode, Attempts(rows))
  {
    AttemptsAreSound(rows);
  }

  /** Beyond five pairs, or with none, no campaign can be reported. */
  lemma OtherPairCountsRefused(mode: Mode, n: nat, rows: seq<Row>)
    requires |rows| == 16 * n && (n == 0 || n > PAIRS)
    ensures Report(mode, rows) == Failure(CaptureCountOutOfRange)
  {
  }
}
