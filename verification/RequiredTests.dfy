/** Selecting the required tests from a test listing: each named exactly once by
    its last path segment, everything else dropped. */
module RequiredTests {
  import opened Prelude

  const SUFFIX: string := ": test"

  datatype Fault = Duplicate(test: string) | MissingOrAmbiguous(leaf: string)

  // ---- names ----

  predicate StartsWith(s: string, prefix: string) {
    |prefix| <= |s| && s[..|prefix|] == prefix
  }

  predicate EndsWith(s: string, suffix: string) {
    |suffix| <= |s| && s[|s| - |suffix|..] == suffix
  }

  predicate SeparatorAt(s: string, i: nat)
    requires i + 2 <= |s|
  {
    s[i] == ':' && s[i + 1] == ':'
  }

  /** What follows the last `::` that ends at or before `end`. */
  function LeafFrom(s: string, end: nat): string
    requires end <= |s|
  {
    if end < 2 then s
    else if SeparatorAt(s, end - 2) then s[end..]
    else LeafFrom(s, end - 1)
  }

  function Leaf(name: string): string {
    LeafFrom(name, |name|)
  }

  predicate EndsSeparator(s: string, i: nat) {
    2 <= i <= |s| && SeparatorAt(s, i - 2)
  }

  /** No separator ends behind a place. */
  ghost predicate NoneBehind(s: string, at: nat, end: nat) {
    forall i :: at < i <= end ==> !EndsSeparator(s, i)
  }

  lemma {:induction false} LeafStopsAt(s: string, end: nat, at: nat)
    requires at <= end <= |s| && (at == 0 || EndsSeparator(s, at)) && NoneBehind(s, at, end)
    ensures LeafFrom(s, end) == s[at..]
  {
    assert end > at ==> !EndsSeparator(s, end);
    if end > at && end >= 2 {
      LeafStopsAt(s, end - 1, at);
    }
  }

  /** Some separator is the last, unless there is none. */
  lemma {:induction false} LastSeparator(s: string, end: nat) returns (at: nat)
    requires end <= |s|
    ensures at <= end && (at == 0 || EndsSeparator(s, at)) && NoneBehind(s, at, end)
  {
    if end < 2 {
      at := 0;
    } else if EndsSeparator(s, end) {
      at := end;
    } else {
      at := LastSeparator(s, end - 1);
    }
  }

  /** A name without a separator is its own leaf, and no other name is. */
  lemma WholeNameIff(name: string)
    ensures Leaf(name) == name <==> NoneBehind(name, 0, |name|)
  {
    var at := LastSeparator(name, |name|);
    LeafStopsAt(name, |name|, at);
    if at > 0 { assert EndsSeparator(name, at); }
  }

  /** Behind the last separator stands the leaf: what follows `::` is the leaf exactly
      when no separator ends in it. */
  lemma LeafBehindIff(s: string, at: nat)
    requires EndsSeparator(s, at)
    ensures Leaf(s) == s[at..] <==> NoneBehind(s, at, |s|)
  {
    var last := LastSeparator(s, |s|);
    LeafStopsAt(s, |s|, last);
    assert last >= at;
    if last > at { assert EndsSeparator(s, last); }
  }

  /** So a name without a colon is the leaf of every path to it. */
  lemma LeafReadsBack(path: string, name: string)
    requires ':' !in name
    ensures Leaf(path + "::" + name) == name && Leaf(name) == name
  {
    var s, at := path + "::" + name, |path| + 2;
    assert s[at..] == name;
    forall i | at < i <= |s| ensures !EndsSeparator(s, i) {
      assert s[i - 1] == name[i - 1 - at];
    }
    LeafBehindIff(s, at);
    WholeNameIff(name);
  }

  /** The tests a listing names under the prefix, in its order. */
  function Listed(lines: seq<string>, prefix: string): seq<string> {
    if lines == [] then []
    else
      var n := |lines| - 1;
      var line := lines[n];
      var front := Listed(lines[..n], prefix);
      if !EndsWith(line, SUFFIX) || !StartsWith(line[..|line| - |SUFFIX|], prefix) then front
      else front + [line[..|line| - |SUFFIX|]]
  }

  // ---- an ordered set ----

  predicate Less(a: string, b: string) {
    if a == "" then b != ""
    else b != "" && (a[0] < b[0] || (a[0] == b[0] && Less(a[1..], b[1..])))
  }

  predicate LessAt(a: string, b: string, k: nat) {
    && k <= |a| && k < |b| && a[..k] == b[..k]
    && (k == |a| || a[k] < b[k])
  }

  lemma FirstAgrees(a: string, b: string, k: nat)
    requires LessAt(a, b, k)
    ensures k > 0 ==> a != "" && b != "" && a[0] == b[0]
  {
    assert k > 0 ==> a[..k][0] == b[..k][0];
  }

  /** The order is the dictionary's: at the first difference, or where the first ends. */
  lemma {:induction false} LessIff(a: string, b: string)
    ensures Less(a, b) <==> exists k: nat :: LessAt(a, b, k)
  {
    if a == "" {
      assert b != "" ==> LessAt(a, b, 0);
    } else if b == "" {
    } else if a[0] != b[0] {
      assert a[0] < b[0] ==> LessAt(a, b, 0);
      forall k: nat | LessAt(a, b, k) ensures k == 0 {
        FirstAgrees(a, b, k);
      }
    } else {
      LessIff(a[1..], b[1..]);
      forall k: nat | LessAt(a[1..], b[1..], k) ensures LessAt(a, b, k + 1) {
        assert a[..k + 1] == [a[0]] + a[1..][..k] && b[..k + 1] == [b[0]] + b[1..][..k];
      }
      forall k: nat | LessAt(a, b, k) ensures k > 0 && LessAt(a[1..], b[1..], k - 1) {
        if k > 0 { assert a[1..][..k - 1] == a[..k][1..] && b[1..][..k - 1] == b[..k][1..]; }
      }
    }
  }

  lemma {:induction false} LessTransitive(a: string, b: string, c: string)
    requires Less(a, b) && Less(b, c)
    ensures Less(a, c)
  {
    if a != "" && a[0] == b[0] && b[0] == c[0] {
      LessTransitive(a[1..], b[1..], c[1..]);
    }
  }

  lemma {:induction false} LessTotal(a: string, b: string)
    ensures Less(a, b) || a == b || Less(b, a)
    ensures !(Less(a, b) && Less(b, a)) && (a == b ==> !Less(a, b))
  {
    if a != "" && b != "" && a[0] == b[0] {
      LessTotal(a[1..], b[1..]);
      assert a[1..] == b[1..] ==> a == [a[0]] + a[1..] == [b[0]] + b[1..] == b;
    }
  }

  predicate Ordered(s: seq<string>) {
    forall i, j :: 0 <= i < j < |s| ==> Less(s[i], s[j])
  }

  lemma OrderedHasNoDup(s: seq<string>)
    requires Ordered(s)
    ensures NoDup(s)
  {
    forall i, j | 0 <= i < j < |s| ensures s[i] != s[j] {
      LessTotal(s[i], s[j]);
    }
  }

  lemma NoElementsIff(s: seq<string>)
    ensures s == [] <==> Elements(s) == {}
  {
    if s != [] { assert s[0] in Elements(s); }
  }

  /** An ordered list is determined by its elements. */
  lemma {:induction false} OrderedUnique(s: seq<string>, t: seq<string>)
    requires Ordered(s) && Ordered(t) && Elements(s) == Elements(t)
    ensures s == t
  {
    NoElementsIff(s);
    NoElementsIff(t);
    if s != [] {
      assert s[0] in Elements(t) && t != [];
      assert t[0] in Elements(s);
      SameLeast(s, t);
      Dropped(s);
      Dropped(t);
      OrderedUnique(s[1..], t[1..]);
    }
  }

  lemma SameLeast(s: seq<string>, t: seq<string>)
    requires Ordered(s) && Ordered(t) && s != [] && t != [] && s[0] in t && t[0] in s
    ensures s[0] == t[0]
  {
    var i :| 0 <= i < |t| && t[i] == s[0];
    var j :| 0 <= j < |s| && s[j] == t[0];
    LessTotal(s[0], t[0]);
  }

  lemma Dropped(s: seq<string>)
    requires Ordered(s) && s != []
    ensures Ordered(s[1..]) && Elements(s[1..]) == Elements(s) - {s[0]}
  {
    OrderedHasNoDup(s);
    forall x ensures x in s[1..] <==> x in s && x != s[0] {
      if x in s && x != s[0] {
        var i :| 0 <= i < |s| && s[i] == x;
        assert s[1..][i - 1] == x;
      }
    }
  }

  /** The place of a new element: everything before it is less. */
  method Position(s: seq<string>, x: string) returns (at: nat, found: bool)
    requires Ordered(s)
    ensures at <= |s|
    ensures found <==> x in s
    ensures forall i :: 0 <= i < at ==> Less(s[i], x)
    ensures !found ==> forall i :: at <= i < |s| ==> Less(x, s[i])
  {
    at := 0;
    while at < |s|
      invariant at <= |s|
      invariant forall i :: 0 <= i < at ==> Less(s[i], x)
    {
      LessTotal(s[at], x);
      if s[at] == x { return at, true; }
      if !Less(s[at], x) { break; }
      at := at + 1;
    }
    found := false;
    forall i | at <= i < |s| ensures Less(x, s[i]) {
      if i > at { LessTransitive(x, s[at], s[i]); }
    }
    if x in s {
      var i :| 0 <= i < |s| && s[i] == x;
      LessTotal(x, x);
    }
  }

  /** The set's own insertion: false when the element is already there. */
  method Insert(s: seq<string>, x: string) returns (r: seq<string>, added: bool)
    requires Ordered(s)
    ensures Ordered(r) && Elements(r) == Elements(s) + {x}
    ensures added <==> x !in s
  {
    var at, found := Position(s, x);
    if found { return s, false; }
    r, added := s[..at] + [x] + s[at..], true;
    forall y ensures y in r <==> y in s || y == x {
      assert s == s[..at] + s[at..];
    }
  }

  // ---- the selection ----

  ghost function Named(tests: set<string>, leaf: string): set<string> {
    set t | t in tests && Leaf(t) == leaf
  }

  method CountNamed(tests: seq<string>, leaf: string) returns (n: nat)
    requires NoDup(tests)
    ensures n == |Named(Elements(tests), leaf)|
  {
    n := 0;
    assert Named(Elements(tests[..0]), leaf) == {};
    for i := 0 to |tests|
      invariant n == |Named(Elements(tests[..i]), leaf)|
    {
      assert Elements(tests[..i + 1]) == Elements(tests[..i]) + {tests[i]};
      assert tests[i] !in Elements(tests[..i]);
      if Leaf(tests[i]) == leaf {
        assert Named(Elements(tests[..i + 1]), leaf) == Named(Elements(tests[..i]), leaf) + {tests[i]};
        n := n + 1;
      } else {
        assert Named(Elements(tests[..i + 1]), leaf) == Named(Elements(tests[..i]), leaf);
      }
    }
    assert tests[..|tests|] == tests;
  }

  ghost predicate EachNamedOnce(tests: set<string>, required: seq<string>) {
    forall i :: 0 <= i < |required| ==> |Named(tests, required[i])| == 1
  }

  /** The first listed test that was listed before. */
  ghost predicate FirstRepeated(listed: seq<string>, test: string) {
    exists j: nat :: j < |listed| && RepeatsAt(listed, j) && listed[j] == test
  }

  ghost predicate RepeatsAt(listed: seq<string>, j: nat)
    requires j < |listed|
  {
    listed[j] in listed[..j] && NoDup(listed[..j])
  }

  /** The first required name that is not the leaf of exactly one test. */
  ghost predicate FirstUnmet(tests: set<string>, required: seq<string>, i: nat) {
    i < |required| && |Named(tests, required[i])| != 1 && EachNamedOnce(tests, required[..i])
  }

  /** What the selection must answer for the tests a listing names. */
  ghost predicate Answers(listed: seq<string>, required: seq<string>, r: Result<seq<string>, Fault>) {
    match r
    case Success(tests) =>
      && NoDup(listed) && EachNamedOnce(Elements(listed), required) && Ordered(tests)
      && forall t :: t in tests <==> t in listed && Leaf(t) in required
    case Failure(Duplicate(test)) => FirstRepeated(listed, test)
    case Failure(MissingOrAmbiguous(leaf)) =>
      && NoDup(listed)
      && exists i: nat :: FirstUnmet(Elements(listed), required, i) && required[i] == leaf
  }

  function Keep(tests: seq<string>, required: seq<string>): (r: seq<string>)
    ensures forall t :: t in r <==> t in tests && Leaf(t) in required
  {
    if tests == [] then []
    else
      var n := |tests| - 1;
      var front := Keep(tests[..n], required);
      assert tests == tests[..n] + [tests[n]];
      if Leaf(tests[n]) in required then front + [tests[n]] else front
  }

  lemma {:induction false} KeepOrdered(tests: seq<string>, required: seq<string>)
    requires Ordered(tests)
    ensures Ordered(Keep(tests, required))
  {
    if tests == [] {
    } else {
      var n := |tests| - 1;
      var front := Keep(tests[..n], required);
      KeepOrdered(tests[..n], required);
      forall i | 0 <= i < |front| ensures Less(front[i], tests[n]) {
        assert front[i] in tests[..n];
        var j :| 0 <= j < n && tests[j] == front[i];
      }
    }
  }

  /** The set of tests grows until a repetition refuses the listing. */
  method Collect(listed: seq<string>) returns (r: Result<seq<string>, Fault>)
    ensures match r
      case Success(tests) => NoDup(listed) && Ordered(tests) && Elements(tests) == Elements(listed)
      case Failure(Duplicate(test)) => FirstRepeated(listed, test)
      case Failure(MissingOrAmbiguous(_)) => false
  {
    var tests: seq<string> := [];
    for k := 0 to |listed|
      invariant Ordered(tests) && Elements(tests) == Elements(listed[..k])
      invariant NoDup(listed[..k])
    {
      var added;
      ghost var held := tests;
      tests, added := Insert(tests, listed[k]);
      assert listed[k] in held <==> listed[k] in Elements(held);
      if !added {
        assert RepeatsAt(listed, k);
        return Failure(Duplicate(listed[k]));
      }
      assert listed[..k + 1] == listed[..k] + [listed[k]];
    }
    assert listed[..|listed|] == listed;
    r := Success(tests);
  }

  method RequiredTests(lines: seq<string>, prefix: string, required: seq<string>)
    returns (r: Result<seq<string>, Fault>)
    ensures Answers(Listed(lines, prefix), required, r)
  {
    var listed := Listed(lines, prefix);
    var collected := Collect(listed);
    if collected.Failure? { return collected; }
    var tests := collected.value;
    OrderedHasNoDup(tests);
    for i := 0 to |required|
      invariant EachNamedOnce(Elements(listed), required[..i])
    {
      var n := CountNamed(tests, required[i]);
      if n != 1 {
        assert FirstUnmet(Elements(listed), required, i);
        return Failure(MissingOrAmbiguous(required[i]));
      }
    }
    assert required[..|required|] == required;
    KeepOrdered(tests, required);
    r := Success(Keep(tests, required));
    assert forall t :: t in tests <==> t in Elements(tests);
  }

  // ---- what an answer means ----

  function Leaves(tests: seq<string>): (r: seq<string>)
    ensures |r| == |tests| && forall i :: 0 <= i < |tests| ==> r[i] == Leaf(tests[i])
  {
    seq(|tests|, i requires 0 <= i < |tests| => Leaf(tests[i]))
  }

  /** A successful selection matches the required names one to one. */
  lemma SelectionIsBijection(listed: seq<string>, required: seq<string>, tests: seq<string>)
    requires NoDup(required) && Answers(listed, required, Success(tests))
    ensures |tests| == |required| && NoDup(Leaves(tests)) && Elements(Leaves(tests)) == Elements(required)
  {
    OrderedHasNoDup(tests);
    forall i, j | 0 <= i < j < |tests| ensures Leaves(tests)[i] != Leaves(tests)[j] {
      if Leaf(tests[i]) == Leaf(tests[j]) {
        OnlyOne(Elements(listed), required, Leaf(tests[i]), tests[i], tests[j]);
      }
    }
    forall i | 0 <= i < |tests| ensures Leaves(tests)[i] in required {
      assert tests[i] in tests;
    }
    forall leaf ensures leaf in Leaves(tests) <==> leaf in required {
      if leaf in required {
        var t := SomeNamed(Elements(listed), required, leaf);
        assert t in tests;
        var i :| 0 <= i < |tests| && tests[i] == t;
        assert Leaves(tests)[i] == leaf;
      }
    }
    NoDupCardinality(Leaves(tests));
    NoDupCardinality(required);
    assert Elements(Leaves(tests)) == Elements(required);
  }

  lemma SomeNamed(tests: set<string>, required: seq<string>, leaf: string) returns (t: string)
    requires EachNamedOnce(tests, required) && leaf in required
    ensures t in tests && Leaf(t) == leaf
  {
    var i :| 0 <= i < |required| && required[i] == leaf;
    assert |Named(tests, required[i])| == 1;
    t :| t in Named(tests, leaf);
  }

  lemma OnlyOne(tests: set<string>, required: seq<string>, leaf: string, a: string, b: string)
    requires EachNamedOnce(tests, required) && leaf in required
    requires a in tests && b in tests && Leaf(a) == leaf == Leaf(b)
    ensures a == b
  {
    var i :| 0 <= i < |required| && required[i] == leaf;
    var named := Named(tests, required[i]);
    assert |named - {a}| == 0;
    assert b !in named - {a};
  }

  /** Every selected test was listed under the prefix. */
  lemma {:induction false} ListedUnderPrefix(lines: seq<string>, prefix: string, test: string)
    requires test in Listed(lines, prefix)
    ensures StartsWith(test, prefix) && test + ": test" in lines
  {
    var n := |lines| - 1;
    if test in Listed(lines[..n], prefix) {
      ListedUnderPrefix(lines[..n], prefix, test);
    } else {
      assert lines[n] == test + SUFFIX;
    }
  }

  /** A test is listed as often as its line, when it has the prefix. */
  lemma {:induction false} ListedCounts(lines: seq<string>, prefix: string, test: string)
    ensures multiset(Listed(lines, prefix))[test] ==
      if StartsWith(test, prefix) then multiset(lines)[test + ": test"] else 0
  {
    if lines == [] {
    } else {
      var n := |lines| - 1;
      ListedCounts(lines[..n], prefix, test);
      LineNames(lines[n], test);
      LastCounts(lines, test + SUFFIX);
      LastCounts(Listed(lines[..n], prefix) + [test], test);
    }
  }

  lemma LastCounts(s: seq<string>, x: string)
    requires s != []
    ensures multiset(s)[x] == multiset(s[..|s| - 1])[x] + if s[|s| - 1] == x then 1 else 0
  {
    assert s == s[..|s| - 1] + [s[|s| - 1]];
  }

  lemma LineNames(line: string, test: string)
    ensures line == test + SUFFIX <==> EndsWith(line, SUFFIX) && line[..|line| - |SUFFIX|] == test
  {
    if EndsWith(line, SUFFIX) {
      assert line == line[..|line| - |SUFFIX|] + line[|line| - |SUFFIX|..];
    }
  }

  lemma {:induction false} ListedConcat(a: seq<string>, b: seq<string>, prefix: string)
    ensures Listed(a + b, prefix) == Listed(a, prefix) + Listed(b, prefix)
  {
    if b == [] {
      assert a + b == a;
    } else {
      var n := |b| - 1;
      assert (a + b)[..|a + b| - 1] == a + b[..n];
      ListedConcat(a, b[..n], prefix);
    }
  }

  /** The same lines in any order name the same tests as often. */
  lemma {:induction false} ListedAnyOrder(a: seq<string>, b: seq<string>, prefix: string)
    requires multiset(a) == multiset(b)
    ensures multiset(Listed(a, prefix)) == multiset(Listed(b, prefix))
  {
    assert |a| == |multiset(a)| == |multiset(b)| == |b|;
    if a != [] {
      var n := |a| - 1;
      var front, back := Without(a, b);
      ListedAnyOrder(a[..n], front + back, prefix);
      ListedConcat(front, [a[n]] + back, prefix);
      ListedConcat([a[n]], back, prefix);
      ListedConcat(front, back, prefix);
      ListedConcat(a[..n], [a[n]], prefix);
    }
  }

  lemma LineTaken(b: seq<string>, k: nat)
    requires k < |b|
    ensures b == b[..k] + ([b[k]] + b[k + 1..])
    ensures multiset(b) == multiset(b[..k] + b[k + 1..]) + multiset{b[k]}
  {
    assert b == b[..k] + ([b[k]] + b[k + 1..]);
  }

  /** The last line of one order stands somewhere in the other. */
  lemma Without(a: seq<string>, b: seq<string>) returns (front: seq<string>, back: seq<string>)
    requires a != [] && multiset(a) == multiset(b)
    ensures a == a[..|a| - 1] + [a[|a| - 1]] && b == front + ([a[|a| - 1]] + back)
    ensures multiset(a[..|a| - 1]) == multiset(front + back)
  {
    var n := |a| - 1;
    LastLine(a);
    assert a[n] in multiset(b);
    var k :| 0 <= k < |b| && b[k] == a[n];
    LineTaken(b, k);
    front, back := b[..k], b[k + 1..];
    SameRest(multiset(a[..n]), multiset(front + back), a[n]);
  }

  lemma LastLine(a: seq<string>)
    requires a != []
    ensures a == a[..|a| - 1] + [a[|a| - 1]]
    ensures multiset(a) == multiset(a[..|a| - 1]) + multiset{a[|a| - 1]}
  {
    assert a == a[..|a| - 1] + [a[|a| - 1]];
  }

  lemma SameRest(p: multiset<string>, q: multiset<string>, e: string)
    requires p + multiset{e} == q + multiset{e}
    ensures p == q
  {
    assert p == (p + multiset{e}) - multiset{e};
    assert q == (q + multiset{e}) - multiset{e};
  }

  lemma {:induction false} NoDupIsMultiplicity(s: seq<string>)
    ensures NoDup(s) <==> forall x :: multiset(s)[x] <= 1
  {
    if s == [] {
    } else {
      var n := |s| - 1;
      NoDupIsMultiplicity(s[..n]);
      assert s == s[..n] + [s[n]];
      if s[n] in s[..n] {
        assert s[n] in multiset(s[..n]);
        assert multiset(s)[s[n]] >= 2;
        var i :| 0 <= i < n && s[i] == s[n];
      } else {
        assert s[n] !in multiset(s[..n]);
        assert multiset(s) == multiset(s[..n]) + multiset{s[n]};
        assert forall x :: x != s[n] ==> multiset(s)[x] == multiset(s[..n])[x];
      }
    }
  }

  /** The order of the listing does not matter: the same selection, or the same
      unmet name; only which of several repeated tests is reported may differ. */
  lemma AnyOrderSameAnswer(
    lines: seq<string>, lines': seq<string>, prefix: string, required: seq<string>,
    r: Result<seq<string>, Fault>, r': Result<seq<string>, Fault>)
    requires multiset(lines) == multiset(lines')
    requires Answers(Listed(lines, prefix), required, r) && Answers(Listed(lines', prefix), required, r')
    ensures r == r' || (r.Failure? && r'.Failure? && r.error.Duplicate? && r'.error.Duplicate?)
  {
    var a, b := Listed(lines, prefix), Listed(lines', prefix);
    RepetitionIff(a);
    RepetitionIff(b);
    ListedAnyOrder(lines, lines', prefix);
    NoDupIsMultiplicity(a);
    NoDupIsMultiplicity(b);
    SameMembers(a, b);
    if r.Success? && r'.Success? {
      assert forall t :: t in a <==> t in Elements(a);
      assert forall t :: t in b <==> t in Elements(b);
      assert Elements(r.value) == Elements(r'.value);
      OrderedUnique(r.value, r'.value);
    } else if r.Failure? && r'.Failure? && r.error.MissingOrAmbiguous? && r'.error.MissingOrAmbiguous? {
      var i: nat :| FirstUnmet(Elements(a), required, i) && required[i] == r.error.leaf;
      var j: nat :| FirstUnmet(Elements(b), required, j) && required[j] == r'.error.leaf;
      FirstUnmetUnique(Elements(a), required, i, j);
    }
  }

  lemma {:induction false} RepetitionIff(listed: seq<string>)
    ensures (exists test :: FirstRepeated(listed, test)) <==> !NoDup(listed)
  {
    if listed == [] {
    } else {
      var n := |listed| - 1;
      RepetitionIff(listed[..n]);
      if !NoDup(listed[..n]) {
        var test :| FirstRepeated(listed[..n], test);
        var j: nat :| j < n && RepeatsAt(listed[..n], j) && listed[..n][j] == test;
        assert listed[..n][..j] == listed[..j];
        assert RepeatsAt(listed, j) && FirstRepeated(listed, test);
      } else if listed[n] in listed[..n] {
        assert RepeatsAt(listed, n) && FirstRepeated(listed, listed[n]);
      }
      forall test | FirstRepeated(listed, test) ensures !NoDup(listed) {
        var j: nat :| j < |listed| && RepeatsAt(listed, j) && listed[j] == test;
        var i :| 0 <= i < j && listed[..j][i] == listed[j];
        assert listed[i] == listed[j];
      }
    }
  }

  lemma SameMembers(a: seq<string>, b: seq<string>)
    requires multiset(a) == multiset(b)
    ensures Elements(a) == Elements(b)
  {
    forall x ensures x in a <==> x in b {
      assert x in a <==> x in multiset(a);
      assert x in b <==> x in multiset(b);
    }
  }

  lemma FirstUnmetUnique(tests: set<string>, required: seq<string>, i: nat, j: nat)
    requires FirstUnmet(tests, required, i) && FirstUnmet(tests, required, j)
    ensures i == j
  {
    PrefixMet(tests, required, i, j);
    PrefixMet(tests, required, j, i);
  }

  lemma PrefixMet(tests: set<string>, required: seq<string>, i: nat, j: nat)
    requires i < |required| && j <= |required| && EachNamedOnce(tests, required[..j])
    ensures i < j ==> |Named(tests, required[i])| == 1
  {
    if i < j {
      assert required[..j][i] == required[i];
    }
  }
}
