/** Reading `/proc/PID/stat` (proc_pid_stat(5)): the command name stands between
    parentheses and may itself hold parentheses and blanks. */
module ProcStat {
  import opened Prelude
  import opened Text

  const TWO31: int := 0x8000_0000
  const TWO32: nat := 0x1_0000_0000

  // ---- the readers ----

  function FirstOf(s: string, c: char): (r: Option<nat>)
    ensures r.Some? ==> r.value < |s|
  {
    if s == "" then None
    else if s[0] == c then Some(0)
    else
      var i :- FirstOf(s[1..], c);
      Some(i + 1)
  }

  function LastOf(s: string, c: char): (r: Option<nat>)
    ensures r.Some? ==> r.value < |s|
  {
    if s == "" then None
    else if s[|s| - 1] == c then Some(|s| - 1)
    else
      LastOf(s[..|s| - 1], c)
  }

  function Niceness(text: string): Option<int> {
    var after :- BehindLast(text, ')');
    NicenessOf(Words(after, IsAsciiWhitespace))
  }

  function BehindLast(text: string, c: char): Option<string> {
    var i :- LastOf(text, c);
    Some(text[i + 1..])
  }

  function NicenessOf(fields: seq<string>): Option<int> {
    if |fields| <= 16 then None else ParseSigned(fields[16], TWO31)
  }

  datatype Stat = Stat(state: char, parent: nat, start: nat, comm: string)

  /** `None` is a panic: a missing parenthesis or field, an unreadable number, or
      a slice that does not fall on a character. */
  function ReadStat(text: string): Option<Stat> {
    var parts :- Separate(text);
    StatAfter(parts.after, parts.comm)
  }

  datatype Parts = Parts(comm: string, after: string)

  /** The command name, and what stands behind its closing parenthesis. */
  function Separate(text: string): Option<Parts> {
    var open :- FirstOf(text, '(');
    var close :- LastOf(text, ')');
    if close <= open then None else Some(Parts(text[open + 1..close], text[close + 1..]))
  }

  /** The fields start two bytes behind the parenthesis. */
  function StatAfter(after: string, comm: string): Option<Stat> {
    if after == "" || Utf8Length(after[0]) != 1 then None
    else StatOf(Words(after[1..], IsWhitespace), comm)
  }

  function StatOf(fields: seq<string>, comm: string): Option<Stat> {
    if |fields| < 20 || fields[0] == "" then None
    else
      var parent :- ParseUnsigned(fields[1], TWO32);
      var start :- ParseUnsigned(fields[19], TWO64);
      Some(Stat(fields[0][0], parent, start, comm))
  }

  // ---- the writer ----

  /** The fields from the state on, as the kernel writes them. */
  predicate Writable(fields: seq<string>) {
    forall i :: 0 <= i < |fields| ==>
      fields[i] != "" && NoBlank(fields[i], IsWhitespace) && ')' !in fields[i]
  }

  function Print(pid: nat, comm: string, fields: seq<string>): string {
    Decimal(pid) + " (" + comm + ")" + Spaced(fields) + "\n"
  }

  /** Field n of the manual page, counted from 1, for the fields after the name. */
  function FieldOf(fields: seq<string>, n: nat): string
    requires 3 <= n < |fields| + 3
  {
    fields[n - 3]
  }

  // ---- reading back ----

  lemma {:induction false} LastIsLast(before: string, c: char, after: string)
    requires c !in after
    ensures LastOf(before + [c] + after, c) == Some(|before|)
  {
    var s := before + [c] + after;
    if after == "" {
      assert s == before + [c];
    } else {
      assert s[..|s| - 1] == before + [c] + after[..|after| - 1];
      LastIsLast(before, c, after[..|after| - 1]);
    }
  }

  lemma {:induction false} FirstIsFirst(before: string, c: char, after: string)
    requires c !in before
    ensures FirstOf(before + [c] + after, c) == Some(|before|)
  {
    var s := before + [c] + after;
    if before == "" {
      assert s == [c] + after;
    } else {
      assert s[1..] == before[1..] + [c] + after;
      FirstIsFirst(before[1..], c, after);
    }
  }

  lemma {:induction false} NoneInSpaced(fields: seq<string>)
    requires Writable(fields)
    ensures ')' !in Spaced(fields)
  {
    if fields == [] {
    } else {
      NoneInSpaced(fields[1..]);
    }
  }

  /** The last parenthesis is the one that ends the name, whatever the name is. */
  lemma NameEnds(pid: nat, comm: string, fields: seq<string>)
    requires Writable(fields)
    ensures var head := Decimal(pid) + " (" + comm;
      && LastOf(Print(pid, comm, fields), ')') == Some(|head|)
      && Print(pid, comm, fields)[|head| + 1..] == Spaced(fields) + "\n"
  {
    var head, tail := Decimal(pid) + " (" + comm, Spaced(fields) + "\n";
    NoneInSpaced(fields);
    LastIsLast(head, ')', tail);
    assert Print(pid, comm, fields) == head + [')'] + tail;
  }

  /** And the first one opens it: a process number has none. */
  lemma NameBegins(pid: nat, comm: string, fields: seq<string>)
    ensures FirstOf(Print(pid, comm, fields), '(') == Some(|Decimal(pid)| + 1)
  {
    var before := Decimal(pid) + " ";
    var after := comm + ")" + Spaced(fields) + "\n";
    assert '(' !in before by {
      assert forall i :: 0 <= i < |Decimal(pid)| ==> IsDigit(Decimal(pid)[i]);
    }
    FirstIsFirst(before, '(', after);
    assert Print(pid, comm, fields) == before + ['('] + after;
  }

  lemma NoWordsAtEnd(blank: char -> bool)
    requires blank('\n')
    ensures Words("\n", blank) == []
  {
    assert "\n"[1..] == "";
  }

  /** Whatever the command name holds, it is cut out exactly. */
  lemma {:induction false} NameSeparated(pid: nat, comm: string, fields: seq<string>)
    requires Writable(fields)
    ensures Separate(Print(pid, comm, fields)) == Some(Parts(comm, Spaced(fields) + "\n"))
  {
    var text, open, close := Print(pid, comm, fields), |Decimal(pid)| + 1, |Decimal(pid) + " (" + comm|;
    NameBegins(pid, comm, fields);
    NameEnds(pid, comm, fields);
    NameBetween(pid, comm, fields);
    SeparatedAt(text, open, close);
  }

  lemma SeparatedAt(text: string, open: nat, close: nat)
    requires FirstOf(text, '(') == Some(open) && LastOf(text, ')') == Some(close) && open < close
    ensures Separate(text) == Some(Parts(text[open + 1..close], text[close + 1..]))
  {
  }

  /** So both readers see exactly the fields behind it. */
  lemma StatSeesFields(pid: nat, comm: string, fields: seq<string>)
    requires Writable(fields) && fields != []
    ensures ReadStat(Print(pid, comm, fields)) == StatOf(fields, comm)
  {
    NameSeparated(pid, comm, fields);
    StatBehindSpace(fields, comm);
  }

  lemma StatBehindSpace(fields: seq<string>, comm: string)
    requires Writable(fields) && fields != []
    ensures StatAfter(Spaced(fields) + "\n", comm) == StatOf(fields, comm)
  {
    FieldsBehindSpace(fields);
  }

  lemma NicenessSeesFields(pid: nat, comm: string, fields: seq<string>)
    requires Writable(fields)
    ensures Niceness(Print(pid, comm, fields)) == NicenessOf(fields)
  {
    BehindName(pid, comm, fields);
    FieldsReadBack(fields);
  }

  lemma BehindName(pid: nat, comm: string, fields: seq<string>)
    requires Writable(fields)
    ensures BehindLast(Print(pid, comm, fields), ')') == Some(Spaced(fields) + "\n")
  {
    NameEnds(pid, comm, fields);
  }

  lemma FieldsReadBack(fields: seq<string>)
    requires Writable(fields)
    ensures Words(Spaced(fields) + "\n", IsAsciiWhitespace) == fields
    ensures Words(Spaced(fields) + "\n", IsWhitespace) == fields
  {
    WordsOfSpaced(fields, "\n", IsWhitespace);
    NoWordsAtEnd(IsWhitespace);
    WordsOfSpaced(fields, "\n", IsAsciiWhitespace);
    NoWordsAtEnd(IsAsciiWhitespace);
  }

  /** The nice value is field 19, and must fit in 32 bits. */
  lemma NicenessReadsBack(pid: nat, comm: string, fields: seq<string>, nice: int)
    requires Writable(fields) && |fields| >= 17 && FieldOf(fields, 19) == Signed(nice)
    ensures Niceness(Print(pid, comm, fields)) ==
      if -0x8000_0000 <= nice < 0x8000_0000 then Some(nice) else None
  {
    NicenessSeesFields(pid, comm, fields);
    SignedReadsBack(nice, TWO31);
  }

  /** Without enough fields nothing is read. */
  lemma TooFewFields(pid: nat, comm: string, fields: seq<string>)
    requires Writable(fields) && fields != []
    ensures |fields| < 17 ==> Niceness(Print(pid, comm, fields)) == None
    ensures |fields| < 20 ==> ReadStat(Print(pid, comm, fields)) == None
  {
    NicenessSeesFields(pid, comm, fields);
    StatSeesFields(pid, comm, fields);
  }

  /** The state, the parent, the start time and the name itself come back. */
  lemma StatReadsBack(pid: nat, comm: string, fields: seq<string>, s: Stat)
    requires Writable(fields) && |fields| >= 20 && s.comm == comm && s.parent < TWO32 && s.start < TWO64
    requires FieldOf(fields, 3) == [s.state] && FieldOf(fields, 4) == Decimal(s.parent)
    requires FieldOf(fields, 22) == Decimal(s.start)
    ensures ReadStat(Print(pid, comm, fields)) == Some(s)
  {
    StatSeesFields(pid, comm, fields);
    UnsignedReadsBack(s.parent, TWO32);
    UnsignedReadsBack(s.start, TWO64);
  }

  lemma FieldsBehindSpace(fields: seq<string>)
    requires Writable(fields) && fields != []
    ensures var after := Spaced(fields) + "\n";
      after[0] == ' ' && Words(after[1..], IsWhitespace) == fields
  {
    var after := Spaced(fields) + "\n";
    FieldsReadBack(fields);
    SkipBlank(' ', after[1..], IsWhitespace);
    assert after == [' '] + after[1..];
  }

  lemma NameBetween(pid: nat, comm: string, fields: seq<string>)
    ensures var head := Decimal(pid) + " (" + comm;
      Print(pid, comm, fields)[|Decimal(pid)| + 2..|head|] == comm
  {
    var head := Decimal(pid) + " (" + comm;
    assert Print(pid, comm, fields)[..|head|] == head;
  }
}
