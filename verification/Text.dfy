/** Text as the readers see it: words between blanks, byte-addressed pieces of
    UTF-8 strings, and decimal numbers with the printers they invert. */
module Text {
  import opened Prelude

  // ---- blanks and words ----

  /** White space in the Unicode sense. */
  predicate IsWhitespace(c: char) {
    || '\t' <= c <= '\r' || c == ' ' || c == '\U{85}' || c == '\U{A0}' || c == '\U{1680}'
    || '\U{2000}' <= c <= '\U{200A}' || c == '\U{2028}' || c == '\U{2029}'
    || c == '\U{202F}' || c == '\U{205F}' || c == '\U{3000}'
  }

  /** White space among the ASCII characters, which leaves out the vertical tab. */
  predicate IsAsciiWhitespace(c: char) {
    c == ' ' || c == '\t' || c == '\n' || c == '\U{0C}' || c == '\r'
  }

  predicate NoBlank(word: string, blank: char -> bool) {
    forall i :: 0 <= i < |word| ==> !blank(word[i])
  }

  predicate BlankFirst(s: string, blank: char -> bool) {
    s == "" || blank(s[0])
  }

  function WordLength(s: string, blank: char -> bool): (n: nat)
    ensures n <= |s| && NoBlank(s[..n], blank) && BlankFirst(s[n..], blank)
  {
    if BlankFirst(s, blank) then 0
    else
      var n := WordLength(s[1..], blank);
      assert s[..n + 1] == [s[0]] + s[1..][..n];
      n + 1
  }

  /** The maximal runs without blanks. */
  function Words(s: string, blank: char -> bool): seq<string>
    decreases |s|
  {
    if s == "" then []
    else if blank(s[0]) then Words(s[1..], blank)
    else
      var n := WordLength(s, blank);
      assert n > 0;
      [s[..n]] + Words(s[n..], blank)
  }

  lemma FirstWord(word: string, rest: string, blank: char -> bool)
    requires word != "" && NoBlank(word, blank) && BlankFirst(rest, blank)
    ensures Words(word + rest, blank) == [word] + Words(rest, blank)
  {
    WordStops(word, rest, blank);
    var s := word + rest;
    assert s[0] == word[0];
    assert s[..|word|] == word && s[|word|..] == rest;
  }

  lemma {:induction false} WordStops(word: string, rest: string, blank: char -> bool)
    requires NoBlank(word, blank) && BlankFirst(rest, blank)
    ensures WordLength(word + rest, blank) == |word|
  {
    if word == "" {
      assert word + rest == rest;
    } else {
      WordStops(word[1..], rest, blank);
      assert (word + rest)[1..] == word[1..] + rest;
    }
  }

  /** Every word behind one space. */
  function Spaced(words: seq<string>): string {
    if words == [] then "" else " " + words[0] + Spaced(words[1..])
  }

  lemma {:induction false} WordsOfSpaced(words: seq<string>, rest: string, blank: char -> bool)
    requires blank(' ') && BlankFirst(rest, blank)
    requires forall i :: 0 <= i < |words| ==> words[i] != "" && NoBlank(words[i], blank)
    ensures Words(Spaced(words) + rest, blank) == words + Words(rest, blank)
  {
    if words == [] {
      assert Spaced(words) + rest == rest;
    } else {
      WordsOfSpaced(words[1..], rest, blank);
      var tail := SpacedBegins(words, rest, blank);
      SpacedWord(words[0], tail, blank);
      Regroup(words, Words(rest, blank));
    }
  }

  lemma Associate(a: string, b: string, c: string, d: string)
    ensures a + b + c + d == a + (b + (c + d))
  {
  }

  lemma SpacedBegins(words: seq<string>, rest: string, blank: char -> bool) returns (tail: string)
    requires words != [] && blank(' ') && BlankFirst(rest, blank)
    ensures tail == Spaced(words[1..]) + rest && BlankFirst(tail, blank)
    ensures Spaced(words) + rest == " " + (words[0] + tail)
  {
    tail := Spaced(words[1..]) + rest;
    Associate(" ", words[0], Spaced(words[1..]), rest);
  }

  lemma Regroup<T>(s: seq<T>, t: seq<T>)
    requires s != []
    ensures [s[0]] + (s[1..] + t) == s + t
  {
  }

  lemma SpacedWord(word: string, tail: string, blank: char -> bool)
    requires blank(' ') && word != "" && NoBlank(word, blank) && BlankFirst(tail, blank)
    ensures Words(" " + (word + tail), blank) == [word] + Words(tail, blank)
  {
    SkipBlank(' ', word + tail, blank);
    FirstWord(word, tail, blank);
  }

  lemma SkipBlank(c: char, s: string, blank: char -> bool)
    requires blank(c)
    ensures Words([c] + s, blank) == Words(s, blank)
  {
    assert ([c] + s)[1..] == s;
  }

  // ---- byte-addressed pieces ----

  function Utf8Length(c: char): nat {
    if c < '\U{80}' then 1 else if c < '\U{800}' then 2 else if c < '\U{10000}' then 3 else 4
  }

  function ByteLength(s: string): nat {
    if s == "" then 0 else Utf8Length(s[0]) + ByteLength(s[1..])
  }

  /** `None` when the offset is past the end or inside a character. */
  function DropBytes(s: string, n: nat): Option<string> {
    if n == 0 then Some(s)
    else if s == "" || Utf8Length(s[0]) > n then None
    else DropBytes(s[1..], n - Utf8Length(s[0]))
  }

  function TakeBytes(s: string, n: nat): (r: Option<string>)
    ensures r.Some? ==> |r.value| <= n
  {
    if n == 0 then Some("")
    else if s == "" || Utf8Length(s[0]) > n then None
    else
      var tail :- TakeBytes(s[1..], n - Utf8Length(s[0]));
      Some([s[0]] + tail)
  }

  function Piece(s: string, from: nat, to: nat): (r: Option<string>)
    requires from <= to
    ensures r.Some? ==> |r.value| <= to - from
  {
    var tail :- DropBytes(s, from);
    TakeBytes(tail, to - from)
  }

  lemma {:induction false} DropBehind(a: string, rest: string)
    ensures DropBytes(a + rest, ByteLength(a)) == Some(rest)
  {
    if a == "" {
      assert a + rest == rest;
    } else {
      assert (a + rest)[1..] == a[1..] + rest;
      DropBehind(a[1..], rest);
    }
  }

  lemma {:induction false} DropLeaves(s: string, n: nat) returns (a: string)
    requires DropBytes(s, n).Some?
    ensures s == a + DropBytes(s, n).value && ByteLength(a) == n
  {
    if n == 0 {
      a := "";
    } else {
      var tail := DropLeaves(s[1..], n - Utf8Length(s[0]));
      a := [s[0]] + tail;
      assert a[1..] == tail && s == [s[0]] + s[1..];
    }
  }

  lemma {:induction false} TakeBefore(p: string, rest: string)
    ensures TakeBytes(p + rest, ByteLength(p)) == Some(p)
  {
    if p == "" {
    } else {
      assert (p + rest)[1..] == p[1..] + rest;
      TakeBefore(p[1..], rest);
      assert p == [p[0]] + p[1..];
    }
  }

  lemma {:induction false} TakeLeaves(s: string, n: nat) returns (rest: string)
    requires TakeBytes(s, n).Some?
    ensures s == TakeBytes(s, n).value + rest && ByteLength(TakeBytes(s, n).value) == n
  {
    if n == 0 {
      rest := s;
    } else {
      rest := TakeLeaves(s[1..], n - Utf8Length(s[0]));
      var tail := TakeBytes(s[1..], n - Utf8Length(s[0])).value;
      assert ([s[0]] + tail)[1..] == tail && s == [s[0]] + s[1..];
    }
  }

  predicate PieceAt(s: string, before: string, p: string, behind: string, from: nat, to: nat) {
    s == before + (p + behind) && ByteLength(before) == from && ByteLength(p) + from == to
  }

  /** A piece is what lies between two byte offsets that fall between characters, and
      where one does not there is none. */
  lemma PieceIff(s: string, from: nat, to: nat, p: string)
    requires from <= to
    ensures Piece(s, from, to) == Some(p) <==> exists before, behind :: PieceAt(s, before, p, behind, from, to)
  {
    if Piece(s, from, to) == Some(p) {
      var before := DropLeaves(s, from);
      var behind := TakeLeaves(DropBytes(s, from).value, to - from);
      assert PieceAt(s, before, p, behind, from, to);
    }
    forall before, behind | PieceAt(s, before, p, behind, from, to) ensures Piece(s, from, to) == Some(p) {
      DropBehind(before, p + behind);
      TakeBefore(p, behind);
    }
  }

  predicate Ascii(s: string) {
    forall i :: 0 <= i < |s| ==> s[i] < '\U{80}'
  }

  lemma {:induction false} AsciiLength(s: string)
    requires Ascii(s)
    ensures ByteLength(s) == |s|
  {
    if s == "" {
    } else {
      AsciiLength(s[1..]);
    }
  }

  lemma {:induction false} AsciiDrop(s: string, n: nat)
    requires Ascii(s) && n <= |s|
    ensures DropBytes(s, n) == Some(s[n..])
  {
    if n == 0 {
    } else {
      AsciiDrop(s[1..], n - 1);
      assert s[1..][n - 1..] == s[n..];
    }
  }

  lemma {:induction false} AsciiTake(s: string, n: nat)
    requires Ascii(s) && n <= |s|
    ensures TakeBytes(s, n) == Some(s[..n])
  {
    if n == 0 {
    } else {
      AsciiTake(s[1..], n - 1);
      assert [s[0]] + s[1..][..n - 1] == s[..n];
    }
  }

  lemma AsciiPiece(s: string, from: nat, to: nat)
    requires Ascii(s) && from <= to <= |s|
    ensures Piece(s, from, to) == Some(s[from..to])
  {
    AsciiDrop(s, from);
    AsciiTake(s[from..], to - from);
    assert s[from..][..to - from] == s[from..to];
  }

  // ---- decimal numbers ----

  function Pow10(n: nat): (r: int)
    ensures r >= 1
  {
    if n == 0 then 1 else 10 * Pow10(n - 1)
  }

  predicate IsDigit(c: char) {
    '0' <= c <= '9'
  }

  predicate AllDigits(s: string) {
    forall i :: 0 <= i < |s| ==> IsDigit(s[i])
  }

  function Digit(n: nat): (c: char)
    requires n < 10
    ensures IsDigit(c)
  {
    ('0' as int + n) as char
  }

  function Value(s: string): (r: nat)
    requires AllDigits(s)
    ensures r < Pow10(|s|)
  {
    if s == "" then 0
    else
      var n := |s| - 1;
      10 * Value(s[..n]) + (s[n] as int - '0' as int)
  }

  function ParseDigits(s: string): (r: Option<nat>)
    ensures r.Some? ==> r.value < Pow10(|s|)
  {
    if s != "" && AllDigits(s) then Some(Value(s)) else None
  }

  /** An unsigned number below `bound`: digits, after an optional plus sign. */
  function ParseUnsigned(s: string, bound: nat): (r: Option<nat>)
    ensures r.Some? ==> r.value < bound
  {
    var v :- ParseDigits(if s != "" && s[0] == '+' then s[1..] else s);
    if v < bound then Some(v) else None
  }

  /** A signed number in two's-complement range: digits, after an optional sign. */
  function ParseSigned(s: string, bound: int): (r: Option<int>)
    requires bound > 0
    ensures r.Some? ==> -bound <= r.value < bound && -Pow10(|s|) < r.value < Pow10(|s|)
  {
    if s != "" && s[0] == '-' then
      var v :- ParseDigits(s[1..]);
      var negated := 0 - v as int;
      if -bound <= negated then Some(negated) else None
    else if s != "" && s[0] == '+' then
      var v :- ParseDigits(s[1..]);
      if v < bound then Some(v) else None
    else
      var v :- ParseDigits(s);
      if v < bound then Some(v) else None
  }

  /** Exactly `width` digits. */
  function Padded(n: nat, width: nat): (s: string)
    ensures |s| == width && AllDigits(s)
  {
    if width == 0 then "" else Padded(n / 10, width - 1) + [Digit(n % 10)]
  }

  lemma {:induction false} PaddedReadsBack(n: nat, width: nat)
    requires n < Pow10(width)
    ensures Value(Padded(n, width)) == n
  {
    if width == 0 {
    } else {
      var s := Padded(n, width);
      PaddedReadsBack(n / 10, width - 1);
      assert s[..width - 1] == Padded(n / 10, width - 1);
    }
  }

  /** Without leading zeros. */
  function Decimal(n: nat): (s: string)
    ensures s != "" && AllDigits(s)
  {
    if n < 10 then [Digit(n)] else Decimal(n / 10) + [Digit(n % 10)]
  }

  lemma {:induction false} DecimalReadsBack(n: nat)
    ensures Value(Decimal(n)) == n
  {
    var s := Decimal(n);
    if n < 10 {
      assert s[..0] == "";
    } else {
      DecimalReadsBack(n / 10);
      assert s[..|s| - 1] == Decimal(n / 10);
    }
  }

  function Signed(n: int): (s: string)
    ensures s != ""
  {
    if n < 0 then "-" + Decimal(-n) else Decimal(n)
  }

  /** A signed number reads back exactly when it is in range. */
  lemma {:induction false} SignedReadsBack(n: int, bound: int)
    requires bound > 0
    ensures ParseSigned(Signed(n), bound) == if -bound <= n < bound then Some(n) else None
  {
    if n < 0 {
      MinusReadsBack(0 - n, bound);
    } else {
      PlainReadsBack(n, bound);
    }
  }

  lemma {:induction false} MinusReadsBack(n: int, bound: int)
    requires bound > 0 && 0 < n
    ensures ParseSigned("-" + Decimal(n), bound) == if n <= bound then Some(0 - n) else None
  {
    DecimalReadsBack(n);
    assert ("-" + Decimal(n))[1..] == Decimal(n);
  }

  lemma {:induction false} PlainReadsBack(n: int, bound: int)
    requires bound > 0 && 0 <= n
    ensures ParseSigned(Decimal(n), bound) == if n < bound then Some(n) else None
  {
    DecimalReadsBack(n);
  }

  /** And so does an unsigned one. */
  lemma UnsignedReadsBack(n: nat, bound: nat)
    ensures ParseUnsigned(Decimal(n), bound) == if n < bound then Some(n) else None
  {
    DecimalReadsBack(n);
  }

  /** A plus sign changes nothing. */
  lemma PlusReadsBack(n: nat, bound: nat)
    ensures ParseUnsigned("+" + Decimal(n), bound) == if n < bound then Some(n) else None
    ensures bound > 0 ==> ParseSigned("+" + Decimal(n), bound) == if n < bound then Some(n as int) else None
  {
    DecimalReadsBack(n);
    assert ("+" + Decimal(n))[1..] == Decimal(n);
  }
}
