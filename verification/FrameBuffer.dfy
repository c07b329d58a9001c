/** The receive loop of the scripted 9P peers: bytes arrive in arbitrary chunks,
    whole messages are dispatched, and the rest waits in a fixed buffer. */
module FrameBuffer {

  type byte = n: nat | n < 256

  const CAPACITY: nat := 16384

  /** The smallest message: its size, type and tag. */
  const HEADER: nat := 7

  /** size[4], least significant byte first. */
  function Size(s: seq<byte>): nat
    requires |s| >= 4
  {
    s[0] as int + 0x100 * (s[1] as int) + 0x1_0000 * (s[2] as int) + 0x100_0000 * (s[3] as int)
  }

  // ---- what a stream means ----

  /** Open: more bytes are welcome. Undersized: a size below the header, which
      ends the peer. Oversized: a message that can never fit, behind which the
      full buffer leaves no room to receive. */
  datatype End = Open | Undersized | Oversized

  datatype Parse = Parse(frames: seq<seq<byte>>, residue: seq<byte>, end: End)

  function Behind(frames: seq<seq<byte>>, rest: Parse): Parse {
    rest.(frames := frames + rest.frames)
  }

  function Reassemble(stream: seq<byte>, capacity: nat): (r: Parse)
    decreases |stream|
  {
    if |stream| < 4 then Parse([], stream, Open)
    else
      var size := Size(stream);
      if size <= |stream| && size <= capacity then
        if size < HEADER then Parse([], stream[..4], Undersized)
        else Behind([stream[..size]], Reassemble(stream[size..], capacity))
      else if size > capacity && |stream| >= capacity then Parse([], stream[..capacity], Oversized)
      else Parse([], stream, Open)
  }

  predicate IsFrame(f: seq<byte>, capacity: nat) {
    4 <= |f| && Size(f) == |f| && HEADER <= |f| <= capacity
  }

  function Flatten(frames: seq<seq<byte>>): seq<byte> {
    if frames == [] then [] else frames[0] + Flatten(frames[1..])
  }

  /** No whole message waits, and the one in progress fits. */
  predicate Partial(s: seq<byte>, capacity: nat) {
    |s| < 4 || (|s| < Size(s) && (Size(s) <= capacity || |s| < capacity))
  }

  /** A message that can never fit has filled the buffer. */
  predicate Blocked(s: seq<byte>, capacity: nat) {
    |s| >= 4 && |s| >= capacity && Size(s) > capacity
  }

  /** A whole message is announced that is too small to be one. */
  predicate Malformed(s: seq<byte>) {
    |s| >= 4 && |s| >= Size(s) && Size(s) < HEADER
  }

  predicate AllFit(frames: seq<seq<byte>>, capacity: nat) {
    forall i :: 0 <= i < |frames| ==> IsFrame(frames[i], capacity)
  }

  /** What a parse says about its stream: messages that fit, and behind them a part
      of one, a malformed one, or one that can never fit. */
  predicate Describes(r: Parse, rest: seq<byte>, capacity: nat) {
    && AllFit(r.frames, capacity)
    && match r.end
       case Open => r.residue == rest && Partial(rest, capacity)
       case Undersized => Malformed(rest) && r.residue == rest[..4]
       case Oversized => Blocked(rest, capacity) && r.residue == rest[..capacity]
  }

  /** Everything received is dispatched or held, and the end says what is held: the
      messages and the rest spell the stream. */
  lemma {:induction false} NothingLost(stream: seq<byte>, capacity: nat) returns (rest: seq<byte>)
    requires capacity >= HEADER
    ensures stream == Flatten(Reassemble(stream, capacity).frames) + rest
    ensures Describes(Reassemble(stream, capacity), rest, capacity)
    decreases |stream|
  {
    if Ready(stream, capacity) {
      var frame, tail := stream[..Size(stream)], stream[Size(stream)..];
      ReadyFrame(stream, capacity);
      rest := NothingLost(tail, capacity);
      FlattenBehind(frame, Reassemble(tail, capacity).frames, rest);
    } else {
      rest := stream;
    }
  }

  lemma FlattenBehind(frame: seq<byte>, frames: seq<seq<byte>>, rest: seq<byte>)
    ensures Flatten([frame] + frames) + rest == frame + (Flatten(frames) + rest)
  {
    assert ([frame] + frames)[1..] == frames;
  }

  /** The other way round: messages that fit, and then anything whose parse holds no
      message, are dispatched as they were sent, and the end is that of the rest. */
  lemma {:induction false} FramesThenRest(frames: seq<seq<byte>>, rest: seq<byte>, capacity: nat)
    requires AllFit(frames, capacity) && Reassemble(rest, capacity).frames == []
    ensures Reassemble(Flatten(frames) + rest, capacity) == Reassemble(rest, capacity).(frames := frames)
  {
    if frames == [] {
      assert Flatten(frames) + rest == rest;
    } else {
      assert frames == [frames[0]] + frames[1..];
      FlattenBehind(frames[0], frames[1..], rest);
      FramesThenRest(frames[1..], rest, capacity);
      FrameFirst(frames[0], Flatten(frames[1..]) + rest, capacity);
    }
  }

  /** A parse describes its stream in exactly one way. */
  lemma ParseIff(stream: seq<byte>, r: Parse, capacity: nat)
    requires capacity >= HEADER
    ensures Reassemble(stream, capacity) == r <==>
      exists rest :: stream == Flatten(r.frames) + rest && Describes(r, rest, capacity)
  {
    if Reassemble(stream, capacity) == r {
      var rest := NothingLost(stream, capacity);
    }
    forall rest | stream == Flatten(r.frames) + rest && Describes(r, rest, capacity)
      ensures Reassemble(stream, capacity) == r
    {
      FramesThenRest(r.frames, rest, capacity);
    }
  }

  /** The peer is blocked exactly by a message too large for its buffer that comes,
      after messages that fit, with enough bytes to fill it. */
  lemma OversizedIff(stream: seq<byte>, capacity: nat)
    requires capacity >= HEADER
    ensures Reassemble(stream, capacity).end == Oversized <==>
      exists frames, rest :: stream == Flatten(frames) + rest && AllFit(frames, capacity) && Blocked(rest, capacity)
  {
    if Reassemble(stream, capacity).end == Oversized {
      var rest := NothingLost(stream, capacity);
    }
    forall frames, rest | stream == Flatten(frames) + rest && AllFit(frames, capacity) && Blocked(rest, capacity)
      ensures Reassemble(stream, capacity).end == Oversized
    {
      FramesThenRest(frames, rest, capacity);
    }
  }

  /** And stopped exactly by a whole message smaller than a header. */
  lemma UndersizedIff(stream: seq<byte>, capacity: nat)
    requires capacity >= HEADER
    ensures Reassemble(stream, capacity).end == Undersized <==>
      exists frames, rest :: stream == Flatten(frames) + rest && AllFit(frames, capacity) && Malformed(rest)
  {
    if Reassemble(stream, capacity).end == Undersized {
      var rest := NothingLost(stream, capacity);
    }
    forall frames, rest | stream == Flatten(frames) + rest && AllFit(frames, capacity) && Malformed(rest)
      ensures Reassemble(stream, capacity).end == Undersized
    {
      FramesThenRest(frames, rest, capacity);
    }
  }

  /** A stream that blocks a peer: any size field above the capacity, and bytes
      enough to fill the buffer behind it. */
  lemma FilledBufferBlocks(filling: seq<byte>)
    requires |filling| == CAPACITY && Size(filling) > CAPACITY
    ensures Reassemble(filling, CAPACITY) == Parse([], filling, Oversized)
  {
    assert filling[..CAPACITY] == filling;
  }

  lemma SomeStreamBlocks() returns (stream: seq<byte>)
    ensures |stream| == CAPACITY && Reassemble(stream, CAPACITY).end == Oversized
  {
    stream := seq(CAPACITY, i => 255);
    FilledBufferBlocks(stream);
  }

  /** Any messages that fit, followed by part of one, come back as they were sent. */
  lemma FramesReadBack(frames: seq<seq<byte>>, partial: seq<byte>, capacity: nat)
    requires AllFit(frames, capacity) && Partial(partial, capacity)
    ensures Reassemble(Flatten(frames) + partial, capacity) == Parse(frames, partial, Open)
  {
    FramesThenRest(frames, partial, capacity);
  }

  // ---- messages as they are written ----

  const TWO32: nat := 0x1_0000_0000

  datatype Message = Message(kind: byte, tag: nat, body: seq<byte>)

  /** A number in four bytes, the least significant first. */
  function FourBytes(n: nat): (s: seq<byte>)
    requires n < TWO32
    ensures |s| == 4
  {
    [n % 256, n / 256 % 256, n / 65536 % 256, n / 16777216]
  }

  /** And in two. */
  function TwoBytes(n: nat): (s: seq<byte>)
    requires n < 65536
    ensures |s| == 2
  {
    [n % 256, n / 256]
  }

  predicate Encodable(m: Message) {
    m.tag < 65536 && 7 + |m.body| < TWO32
  }

  predicate Sendable(m: Message, capacity: nat) {
    Encodable(m) && 7 + |m.body| <= capacity
  }

  /** size[4] type[1] tag[2] and the body: the size counts itself. */
  function Written(m: Message): (s: seq<byte>)
    requires Encodable(m)
    ensures |s| == 7 + |m.body|
  {
    FourBytes(7 + |m.body|) + [m.kind] + TwoBytes(m.tag) + m.body
  }

  lemma Digit(n: nat, low: int, high: int)
    requires n == low + 256 * high && 0 <= low < 256
    ensures n % 256 == low && n / 256 == high
  {
  }

  lemma Quotients(n: nat)
    ensures n / 65536 == n / 256 / 256 && n / 16777216 == n / 256 / 256 / 256
  {
  }

  /** Four digits to base 256 determine a number and are determined by it. */
  lemma DigitsIff(n: nat, a: int, b: int, c: int, d: int)
    requires 0 <= a < 256 && 0 <= b < 256 && 0 <= c < 256 && 0 <= d < 256
    ensures n == a + 256 * (b + 256 * (c + 256 * d)) <==>
      a == n % 256 && b == n / 256 % 256 && c == n / 256 / 256 % 256 && d == n / 256 / 256 / 256
  {
    if n == a + 256 * (b + 256 * (c + 256 * d)) {
      Digit(n, a, b + 256 * (c + 256 * d));
      Digit(n / 256, b, c + 256 * d);
      Digit(n / 256 / 256, c, d);
    }
  }

  /** The size field reads as the number that was written, and as no other. */
  lemma SizeIff(s: seq<byte>, n: nat)
    requires |s| >= 4 && n < TWO32
    ensures Size(s) == n <==> s[..4] == FourBytes(n)
  {
    var a: int, b: int, c: int, d: int := s[0], s[1], s[2], s[3];
    assert Size(s) == a + 256 * (b + 256 * (c + 256 * d));
    DigitsIff(n, a, b, c, d);
    Quotients(n);
    assert s[..4] == [s[0], s[1], s[2], s[3]];
  }

  lemma WrittenSize(m: Message, cut: nat)
    requires Encodable(m) && 4 <= cut <= |Written(m)|
    ensures Size(Written(m)[..cut]) == |Written(m)|
  {
    assert Written(m)[..cut][..4] == FourBytes(|Written(m)|);
    SizeIff(Written(m)[..cut], |Written(m)|);
  }

  function Writings(messages: seq<Message>): (frames: seq<seq<byte>>)
    requires forall i :: 0 <= i < |messages| ==> Encodable(messages[i])
    ensures |frames| == |messages| && forall i :: 0 <= i < |messages| ==> frames[i] == Written(messages[i])
  {
    if messages == [] then [] else [Written(messages[0])] + Writings(messages[1..])
  }

  /** Messages written one after the other, and any part of one more, are received as
      they were written: each whole message is dispatched, and the part is held. */
  lemma MessagesReadBack(messages: seq<Message>, next: Message, cut: nat, capacity: nat)
    requires forall i :: 0 <= i < |messages| ==> Encodable(messages[i]) && Sendable(messages[i], capacity)
    requires Sendable(next, capacity) && cut < |Written(next)|
    ensures Reassemble(Flatten(Writings(messages)) + Written(next)[..cut], capacity)
         == Parse(Writings(messages), Written(next)[..cut], Open)
  {
    var frames := Writings(messages);
    forall i | 0 <= i < |frames| ensures IsFrame(frames[i], capacity) {
      WrittenIsFrame(messages[i], capacity);
    }
    if cut >= 4 { WrittenSize(next, cut); }
    FramesReadBack(frames, Written(next)[..cut], capacity);
  }

  lemma WrittenIsFrame(m: Message, capacity: nat)
    requires Sendable(m, capacity)
    ensures IsFrame(Written(m), capacity)
  {
    WrittenSize(m, |Written(m)|);
    assert Written(m)[..|Written(m)|] == Written(m);
  }

  /** Whatever is dispatched was written by exactly one message. */
  lemma FrameIsWritten(f: seq<byte>, capacity: nat) returns (m: Message)
    requires IsFrame(f, capacity)
    ensures Sendable(m, capacity) && f == Written(m)
  {
    SizeBound(f);
    SizeIff(f, |f|);
    m := Message(f[4], f[5] as int + 256 * f[6] as int, f[7..]);
    Digit(m.tag, f[5], f[6]);
    assert f == f[..4] + [f[4]] + [f[5], f[6]] + f[7..];
  }

  lemma SizeBound(s: seq<byte>)
    requires |s| >= 4
    ensures Size(s) < TWO32
  {
  }

  lemma FrameFirst(frame: seq<byte>, rest: seq<byte>, capacity: nat)
    requires IsFrame(frame, capacity)
    ensures Reassemble(frame + rest, capacity) == Behind([frame], Reassemble(rest, capacity))
  {
    var stream := frame + rest;
    assert Size(stream) == Size(frame);
    assert stream[..|frame|] == frame && stream[|frame|..] == rest;
  }

  lemma BehindTwice(earlier: seq<seq<byte>>, later: seq<seq<byte>>, rest: Parse)
    ensures Behind(earlier, Behind(later, rest)) == Behind(earlier + later, rest)
  {
  }

  /** What the next message is, when one is whole. */
  predicate Ready(s: seq<byte>, capacity: nat) {
    |s| >= 4 && HEADER <= Size(s) <= |s| && Size(s) <= capacity
  }

  lemma ReadyFrame(s: seq<byte>, capacity: nat)
    requires Ready(s, capacity)
    ensures IsFrame(s[..Size(s)], capacity) && s == s[..Size(s)] + s[Size(s)..]
    ensures Reassemble(s, capacity) == Behind([s[..Size(s)]], Reassemble(s[Size(s)..], capacity))
  {
  }

  /** Reading may stop anywhere and resume from the residue. */
  lemma {:induction false} Resume(a: seq<byte>, b: seq<byte>, capacity: nat)
    requires Reassemble(a, capacity).end == Open
    ensures var r := Reassemble(a, capacity);
      Reassemble(a + b, capacity) == Behind(r.frames, Reassemble(r.residue + b, capacity))
    decreases |a|
  {
    if Ready(a, capacity) {
      var frame, rest := a[..Size(a)], a[Size(a)..];
      ReadyFrame(a, capacity);
      assert a + b == frame + (rest + b);
      FrameFirst(frame, rest + b, capacity);
      Resume(rest, b, capacity);
      var r := Reassemble(rest, capacity);
      BehindTwice([frame], r.frames, Reassemble(r.residue + b, capacity));
    }
  }

  /** Once reading has ended, further bytes change nothing. */
  lemma {:induction false} EndsForGood(a: seq<byte>, b: seq<byte>, capacity: nat)
    requires capacity >= HEADER && Reassemble(a, capacity).end != Open
    ensures Reassemble(a + b, capacity) == Reassemble(a, capacity)
    decreases |a|
  {
    if Ready(a, capacity) {
      var frame, rest := a[..Size(a)], a[Size(a)..];
      ReadyFrame(a, capacity);
      assert a + b == frame + (rest + b);
      FrameFirst(frame, rest + b, capacity);
      EndsForGood(rest, b, capacity);
    } else {
      assert Size(a + b) == Size(a);
      assert (a + b)[..4] == a[..4];
      if |a| >= capacity { assert (a + b)[..capacity] == a[..capacity]; }
    }
  }

  // ---- the loop in place ----

  datatype Status = Waiting | Closed | Aborted

  class Peer {
    const input: array<byte>
    var used: nat
    var log: seq<seq<byte>>

    ghost predicate Valid()
      reads this
    {
      input.Length >= HEADER && used <= input.Length
    }

    ghost function Held(): (s: seq<byte>)
      requires Valid()
      reads this, input
      ensures |s| == used
    {
      input[..used]
    }

    constructor ()
      ensures Valid() && fresh(input) && input.Length == CAPACITY && Held() == [] && log == []
    {
      input := new byte[CAPACITY];
      used, log := 0, [];
    }

    /** Move what follows the first `bytes` bytes to the front. */
    method Discard(bytes: nat)
      requires Valid() && bytes <= used
      modifies this`used, input
      ensures Valid() && Held() == old(Held())[bytes..]
    {
      used := used - bytes;
      forall i | 0 <= i < used {
        input[i] := input[i + bytes];
      }
    }

    /** Dispatch every whole message and move what is left to the front. */
    method Drain() returns (status: Status)
      requires Valid()
      modifies this, input
      ensures Valid()
      ensures var r := Reassemble(old(Held()), input.Length);
        && log == old(log) + r.frames
        && (status == Aborted <==> r.end == Undersized)
        && (status != Aborted ==> status == Waiting && Held() == r.residue)
    {
      ghost var before, done := Held(), [];
      while used >= 4 && Size(input[..4]) <= used
        invariant Valid()
        invariant log == old(log) + done
        invariant Reassemble(before, input.Length) == Behind(done, Reassemble(Held(), input.Length))
        decreases used
      {
        var bytes := Size(input[..4]);
        ghost var held := Held();
        FirstFour(held, input[..4]);
        if bytes < HEADER { return Aborted; }
        OneMore(before, done, held, input.Length);
        assert held[..bytes] == input[..bytes];
        done := done + [held[..bytes]];
        log := log + [input[..bytes]];
        Discard(bytes);
      }
      if used >= 4 { FirstFour(Held(), input[..4]); }
      NothingWhole(Held(), input.Length);
      status := Waiting;
    }

    /** One successful receive: the bytes go behind those already held. */
    method Receive(chunk: seq<byte>) returns (status: Status)
      requires Valid() && |chunk| <= input.Length - used
      modifies this, input
      ensures Valid()
      ensures var r := Reassemble(old(Held()) + chunk, input.Length);
        && log == old(log) + r.frames
        && (status == Aborted <==> r.end == Undersized)
        && (status != Aborted ==> status == Waiting && Held() == r.residue)
    {
      ghost var held := Held();
      forall i | 0 <= i < |chunk| {
        input[used + i] := chunk[i];
      }
      used := used + |chunk|;
      assert Held() == held + chunk;
      status := Drain();
    }

    ghost predicate Follows(r: Parse)
      requires Valid()
      reads this, input
    {
      log == r.frames && Held() == r.residue && r.end != Undersized
    }

    /** The whole conversation. `grain` says how the transport cuts the stream:
        each receive delivers between one byte and all that fits. A receive that
        delivers nothing reads as the other side having closed. */
    method Serve(stream: seq<byte>, grain: nat -> nat) returns (status: Status)
      requires Valid() && used == 0 && log == []
      modifies this, input
      ensures Valid()
      ensures var r := Reassemble(stream, input.Length);
        && log == r.frames
        && (status == if r.end == Undersized then Aborted else Closed)
        && (status == Closed ==> Held() == r.residue)
    {
      var sent := 0;
      status := Waiting;
      assert stream[..0] == [];
      while status == Waiting
        invariant Valid() && sent <= |stream|
        invariant status == Waiting ==> Follows(Reassemble(stream[..sent], input.Length))
        invariant status == Aborted ==> Stopped(Reassemble(stream, input.Length))
        invariant status == Closed ==> Follows(Reassemble(stream, input.Length))
        decreases status == Waiting, |stream| - sent
      {
        status, sent := Poll(stream, sent, grain);
      }
    }

    ghost predicate Stopped(r: Parse)
      reads this
    {
      log == r.frames && r.end == Undersized
    }

    /** One turn: a receive that delivers nothing is taken for a close. */
    method Poll(stream: seq<byte>, sent: nat, grain: nat -> nat) returns (status: Status, next: nat)
      requires Valid() && sent <= |stream| && Follows(Reassemble(stream[..sent], input.Length))
      modifies this, input
      ensures Valid() && sent <= next <= |stream|
      ensures status == Waiting ==> sent < next && Follows(Reassemble(stream[..next], input.Length))
      ensures status == Aborted ==> Stopped(Reassemble(stream, input.Length))
      ensures status == Closed ==> Follows(Reassemble(stream, input.Length))
    {
      var room := input.Length - used;
      var available := if |stream| - sent < room then |stream| - sent else room;
      Continues(stream, sent, input.Length);
      if available == 0 { return Closed, sent; }
      next := sent + 1 + grain(sent) % available;
      Delivered(stream, sent, next, input.Length);
      status := Receive(stream[sent..next]);
      if status == Aborted { Continues(stream, next, input.Length); }
    }
  }

  lemma FirstFour(held: seq<byte>, first: seq<byte>)
    requires |held| >= 4 && |first| == 4 && first == held[..4]
    ensures Size(held) == Size(first)
  {
  }

  lemma OneMore(before: seq<byte>, done: seq<seq<byte>>, held: seq<byte>, capacity: nat)
    requires Ready(held, capacity) && Reassemble(before, capacity) == Behind(done, Reassemble(held, capacity))
    ensures Reassemble(before, capacity) ==
      Behind(done + [held[..Size(held)]], Reassemble(held[Size(held)..], capacity))
  {
    ReadyFrame(held, capacity);
    BehindTwice(done, [held[..Size(held)]], Reassemble(held[Size(held)..], capacity));
  }

  lemma NothingWhole(held: seq<byte>, capacity: nat)
    requires |held| <= capacity && (|held| < 4 || |held| < Size(held))
    ensures var r := Reassemble(held, capacity); r.frames == [] && r.residue == held && r.end != Undersized
  {
    if |held| == capacity { assert held[..capacity] == held; }
  }

  /** The end of a prefix that did not stay open is the end of the stream; and
      one that did leaves room. */
  lemma Continues(stream: seq<byte>, sent: nat, capacity: nat)
    requires sent <= |stream| && capacity >= HEADER
    ensures var r := Reassemble(stream[..sent], capacity);
      && (r.end != Open || sent == |stream| ==> Reassemble(stream, capacity) == r)
      && (r.end == Open ==> |r.residue| < capacity)
      && (r.end == Oversized ==> |r.residue| == capacity)
  {
    assert stream == stream[..sent] + stream[sent..];
    if Reassemble(stream[..sent], capacity).end != Open {
      EndsForGood(stream[..sent], stream[sent..], capacity);
    } else if sent == |stream| {
      assert stream[..sent] == stream;
    }
    FullIsOversized(stream[..sent], capacity);
  }

  lemma Delivered(stream: seq<byte>, sent: nat, next: nat, capacity: nat)
    requires sent <= next <= |stream| && Reassemble(stream[..sent], capacity).end == Open
    ensures var r := Reassemble(stream[..sent], capacity);
      Reassemble(stream[..next], capacity) == Behind(r.frames, Reassemble(r.residue + stream[sent..next], capacity))
  {
    assert stream[..next] == stream[..sent] + stream[sent..next];
    Resume(stream[..sent], stream[sent..next], capacity);
  }

  /** The buffer is full exactly when the message in progress is too large for it. */
  lemma FullIsOversized(stream: seq<byte>, capacity: nat)
    requires capacity >= HEADER
    ensures var r := Reassemble(stream, capacity);
      && |r.residue| <= capacity
      && (|r.residue| == capacity <==> r.end == Oversized)
      && (|r.residue| == capacity ==> Size(r.residue) > capacity)
  {
    var rest := NothingLost(stream, capacity);
    var r := Reassemble(stream, capacity);
    if r.end == Oversized { assert Size(rest[..capacity]) == Size(rest); }
  }
}
