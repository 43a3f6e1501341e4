/**
  Binary frames: one message is a head frame and the `DATA` frames of its buffers, the frames
  of several streams interleave on one byte stream, and the receiver reassembles each stream.

  `Encode` and `Parse` are the layout. `Outgoing` and `Receiver` are the two ends, updated in
  place over a transport that may write and read fewer bytes than asked. `OnFrame` is what one
  frame does to the receiver.
*/
module Frames {
  import opened Bytes

  const MAGIC: Data := [0x4c, 0x46]
  const HEADER_SIZE: nat := 16

  const HELLO: nat := 1
  const REQUEST: nat := 2
  const REPLY: nat := 3
  const DATA: nat := 4
  const STDOUT: nat := 5
  const STDERR: nat := 6
  const SHUTDOWN: nat := 7

  /** The largest payload of one `DATA` frame. */
  const CHUNK: nat := 0x80_0000

  /** Frames at most this large are written with their header in one call. */
  const JOIN_LIMIT: nat := 0x1_0000

  /** High bit of a buffer length in a head: the buffer is to be a `bytes` object. */
  const AS_BYTES: nat := 0x8000_0000_0000_0000

  const U32: nat := 0x1_0000_0000
  const U64: nat := 0x1_0000_0000_0000_0000

  // ---------------------------------------------------------------- layout

  datatype Frame = Frame(kind: nat, stream: nat, payload: Data)

  /** What struct accepts for the header's fields. */
  predicate Fits(f: Frame) {
    f.kind < 256 && f.stream < U32 && |f.payload| < U64
  }

  function Header(kind: nat, stream: nat, length: nat): (r: Data)
    requires kind < 256
    ensures |r| == HEADER_SIZE
  {
    MAGIC + [kind as Byte, 0] + Pack(stream, 4) + Pack(length, 8)
  }

  function Encode(f: Frame): Data
    requires Fits(f)
  {
    Header(f.kind, f.stream, |f.payload|) + f.payload
  }

  function EncodeAll(fs: seq<Frame>): Data
    requires forall f | f in fs :: Fits(f)
  {
    if fs == [] then [] else Encode(fs[0]) + EncodeAll(fs[1..])
  }

  datatype Parsed = Whole(frame: Frame, rest: Data) | Short | BadMagic

  function Parse(b: Data): Parsed {
    if |b| < HEADER_SIZE then Short
    else if b[..2] != MAGIC then BadMagic
    else
      var length := Unpack(b[8..16]);
      if |b| < HEADER_SIZE + length then Short
      else Whole(Frame(b[2] as nat, Unpack(b[4..8]), b[16..16 + length]), b[16 + length..])
  }

  lemma {:induction false} HeaderParts(kind: nat, stream: nat, length: nat, tail: Data)
    requires kind < 256
    ensures var b := Header(kind, stream, length) + tail;
            && b[..2] == MAGIC && b[2] as nat == kind && b[4..8] == Pack(stream, 4)
            && b[8..16] == Pack(length, 8) && b[16..] == tail
  {
    var h := Header(kind, stream, length);
    assert h[..2] == MAGIC && h[4..8] == Pack(stream, 4) && h[8..16] == Pack(length, 8);
    var b := h + tail;
    assert b[..2] == h[..2] && b[4..8] == h[4..8] && b[8..16] == h[8..16];
  }

  lemma {:induction false} HeaderFields(kind: nat, stream: nat, length: nat, tail: Data)
    requires kind < 256 && stream < U32 && length < U64
    ensures var b := Header(kind, stream, length) + tail;
            && b[..2] == MAGIC && b[2] as nat == kind && Unpack(b[4..8]) == stream
            && Unpack(b[8..16]) == length && b[16..] == tail
  {
    Limits();
    UnpackPack(stream, 4);
    UnpackPack(length, 8);
    HeaderParts(kind, stream, length, tail);
  }

  lemma {:induction false} ParseEncode(f: Frame, rest: Data)
    requires Fits(f)
    ensures Parse(Encode(f) + rest) == Whole(f, rest)
  {
    var b := Encode(f) + rest;
    HeaderFields(f.kind, f.stream, |f.payload|, f.payload + rest);
    assert b == Header(f.kind, f.stream, |f.payload|) + (f.payload + rest);
    assert b[16..16 + |f.payload|] == b[16..][..|f.payload|] == f.payload;
    assert b[16 + |f.payload|..] == b[16..][|f.payload|..] == rest;
  }

  /** A frame cut anywhere inside is not a frame. */
  lemma {:induction false} ParseCut(f: Frame, b: Data)
    requires Fits(f) && b <= Encode(f) && b != Encode(f)
    ensures Parse(b) == Short
  {
    if |b| >= HEADER_SIZE {
      var e := Encode(f);
      HeaderFields(f.kind, f.stream, |f.payload|, f.payload);
      assert b[..2] == e[..2] && b[8..16] == e[8..16];
    }
  }

  /** The frames that are whole in `b`, up to the first that is not. */
  function ParseAll(b: Data): seq<Frame>
    decreases |b|
  {
    match Parse(b)
    case Whole(f, rest) => [f] + ParseAll(rest)
    case _ => []
  }

  /** A byte stream of frames that stops anywhere reads as the frames that arrived whole. */
  lemma {:induction false} ParseAllPrefix(fs: seq<Frame>, b: Data) returns (k: nat)
    requires forall f | f in fs :: Fits(f)
    requires b <= EncodeAll(fs)
    ensures k <= |fs| && ParseAll(b) == fs[..k] && (b == EncodeAll(fs) ==> k == |fs|)
  {
    if fs == [] {
      return 0;
    }
    var first := Encode(fs[0]);
    PrefixOfJoin(b, first, EncodeAll(fs[1..]));
    if |b| < |first| {
      ParseCut(fs[0], b);
      k := 0;
    } else {
      var rest := b[|first|..];
      ParseEncode(fs[0], rest);
      var more := ParseAllPrefix(fs[1..], rest);
      k := more + 1;
      assert [fs[0]] + fs[1..][..more] == fs[..k];
    }
  }

  /** A little-endian number of four bytes. */
  function Little(b: Data): nat
    requires |b| == 4
  {
    b[0] as nat + 0x100 * b[1] as nat + 0x1_0000 * b[2] as nat + 0x100_0000 * b[3] as nat
  }

  lemma {:induction false} UnpackLittle(b: Data)
    requires |b| == 4
    ensures Unpack(b) == Little(b)
  {
    assert Unpack(b) == b[0] as nat + 256 * Unpack(b[1..]);
    assert Unpack(b[1..]) == b[1] as nat + 256 * Unpack(b[2..]) by { assert b[1..][1..] == b[2..]; }
    assert Unpack(b[2..]) == b[2] as nat + 256 * Unpack(b[3..]) by { assert b[2..][1..] == b[3..]; }
    assert Unpack(b[3..]) == b[3] as nat by { assert b[3..][1..] == []; }
  }

  lemma {:induction false} UnpackHalves(b: Data)
    requires |b| == 8
    ensures Unpack(b) == Little(b[..4]) + 0x1_0000_0000 * Little(b[4..])
  {
    UnpackLittle(b[4..]);
    assert b[..4] + b[4..] == b;
    UnpackLow(b[..4], b[4..]);
  }

  lemma {:induction false} UnpackLow(low: Data, high: Data)
    requires |low| == 4
    ensures Unpack(low + high) == Little(low) + 0x1_0000_0000 * Unpack(high)
  {
    var b := low + high;
    assert Unpack(b) == b[0] as nat + 256 * Unpack(b[1..]);
    assert Unpack(b[1..]) == b[1] as nat + 256 * Unpack(b[2..]) by { assert b[1..][1..] == b[2..]; }
    assert Unpack(b[2..]) == b[2] as nat + 256 * Unpack(b[3..]) by { assert b[2..][1..] == b[3..]; }
    assert Unpack(b[3..]) == b[3] as nat + 256 * Unpack(b[4..]) by { assert b[3..][1..] == b[4..]; }
    assert b[4..] == high;
  }

  /** The two bytes of a frame, its type, no flags, its stream and its length, little-endian, and the payload. */
  ghost predicate LaidOut(b: Data, kind: nat, stream: nat, length: nat) {
    && |b| >= 16 && b[0] == 0x4c && b[1] == 0x46 && b[2] as nat == kind && b[3] == 0
    && Little(b[4..8]) == stream && Little(b[8..12]) + 0x1_0000_0000 * Little(b[12..16]) == length
  }

  /** What a frame is on the wire, byte by byte. */
  lemma {:induction false} FrameLayout(f: Frame)
    requires Fits(f)
    ensures var b := Encode(f); LaidOut(b, f.kind, f.stream, |f.payload|) && b[16..] == f.payload
  {
    var b := Encode(f);
    HeaderFields(f.kind, f.stream, |f.payload|, f.payload);
    UnpackLittle(b[4..8]);
    UnpackHalves(b[8..16]);
    assert b[8..16][..4] == b[8..12] && b[8..16][4..] == b[12..16];
    assert b[..2][0] == b[0] && b[..2][1] == b[1];
  }

  /**
    Bytes hold a frame exactly when they begin with the two bytes and are long enough for the
    length they state; it is the one stated, and a wrong beginning is told from a short one.
  */
  lemma {:induction false} ParseExact(b: Data)
    ensures Parse(b).Short? || Parse(b).BadMagic? || Parse(b).Whole?
    ensures Parse(b).BadMagic? <==> |b| >= 16 && !(b[0] == 0x4c && b[1] == 0x46)
    ensures Parse(b).Whole? <==> |b| >= 16 && b[0] == 0x4c && b[1] == 0x46
                                 && |b| >= 16 + Little(b[8..12]) + 0x1_0000_0000 * Little(b[12..16])
    ensures Parse(b).Whole? ==>
              var n := 16 + Little(b[8..12]) + 0x1_0000_0000 * Little(b[12..16]);
              Parse(b) == Whole(Frame(b[2] as nat, Little(b[4..8]), b[16..n]), b[n..])
  {
    if |b| >= 16 {
      UnpackLittle(b[4..8]);
      UnpackHalves(b[8..16]);
      assert b[8..16][..4] == b[8..12] && b[8..16][4..] == b[12..16];
      assert b[..2] == [b[0], b[1]];
    }
  }

  // ---------------------------------------------------------------- messages

  datatype Buffer = Buffer(data: Data, asBytes: bool)

  datatype Message = Message(kind: nat, head: Data, buffers: seq<Buffer>)

  function Mark(b: Buffer): nat {
    |b.data| + if b.asBytes then AS_BYTES else 0
  }

  function Marks(buffers: seq<Buffer>): (r: seq<nat>)
    ensures |r| == |buffers| && forall i | 0 <= i < |r| :: r[i] == Mark(buffers[i])
  {
    seq(|buffers|, i requires 0 <= i < |buffers| => Mark(buffers[i]))
  }

  function PackAll(marks: seq<nat>): (r: Data)
    ensures |r| == 8 * |marks|
  {
    if marks == [] then [] else Pack(marks[0], 8) + PackAll(marks[1..])
  }

  function HeadPayload(m: Message): Data {
    Pack(|m.buffers|, 4) + PackAll(Marks(m.buffers)) + m.head
  }

  /** What the sender's struct calls and its callers demand of a message. */
  predicate Sendable(m: Message) {
    && (m.kind == REQUEST || m.kind == REPLY)
    && |m.buffers| < U32 && |HeadPayload(m)| < U64
    && forall b | b in m.buffers :: |b.data| < AS_BYTES
  }

  function Chunks(stream: nat, data: Data): seq<Frame> {
    if data == [] then []
    else [Frame(DATA, stream, data[..Min(CHUNK, |data|)])] + Chunks(stream, data[Min(CHUNK, |data|)..])
  }

  function BufferFrames(stream: nat, buffers: seq<Buffer>): seq<Frame> {
    if buffers == [] then [] else Chunks(stream, buffers[0].data) + BufferFrames(stream, buffers[1..])
  }

  function FramesOf(stream: nat, m: Message): seq<Frame> {
    [Frame(m.kind, stream, HeadPayload(m))] + BufferFrames(stream, m.buffers)
  }

  function AllFrames(stream: nat, ms: seq<Message>): seq<Frame> {
    if ms == [] then [] else FramesOf(stream, ms[0]) + AllFrames(stream, ms[1..])
  }

  /** Buffer data is cut every 8 MiB, and nowhere else. */
  lemma {:induction false} ChunkAt(stream: nat, data: Data, k: nat)
    ensures var fs := Chunks(stream, data);
            && (k < |fs| <==> k * 0x80_0000 < |data|)
            && (k < |fs| ==> fs[k] == Frame(4, stream, data[k * 0x80_0000..Min((k + 1) * 0x80_0000, |data|)]))
    decreases k
  {
    if data != [] {
      var n := Min(CHUNK, |data|);
      if k > 0 {
        ChunkAt(stream, data[n..], k - 1);
        if k * 0x80_0000 < |data| {
          assert data[n..][(k - 1) * 0x80_0000..Min(k * 0x80_0000, |data| - n)]
                 == data[k * 0x80_0000..Min((k + 1) * 0x80_0000, |data|)];
        }
      }
    }
  }

  /** A head says how many buffers follow, how long each is and which are to be `bytes`, before its own bytes. */
  lemma {:induction false} HeadLayout(m: Message, i: nat)
    requires Sendable(m)
    ensures var p := HeadPayload(m);
            && |p| == 4 + 8 * |m.buffers| + |m.head| && p[4 + 8 * |m.buffers|..] == m.head
            && Little(p[..4]) == |m.buffers|
            && (i < |m.buffers| ==>
                  Little(p[4 + 8 * i..8 + 8 * i]) + 0x1_0000_0000 * Little(p[8 + 8 * i..12 + 8 * i])
                  == |m.buffers[i].data| + if m.buffers[i].asBytes then 0x8000_0000_0000_0000 else 0)
  {
    var p := HeadPayload(m);
    Limits();
    UnpackPack(|m.buffers|, 4);
    UnpackLittle(p[..4]);
    assert p[..4] == Pack(|m.buffers|, 4);
    if i < |m.buffers| { MarkAt(m, i); }
  }

  lemma {:induction false} MarkAt(m: Message, i: nat)
    requires Sendable(m) && i < |m.buffers|
    ensures var p := HeadPayload(m);
            Little(p[4 + 8 * i..8 + 8 * i]) + 0x1_0000_0000 * Little(p[8 + 8 * i..12 + 8 * i])
            == |m.buffers[i].data| + if m.buffers[i].asBytes then 0x8000_0000_0000_0000 else 0
  {
    var p, marks := HeadPayload(m), Marks(m.buffers);
    Limits();
    PackedAt(marks, i);
    assert p[4 + 8 * i..12 + 8 * i] == PackAll(marks)[8 * i..8 * i + 8];
    assert m.buffers[i] in m.buffers;
    UnpackPack(marks[i], 8);
    UnpackHalves(p[4 + 8 * i..12 + 8 * i]);
    assert p[4 + 8 * i..12 + 8 * i][..4] == p[4 + 8 * i..8 + 8 * i];
    assert p[4 + 8 * i..12 + 8 * i][4..] == p[8 + 8 * i..12 + 8 * i];
  }

  lemma {:induction false} PackedAt(marks: seq<nat>, i: nat)
    requires i < |marks|
    ensures PackAll(marks)[8 * i..8 * i + 8] == Pack(marks[i], 8)
  {
    if i > 0 {
      PackedAt(marks[1..], i - 1);
      assert PackAll(marks)[8 * i..8 * i + 8] == PackAll(marks[1..])[8 * (i - 1)..8 * (i - 1) + 8];
    }
  }

  // ---------------------------------------------------------------- receiving

  /**
    A message whose buffers are being filled: `done` are the whole ones and `current` the
    bytes of the one after them, so the source's `index` is |done| and its `offset` |current|.
  */
  datatype Partial = Partial(kind: nat, head: Data, marks: seq<nat>, done: seq<Data>, current: Data) {
    predicate Complete() { |done| == |marks| }

    ghost predicate Valid() {
      && |done| <= |marks|
      && (if Complete() then current == [] else |current| < Size(marks[|done|]))
      && forall i | 0 <= i < |done| :: |done[i]| == Size(marks[i])
    }
  }

  function Size(mark: nat): nat {
    mark % AS_BYTES
  }

  /** Whether a buffer of this mark is filled as a `bytes` object. */
  function FilledAsBytes(mark: nat, allocator: bool): bool {
    mark / AS_BYTES % 2 == 1 && Size(mark) > 0 && allocator
  }

  /** Buffers that are full, the empty ones included, are passed over. */
  function SkipEmpty(p: Partial): Partial
    decreases |p.marks| - |p.done|
  {
    if |p.done| < |p.marks| && |p.current| == Size(p.marks[|p.done|])
    then SkipEmpty(p.(done := p.done + [p.current], current := [])) else p
  }

  lemma {:induction false} SkipEmptyValid(p: Partial)
    requires |p.done| <= |p.marks|
    requires if p.Complete() then p.current == [] else |p.current| <= Size(p.marks[|p.done|])
    requires forall i | 0 <= i < |p.done| :: |p.done[i]| == Size(p.marks[i])
    ensures SkipEmpty(p).Valid()
    decreases |p.marks| - |p.done|
  {
    if |p.done| < |p.marks| && |p.current| == Size(p.marks[|p.done|]) {
      SkipEmptyValid(p.(done := p.done + [p.current], current := []));
    }
  }

  datatype Opened = Head(p: Partial) | Malformed

  function UnpackAll(d: Data, count: nat): (r: seq<nat>)
    requires |d| >= 8 * count
    ensures |r| == count
  {
    if count == 0 then [] else [Unpack(d[..8])] + UnpackAll(d[8..], count - 1)
  }

  function OpenHead(kind: nat, payload: Data): Opened {
    if |payload| < 4 then Malformed
    else
      var count := Unpack(payload[..4]);
      if |payload| < 4 + 8 * count then Malformed
      else Head(SkipEmpty(Partial(kind, payload[4 + 8 * count..], UnpackAll(payload[4..], count), [], [])))
  }

  datatype Fill = Filled(p: Partial) | TooMuch

  /** Put the bytes of one `DATA` frame into the buffers they belong to. */
  function FillIn(p: Partial, data: Data): Fill
    decreases |data|, |p.marks| - |p.done|
  {
    if data == [] then Filled(p)
    else if |p.done| >= |p.marks| then TooMuch
    else if |p.current| >= Size(p.marks[|p.done|]) then TooMuch // no valid partial is here
    else
      var take := Min(Size(p.marks[|p.done|]) - |p.current|, |data|);
      FillIn(SkipEmpty(p.(current := p.current + data[..take])), data[take..])
  }

  datatype Event =
    | Advanced                          // a frame that only advanced a message
    | Plain(kind: nat, data: Data)      // HELLO, STDOUT, STDERR or SHUTDOWN
    | Arrived(stream: nat, message: Message)

  type Open = map<nat, Partial>

  datatype Outcome = Ok(open: Open, event: Event) | Failed

  function Finished(stream: nat, p: Partial, allocator: bool): Event
    requires |p.done| == |p.marks|
  {
    Arrived(stream, Message(p.kind, p.head,
      seq(|p.done|, i requires 0 <= i < |p.done| => Buffer(p.done[i], FilledAsBytes(p.marks[i], allocator)))))
  }

  predicate Ascii(d: Data) {
    forall b | b in d :: b < 128
  }

  /** What one frame does to the messages that are open, and what it reports. */
  function OnFrame(open: Open, f: Frame, allocator: bool): Outcome {
    if f.kind == DATA then
      if f.stream !in open then Failed
      else match FillIn(open[f.stream], f.payload)
        case TooMuch => Failed
        case Filled(p) =>
          if p.Complete() then Ok(open - {f.stream}, Finished(f.stream, p, allocator))
          else Ok(open[f.stream := p], Advanced)
    else if f.kind == REQUEST || f.kind == REPLY then
      match OpenHead(f.kind, f.payload)
      case Malformed => Failed
      case Head(p) =>
        if p.Complete() then Ok(open, Finished(f.stream, p, allocator))
        else Ok(open[f.stream := p], Advanced)
    else if f.kind == STDOUT || f.kind == STDERR then Ok(open, Plain(f.kind, f.payload))
    else if f.kind == HELLO then if Ascii(f.payload) then Ok(open, Plain(f.kind, f.payload)) else Failed
    else if f.kind == SHUTDOWN then Ok(open, Plain(f.kind, []))
    else Failed
  }

  /** The events of a run of frames, without the ones that only advanced a message. */
  datatype Log = Heard(open: Open, events: seq<Event>) | Broken

  function Receive(open: Open, fs: seq<Frame>, allocator: bool): Log
    decreases |fs|
  {
    if fs == [] then Heard(open, [])
    else match OnFrame(open, fs[0], allocator)
      case Failed => Broken
      case Ok(next, e) =>
        match Receive(next, fs[1..], allocator)
        case Broken => Broken
        case Heard(last, more) => Heard(last, (if e.Advanced? then [] else [e]) + more)
  }

  // ---------------------------------------------------------------- one stream on its own

  predicate OfStream(f: Frame, s: nat) {
    f.stream == s && (f.kind == DATA || f.kind == REQUEST || f.kind == REPLY)
  }

  function Project(fs: seq<Frame>, s: nat): seq<Frame> {
    if fs == [] then []
    else (if OfStream(fs[0], s) then [fs[0]] else []) + Project(fs[1..], s)
  }

  function MessagesOn(events: seq<Event>, s: nat): seq<Message> {
    if events == [] then []
    else (if events[0].Arrived? && events[0].stream == s then [events[0].message] else [])
         + MessagesOn(events[1..], s)
  }

  function Only(open: Open, s: nat): Open {
    if s in open then map[s := open[s]] else map[]
  }

  /** A frame that belongs to no message stream and is well formed. */
  predicate Harmless(f: Frame) {
    f.kind == STDOUT || f.kind == STDERR || f.kind == SHUTDOWN || (f.kind == HELLO && Ascii(f.payload))
  }

  /** One frame touches its own stream only. */
  lemma {:induction false} OtherStreams(open: Open, f: Frame, s: nat, a: bool)
    requires OnFrame(open, f, a).Ok? && !OfStream(f, s)
    ensures var o := OnFrame(open, f, a);
            Only(o.open, s) == Only(open, s) && MessagesOn(if o.event.Advanced? then [] else [o.event], s) == []
  {
  }

  lemma {:induction false} SameStream(open: Open, f: Frame, s: nat, a: bool)
    requires OfStream(f, s)
    ensures var o, q := OnFrame(open, f, a), OnFrame(Only(open, s), f, a);
            o.Ok? == q.Ok? && (o.Ok? ==> o.event == q.event && Only(o.open, s) == q.open == Only(q.open, s))
  {
  }

  lemma {:induction false} MessagesJoin(x: seq<Event>, y: seq<Event>, s: nat)
    ensures MessagesOn(x + y, s) == MessagesOn(x, s) + MessagesOn(y, s)
  {
    if x == [] {
      assert x + y == y;
    } else {
      assert (x + y)[1..] == x[1..] + y;
      MessagesJoin(x[1..], y, s);
    }
  }

  predicate WellFormed(fs: seq<Frame>) {
    forall f | f in fs :: Harmless(f) || OfStream(f, f.stream)
  }

  /** When every stream's own frames are received without error, so is their interleaving. */
  lemma {:induction false} Demultiplexes(open: Open, fs: seq<Frame>, a: bool)
    requires WellFormed(fs)
    requires forall s :: Receive(Only(open, s), Project(fs, s), a).Heard?
    ensures Receive(open, fs, a).Heard?
    decreases |fs|
  {
    if fs != [] {
      var f := fs[0];
      if OfStream(f, f.stream) {
        assert Project(fs, f.stream)[0] == f;
        SameStream(open, f, f.stream, a);
      } else {
        assert f in fs;
      }
      var o := OnFrame(open, f, a);
      forall s ensures Receive(Only(o.open, s), Project(fs[1..], s), a).Heard? {
        ProjectStep(open, fs, s, a);
      }
      Demultiplexes(o.open, fs[1..], a);
    }
  }

  /** A stream's messages come out of the interleaving as they come out of its own frames. */
  lemma {:induction false} SameMessages(open: Open, fs: seq<Frame>, s: nat, a: bool)
    requires Receive(open, fs, a).Heard? && Receive(Only(open, s), Project(fs, s), a).Heard?
    ensures MessagesOn(Receive(open, fs, a).events, s)
         == MessagesOn(Receive(Only(open, s), Project(fs, s), a).events, s)
    decreases |fs|
  {
    if fs != [] {
      var o := OnFrame(open, fs[0], a);
      var e := if o.event.Advanced? then [] else [o.event];
      ProjectStep(open, fs, s, a);
      SameMessages(o.open, fs[1..], s, a);
      var all, own := Receive(o.open, fs[1..], a).events, Receive(Only(o.open, s), Project(fs[1..], s), a).events;
      assert Receive(open, fs, a).events == e + all;
      MessagesJoin(e, all, s);
      if OfStream(fs[0], s) {
        MessagesJoin(e, own, s);
      } else {
        assert [] + own == own && [] + MessagesOn(all, s) == MessagesOn(all, s);
      }
    }
  }

  /** The first frame, seen from stream `s`: its own step, or nothing. */
  lemma {:induction false} ProjectStep(open: Open, fs: seq<Frame>, s: nat, a: bool)
    requires fs != [] && OnFrame(open, fs[0], a).Ok?
    requires Receive(Only(open, s), Project(fs, s), a).Heard?
    ensures var o := OnFrame(open, fs[0], a);
            var e := if o.event.Advanced? then [] else [o.event];
            var rest := Receive(Only(o.open, s), Project(fs[1..], s), a);
            && rest.Heard?
            && Receive(Only(open, s), Project(fs, s), a).events == (if OfStream(fs[0], s) then e else []) + rest.events
            && (!OfStream(fs[0], s) ==> MessagesOn(e, s) == [])
  {
    if OfStream(fs[0], s) {
      SameStream(open, fs[0], s, a);
      assert Project(fs, s)[1..] == Project(fs[1..], s);
    } else {
      OtherStreams(open, fs[0], s, a);
      assert Project(fs, s) == Project(fs[1..], s);
    }
  }

  // ---------------------------------------------------------------- one message

  function Arrival(m: Message, allocator: bool): Message {
    m.(buffers := seq(|m.buffers|, i requires 0 <= i < |m.buffers| =>
                        m.buffers[i].(asBytes := m.buffers[i].asBytes && m.buffers[i].data != [] && allocator)))
  }

  function Datas(buffers: seq<Buffer>): (r: seq<Data>)
    ensures |r| == |buffers| && forall i | 0 <= i < |r| :: r[i] == buffers[i].data
  {
    seq(|buffers|, i requires 0 <= i < |buffers| => buffers[i].data)
  }

  lemma {:induction false} MarkSize(b: Buffer)
    requires |b.data| < AS_BYTES
    ensures Size(Mark(b)) == |b.data| && Mark(b) < U64
    ensures FilledAsBytes(Mark(b), true) <==> b.asBytes && b.data != []
  {
    if b.asBytes {
      assert Mark(b) == AS_BYTES * 1 + |b.data|;
    }
  }

  lemma {:induction false} SplitMarks(marks: seq<nat>, tail: Data)
    requires marks != []
    ensures var d := PackAll(marks) + tail;
            d[..8] == Pack(marks[0], 8) && d[8..] == PackAll(marks[1..]) + tail
  {
    var first, more := Pack(marks[0], 8), PackAll(marks[1..]);
    assert PackAll(marks) + tail == first + (more + tail);
  }

  lemma {:induction false} UnpackPackAll(marks: seq<nat>, tail: Data)
    requires forall i | 0 <= i < |marks| :: marks[i] < U64
    ensures UnpackAll(PackAll(marks) + tail, |marks|) == marks
  {
    if marks != [] {
      Limits();
      UnpackPack(marks[0], 8);
      UnpackPackAll(marks[1..], tail);
      SplitMarks(marks, tail);
    }
  }

  /** The partial message once the first `k` buffers are whole. */
  function At(m: Message, k: nat): Partial
    requires k <= |m.buffers|
  {
    SkipEmpty(Partial(m.kind, m.head, Marks(m.buffers), Datas(m.buffers[..k]), []))
  }

  lemma {:induction false} HeadOpens(m: Message)
    requires Sendable(m)
    ensures OpenHead(m.kind, HeadPayload(m)) == Head(At(m, 0))
  {
    Limits();
    UnpackPack(|m.buffers|, 4);
    var p, marks := HeadPayload(m), Marks(m.buffers);
    assert p[..4] == Pack(|m.buffers|, 4);
    assert p[4..] == PackAll(marks) + m.head;
    forall i | 0 <= i < |marks| ensures marks[i] < U64 {
      assert m.buffers[i] in m.buffers;
      MarkSize(m.buffers[i]);
    }
    UnpackPackAll(marks, m.head);
    assert p[4 + 8 * |m.buffers|..] == m.head;
    assert Datas(m.buffers[..0]) == [];
  }

  function AsOpen(s: nat, p: Partial): Open {
    if p.Complete() then map[] else map[s := p]
  }

  /** A buffer that is not empty stops the skipping; an empty one is skipped. */
  lemma {:induction false} AtBuffer(m: Message, k: nat)
    requires Sendable(m) && k < |m.buffers|
    ensures if m.buffers[k].data == [] then At(m, k) == At(m, k + 1)
            else At(m, k) == Partial(m.kind, m.head, Marks(m.buffers), Datas(m.buffers[..k]), [])
  {
    assert m.buffers[k] in m.buffers;
    MarkSize(m.buffers[k]);
    assert Datas(m.buffers[..k + 1]) == Datas(m.buffers[..k]) + [m.buffers[k].data];
  }

  /** One chunk of buffer `k` appends to it, and passes on when it is whole. */
  lemma {:induction false} ChunkStep(s: nat, m: Message, k: nat, so: Data, chunk: Data, a: bool)
    requires Sendable(m) && k < |m.buffers| && chunk != [] && so + chunk <= m.buffers[k].data
    ensures var p := Partial(m.kind, m.head, Marks(m.buffers), Datas(m.buffers[..k]), so);
            var q := if so + chunk == m.buffers[k].data then At(m, k + 1) else p.(current := so + chunk);
            && !p.Complete()
            && OnFrame(map[s := p], Frame(DATA, s, chunk), a)
               == Ok(AsOpen(s, q), if q.Complete() then Finished(s, q, a) else Advanced)
  {
    assert m.buffers[k] in m.buffers;
    MarkSize(m.buffers[k]);
    var p := Partial(m.kind, m.head, Marks(m.buffers), Datas(m.buffers[..k]), so);
    assert |so + chunk| <= |m.buffers[k].data|;
    assert chunk[..|chunk|] == chunk && chunk[|chunk|..] == [];
    var q := SkipEmpty(p.(current := so + chunk));
    assert FillIn(p, chunk) == FillIn(q, []);
    if |so + chunk| == |m.buffers[k].data| {
      assert so + chunk == m.buffers[k].data;
      assert Datas(m.buffers[..k + 1]) == Datas(m.buffers[..k]) + [m.buffers[k].data];
    }
    assert (map[s := p])[s := q] == map[s := q];
    assert map[s := p] - {s} == map[];
  }

  /** Receiving a run of frames is receiving its halves one after the other. */
  lemma {:induction false} ReceiveJoin(open: Open, x: seq<Frame>, y: seq<Frame>, a: bool)
    ensures Receive(open, x + y, a) ==
            match Receive(open, x, a)
            case Broken => Broken
            case Heard(mid, e) =>
              match Receive(mid, y, a)
              case Broken => Broken
              case Heard(last, more) => Heard(last, e + more)
    decreases |x|
  {
    if x == [] {
      assert x + y == y;
      assert Receive(open, y, a).Heard? ==> [] + Receive(open, y, a).events == Receive(open, y, a).events;
    } else {
      assert (x + y)[1..] == x[1..] + y;
      var o := OnFrame(open, x[0], a);
      if o.Ok? {
        ReceiveJoin(o.open, x[1..], y, a);
        var one := if o.event.Advanced? then [] else [o.event];
        var first := Receive(o.open, x[1..], a);
        if first.Heard? {
          var second := Receive(first.open, y, a);
          if second.Heard? { assert one + (first.events + second.events) == (one + first.events) + second.events; }
        }
      }
    }
  }

  /** A message is complete only with every buffer whole, so what it reports is the message. */
  lemma {:induction false} CompleteIsWhole(s: nat, m: Message, k: nat, a: bool)
    requires Sendable(m) && k <= |m.buffers| && At(m, k).Complete()
    ensures Finished(s, At(m, k), a) == Arrived(s, Arrival(m, a))
    decreases |m.buffers| - k
  {
    if k == |m.buffers| {
      assert m.buffers[..k] == m.buffers;
      forall i | 0 <= i < |m.buffers| ensures FilledAsBytes(Marks(m.buffers)[i], a) == Arrival(m, a).buffers[i].asBytes {
        assert m.buffers[i] in m.buffers;
        MarkSize(m.buffers[i]);
      }
      assert Finished(s, At(m, k), a).message.buffers == Arrival(m, a).buffers;
    } else {
      AtBuffer(m, k);
      CompleteIsWhole(s, m, k + 1, a);
    }
  }

  function Report(s: nat, m: Message, p: Partial, a: bool): seq<Event> {
    if p.Complete() then [Arrived(s, Arrival(m, a))] else []
  }

  function Owed(s: nat, m: Message, p: Partial, a: bool): seq<Event> {
    if p.Complete() then [] else [Arrived(s, Arrival(m, a))]
  }

  lemma {:induction false} RunChunks(s: nat, m: Message, k: nat, so: Data, rest: Data, a: bool)
    requires Sendable(m) && k < |m.buffers| && rest != [] && so + rest == m.buffers[k].data
    ensures var p := Partial(m.kind, m.head, Marks(m.buffers), Datas(m.buffers[..k]), so);
            Receive(map[s := p], Chunks(s, rest), a) == Heard(AsOpen(s, At(m, k + 1)), Report(s, m, At(m, k + 1), a))
    decreases |rest|
  {
    var p := Partial(m.kind, m.head, Marks(m.buffers), Datas(m.buffers[..k]), so);
    var n := Min(CHUNK, |rest|);
    var chunk, later := rest[..n], rest[n..];
    var f := Frame(DATA, s, chunk);
    assert rest == chunk + later && so + chunk + later == m.buffers[k].data;
    assert so + chunk <= m.buffers[k].data;
    ChunkStep(s, m, k, so, chunk, a);
    ReceiveJoin(map[s := p], [f], Chunks(s, later), a);
    if later == [] {
      assert so + chunk == m.buffers[k].data && Chunks(s, rest) == [f] + [];
      if At(m, k + 1).Complete() { CompleteIsWhole(s, m, k + 1, a); }
    } else {
      assert |so + chunk| < |m.buffers[k].data|;
      RunChunks(s, m, k, so + chunk, later, a);
    }
  }

  /** From the first `k` buffers whole, the frames of the others complete the message. */
  lemma {:induction false} RunBuffers(s: nat, m: Message, k: nat, a: bool)
    requires Sendable(m) && k <= |m.buffers|
    ensures Receive(AsOpen(s, At(m, k)), BufferFrames(s, m.buffers[k..]), a)
         == Heard(map[], Owed(s, m, At(m, k), a))
    decreases |m.buffers| - k
  {
    if k < |m.buffers| {
      AtBuffer(m, k);
      RunBuffers(s, m, k + 1, a);
      var data, more := m.buffers[k].data, BufferFrames(s, m.buffers[k + 1..]);
      assert m.buffers[k..][1..] == m.buffers[k + 1..];
      if data == [] {
        assert [] + more == more;
      } else {
        FirstBuffer(s, m, k, a);
        ReceiveJoin(AsOpen(s, At(m, k)), Chunks(s, data), more, a);
        assert Report(s, m, At(m, k + 1), a) + Owed(s, m, At(m, k + 1), a) == [Arrived(s, Arrival(m, a))];
      }
    }
  }

  lemma {:induction false} FirstBuffer(s: nat, m: Message, k: nat, a: bool)
    requires Sendable(m) && k < |m.buffers| && m.buffers[k].data != []
    ensures !At(m, k).Complete()
    ensures Receive(AsOpen(s, At(m, k)), Chunks(s, m.buffers[k].data), a)
         == Heard(AsOpen(s, At(m, k + 1)), Report(s, m, At(m, k + 1), a))
  {
    AtBuffer(m, k);
    assert [] + m.buffers[k].data == m.buffers[k].data;
    RunChunks(s, m, k, [], m.buffers[k].data, a);
  }

  lemma {:induction false} OneMessage(s: nat, m: Message, a: bool)
    requires Sendable(m)
    ensures Receive(map[], FramesOf(s, m), a) == Heard(map[], [Arrived(s, Arrival(m, a))])
  {
    var head := Frame(m.kind, s, HeadPayload(m));
    HeadOpens(m);
    if At(m, 0).Complete() { CompleteIsWhole(s, m, 0, a); }
    RunBuffers(s, m, 0, a);
    assert m.buffers[0..] == m.buffers;
    ReceiveJoin(map[], [head], BufferFrames(s, m.buffers), a);
  }

  function Arrivals(ms: seq<Message>, a: bool): (r: seq<Message>)
    ensures |r| == |ms|
  {
    seq(|ms|, i requires 0 <= i < |ms| => Arrival(ms[i], a))
  }

  lemma {:induction false} EveryMessage(s: nat, ms: seq<Message>, a: bool)
    requires forall m | m in ms :: Sendable(m)
    ensures Receive(map[], AllFrames(s, ms), a).Heard? && Receive(map[], AllFrames(s, ms), a).open == map[]
    ensures MessagesOn(Receive(map[], AllFrames(s, ms), a).events, s) == Arrivals(ms, a)
  {
    if ms != [] {
      EveryMessage(s, ms[1..], a);
      NextMessage(s, ms, a);
      OneMore(s, ms[0], Receive(map[], AllFrames(s, ms[1..]), a).events, a);
    }
  }

  lemma {:induction false} NextMessage(s: nat, ms: seq<Message>, a: bool)
    requires ms != [] && Sendable(ms[0]) && Receive(map[], AllFrames(s, ms[1..]), a).Heard?
    ensures var rest := Receive(map[], AllFrames(s, ms[1..]), a);
            Receive(map[], AllFrames(s, ms), a) == Heard(rest.open, [Arrived(s, Arrival(ms[0], a))] + rest.events)
  {
    OneMessage(s, ms[0], a);
    ReceiveJoin(map[], FramesOf(s, ms[0]), AllFrames(s, ms[1..]), a);
  }

  lemma {:induction false} OneMore(s: nat, m: Message, more: seq<Event>, a: bool)
    ensures MessagesOn([Arrived(s, Arrival(m, a))] + more, s) == [Arrival(m, a)] + MessagesOn(more, s)
  {
    assert ([Arrived(s, Arrival(m, a))] + more)[1..] == more;
  }

  /** Frames of a stream that stop part-way give its first messages, whole, and no error. */
  lemma {:induction false} PartOfStream(s: nat, ms: seq<Message>, x: seq<Frame>, a: bool)
    requires forall m | m in ms :: Sendable(m)
    requires x <= AllFrames(s, ms)
    ensures Receive(map[], x, a).Heard?
    ensures MessagesOn(Receive(map[], x, a).events, s) <= Arrivals(ms, a)
    ensures x == AllFrames(s, ms) ==> MessagesOn(Receive(map[], x, a).events, s) == Arrivals(ms, a)
  {
    var y := AllFrames(s, ms)[|x|..];
    assert x + y == AllFrames(s, ms);
    EveryMessage(s, ms, a);
    ReceiveJoin(map[], x, y, a);
    var h := Receive(map[], x, a);
    MessagesJoin(h.events, Receive(h.open, y, a).events, s);
  }

  function Sent(sent: map<nat, seq<Message>>, s: nat): seq<Message> {
    if s in sent then sent[s] else []
  }

  /** `fs` interleaves, frame by frame, what each stream sends, and plain frames. */
  ghost predicate Interleaves(fs: seq<Frame>, sent: map<nat, seq<Message>>) {
    && WellFormed(fs) && (forall f | f in fs :: Fits(f))
    && (forall s | s in sent :: forall m | m in sent[s] :: Sendable(m))
    && forall s :: Project(fs, s) <= AllFrames(s, Sent(sent, s))
  }

  lemma {:induction false} ProjectPrefix(fs: seq<Frame>, k: nat, s: nat)
    requires k <= |fs|
    ensures Project(fs[..k], s) <= Project(fs, s)
  {
    if k > 0 {
      ProjectPrefix(fs[1..], k - 1, s);
      assert fs[..k][1..] == fs[1..][..k - 1];
    }
  }

  /**
    Multiplexing round trip: whatever the interleaving of the streams' frames, and wherever the
    byte stream stops, the receiver raises no error and hands over on each stream a prefix of
    the messages sent there, in order and whole; when the byte stream and a stream's frames
    are complete, all of them.
  */
  lemma {:induction false} MultiplexRoundTrip(fs: seq<Frame>, sent: map<nat, seq<Message>>, wire: Data, a: bool)
    requires Interleaves(fs, sent) && wire <= EncodeAll(fs)
    ensures var h := Receive(map[], ParseAll(wire), a);
            && h.Heard?
            && (forall s :: MessagesOn(h.events, s) <= Arrivals(Sent(sent, s), a))
            && (wire == EncodeAll(fs) ==> forall s | Project(fs, s) == AllFrames(s, Sent(sent, s)) ::
                  MessagesOn(h.events, s) == Arrivals(Sent(sent, s), a))
  {
    var k := ParseAllPrefix(fs, wire);
    var got := fs[..k];
    forall s
      ensures Project(got, s) <= AllFrames(s, Sent(sent, s)) && Only(map[], s) == map[]
      ensures Receive(Only(map[], s), Project(got, s), a).Heard?
    {
      ProjectPrefix(fs, k, s);
      PartOfStream(s, Sent(sent, s), Project(got, s), a);
    }
    Demultiplexes(map[], got, a);
    forall s
      ensures MessagesOn(Receive(map[], got, a).events, s)
           == MessagesOn(Receive(map[], Project(got, s), a).events, s)
    {
      SameMessages(map[], got, s, a);
    }
    forall s
      ensures MessagesOn(Receive(map[], Project(got, s), a).events, s) <= Arrivals(Sent(sent, s), a)
      ensures wire == EncodeAll(fs) && Project(fs, s) == AllFrames(s, Sent(sent, s)) ==>
                MessagesOn(Receive(map[], Project(got, s), a).events, s) == Arrivals(Sent(sent, s), a)
    {
      PartOfStream(s, Sent(sent, s), Project(got, s), a);
      if wire == EncodeAll(fs) { assert got == fs; }
    }
  }

  // ---------------------------------------------------------------- frames that are no message

  /** What standard output and error, a hello and a shutdown are to report: the type, and the bytes but for a shutdown's. */
  function PlainsIn(fs: seq<Frame>): seq<(nat, Data)> {
    if fs == [] then []
    else
      (if fs[0].kind == 5 || fs[0].kind == 6 || fs[0].kind == 1 then [(fs[0].kind, fs[0].payload)]
       else if fs[0].kind == 7 then [(7, [])]
       else []) + PlainsIn(fs[1..])
  }

  function Plains(events: seq<Event>): seq<(nat, Data)> {
    if events == [] then []
    else (if events[0].Plain? then [(events[0].kind, events[0].data)] else []) + Plains(events[1..])
  }

  lemma {:induction false} PlainsJoin(x: seq<Event>, y: seq<Event>)
    ensures Plains(x + y) == Plains(x) + Plains(y)
  {
    if x == [] {
      assert x + y == y;
    } else {
      assert (x + y)[1..] == x[1..] + y;
      PlainsJoin(x[1..], y);
    }
  }

  /** One frame reports what it is to report. */
  lemma {:induction false} PlainStep(open: Open, f: Frame, a: bool)
    requires OnFrame(open, f, a).Ok?
    ensures var e := OnFrame(open, f, a).event;
            Plains(if e.Advanced? then [] else [e])
            == (if f.kind == 5 || f.kind == 6 || f.kind == 1 then [(f.kind, f.payload)] else if f.kind == 7 then [(7, [])] else [])
  {
    var e := OnFrame(open, f, a).event;
    assert [e][1..] == [];
  }

  lemma {:induction false} PlainsHeard(open: Open, fs: seq<Frame>, a: bool)
    requires Receive(open, fs, a).Heard?
    ensures Plains(Receive(open, fs, a).events) == PlainsIn(fs)
    decreases |fs|
  {
    if fs != [] {
      var o := OnFrame(open, fs[0], a);
      PlainStep(open, fs[0], a);
      PlainsHeard(o.open, fs[1..], a);
      PlainsJoin(if o.event.Advanced? then [] else [o.event], Receive(o.open, fs[1..], a).events);
    }
  }

  lemma {:induction false} PlainsCut(fs: seq<Frame>, k: nat)
    requires k <= |fs|
    ensures PlainsIn(fs[..k]) <= PlainsIn(fs)
  {
    if k > 0 {
      PlainsCut(fs[1..], k - 1);
      assert fs[..k][1..] == fs[1..][..k - 1];
    }
  }

  /**
    Output and control frames between messages: whatever the interleaving and wherever the byte
    stream stops, they are reported in order, each as what it is and with its own bytes.
  */
  lemma {:induction false} PlainRoundTrip(fs: seq<Frame>, sent: map<nat, seq<Message>>, wire: Data, a: bool)
    requires Interleaves(fs, sent) && wire <= EncodeAll(fs)
    ensures var h := Receive(map[], ParseAll(wire), a);
            h.Heard? && Plains(h.events) <= PlainsIn(fs) && (wire == EncodeAll(fs) ==> Plains(h.events) == PlainsIn(fs))
  {
    MultiplexRoundTrip(fs, sent, wire, a);
    var k := ParseAllPrefix(fs, wire);
    PlainsHeard(map[], fs[..k], a);
    PlainsCut(fs, k);
    if wire == EncodeAll(fs) { assert fs[..k] == fs; }
  }

  // ---------------------------------------------------------------- frames that are refused

  /** How many bytes the message still waits for. */
  function Missing(p: Partial): int
    decreases |p.marks|
  {
    SizesFrom(p.marks, |p.done|) - |p.current|
  }

  function SizesFrom(marks: seq<nat>, k: nat): nat
    decreases |marks| - k
  {
    if k >= |marks| then 0 else marks[k] % 0x8000_0000_0000_0000 + SizesFrom(marks, k + 1)
  }

  lemma {:induction false} SkipMisses(p: Partial)
    requires |p.done| <= |p.marks| && (p.Complete() ==> p.current == [])
    ensures Missing(SkipEmpty(p)) == Missing(p)
    decreases |p.marks| - |p.done|
  {
    if |p.done| < |p.marks| && |p.current| == Size(p.marks[|p.done|]) {
      SkipMisses(p.(done := p.done + [p.current], current := []));
    }
  }

  lemma {:induction false} MissingSome(p: Partial)
    requires p.Valid()
    ensures Missing(p) >= 0 && (Missing(p) == 0 <==> p.Complete())
  {
  }

  lemma {:induction false} FillMisses(p: Partial, data: Data)
    requires p.Valid()
    ensures FillIn(p, data).Filled? <==> |data| <= Missing(p)
    ensures FillIn(p, data).Filled? ==> FillIn(p, data).p.Valid() && Missing(FillIn(p, data).p) == Missing(p) - |data|
    decreases |data|
  {
    MissingSome(p);
    if data != [] && !p.Complete() {
      var take := Min(Size(p.marks[|p.done|]) - |p.current|, |data|);
      var q := p.(current := p.current + data[..take]);
      SkipEmptyValid(q);
      SkipMisses(q);
      FillMisses(SkipEmpty(q), data[take..]);
    }
  }

  /**
    A frame is refused exactly when it is data for a stream that has no open message, or more of it
    than the message declared; a head too short for the lengths it declares; a hello that is not
    ASCII; or of no known type.
  */
  lemma {:induction false} RefusedExact(open: Open, f: Frame, a: bool)
    requires forall s | s in open :: open[s].Valid() && !open[s].Complete()
    ensures OnFrame(open, f, a).Failed?
            <==> || (f.kind == 4 && (f.stream !in open || |f.payload| > Missing(open[f.stream])))
                 || ((f.kind == 2 || f.kind == 3) && (|f.payload| < 4 || |f.payload| < 4 + 8 * Little(f.payload[..4])))
                 || (f.kind == 1 && exists b | b in f.payload :: b >= 128)
                 || f.kind == 0 || f.kind > 7
  {
    if f.kind == 4 && f.stream in open { FillMisses(open[f.stream], f.payload); }
    if (f.kind == 2 || f.kind == 3) && |f.payload| >= 4 { UnpackLittle(f.payload[..4]); }
  }

  /** What is handed over has the data that was sent; a buffer is `bytes` just where it was, if the allocator is there. */
  lemma {:induction false} ArrivesAsSent(m: Message, a: bool)
    ensures var r := Arrival(m, a);
            && r.kind == m.kind && r.head == m.head && |r.buffers| == |m.buffers|
            && forall i | 0 <= i < |m.buffers| ::
                 r.buffers[i].data == m.buffers[i].data
                 && (r.buffers[i].asBytes <==> m.buffers[i].asBytes && |m.buffers[i].data| > 0 && a)
  {
  }

  // ---------------------------------------------------------------- the two ends

  /** Where a sender writes: each call takes at least one byte, and maybe not all. */
  class Sink {
    var written: Data

    constructor ()
      ensures written == []
    {
      written := [];
    }

    method Write(data: Data) returns (count: nat)
      requires data != []
      modifies this
      ensures 1 <= count <= |data| && written == old(written) + data[..count]
    {
      count :| 1 <= count <= |data|;
      written := written + data[..count];
    }
  }

  /** The sending end: frames written whole, one after the other. */
  class Outgoing {
    const sink: Sink

    constructor (sink: Sink)
      ensures this.sink == sink
    {
      this.sink := sink;
    }

    method All(data: Data)
      modifies sink
      ensures sink.written == old(sink.written) + data
    {
      var view := data;
      while view != []
        invariant sink.written + view == old(sink.written) + data
        decreases |view|
      {
        var count := sink.Write(view);
        view := view[count..];
      }
    }

    method SendFrame(kind: nat, stream: nat, payload: Data)
      requires Fits(Frame(kind, stream, payload))
      modifies sink
      ensures sink.written == old(sink.written) + Encode(Frame(kind, stream, payload))
    {
      var header := Header(kind, stream, |payload|);
      if |payload| <= JOIN_LIMIT {
        All(header + payload);
      } else {
        All(header);
        All(payload);
      }
    }

    /** Send one message: its head, then each buffer in chunks. */
    method Parts(stream: nat, m: Message)
      requires Sendable(m) && stream < U32
      modifies sink
      ensures (forall f | f in FramesOf(stream, m) :: Fits(f))
           && sink.written == old(sink.written) + EncodeAll(FramesOf(stream, m))
    {
      FramesFit(stream, m);
      var head := Frame(m.kind, stream, HeadPayload(m));
      SendFrame(head.kind, head.stream, head.payload);
      ghost var so := [head];
      ghost var base := old(sink.written);
      assert EncodeAll([head]) == Encode(head) by { EncodeSnoc([], head); assert [] + [head] == [head]; }
      for i := 0 to |m.buffers|
        invariant (forall f | f in so :: Fits(f)) && sink.written == base + EncodeAll(so)
        invariant so + BufferFrames(stream, m.buffers[i..]) == FramesOf(stream, m)
      {
        assert m.buffers[i..][1..] == m.buffers[i + 1..];
        JoinFrames(so, Chunks(stream, m.buffers[i].data), BufferFrames(stream, m.buffers[i + 1..]));
        so := SendBuffer(stream, m.buffers[i].data, so, base);
      }
      assert so + [] == so;
    }

    method SendBuffer(stream: nat, data: Data, ghost before: seq<Frame>, ghost base: Data)
      returns (ghost after: seq<Frame>)
      requires stream < U32 && (forall f | f in before :: Fits(f)) && sink.written == base + EncodeAll(before)
      modifies sink
      ensures after == before + Chunks(stream, data) && forall f | f in after :: Fits(f)
      ensures sink.written == base + EncodeAll(after)
    {
      after := before;
      var offset := 0;
      assert data[0..] == data;
      while offset < |data|
        invariant offset <= |data|
        invariant (forall f | f in after :: Fits(f)) && sink.written == base + EncodeAll(after)
        invariant after + Chunks(stream, data[offset..]) == before + Chunks(stream, data)
      {
        after := SendChunk(stream, data, offset, after, base);
        offset := Min(offset + CHUNK, |data|);
      }
      assert data[offset..] == [] && after + [] == after;
    }

    method SendChunk(stream: nat, data: Data, offset: nat, ghost before: seq<Frame>, ghost base: Data)
      returns (ghost after: seq<Frame>)
      requires stream < U32 && offset < |data|
      requires (forall f | f in before :: Fits(f)) && sink.written == base + EncodeAll(before)
      modifies sink
      ensures (forall f | f in after :: Fits(f)) && sink.written == base + EncodeAll(after)
      ensures after + Chunks(stream, data[Min(offset + CHUNK, |data|)..]) == before + Chunks(stream, data[offset..])
    {
      var chunk := Slice(data, offset, offset + CHUNK);
      ghost var f := Frame(DATA, stream, chunk);
      SendFrame(DATA, stream, chunk);
      EncodeSnoc(before, f);
      after := before + [f];
      AfterChunk(before, stream, data, offset);
    }
  }

  lemma {:induction false} AfterChunk(before: seq<Frame>, stream: nat, data: Data, offset: nat)
    requires offset < |data|
    ensures var f := Frame(DATA, stream, Slice(data, offset, offset + CHUNK));
            before + [f] + Chunks(stream, data[Min(offset + CHUNK, |data|)..]) == before + Chunks(stream, data[offset..])
  {
    NextChunk(stream, data, offset);
    var f := Frame(DATA, stream, Slice(data, offset, offset + CHUNK));
    JoinFrames(before, [f], Chunks(stream, data[Min(offset + CHUNK, |data|)..]));
  }

  lemma {:induction false} JoinFrames(a: seq<Frame>, b: seq<Frame>, c: seq<Frame>)
    ensures a + b + c == a + (b + c)
  {
  }

  lemma {:induction false} NextChunk(stream: nat, data: Data, offset: nat)
    requires offset < |data|
    ensures var to, chunk := Min(offset + CHUNK, |data|), Slice(data, offset, offset + CHUNK);
            && chunk == data[offset..to] && 1 <= |chunk| <= CHUNK
            && Chunks(stream, data[offset..]) == [Frame(DATA, stream, chunk)] + Chunks(stream, data[to..])
  {
    var rest, n := data[offset..], Min(CHUNK, |data| - offset);
    assert rest[..n] == data[offset..offset + n] && rest[n..] == data[offset + n..];
  }

  lemma {:induction false} EncodeSnoc(fs: seq<Frame>, f: Frame)
    requires (forall x | x in fs :: Fits(x)) && Fits(f)
    ensures EncodeAll(fs + [f]) == EncodeAll(fs) + Encode(f)
  {
    if fs == [] {
      assert [] + [f] == [f] && [f][1..] == [];
    } else {
      EncodeSnoc(fs[1..], f);
      assert (fs + [f])[1..] == fs[1..] + [f] && (fs + [f])[0] == fs[0];
    }
  }

  lemma {:induction false} ChunksFit(stream: nat, data: Data)
    requires stream < U32
    ensures forall f | f in Chunks(stream, data) :: Fits(f)
    decreases |data|
  {
    if data != [] { ChunksFit(stream, data[Min(CHUNK, |data|)..]); }
  }

  lemma {:induction false} BuffersFit(stream: nat, buffers: seq<Buffer>)
    requires stream < U32
    ensures forall f | f in BufferFrames(stream, buffers) :: Fits(f)
  {
    if buffers != [] {
      ChunksFit(stream, buffers[0].data);
      BuffersFit(stream, buffers[1..]);
    }
  }

  lemma {:induction false} FramesFit(stream: nat, m: Message)
    requires Sendable(m) && stream < U32
    ensures forall f | f in FramesOf(stream, m) :: Fits(f)
  {
    BuffersFit(stream, m.buffers);
  }

  /** Where a receiver reads: each call gives at least one byte, until the end of the stream. */
  class Source {
    var rest: Data

    constructor (all: Data)
      ensures rest == all
    {
      rest := all;
    }

    method ReadInto(room: nat) returns (got: Data)
      requires room > 0
      modifies this
      ensures old(rest) == got + rest && |got| <= room && (got == [] <==> old(rest) == [])
    {
      if rest == [] {
        return [];
      }
      var count: nat :| 1 <= count && count <= room && count <= |rest|;
      got := rest[..count];
      rest := rest[count..];
    }
  }

  /** The receiving end. */
  class Receiver {
    const source: Source
    const allocator: bool
    var open: Open

    constructor (source: Source, allocator: bool)
      ensures this.source == source && this.allocator == allocator && open == map[]
    {
      this.source := source;
      this.allocator := allocator;
      open := map[];
    }

    /** Read exactly `size` bytes; false when the stream ended before them. */
    method Exact(size: nat) returns (ok: bool, got: Data)
      modifies source
      ensures ok <==> |old(source.rest)| >= size
      ensures ok ==> got == old(source.rest)[..size] && source.rest == old(source.rest)[size..]
    {
      got := [];
      while |got| < size
        invariant |got| <= size && old(source.rest) == got + source.rest
        decreases size - |got|
      {
        var more := source.ReadInto(size - |got|);
        if more == [] {
          return false, got;
        }
        got := got + more;
      }
      ok := true;
    }

    /**
      Read one frame. It succeeds exactly when a whole frame is there and `OnFrame` takes it,
      and then does what `OnFrame` says and leaves the stream at the next frame.
    */
    method NextEvent() returns (ok: bool, event: Event)
      requires forall s | s in open :: open[s].Valid() && !open[s].Complete()
      modifies this, source
      ensures ok ==> forall s | s in open :: open[s].Valid() && !open[s].Complete()
      ensures var p := Parse(old(source.rest));
              ok == (p.Whole? && OnFrame(old(open), p.frame, allocator).Ok?)
      ensures ok ==> var p := Parse(old(source.rest));
              source.rest == p.rest && OnFrame(old(open), p.frame, allocator) == Ok(open, event)
    {
      event := Advanced;
      ghost var all := source.rest;
      var header;
      ok, header := Exact(HEADER_SIZE);
      assert ok ==> header[..2] == all[..2] && header[4..8] == all[4..8] && header[8..16] == all[8..16];
      if !ok || header[..2] != MAGIC {
        return false, event;
      }
      var kind, stream, length := header[2] as nat, Unpack(header[4..8]), Unpack(header[8..16]);
      if kind == DATA {
        assert length <= |all[16..]| ==>
                 all[16..][..length] == all[16..16 + length] && all[16..][length..] == all[16 + length..];
        ok, event := ReadData(stream, length);
        return;
      }
      var payload;
      ok, payload := Exact(length);
      if !ok {
        return;
      }
      assert payload == all[16..16 + length] && source.rest == all[16 + length..];
      var f := Frame(kind, stream, payload);
      if kind == REQUEST || kind == REPLY {
        match OpenHead(kind, payload) {
          case Malformed => ok := false;
          case Head(p) =>
            HeadValid(kind, payload);
            if p.Complete() {
              event := Finished(stream, p, allocator);
            } else {
              open := open[stream := p];
            }
        }
      } else if kind == STDOUT || kind == STDERR {
        event := Plain(kind, payload);
      } else if kind == HELLO {
        ok := Ascii(payload);
        if ok { event := Plain(kind, payload); }
      } else if kind == SHUTDOWN {
        event := Plain(kind, []);
      } else {
        ok := false;
      }
    }

    /** Read a `DATA` payload straight into the buffers it belongs to. */
    method ReadData(stream: nat, length: nat) returns (ok: bool, event: Event)
      requires forall s | s in open :: open[s].Valid() && !open[s].Complete()
      modifies this, source
      ensures ok ==> forall s | s in open :: open[s].Valid() && !open[s].Complete()
      ensures ok == (length <= |old(source.rest)|
                     && OnFrame(old(open), Frame(DATA, stream, old(source.rest)[..length]), allocator).Ok?)
      ensures ok ==> source.rest == old(source.rest)[length..]
                     && OnFrame(old(open), Frame(DATA, stream, old(source.rest)[..length]), allocator)
                        == Ok(open, event)
    {
      event := Advanced;
      if stream !in open {
        return false, event;
      }
      ghost var all := source.rest;
      ghost var whole := length <= |all|;
      ghost var goal := FillIn(open[stream], if whole then all[..length] else []);
      var p, left := open[stream], length;
      while left > 0
        invariant 0 <= left <= length && p.Valid() && open == old(open)
        invariant length - left <= |all| && source.rest == all[length - left..]
        invariant whole ==> left <= |source.rest| && FillIn(p, source.rest[..left]) == goal
      {
        if p.Complete() {
          return false, event;
        }
        var take := Min(Size(p.marks[|p.done|]) - |p.current|, left);
        ghost var before := source.rest;
        var got;
        ok, got := Exact(take);
        if !ok {
          return;
        }
        SkipEmptyValid(p.(current := p.current + got));
        if whole { FillStep(p, before, left, take); }
        p := SkipEmpty(p.(current := p.current + got));
        left := left - take;
      }
      ok := true;
      assert whole ==> source.rest[..0] == [];
      if p.Complete() {
        open := open - {stream};
        event := Finished(stream, p, allocator);
      } else {
        open := open[stream := p];
      }
    }
  }

  lemma {:induction false} FillStep(p: Partial, before: Data, left: nat, take: nat)
    requires p.Valid() && !p.Complete() && 0 < left <= |before|
    requires take == Min(Size(p.marks[|p.done|]) - |p.current|, left)
    ensures FillIn(p, before[..left])
         == FillIn(SkipEmpty(p.(current := p.current + before[..take])), before[take..][..left - take])
  {
    assert before[..left][..take] == before[..take];
    assert before[..left][take..] == before[take..][..left - take];
  }

  lemma {:induction false} HeadValid(kind: nat, payload: Data)
    requires OpenHead(kind, payload).Head?
    ensures OpenHead(kind, payload).p.Valid()
  {
    var count := Unpack(payload[..4]);
    SkipEmptyValid(Partial(kind, payload[4 + 8 * count..], UnpackAll(payload[4..], count), [], []));
  }
}
