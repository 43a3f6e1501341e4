/**
  Frames over a transport that carries text only: `TextSender` writes each frame as lines of
  base64 (section 4 of RFC 4648), the receiving channel decodes line by line and sets aside
  lines that are not base64, and `chunks_readinto` serves the bytes in any sizes.
*/
module TextFrames {
  import opened Bytes
  import F = Frames

  const LINE_BYTES: nat := 36864
  const NEWLINE: Byte := 10
  const PAD: Byte := 61

  // ---------------------------------------------------------------- base64

  /** The alphabet: A-Z, a-z, 0-9, '+' and '/'. */
  function Symbol(v: nat): (c: Byte)
    requires v < 64
    ensures Value(c) == v && c != PAD && c != NEWLINE && !Blank(c)
  {
    if v < 26 then (65 + v) as Byte
    else if v < 52 then (71 + v) as Byte
    else if v < 62 then (v - 4) as Byte
    else if v == 62 then 43
    else 47
  }

  /** The six bits of a symbol, or 64 for anything else. */
  function Value(c: Byte): (v: nat)
    ensures v <= 64
  {
    if 65 <= c <= 90 then c as nat - 65
    else if 97 <= c <= 122 then c as nat - 71
    else if 48 <= c <= 57 then c as nat + 4
    else if c == 43 then 62
    else if c == 47 then 63
    else 64
  }

  /** One to three bytes as four symbols, padded. */
  function Quad(g: Data): (r: Data)
    requires 0 < |g| <= 3
    ensures |r| == 4
  {
    var (a, b, c) := (g[0] as nat, if |g| > 1 then g[1] as nat else 0, if |g| > 2 then g[2] as nat else 0);
    [Symbol(a / 4), Symbol(a % 4 * 16 + b / 16),
     if |g| > 1 then Symbol(b % 16 * 4 + c / 64) else PAD,
     if |g| > 2 then Symbol(c % 64) else PAD]
  }

  function Base64(d: Data): Data {
    if d == [] then [] else Quad(d[..Min(3, |d|)]) + Base64(d[Min(3, |d|)..])
  }

  datatype Decoded = Bytes(data: Data) | NotBase64

  /** Four symbols as three bytes, or fewer when they end in padding. */
  function Unquad(q: Data): Decoded
    requires |q| == 4
  {
    var (p, q, r, s, third, fourth) := (Value(q[0]), Value(q[1]), Value(q[2]), Value(q[3]), q[2], q[3]);
    if p == 64 || q == 64 then NotBase64
    else
      var first := (p * 4 + q / 16) as Byte;
      if third == PAD && fourth == PAD then Bytes([first])
      else if r == 64 then NotBase64
      else
        var second := (q % 16 * 16 + r / 4) as Byte;
        if fourth == PAD then Bytes([first, second])
        else if s == 64 then NotBase64
        else Bytes([first, second, (r % 4 * 64 + s) as Byte])
  }

  /** Strict decoding: nothing but the alphabet, and padding only at the end. */
  function Decode(t: Data): Decoded {
    if t == [] then Bytes([])
    else if |t| < 4 then NotBase64
    else
      match (Unquad(t[..4]), Decode(t[4..]))
      case (Bytes(group), Bytes(rest)) => if |group| < 3 && rest != [] then NotBase64 else Bytes(group + rest)
      case _ => NotBase64
  }

  /** The alphabet in its order, and nothing else in it. */
  lemma {:induction false} AlphabetExact(v: nat)
    requires v < 64
    ensures var c := Symbol(v) as int;
            if v < 26 then c == 'A' as int + v else if v < 52 then c == 'a' as int + (v - 26)
            else if v < 62 then c == '0' as int + (v - 52) else c == if v == 62 then '+' as int else '/' as int
    ensures forall c: Byte :: Value(c) == v <==> c == Symbol(v)
  {
  }

  predicate InAlphabet(c: Byte) {
    || 'A' as int <= c as int <= 'Z' as int || 'a' as int <= c as int <= 'z' as int || '0' as int <= c as int <= '9' as int
    || c as int == '+' as int || c as int == '/' as int
  }

  /** The six-bit numbers of a group's symbols are the group's bits, with zeros to fill the last symbol. */
  lemma {:induction false} GroupBits(g: Data)
    requires 0 < |g| <= 3
    ensures var q := Quad(g);
            && (|g| == 1 ==> Value(q[0]) * 64 + Value(q[1]) == g[0] as nat * 16 && q[2] as int == q[3] as int == '=' as int)
            && (|g| == 2 ==> Value(q[0]) * 4096 + Value(q[1]) * 64 + Value(q[2]) == (g[0] as nat * 256 + g[1] as nat) * 4
                             && q[3] as int == '=' as int)
            && (|g| == 3 ==> Value(q[0]) * 262144 + Value(q[1]) * 4096 + Value(q[2]) * 64 + Value(q[3])
                             == g[0] as nat * 65536 + g[1] as nat * 256 + g[2] as nat)
    ensures forall i | 0 <= i < 4 :: InAlphabet(Quad(g)[i]) <==> i <= |g|
  {
  }

  lemma {:induction false} Later<T>(a: seq<T>, b: seq<T>, from: nat, to: nat)
    requires |a| <= from <= to <= |a| + |b|
    ensures (a + b)[from..to] == b[from - |a|..to - |a|]
  {
  }

  ghost predicate GroupFits(text: Data, d: Data, from: nat, to: nat)
    requires from < |d|
  {
    |text| >= to + 4 && text[to..to + 4] == Quad(d[from..Min(from + 3, |d|)])
  }

  lemma {:induction false} NextGroup(q: Data, text: Data, d: Data, from: nat, to: nat)
    requires |q| == 4 && from >= 3 && to >= 4 && from < |d| && GroupFits(text, d[3..], from - 3, to - 4)
    ensures GroupFits(q + text, d, from, to)
  {
    Later(q, text, to, to + 4);
    Later(d[..3], d[3..], from, Min(from + 3, |d|));
    assert d[..3] + d[3..] == d;
  }

  /** Each three bytes, and what is left at the end, are four symbols in their place. */
  lemma {:induction false} GroupAt(d: Data, k: nat)
    requires 3 * k < |d|
    ensures GroupFits(Base64(d), d, 3 * k, 4 * k)
    decreases k
  {
    if k > 0 {
      GroupAt(d[3..], k - 1);
      NextGroup(Quad(d[..3]), Base64(d[3..]), d, 3 * k, 4 * k);
    } else {
      assert Base64(d)[0..4] == Quad(d[..Min(3, |d|)]);
    }
  }

  /** Symbols of the alphabet, then as many pads as are said. */
  ghost predicate Padded(t: Data, pads: nat) {
    pads <= |t| && forall i | 0 <= i < |t| :: if i < |t| - pads then InAlphabet(t[i]) else t[i] as int == '=' as int
  }

  lemma {:induction false} UnquadExact(q: Data)
    requires |q| == 4
    ensures Unquad(q).Bytes? <==> Padded(q, 0) || Padded(q, 1) || Padded(q, 2)
    ensures Unquad(q).Bytes? ==> |Unquad(q).data| == (if Padded(q, 0) then 3 else if Padded(q, 1) then 2 else 1)
  {
    assert q == [q[0], q[1], q[2], q[3]];
  }

  /** Whole groups of the alphabet, the last with up to two pads. */
  ghost predicate Strict(t: Data) {
    |t| % 4 == 0 && (Padded(t, 0) || (t != [] && (Padded(t, 1) || Padded(t, 2))))
  }

  ghost function Pads(t: Data): nat {
    if Padded(t, 0) then 0 else if Padded(t, 1) then 1 else 2
  }

  /** One group and the rest, which follows a full group only. */
  lemma {:induction false} DecodeGroup(q: Data, rest: Data)
    requires |q| == 4
    ensures Decode(q + rest) ==
            if Unquad(q).NotBase64? || Decode(rest).NotBase64? || (|Unquad(q).data| < 3 && Decode(rest).data != []) then NotBase64
            else Bytes(Unquad(q).data + Decode(rest).data)
  {
    assert (q + rest)[..4] == q && (q + rest)[4..] == rest;
  }

  /** Decoded exactly when it is strict, each group then being three bytes but for its pads. */
  ghost predicate DecodedAs(t: Data) {
    && (Decode(t).Bytes? <==> Strict(t))
    && (Decode(t).Bytes? ==> |Decode(t).data| == |t| / 4 * 3 - Pads(t))
  }

  lemma {:induction false} DecodeOne(q: Data)
    requires |q| <= 4
    ensures DecodedAs(q)
  {
    if |q| == 4 {
      UnquadExact(q);
      DecodeGroup(q, []);
      assert q + [] == q;
    }
  }

  lemma {:induction false} DecodeMore(q: Data, rest: Data)
    requires |q| == 4 && rest != [] && DecodedAs(rest)
    requires Unquad(q).Bytes? ==> (|Unquad(q).data| == 3 <==> Padded(q, 0))
    requires Padded(q, 0) ==> Unquad(q).Bytes?
    requires |rest| % 4 == 0 ==> |rest| >= 4 && (Strict(q + rest) <==> Padded(q, 0) && Strict(rest))
    requires |rest| % 4 == 0 && Strict(q + rest) ==> Pads(q + rest) == Pads(rest)
    ensures DecodedAs(q + rest)
  {
    DecodeGroup(q, rest);
    assert |q + rest| % 4 == |rest| % 4;
  }

  /** A text is decoded exactly when it is strict. */
  lemma {:induction false} DecodeExact(t: Data)
    ensures DecodedAs(t)
    decreases |t|
  {
    if |t| <= 4 {
      DecodeOne(t);
    } else {
      var (q, rest) := (t[..4], t[4..]);
      assert q + rest == t;
      DecodeExact(rest);
      UnquadExact(q);
      if |rest| % 4 == 0 { StrictLater(q, rest); }
      DecodeMore(q, rest);
    }
  }

  lemma {:induction false} PaddedLater(q: Data, rest: Data, pads: nat)
    requires |q| == 4 && |rest| >= 4 && pads <= 2
    ensures Padded(q + rest, pads) <==> Padded(q, 0) && Padded(rest, pads)
  {
    var t := q + rest;
    assert forall i | 0 <= i < 4 :: t[i] == q[i];
    assert forall i | 0 <= i < |rest| :: t[i + 4] == rest[i];
    if Padded(t, pads) {
      forall i | 0 <= i < |rest| ensures rest[i] == t[i + 4] {}
    }
  }

  lemma {:induction false} StrictLater(q: Data, rest: Data)
    requires |q| == 4 && |rest| >= 4 && |rest| % 4 == 0
    ensures Strict(q + rest) <==> Padded(q, 0) && Strict(rest)
    ensures Strict(q + rest) ==> Pads(q + rest) == Pads(rest)
  {
    PaddedLater(q, rest, 0);
    PaddedLater(q, rest, 1);
    PaddedLater(q, rest, 2);
  }

  /** Three bytes are four sextets and back. */
  lemma {:induction false} Sextets(a: nat, b: nat, c: nat)
    requires a < 256 && b < 256 && c < 256
    ensures a / 4 * 4 + (a % 4 * 16 + b / 16) / 16 == a
    ensures (a % 4 * 16 + b / 16) % 16 * 16 + (b % 16 * 4 + c / 64) / 4 == b
    ensures (b % 16 * 4 + c / 64) % 4 * 64 + c % 64 == c
  {
  }

  lemma {:induction false} ThreeBytes(a: Byte, b: Byte, c: Byte)
    ensures Unquad(Quad([a, b, c])) == Bytes([a, b, c])
  {
    Sextets(a as nat, b as nat, c as nat);
  }

  lemma {:induction false} TwoBytes(a: Byte, b: Byte)
    ensures Unquad(Quad([a, b])) == Bytes([a, b])
  {
    Sextets(a as nat, b as nat, 0);
  }

  lemma {:induction false} OneByte(a: Byte)
    ensures Unquad(Quad([a])) == Bytes([a])
  {
    Sextets(a as nat, 0, 0);
  }

  lemma {:induction false} UnquadQuad(g: Data)
    requires 0 < |g| <= 3
    ensures Unquad(Quad(g)) == Bytes(g)
  {
    if |g| == 1 {
      OneByte(g[0]);
      assert g == [g[0]];
    } else if |g| == 2 {
      TwoBytes(g[0], g[1]);
      assert g == [g[0], g[1]];
    } else {
      ThreeBytes(g[0], g[1], g[2]);
      assert g == [g[0], g[1], g[2]];
    }
  }

  lemma {:induction false} DecodeNext(g: Data, text: Data, rest: Data)
    requires 0 < |g| <= 3 && Decode(text) == Bytes(rest) && (|g| < 3 ==> rest == [])
    ensures Decode(Quad(g) + text) == Bytes(g + rest)
  {
    UnquadQuad(g);
    DecodeGroup(Quad(g), text);
  }

  lemma {:induction false} DecodeBase64(d: Data)
    ensures Decode(Base64(d)) == Bytes(d)
    decreases |d|
  {
    if 0 < |d| <= 3 {
      DecodeNext(d, [], []);
      assert Base64(d) == Quad(d) + [] by { assert d[..|d|] == d && d[|d|..] == []; }
      assert d + [] == d;
    } else if |d| > 3 {
      var (g, rest) := (d[..3], d[3..]);
      DecodeBase64(rest);
      DecodeNext(g, Base64(rest), rest);
      assert Base64(d) == Quad(g) + Base64(rest);
      assert g + rest == d;
    }
  }

  lemma {:induction false} OneMoreGroup(n: nat)
    ensures (n + 5) / 3 * 4 == (n + 2) / 3 * 4 + 4
  {
    assert (n + 5) / 3 == (n + 2) / 3 + 1;
  }

  lemma {:induction false} Base64Length(d: Data)
    ensures |Base64(d)| == (|d| + 2) / 3 * 4
    decreases |d|
  {
    if |d| >= 3 {
      Base64Length(d[3..]);
      OneMoreGroup(|d| - 3);
    } else if d != [] {
      assert d[|d|..] == [];
    }
  }

  predicate Blank(c: Byte) {
    c == 32 || 9 <= c <= 13 || 28 <= c <= 31
  }

  lemma {:induction false} NoBlanks(d: Data)
    ensures forall c | c in Base64(d) :: !Blank(c) && c != NEWLINE
    decreases |d|
  {
    if d != [] {
      NoBlanks(d[Min(3, |d|)..]);
    }
  }

  // ---------------------------------------------------------------- lines

  /** What TextSender writes for one frame's bytes. */
  function TextOf(data: Data): Data {
    if data == [] then []
    else
      var n := Min(LINE_BYTES, |data|);
      Base64(data[..n]) + [NEWLINE] + TextOf(data[n..])
  }

  function TextOfFrames(fs: seq<F.Frame>): Data
    requires forall f | f in fs :: F.Fits(f)
  {
    if fs == [] then [] else TextOf(F.Encode(fs[0])) + TextOfFrames(fs[1..])
  }

  /** Text as lines without their ends; the last may have none. */
  function Lines(text: Data): (r: seq<Data>)
    ensures text != [] ==> r != []
  {
    if text == [] then []
    else if text[0] == NEWLINE then [[]] + Lines(text[1..])
    else
      var rest := Lines(text[1..]);
      if rest == [] then [[text[0]]] else [[text[0]] + rest[0]] + rest[1..]
  }

  lemma {:induction false} FirstLine(line: Data, rest: Data)
    requires NEWLINE !in line
    ensures Lines(line + [NEWLINE] + rest) == [line] + Lines(rest)
    decreases |line|
  {
    var text := line + [NEWLINE] + rest;
    if line == [] {
      assert text == [NEWLINE] + rest && text[1..] == rest;
    } else {
      FirstLine(line[1..], rest);
      assert text[1..] == line[1..] + [NEWLINE] + rest;
      assert text[0] == line[0] && line == [line[0]] + line[1..];
      var next := [line[1..]] + Lines(rest);
      assert next[0] == line[1..] && next[1..] == Lines(rest);
    }
  }

  /** str.strip() of ASCII text. */
  function Strip(line: Data): Data
    decreases |line|
  {
    if line == [] then []
    else if Blank(line[0]) then Strip(line[1..])
    else if Blank(line[|line| - 1]) then Strip(line[..|line| - 1])
    else line
  }

  /** Whitespace: the space, the codes from tab to carriage return, and the four separators. */
  ghost predicate AllBlank(line: Data) {
    forall i | 0 <= i < |line| :: line[i] == 32 || 9 <= line[i] <= 13 || 28 <= line[i] <= 31
  }

  ghost predicate NotBlank(c: Byte) {
    c != 32 && (c < 9 || c > 13) && (c < 28 || c > 31)
  }

  /** Stripping takes the whitespace at both ends and nothing else. */
  lemma {:induction false} StripExact(before: Data, line: Data, after: Data)
    requires AllBlank(before) && AllBlank(after)
    requires line == [] || (NotBlank(line[0]) && NotBlank(line[|line| - 1]))
    ensures Strip(before + line + after) == line
    decreases |before| + |after|
  {
    var all := before + line + after;
    if before != [] {
      assert all[0] == before[0] && all[1..] == before[1..] + line + after;
      StripExact(before[1..], line, after);
    } else if after != [] {
      StripAfter(line, after);
    } else {
      assert all == line;
    }
  }

  lemma {:induction false} StripAfter(line: Data, after: Data)
    requires AllBlank(after)
    requires line == [] || (NotBlank(line[0]) && NotBlank(line[|line| - 1]))
    ensures Strip([] + line + after) == line
    decreases |after|
  {
    var all := [] + line + after;
    if after == [] {
      assert all == line;
    } else if line == [] {
      assert all[0] == after[0] && all[1..] == [] + line + after[1..];
      StripAfter(line, after[1..]);
    } else {
      var n := |after| - 1;
      assert all[0] == line[0] && all[|all| - 1] == after[n] && all[..|all| - 1] == [] + line + after[..n];
      StripAfter(line, after[..n]);
    }
  }

  /** Lines with a newline after each. */
  ghost function WithEnds(lines: seq<Data>): Data {
    if lines == [] then [] else lines[0] + [10] + WithEnds(lines[1..])
  }

  /** The lines put back with their ends are the text, but that the last may have had none. */
  lemma {:induction false} LinesExact(text: Data)
    ensures WithEnds(Lines(text)) == if text == [] || text[|text| - 1] == 10 then text else text + [10]
    decreases |text|
  {
    if text != [] {
      var rest := Lines(text[1..]);
      LinesExact(text[1..]);
      assert text == [text[0]] + text[1..];
      assert |text| > 1 ==> text[|text| - 1] == text[1..][|text| - 2];
      if text[0] == 10 {
        assert ([[]] + rest)[1..] == rest;
        assert WithEnds(Lines(text)) == [] + [10] + WithEnds(rest);
      } else if rest != [] {
        assert ([[text[0]] + rest[0]] + rest[1..])[1..] == rest[1..];
        assert WithEnds(Lines(text)) == [text[0]] + rest[0] + [10] + WithEnds(rest[1..]);
        assert WithEnds(rest) == rest[0] + [10] + WithEnds(rest[1..]);
        assert [text[0]] + rest[0] + [10] + WithEnds(rest[1..]) == [text[0]] + (rest[0] + [10] + WithEnds(rest[1..]));
      } else {
        assert text == [text[0]];
        assert [[text[0]]][1..] == [];
      }
    }
  }

  lemma {:induction false} NoneInside(text: Data)
    ensures forall k | 0 <= k < |Lines(text)| :: NEWLINE !in Lines(text)[k]
    decreases |text|
  {
    if text != [] {
      NoneInside(text[1..]);
      var rest := Lines(text[1..]);
      if text[0] != NEWLINE && rest != [] { assert NEWLINE !in [text[0]] + rest[0]; }
    }
  }

  /** The chunks a line gives, and the bytes set aside for the failure report. */
  function ChunksOf(lines: seq<Data>): seq<Data> {
    if lines == [] then []
    else
      match Decode(Strip(lines[0]))
      case Bytes(data) => [data] + ChunksOf(lines[1..])
      case NotBase64 => ChunksOf(lines[1..])
  }

  /** The byte stream the receiver reads from a text. */
  function Received(text: Data): Data {
    Flatten(ChunksOf(Lines(text)))
  }

  lemma {:induction false} ReceiveLine(data: Data, rest: Data)
    ensures Received(Base64(data) + [NEWLINE] + rest) == data + Received(rest)
  {
    NoBlanks(data);
    FirstLine(Base64(data), rest);
    DecodeBase64(data);
    var lines := [Base64(data)] + Lines(rest);
    assert lines[1..] == Lines(rest);
    var chunks := [data] + ChunksOf(Lines(rest));
    assert Strip(Base64(data)) == Base64(data) by {
      if Base64(data) != [] { assert Base64(data)[0] in Base64(data) && Base64(data)[|Base64(data)| - 1] in Base64(data); }
    }
    assert ChunksOf(lines) == chunks && chunks[1..] == ChunksOf(Lines(rest));
  }

  /** The first line's bytes and the rest. */
  function Cut(data: Data): (r: (Data, Data))
    ensures data == r.0 + r.1 && |r.0| <= LINE_BYTES && (data != [] ==> |r.1| < |data|)
  {
    var n := Min(LINE_BYTES, |data|);
    (data[..n], data[n..])
  }

  lemma {:induction false} TextCut(data: Data, rest: Data)
    requires data != []
    ensures TextOf(data) + rest == Base64(Cut(data).0) + [NEWLINE] + (TextOf(Cut(data).1) + rest)
  {
  }

  lemma {:induction false} LinesOfCut(data: Data)
    requires data != []
    ensures Lines(TextOf(data)) == [Base64(Cut(data).0)] + Lines(TextOf(Cut(data).1))
  {
    var (line, more) := Cut(data);
    NoBlanks(line);
    FirstLine(Base64(line), TextOf(more));
    assert TextOf(data) == Base64(line) + [NEWLINE] + TextOf(more);
  }

  lemma {:induction false} PartOf(data: Data, at: nat)
    requires 36864 <= at < |data|
    ensures data[36864..][at - 36864..Min(at, |data| - 36864)] == data[at..Min(at + 36864, |data|)]
  {
  }

  /** The lines are the pieces of the data, from this place on. */
  ghost predicate LinesFit(lines: seq<Data>, data: Data, k: nat, at: nat)
    requires at < |data|
  {
    && |lines| > k && lines[k] == Base64(data[at..Min(at + 36864, |data|)])
    && (|lines| == k + 1 <==> at + 36864 >= |data|)
  }

  lemma {:induction false} FirstFits(data: Data)
    requires data != []
    ensures LinesFit(Lines(TextOf(data)), data, 0, 0)
  {
    LinesOfCut(data);
    if |data| > 36864 { LinesOfCut(data[36864..]); }
  }

  lemma {:induction false} NextFits(first: Data, lines: seq<Data>, data: Data, k: nat, at: nat)
    requires 36864 <= at < |data| && k > 0 && LinesFit(lines, data[36864..], k - 1, at - 36864)
    ensures LinesFit([first] + lines, data, k, at)
  {
    PartOf(data, at);
  }

  /** A frame is written as one line for each 36864 of its bytes and what is left, in their order. */
  lemma {:induction false} LineAt(data: Data, k: nat, at: nat)
    requires at == 36864 * k && at < |data|
    ensures LinesFit(Lines(TextOf(data)), data, k, at)
    decreases k
  {
    if k == 0 {
      FirstFits(data);
    } else {
      LineAt(data[36864..], k - 1, at - 36864);
      LinesOfCut(data);
      NextFits(Base64(Cut(data).0), Lines(TextOf(data[36864..])), data, k, at);
    }
  }

  lemma {:induction false} ReceiveCut(data: Data, rest: Data)
    requires data != []
    ensures Received(TextOf(data) + rest) == Cut(data).0 + Received(TextOf(Cut(data).1) + rest)
  {
    TextCut(data, rest);
    ReceiveLine(Cut(data).0, TextOf(Cut(data).1) + rest);
  }

  lemma {:induction false} Joined(a: Data, b: Data, c: Data)
    ensures a + (b + c) == a + b + c
  {
  }

  lemma {:induction false} ReceiveFrame(data: Data, rest: Data)
    ensures Received(TextOf(data) + rest) == data + Received(rest)
    decreases |data|
  {
    if data == [] {
      Joined([], [], rest);
      assert [] + rest == rest;
    } else {
      var (line, more) := Cut(data);
      ReceiveCut(data, rest);
      ReceiveFrame(more, rest);
      Joined(line, more, Received(rest));
    }
  }

  /** A text of frames is received as the bytes a Sender writes for them. */
  lemma {:induction false} SameStream(fs: seq<F.Frame>)
    requires forall f | f in fs :: F.Fits(f)
    ensures Received(TextOfFrames(fs)) == F.EncodeAll(fs)
    decreases |fs|
  {
    if fs != [] {
      ReceiveFrame(F.Encode(fs[0]), TextOfFrames(fs[1..]));
      SameStream(fs[1..]);
    }
  }

  /** No line is longer than 48 KiB, the most the transport keeps whole being 64 KiB. */
  lemma {:induction false} LinesAreShort(fs: seq<F.Frame>)
    requires forall f | f in fs :: F.Fits(f)
    ensures forall line | line in Lines(TextOfFrames(fs)) :: |line| <= 49152
    decreases |fs|
  {
    if fs != [] {
      LinesAreShort(fs[1..]);
      assert ShortLines(TextOfFrames(fs[1..]));
      FrameLinesShort(F.Encode(fs[0]), TextOfFrames(fs[1..]));
    }
  }

  ghost predicate ShortLines(text: Data) {
    forall line | line in Lines(text) :: |line| <= 49152
  }

  lemma {:induction false} AddLine(line: Data, text: Data)
    requires |line| <= LINE_BYTES && ShortLines(text)
    ensures ShortLines(Base64(line) + [NEWLINE] + text)
  {
    Base64Length(line);
    LineLength(|line|);
    NoBlanks(line);
    FirstLine(Base64(line), text);
  }

  lemma {:induction false} LineLength(n: nat)
    requires n <= LINE_BYTES
    ensures (n + 2) / 3 * 4 <= 49152
  {
  }

  lemma {:induction false} FrameLinesShort(data: Data, rest: Data)
    requires ShortLines(rest)
    ensures ShortLines(TextOf(data) + rest)
    decreases |data|
  {
    if data == [] {
      assert TextOf(data) + rest == rest;
    } else {
      var (line, more) := Cut(data);
      TextCut(data, rest);
      FrameLinesShort(more, rest);
      AddLine(line, TextOf(more) + rest);
    }
  }

  // ---------------------------------------------------------------- other output on the same pipe

  /** `mixed` is `lines` with any number of lines that are not base64 put in between. */
  ghost predicate Noisy(mixed: seq<Data>, lines: seq<Data>)
    decreases |mixed|
  {
    if mixed == [] then lines == []
    else
      || (lines != [] && mixed[0] == lines[0] && Noisy(mixed[1..], lines[1..]))
      || (Decode(Strip(mixed[0])).NotBase64? && Noisy(mixed[1..], lines))
  }

  /** Lines of other output that are not base64 do not change what is received. */
  lemma {:induction false} NoiseIsSetAside(mixed: seq<Data>, lines: seq<Data>)
    requires Noisy(mixed, lines)
    ensures ChunksOf(mixed) == ChunksOf(lines)
    decreases |mixed|
  {
    if mixed != [] {
      if lines != [] && mixed[0] == lines[0] && Noisy(mixed[1..], lines[1..]) {
        NoiseIsSetAside(mixed[1..], lines[1..]);
      } else {
        NoiseIsSetAside(mixed[1..], lines);
      }
    }
  }

  /** Frames sent as text arrive as the bytes a Sender writes, whatever else is on the pipe between their lines. */
  lemma {:induction false} TextCarriesFrames(fs: seq<F.Frame>, mixed: seq<Data>)
    requires forall f | f in fs :: F.Fits(f)
    requires Noisy(mixed, Lines(TextOfFrames(fs)))
    ensures Flatten(ChunksOf(mixed)) == F.EncodeAll(fs)
  {
    NoiseIsSetAside(mixed, Lines(TextOfFrames(fs)));
    SameStream(fs);
  }

  // ---------------------------------------------------------------- the sending and the reading end

  lemma {:induction false} TextFrom(data: Data, offset: nat)
    requires offset < |data|
    ensures var n := Min(LINE_BYTES, |data| - offset);
            TextOf(data[offset..]) == Base64(data[offset..offset + n]) + [NEWLINE] + TextOf(data[offset + n..])
  {
    var n := Min(LINE_BYTES, |data| - offset);
    assert data[offset..][..n] == data[offset..offset + n] && data[offset..][n..] == data[offset + n..];
  }

  class TextOutgoing {
    const out: F.Outgoing

    constructor (out: F.Outgoing)
      ensures this.out == out
    {
      this.out := out;
    }

    method SendFrame(kind: nat, stream: nat, payload: Data)
      requires F.Fits(F.Frame(kind, stream, payload))
      modifies out.sink
      ensures out.sink.written == old(out.sink.written) + TextOf(F.Encode(F.Frame(kind, stream, payload)))
    {
      var data := F.Header(kind, stream, |payload|) + payload;
      ghost var base := out.sink.written;
      var offset := 0;
      assert data[0..] == data;
      while offset < |data|
        invariant offset <= |data| && out.sink.written + TextOf(data[offset..]) == base + TextOf(data)
      {
        var n := Min(LINE_BYTES, |data| - offset);
        var line := Base64(data[offset..offset + n]) + [NEWLINE];
        TextFrom(data, offset);
        Joined(out.sink.written, line, TextOf(data[offset + n..]));
        out.All(line);
        offset := offset + n;
      }
      assert data[offset..] == [] && out.sink.written + [] == out.sink.written;
    }
  }

  /** `chunks_readinto` over a source that gives some chunks at a time and none at its end. */
  class ChunkReader {
    var batches: seq<seq<Data>>
    var pending: Data

    constructor (batches: seq<seq<Data>>)
      requires forall b | b in batches :: b != []
      ensures Valid() && Left() == Flatten(Flatten(batches))
    {
      this.batches := batches;
      pending := [];
    }

    ghost predicate Valid()
      reads this
    {
      forall b | b in batches :: b != []
    }

    /** The bytes still to come. */
    ghost function Left(): Data
      reads this
    {
      pending + Flatten(Flatten(batches))
    }

    method ReadInto(room: nat) returns (got: Data)
      requires Valid()
      modifies this
      ensures Valid() && got + Left() == old(Left()) && |got| <= room
      ensures got == [] <==> room == 0 || old(Left()) == []
    {
      while pending == []
        invariant Valid() && Left() == old(Left())
        decreases |batches|
      {
        if batches == [] { return []; }
        var chunks := batches[0];
        ghost var all := batches;
        batches := batches[1..];
        FlattenAppend(chunks, Flatten(all[1..]));
        assert Flatten(all) == chunks + Flatten(all[1..]);
        assert forall b | b in all[1..] :: b in all;
        for k := 0 to |chunks|
          invariant pending == Flatten(chunks[..k])
          invariant batches == all[1..]
        {
          assert chunks[..k + 1] == chunks[..k] + [chunks[k]];
          FlattenSnoc(chunks[..k], chunks[k]);
          pending := pending + chunks[k];
        }
        assert chunks[..|chunks|] == chunks;
      }
      var count := Min(|pending|, room);
      got := pending[..count];
      pending := pending[count..];
      assert got + pending + Flatten(Flatten(batches)) == got + (pending + Flatten(Flatten(batches)));
    }
  }
}
