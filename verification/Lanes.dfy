/** How a segment of a striped stream looks on its lane, and what a lane that stops gives. */
module Lanes {
  import opened Bytes
  import F = Frames
  import opened Striped

  const SEGMENT: nat := 8
  const LANE_HEADER: nat := F.HEADER_SIZE + 8

  predicate Fits(s: Segment) {
    s.lane < F.U32 && |s.data| < F.U64 && s.offset < F.U64
  }

  function EncodeSegment(s: Segment): Data
    requires Fits(s)
  {
    F.Header(SEGMENT, s.lane, |s.data|) + Pack(s.offset, 8) + s.data
  }

  function EncodeLane(segs: seq<Segment>): Data
    requires forall s | s in segs :: Fits(s)
  {
    if segs == [] then [] else EncodeSegment(segs[0]) + EncodeLane(segs[1..])
  }

  datatype Turn = Malformed | Truncated | Next(s: Segment, rest: Data)

  /** One turn of a lane's reading thread. The lane number in the header is not looked at. */
  function ReadSegment(lane: nat, b: Data): Turn {
    if |b| < LANE_HEADER then Truncated
    else if b[..2] != F.MAGIC || b[2] as nat != SEGMENT then Malformed
    else
      var length := Unpack(b[8..16]);
      if |b| < LANE_HEADER + length then Truncated
      else Next(Segment(lane, Unpack(b[16..24]), b[24..24 + length]), b[24 + length..])
  }

  /** Everything a lane gives before it stops, and whether it stopped malformed. */
  function ReadLane(lane: nat, b: Data): (seq<Segment>, bool)
    decreases |b|
  {
    match ReadSegment(lane, b)
    case Malformed => ([], true)
    case Truncated => ([], false)
    case Next(s, rest) => var (more, bad) := ReadLane(lane, rest); ([s] + more, bad)
  }

  lemma {:induction false} SegmentFields(s: Segment, tail: Data)
    requires Fits(s)
    ensures var b := EncodeSegment(s) + tail;
            && b[..2] == F.MAGIC && b[2] as nat == SEGMENT && Unpack(b[8..16]) == |s.data|
            && Unpack(b[16..24]) == s.offset && b[24..] == s.data + tail
  {
    Limits();
    UnpackPack(s.offset, 8);
    var after := Pack(s.offset, 8) + (s.data + tail);
    var b := F.Header(SEGMENT, s.lane, |s.data|) + after;
    F.HeaderFields(SEGMENT, s.lane, |s.data|, after);
    assert EncodeSegment(s) + tail == b;
    assert b[16..][..8] == b[16..24] == Pack(s.offset, 8);
    assert b[16..][8..] == b[24..] == s.data + tail;
  }

  /** A segment on its lane, byte by byte: the header with the lane and the length, the offset, the bytes. */
  lemma {:induction false} SegmentLayout(s: Segment)
    requires Fits(s)
    ensures var b := EncodeSegment(s);
            && |b| == 24 + |s.data| && b[0] == 0x4c && b[1] == 0x46 && b[2] == 8 && b[3] == 0
            && F.Little(b[4..8]) == s.lane && F.Little(b[8..12]) + 0x1_0000_0000 * F.Little(b[12..16]) == |s.data|
            && F.Little(b[16..20]) + 0x1_0000_0000 * F.Little(b[20..24]) == s.offset && b[24..] == s.data
  {
    var b := EncodeSegment(s);
    SegmentFields(s, []);
    assert b + [] == b;
    F.UnpackHalves(b[8..16]);
    F.UnpackHalves(b[16..24]);
    assert b[8..16][..4] == b[8..12] && b[8..16][4..] == b[12..16];
    assert b[16..24][..4] == b[16..20] && b[16..24][4..] == b[20..24];
    Limits();
    F.HeaderFields(SEGMENT, s.lane, |s.data|, Pack(s.offset, 8) + s.data);
    F.UnpackLittle(b[4..8]);
    assert b == F.Header(SEGMENT, s.lane, |s.data|) + (Pack(s.offset, 8) + s.data);
    assert b[..2][0] == b[0] && b[..2][1] == b[1];
  }

  /**
    A lane's thread goes on exactly with the segment the 24 bytes and the length they state describe, on
    its own lane whatever lane they name; other beginnings end it malformed, and a short rest ends it not.
  */
  lemma {:induction false} SegmentExact(lane: nat, b: Data)
    ensures var r := ReadSegment(lane, b);
            if |b| < 24 then r == Truncated
            else if !(b[0] == 0x4c && b[1] == 0x46 && b[2] == 8) then r == Malformed
            else
              var n := 24 + F.Little(b[8..12]) + 0x1_0000_0000 * F.Little(b[12..16]);
              if |b| < n then r == Truncated
              else r == Next(Segment(lane, F.Little(b[16..20]) + 0x1_0000_0000 * F.Little(b[20..24]), b[24..n]), b[n..])
  {
    if |b| >= 24 {
      F.UnpackHalves(b[8..16]);
      F.UnpackHalves(b[16..24]);
      assert b[8..16][..4] == b[8..12] && b[8..16][4..] == b[12..16];
      assert b[16..24][..4] == b[16..20] && b[16..24][4..] == b[20..24];
      assert b[..2] == [b[0], b[1]];
    }
  }

  lemma {:induction false} WholeSegment(s: Segment, rest: Data)
    requires Fits(s)
    ensures ReadSegment(s.lane, EncodeSegment(s) + rest) == Next(s, rest)
  {
    var b := EncodeSegment(s) + rest;
    SegmentFields(s, rest);
    assert b[24..24 + |s.data|] == b[24..][..|s.data|] == s.data;
    assert b[24 + |s.data|..] == b[24..][|s.data|..] == rest;
  }

  lemma {:induction false} PartOfSegment(s: Segment, b: Data)
    requires Fits(s) && b <= EncodeSegment(s) && b != EncodeSegment(s)
    ensures ReadSegment(s.lane, b) == Truncated
  {
    if |b| >= LANE_HEADER {
      var e := EncodeSegment(s);
      SegmentFields(s, []);
      assert e + [] == e;
      assert b[..2] == e[..2] && b[8..16] == e[8..16];
    }
  }

  /**
    A lane whose bytes stop anywhere gives exactly the segments that arrived whole, in order,
    and is never malformed: this is why a lane of `Striped.Net` is a sequence of segments.
  */
  lemma {:induction false} LaneCut(lane: nat, segs: seq<Segment>, b: Data) returns (k: nat)
    requires forall s | s in segs :: Fits(s) && s.lane == lane
    requires b <= EncodeLane(segs)
    ensures k <= |segs| && ReadLane(lane, b) == (segs[..k], false)
    ensures b == EncodeLane(segs) ==> k == |segs|
  {
    if segs == [] {
      return 0;
    }
    var first := EncodeSegment(segs[0]);
    PrefixOfJoin(b, first, EncodeLane(segs[1..]));
    if |b| < |first| {
      PartOfSegment(segs[0], b);
      k := 0;
    } else {
      var rest := b[|first|..];
      WholeSegment(segs[0], rest);
      var more := LaneCut(lane, segs[1..], rest);
      k := more + 1;
      assert [segs[0]] + segs[1..][..more] == segs[..k];
    }
  }
}
