/**
  One byte stream carried as segments over several lanes.

  `Core` is the reassembly state that the reading threads and the consumer share under the
  condition, `Striped` is the object that updates it in place, and `Net` is the whole
  protocol: every send so far, one reading thread per lane with its program counter, and the
  consumer. A thread switch can happen between any two `Action`s, and an action is one
  critical section.
*/
module Striped {
  import opened Bytes

  /** A write this large or larger is split across every lane. */
  const STRIPE_MIN: nat := 0x10_0000

  /** Bytes held before a lane that is ahead of the next offset waits. */
  const STRIPE_HOLD: nat := 0x400_0000

  // ---------------------------------------------------------------- sending

  /** One segment: the lane it travels on, its offset in the stream and its bytes. */
  datatype Segment = Segment(lane: nat, offset: nat, data: Data) {
    function End(): nat { offset + |data| }
  }

  /** `rest`, which starts at `offset`, cut into runs of `step` bytes for lanes `lane` and up. */
  function Cuts(offset: nat, rest: Data, step: nat, lane: nat, lanes: nat): seq<Segment>
    decreases lanes - lane
  {
    if lane >= lanes || rest == [] then []
    else
      var size := Min(step, |rest|);
      [Segment(lane, offset, rest[..size])] + Cuts(offset + size, rest[size..], step, lane + 1, lanes)
  }

  function Split(offset: nat, data: Data, lanes: nat): seq<Segment>
    requires lanes >= 1
  {
    if |data| < STRIPE_MIN || lanes == 1 then [Segment(0, offset, data)]
    else Cuts(offset, data, (|data| + lanes - 1) / lanes, 0, lanes)
  }

  /** `k` times `n`, by addition. */
  function Times(k: nat, n: nat): (r: nat) {
    if k == 0 then 0 else Times(k - 1, n) + n
  }

  lemma {:induction false} TimesIsProduct(k: nat, n: nat)
    ensures Times(k, n) == k * n
  {
    if k > 0 { TimesIsProduct(k - 1, n); }
  }

  ghost predicate Follows(log: seq<Segment>, i: nat)
    requires i + 1 < |log|
  {
    log[i + 1].offset == log[i].End()
  }

  ghost predicate Before(a: Segment, b: Segment) {
    a.End() <= b.offset
  }

  ghost predicate Carried(s: Segment, total: Data) {
    s.data != [] && s.End() <= |total| && total[s.offset..s.End()] == s.data
  }

  ghost predicate Ordered(log: seq<Segment>) {
    forall i, j {:trigger Before(log[i], log[j])} | 0 <= i < j < |log| :: Before(log[i], log[j])
  }

  ghost predicate Chained(log: seq<Segment>, from: nat, to: nat) {
    && (if log == [] then from == to else log[0].offset == from && log[|log| - 1].End() == to)
    && (forall i {:trigger Follows(log, i)} | 0 <= i < |log| - 1 :: Follows(log, i))
  }

  ghost predicate Carries(log: seq<Segment>, total: Data) {
    forall i {:trigger Carried(log[i], total)} | 0 <= i < |log| :: Carried(log[i], total)
  }

  /** `log` covers exactly `[from, to)` of `total`, in order and without gap or overlap. */
  ghost predicate Tiles(log: seq<Segment>, total: Data, from: nat, to: nat) {
    from <= to <= |total| && Ordered(log) && Chained(log, from, to) && Carries(log, total)
  }

  lemma {:induction false} ChainEnds(log: seq<Segment>, total: Data, from: nat, to: nat)
    requires Tiles(log, total, from, to)
    ensures forall s | s in log :: from <= s.offset && s.End() <= to
  {
    forall s | s in log ensures from <= s.offset && s.End() <= to {
      var i :| 0 <= i < |log| && log[i] == s;
      if i > 0 { assert Before(log[0], log[i]); }
      if i < |log| - 1 { assert Before(log[i], log[|log| - 1]); }
    }
  }

  /** Segments that tile `[a, b)` and segments that tile `[b, c)` tile `[a, c)`. */
  lemma {:induction false} TilesJoin(x: seq<Segment>, y: seq<Segment>, total: Data, a: nat, b: nat, c: nat)
    requires Tiles(x, total, a, b) && Tiles(y, total, b, c)
    ensures Tiles(x + y, total, a, c)
  {
    var z := x + y;
    ChainEnds(x, total, a, b);
    ChainEnds(y, total, b, c);
    forall i, j | 0 <= i < j < |z| ensures Before(z[i], z[j]) {
      if j < |x| { assert Before(x[i], x[j]); }
      else if i < |x| { assert x[i] in x && y[j - |x|] in y; }
      else { assert Before(y[i - |x|], y[j - |x|]); }
    }
    forall i | 0 <= i < |z| - 1 ensures Follows(z, i) {
      if i < |x| - 1 { assert Follows(x, i); }
      else if i >= |x| { assert Follows(y, i - |x|); }
    }
    forall i | 0 <= i < |z| ensures Carried(z[i], total) {
      if i < |x| { assert Carried(x[i], total); } else { assert Carried(y[i - |x|], total); }
    }
  }

  lemma {:induction false} CutsTile(before: Data, rest: Data, step: nat, lane: nat, lanes: nat)
    requires step >= 1 && lane <= lanes && |rest| <= Times(lanes - lane, step)
    ensures Tiles(Cuts(|before|, rest, step, lane, lanes), before + rest, |before|, |before| + |rest|)
    decreases lanes - lane
  {
    if rest != [] {
      var size := Min(step, |rest|);
      var more := Cuts(|before| + size, rest[size..], step, lane + 1, lanes);
      CutsTile(before + rest[..size], rest[size..], step, lane + 1, lanes);
      assert before + rest[..size] + rest[size..] == before + rest;
      FirstTile(before, rest, size, lane);
      TilesJoin([Segment(lane, |before|, rest[..size])], more, before + rest,
                |before|, |before| + size, |before| + |rest|);
    }
  }

  lemma {:induction false} FirstTile(before: Data, rest: Data, size: nat, lane: nat)
    requires 1 <= size <= |rest|
    ensures Tiles([Segment(lane, |before|, rest[..size])], before + rest, |before|, |before| + size)
  {
    var first, total := Segment(lane, |before|, rest[..size]), before + rest;
    assert total[first.offset..first.End()] == rest[..size];
    assert Carried(first, total);
  }

  lemma {:induction false} CutsLanes(offset: nat, rest: Data, step: nat, lane: nat, lanes: nat)
    ensures forall s | s in Cuts(offset, rest, step, lane, lanes) ::
              lane <= s.lane < lanes && |s.data| <= |rest|
    decreases lanes - lane
  {
    if lane < lanes && rest != [] {
      var size := Min(step, |rest|);
      CutsLanes(offset + size, rest[size..], step, lane + 1, lanes);
    }
  }

  lemma {:induction false} CeilCovers(n: nat, lanes: nat)
    requires lanes >= 1
    ensures n <= lanes * ((n + lanes - 1) / lanes)
  {
    var q, r := (n + lanes - 1) / lanes, (n + lanes - 1) % lanes;
    assert n + lanes - 1 == lanes * q + r;
  }

  /** A nonempty write becomes segments that tile exactly the bytes it adds to the stream. */
  lemma {:induction false} SplitTiles(before: Data, data: Data, lanes: nat)
    requires data != [] && lanes >= 1
    ensures Tiles(Split(|before|, data, lanes), before + data, |before|, |before| + |data|)
    ensures Split(|before|, data, lanes) != []
    ensures forall s | s in Split(|before|, data, lanes) :: s.lane < lanes && |s.data| <= |data|
  {
    if |data| < STRIPE_MIN || lanes == 1 {
      assert (before + data)[|before|..] == data;
    } else {
      var step := (|data| + lanes - 1) / lanes;
      CeilCovers(|data|, lanes);
      TimesIsProduct(lanes, step);
      LaneZero(|data|, lanes);
      CutsTile(before, data, step, 0, lanes);
      CutsLanes(|before|, data, step, 0, lanes);
    }
  }

  /** What lane `lane` is given, and what is left for the lanes after it. */
  lemma {:induction false} CutAt(offset: nat, data: Data, step: nat, lane: nat, lanes: nat)
    requires lane < lanes && step >= 1
    ensures (lane + 1) * step == lane * step + step
    ensures var at, to := Min(lane * step, |data|), Min((lane + 1) * step, |data|);
            var piece := Slice(data, lane * step, (lane + 1) * step);
            && (piece == [] <==> at == |data|) && (piece != [] ==> at == lane * step)
            && Cuts(offset + at, data[at..], step, lane, lanes)
               == (if piece == [] then [] else [Segment(lane, offset + at, piece)])
                  + Cuts(offset + to, data[to..], step, lane + 1, lanes)
  {
    var from := lane * step;
    assert (lane + 1) * step == from + step;
    var at, to := Min(from, |data|), Min(from + step, |data|);
    assert data[at..][..to - at] == data[at..to] && data[at..][to - at..] == data[to..];
  }

  /** The k-th part of the data, from `at`, goes on the k-th lane, if there is that lane and a byte there. */
  ghost predicate PartAt(parts: seq<Segment>, offset: nat, data: Data, step: nat, lane: nat, lanes: nat, k: nat, at: nat) {
    && (k < |parts| <==> lane + k < lanes && at < |data|)
    && (k < |parts| && at < |data| ==> parts[k] == Segment(lane + k, offset + at, data[at..Min(at + step, |data|)]))
  }

  /** The data is cut every `step` bytes, one part for each lane from the first. */
  ghost predicate CutEvery(parts: seq<Segment>, offset: nat, data: Data, step: nat, lanes: nat) {
    forall k: nat :: PartAt(parts, offset, data, step, 0, lanes, k, k * step)
  }

  lemma {:induction false} CutsAt(offset: nat, rest: Data, step: nat, lane: nat, lanes: nat, k: nat)
    requires step >= 1 && lane <= lanes
    ensures PartAt(Cuts(offset, rest, step, lane, lanes), offset, rest, step, lane, lanes, k, Times(k, step))
    decreases k
  {
    if k > 0 {
      MulMonotone(step, 1, k);
      if lane < lanes && rest != [] {
        var n := Min(step, |rest|);
        CutsAt(offset + n, rest[n..], step, lane + 1, lanes, k - 1);
        var more := Cuts(offset + n, rest[n..], step, lane + 1, lanes);
        CutsNext(Segment(lane, offset, rest[..n]), more, offset, rest, step, n, lane, lanes, k, Times(k - 1, step));
      }
    }
  }

  lemma {:induction false} SliceShift(rest: Data, n: nat, from: nat, to: nat)
    requires n <= |rest| && from <= to <= |rest| - n
    ensures rest[n..][from..to] == rest[n + from..n + to]
  {
  }

  /** A first part in front moves the others on by one. */
  lemma {:induction false} CutsNext(first: Segment, more: seq<Segment>, offset: nat, rest: Data, step: nat, n: nat,
                                    lane: nat, lanes: nat, k: nat, before: nat)
    requires 0 < n <= |rest| && n == Min(step, |rest|) && lane < lanes && k > 0
    requires PartAt(more, offset + n, rest[n..], step, lane + 1, lanes, k - 1, before)
    ensures PartAt([first] + more, offset, rest, step, lane, lanes, k, before + step)
  {
    if before < |rest| - n {
      assert n == step;
      SliceShift(rest, n, before, Min(before + step, |rest| - n));
    }
  }

  /**
    A write below 1 MiB, or on one lane, is one segment on lane 0. Any other is cut every
    ceil(length / lanes) bytes, and its k-th part goes on lane k.
  */
  lemma {:induction false} SplitExact(offset: nat, data: Data, lanes: nat)
    requires data != [] && lanes >= 1
    ensures |data| < 0x10_0000 || lanes == 1 ==> Split(offset, data, lanes) == [Segment(0, offset, data)]
    ensures |data| >= 0x10_0000 && lanes > 1 ==>
              CutEvery(Split(offset, data, lanes), offset, data, (|data| + lanes - 1) / lanes, lanes)
  {
    if |data| >= 0x10_0000 && lanes > 1 {
      var step := (|data| + lanes - 1) / lanes;
      LaneZero(|data|, lanes);
      forall k: nat ensures PartAt(Split(offset, data, lanes), offset, data, step, 0, lanes, k, k * step) {
        CutsAt(offset, data, step, 0, lanes, k);
        TimesIsProduct(k, step);
      }
    }
  }

  lemma {:induction false} LaneZero(n: nat, lanes: nat)
    requires n >= 1 && lanes >= 1
    ensures 1 <= (n + lanes - 1) / lanes <= n
  {
    var q := (n + lanes - 1) / lanes;
    CeilCovers(n, lanes);
    if q > n {
      MulMonotone(lanes, n + 1, q);
      MulMonotone(n, 1, lanes);
    }
  }

  lemma {:induction false} MulMonotone(a: nat, b: nat, c: nat)
    requires b <= c
    ensures a * b <= a * c
  {
  }

  // ---------------------------------------------------------------- reassembly

  /** What `_cond` guards: pieces by offset, the next offset, the piece being read out. */
  datatype Core = Core(pieces: map<nat, Data>, next: nat, held: nat, head: Data, ended: bool, live: nat)

  datatype Verdict = Wait | Take | Refuse

  datatype Read = Bytes(data: Data) | EndOfStream | Blocked

  /** What a lane that read a header for `offset` does now. */
  function Admit(c: Core, offset: nat): Verdict {
    if c.held > STRIPE_HOLD && offset != c.next && !c.ended then Wait
    else if offset < c.next || offset in c.pieces || c.ended then Refuse
    else Take
  }

  predicate Repeated(c: Core, offset: nat) {
    offset < c.next || offset in c.pieces
  }

  function Store(c: Core, offset: nat, piece: Data): Core {
    c.(pieces := c.pieces[offset := piece], held := c.held + |piece|)
  }

  function Stop(c: Core, malformed: bool): Core
    requires c.live > 0
  {
    c.(live := c.live - 1, ended := c.ended || malformed || c.live - 1 == 0)
  }

  /** Every piece is counted in `held`, so taking one out never makes the count negative. */
  ghost predicate Counted(c: Core) {
    c.held == Total(c.pieces)
  }

  ghost function Total(pieces: map<nat, Data>): nat
    decreases |pieces|
  {
    if pieces == map[] then 0
    else
      var k :| k in pieces;
      |pieces[k]| + Total(pieces - {k})
  }

  lemma {:induction false} TotalRemove(pieces: map<nat, Data>, k: nat)
    requires k in pieces
    ensures Total(pieces) == |pieces[k]| + Total(pieces - {k})
    decreases |pieces|
  {
    var j :| j in pieces && Total(pieces) == |pieces[j]| + Total(pieces - {j});
    if j != k {
      TotalRemove(pieces - {j}, k);
      TotalRemove(pieces - {k}, j);
      assert pieces - {j} - {k} == pieces - {k} - {j};
    }
  }

  lemma {:induction false} TotalAdd(pieces: map<nat, Data>, k: nat, piece: Data)
    requires k !in pieces
    ensures Total(pieces[k := piece]) == Total(pieces) + |piece|
  {
    TotalRemove(pieces[k := piece], k);
    assert pieces[k := piece] - {k} == pieces;
  }

  function Pop(c: Core): Core
    requires c.next in c.pieces && c.held >= |c.pieces[c.next]|
  {
    var piece := c.pieces[c.next];
    Core(c.pieces - {c.next}, c.next + |piece|, c.held - |piece|, piece, c.ended, c.live)
  }

  /** The loop of `recv_into`: take pieces in offset order until one has bytes. */
  ghost function Fill(c: Core): Core
    requires Counted(c)
    decreases |c.pieces|
  {
    if c.head == [] && c.next in c.pieces then
      TotalRemove(c.pieces, c.next);
      Fill(Pop(c))
    else c
  }

  lemma {:induction false} FillPop(c: Core)
    requires Counted(c) && c.head == [] && c.next in c.pieces
    ensures c.held >= |c.pieces[c.next]| && Counted(Pop(c)) && Fill(c) == Fill(Pop(c))
  {
    TotalRemove(c.pieces, c.next);
  }

  ghost function RecvRead(c: Core, room: nat): Read
    requires Counted(c)
  {
    var f := Fill(c);
    if f.head != [] then Bytes(f.head[..Min(room, |f.head|)])
    else if f.ended then EndOfStream else Blocked
  }

  ghost function RecvCore(c: Core, room: nat): Core
    requires Counted(c)
  {
    var f := Fill(c);
    if f.head != [] then f.(head := f.head[Min(room, |f.head|)..]) else f
  }

  /** The striped stream, updated in place: the sending counter and the shared reading state. */
  class Striped {
    const lanes: nat
    var sent: nat
    var pieces: map<nat, Data>
    var next: nat
    var held: nat
    var head: Data
    var ended: bool
    var live: nat

    ghost function State(): Core
      reads this
    {
      Core(pieces, next, held, head, ended, live)
    }

    ghost predicate Valid()
      reads this
    {
      lanes >= 1 && Counted(State())
    }

    constructor (lanes: nat)
      requires lanes >= 1
      ensures Valid() && this.lanes == lanes && sent == 0
      ensures State() == Start(lanes)
    {
      this.lanes := lanes;
      sent, pieces, next, held, head, ended, live := 0, map[], 0, 0, [], false, lanes;
    }

    /** Cut one write into the segments its lanes carry. */
    method Send(data: Data) returns (segments: seq<Segment>)
      requires Valid() && data != []
      modifies this`sent
      ensures segments == Split(old(sent), data, lanes) && sent == old(sent) + |data|
      ensures |data| < 0x10_0000 || lanes == 1 ==> segments == [Segment(0, old(sent), data)]
      ensures |data| >= 0x10_0000 && lanes > 1 ==>
                CutEvery(segments, old(sent), data, (|data| + lanes - 1) / lanes, lanes)
    {
      SplitExact(sent, data, lanes);
      var offset := sent;
      sent := sent + |data|;
      if |data| < STRIPE_MIN || lanes == 1 {
        return [Segment(0, offset, data)];
      }
      var step := (|data| + lanes - 1) / lanes;
      LaneZero(|data|, lanes);
      var queued := Queue(offset, data, step);
      // Lane 0 is written by the caller itself, while the other lanes' threads write theirs.
      segments := [Segment(0, offset, data[..step])] + queued;
    }

    /** What the threads of lanes 1 and up are given to write. */
    method Queue(offset: nat, data: Data, step: nat) returns (queued: seq<Segment>)
      requires lanes >= 1 && 1 <= step <= |data|
      ensures queued == Cuts(offset + step, data[step..], step, 1, lanes)
    {
      queued := [];
      ghost var at := step;
      for lane := 1 to lanes
        invariant at == Min(lane * step, |data|)
        invariant queued + Cuts(offset + at, data[at..], step, lane, lanes)
               == Cuts(offset + step, data[step..], step, 1, lanes)
      {
        ghost var rest;
        queued, at, rest := QueueOne(offset, data, step, lane, queued, at);
        assert queued + rest == Cuts(offset + step, data[step..], step, 1, lanes);
      }
    }

    method QueueOne(offset: nat, data: Data, step: nat, lane: nat, queued: seq<Segment>, ghost at: nat)
      returns (more: seq<Segment>, ghost to: nat, ghost rest: seq<Segment>)
      requires lane < lanes && step >= 1 && at == Min(lane * step, |data|)
      ensures to == Min((lane + 1) * step, |data|)
      ensures rest == Cuts(offset + to, data[to..], step, lane + 1, lanes)
      ensures more + rest == queued + Cuts(offset + at, data[at..], step, lane, lanes)
    {
      var piece := Slice(data, lane * step, (lane + 1) * step);
      CutAt(offset, data, step, lane, lanes);
      to := Min((lane + 1) * step, |data|);
      rest := Cuts(offset + to, data[to..], step, lane + 1, lanes);
      more := queued;
      if piece != [] {
        more := queued + [Segment(lane, offset + lane * step, piece)];
      }
    }

    /** A lane that read a header asks whether to read the piece. */
    method AdmitSection(offset: nat) returns (v: Verdict)
      ensures v == Admit(State(), offset)
      ensures v.Wait? <==> held > 0x400_0000 && offset != next && !ended
      ensures v.Refuse? <==> !v.Wait? && (offset < next || offset in pieces || ended)
    {
      if held > STRIPE_HOLD && offset != next && !ended {
        return Wait;
      }
      if offset < next || offset in pieces || ended {
        return Refuse;
      }
      return Take;
    }

    /** A lane that read a whole piece hands it over; false for a repeated offset. */
    method StoreSection(offset: nat, piece: Data) returns (stored: bool)
      requires Valid()
      modifies this`pieces, this`held
      ensures Valid() && stored == !Repeated(old(State()), offset)
      ensures stored <==> offset >= next && offset !in old(pieces)
      ensures pieces == (if stored then old(pieces)[offset := piece] else old(pieces))
      ensures held == old(held) + if stored then |piece| else 0
      ensures State() == if stored then Store(old(State()), offset, piece) else old(State())
    {
      if offset < next || offset in pieces {
        return false;
      }
      TotalAdd(pieces, offset, piece);
      pieces := pieces[offset := piece];
      held := held + |piece|;
      return true;
    }

    /** A lane stopped reading. */
    method End(malformed: bool)
      requires Valid() && live > 0
      modifies this`live, this`ended
      ensures Valid() && State() == Stop(old(State()), malformed)
      ensures live == old(live) - 1 && (ended <==> old(ended) || malformed || live == 0)
    {
      live := live - 1;
      if malformed || live <= 0 {
        ended := true;
      }
    }

    /** Give the next bytes in offset order; `Blocked` is where the source waits or times out. */
    method RecvInto(room: nat) returns (r: Read)
      requires Valid()
      modifies this`pieces, this`next, this`held, this`head
      ensures Valid()
      ensures r == RecvRead(old(State()), room) && State() == RecvCore(old(State()), room)
      ensures old(head) != [] ==> r == Bytes(old(head)[..Min(room, |old(head)|)]) && next == old(next) && pieces == old(pieces)
      ensures r.Bytes? ==> |r.data| <= room && (room > 0 ==> r.data != [])
      ensures !r.Bytes? ==> head == [] && next !in pieces && (r.EndOfStream? <==> ended)
    {
      ghost var filled := Fill(State());
      while head == []
        invariant Counted(State()) && Fill(State()) == filled
        decreases |pieces|
      {
        if next in pieces {
          var piece := pieces[next];
          FillPop(State());
          head := piece;
          pieces := pieces - {next};
          next := next + |piece|;
          held := held - |piece|;
          continue;
        }
        if ended {
          return EndOfStream;
        }
        return Blocked;
      }
      assert filled == State();
      var count := Min(room, |head|);
      r := Bytes(head[..count]);
      head := head[count..];
    }
  }

  // ---------------------------------------------------------------- the whole protocol

  /** A lane's reading thread: between segments, holding a header, reading a body, or gone. */
  datatype Reader = Idle | Waiting(i: nat) | Reading(i: nat) | Stopped

  /**
    `log` is every segment sent, in offset order; lane l's byte stream is the segments of
    `log` tagged l, in that order. `stored[l]` is the log position below which every segment
    of lane l was handed over.
  */
  datatype Net = Net(core: Core, log: seq<Segment>, readers: seq<Reader>, stored: seq<nat>,
                     total: Data, delivered: Data)

  datatype Action =
    | Send(data: Data)
    | Header(lane: nat, i: nat)   // read the header of log[i]
    | AdmitLane(lane: nat)        // leave the wait loop, or give up
    | Body(lane: nat)             // the whole piece arrived
    | Cut(lane: nat)              // the lane's transport ended or failed, anywhere
    | Recv(room: nat)

  function Start(lanes: nat): Core {
    Core(map[], 0, 0, [], false, lanes)
  }

  function Init(lanes: nat): Net {
    Net(Start(lanes), [], seq(lanes, _ => Idle), seq(lanes, _ => 0), [], [])
  }

  /** log[i] is the next segment of its lane that the reader has not handed over. */
  ghost predicate Upcoming(n: Net, lane: nat, i: nat) {
    && lane < |n.stored| && n.stored[lane] <= i < |n.log| && n.log[i].lane == lane
    && forall j | n.stored[lane] <= j < i :: n.log[j].lane != lane
  }

  ghost predicate Enabled(n: Net, a: Action) {
    match a
    case Send(data) => data != [] && |n.readers| >= 1
    case Header(l, i) => l < |n.readers| && n.readers[l].Idle? && Upcoming(n, l, i)
    case AdmitLane(l) =>
      && l < |n.readers| && n.readers[l].Waiting? && n.readers[l].i < |n.log| && n.core.live > 0
      && !Admit(n.core, n.log[n.readers[l].i].offset).Wait?
    case Body(l) =>
      l < |n.readers| && |n.stored| == |n.readers| && n.readers[l].Reading? && n.readers[l].i < |n.log|
      && n.core.live > 0
    case Cut(l) => l < |n.readers| && (n.readers[l].Idle? || n.readers[l].Reading?) && n.core.live > 0
    case Recv(room) => Counted(n.core)
  }

  /** One step. An action that is not enabled leaves everything as it is. */
  ghost function Step(n: Net, a: Action): Net {
    if !Enabled(n, a) then n else
      match a
      case Send(data) =>
        n.(log := n.log + Split(|n.total|, data, |n.readers|), total := n.total + data)
      case Header(l, i) => n.(readers := n.readers[l := Waiting(i)])
      case AdmitLane(l) =>
        if Admit(n.core, n.log[n.readers[l].i].offset).Take?
        then n.(readers := n.readers[l := Reading(n.readers[l].i)])
        else n.(readers := n.readers[l := Stopped], core := Stop(n.core, true))
      case Body(l) =>
        var i := n.readers[l].i;
        if Repeated(n.core, n.log[i].offset)
        then n.(readers := n.readers[l := Stopped], core := Stop(n.core, true))
        else n.(readers := n.readers[l := Idle], stored := n.stored[l := i + 1],
                core := Store(n.core, n.log[i].offset, n.log[i].data))
      case Cut(l) => n.(readers := n.readers[l := Stopped], core := Stop(n.core, false))
      case Recv(room) =>
        var r := RecvRead(n.core, room);
        n.(core := RecvCore(n.core, room),
           delivered := n.delivered + if r.Bytes? then r.data else [])
  }

  ghost function Run(n: Net, acts: seq<Action>): Net
    decreases |acts|
  {
    if acts == [] then n else Run(Step(n, acts[0]), acts[1..])
  }

  // ---------------------------------------------------------------- invariant

  ghost predicate Shape(n: Net) {
    && |n.readers| == |n.stored| >= 1
    && Tiles(n.log, n.total, 0, |n.total|)
    && (forall i | 0 <= i < |n.log| :: n.log[i].lane < |n.readers|)
    && (forall l | 0 <= l < |n.stored| :: n.stored[l] <= |n.log|)
  }

  ghost predicate Delivery(n: Net) {
    && n.core.next <= |n.total|
    && n.delivered + n.core.head == n.total[..n.core.next]
    && (forall i | 0 <= i < |n.log| && n.log[i].offset < n.core.next :: n.log[i].End() <= n.core.next)
  }

  /** Where each segment is: handed over, in a reader's hands, or still on its lane. */
  ghost predicate Placement(n: Net)
    requires Shape(n)
  {
    && (forall i | 0 <= i < |n.log| && i < n.stored[n.log[i].lane] ::
          n.log[i].offset < n.core.next || n.log[i].offset in n.core.pieces)
    && (forall i | 0 <= i < |n.log| && n.log[i].offset < n.core.next :: i < n.stored[n.log[i].lane])
    && (forall o | o in n.core.pieces :: o >= n.core.next && Logged(n, o))
    && (forall l | 0 <= l < |n.readers| && (n.readers[l].Waiting? || n.readers[l].Reading?) ::
          Upcoming(n, l, n.readers[l].i))
  }

  /** The piece at offset `o` is some stored segment of the log. */
  ghost predicate Logged(n: Net, o: nat)
    requires Shape(n) && o in n.core.pieces
  {
    exists i :: 0 <= i < |n.log| && n.log[i].offset == o && n.log[i].data == n.core.pieces[o]
                && i < n.stored[n.log[i].lane]
  }

  ghost function Running(readers: seq<Reader>): set<nat> {
    set l | 0 <= l < |readers| && readers[l] != Stopped
  }

  ghost predicate Lanes(n: Net) {
    n.core.live == |Running(n.readers)| && (n.core.ended <==> n.core.live == 0)
  }

  ghost predicate Inv(n: Net) {
    Shape(n) && Delivery(n) && Placement(n) && Lanes(n) && Counted(n.core)
  }

  lemma {:induction false} InitInv(lanes: nat)
    requires lanes >= 1
    ensures Inv(Init(lanes))
  {
    var n := Init(lanes);
    assert Running(n.readers) == Range(lanes);
  }

  ghost function Range(k: nat): (r: set<nat>)
    ensures |r| == k && forall l: nat :: l in r <==> l < k
  {
    if k == 0 then {} else Range(k - 1) + {k - 1}
  }

  /** Changing one lane's reader changes the running lanes by that lane alone. */
  lemma {:induction false} RunningUpdate(readers: seq<Reader>, l: nat, r: Reader)
    requires l < |readers| && readers[l] != Stopped
    ensures r != Stopped ==> Running(readers[l := r]) == Running(readers)
    ensures r == Stopped ==> |Running(readers[l := r])| == |Running(readers)| - 1
  {
    if r == Stopped {
      assert Running(readers[l := r]) == Running(readers) - {l};
    } else {
      assert Running(readers[l := r]) == Running(readers);
    }
  }

  lemma {:induction false} SomeRunning(readers: seq<Reader>, l: nat)
    requires l < |readers| && readers[l] != Stopped
    ensures |Running(readers)| > 0
  {
    assert l in Running(readers);
  }

  /** A segment in a reader's hands was never handed over before, so it is never refused. */
  lemma {:induction false} FreshOffset(n: Net, l: nat)
    requires Inv(n) && l < |n.readers| && (n.readers[l].Waiting? || n.readers[l].Reading?)
    ensures !Repeated(n.core, n.log[n.readers[l].i].offset) && !n.core.ended && n.core.live > 0
  {
    SomeRunning(n.readers, l);
    var i := n.readers[l].i;
    assert Upcoming(n, l, i);
    if n.log[i].offset in n.core.pieces {
      assert Logged(n, n.log[i].offset);
      forall j | 0 <= j < |n.log| && j != i ensures n.log[j].offset != n.log[i].offset {
        assert Carried(n.log[j], n.total) && Carried(n.log[i], n.total);
        if j < i { assert Before(n.log[j], n.log[i]); } else { assert Before(n.log[i], n.log[j]); }
      }
    }
  }

  lemma {:induction false} StepInv(n: Net, a: Action)
    requires Inv(n)
    ensures Inv(Step(n, a))
  {
    if Enabled(n, a) {
      match a
      case Send(data) => SendInv(n, data);
      case Header(l, i) => MoveReader(n, l, Waiting(i));
      case AdmitLane(l) =>
        FreshOffset(n, l);
        MoveReader(n, l, Reading(n.readers[l].i));
      case Body(l) => BodyInv(n, l);
      case Cut(l) => StopReader(n, l);
      case Recv(room) => RecvInv(n, room);
    }
  }

  /** A reader that takes up, or goes on with, the next segment of its lane. */
  lemma {:induction false} MoveReader(n: Net, l: nat, r: Reader)
    requires Inv(n) && l < |n.readers| && n.readers[l] != Stopped
    requires (r.Waiting? || r.Reading?) && Upcoming(n, l, r.i)
    ensures Inv(n.(readers := n.readers[l := r]))
  {
    var m := n.(readers := n.readers[l := r]);
    RunningUpdate(n.readers, l, r);
    KeepLogged(n, m);
    KeepUpcoming(n, m);
  }

  lemma {:induction false} StopReader(n: Net, l: nat)
    requires Inv(n) && l < |n.readers| && n.readers[l] != Stopped && n.core.live > 0
    ensures Inv(n.(readers := n.readers[l := Stopped], core := Stop(n.core, false)))
  {
    var m := n.(readers := n.readers[l := Stopped], core := Stop(n.core, false));
    RunningUpdate(n.readers, l, Stopped);
    KeepLogged(n, m);
    KeepUpcoming(n, m);
  }

  lemma {:induction false} KeepUpcoming(n: Net, m: Net)
    requires n.log <= m.log && n.stored == m.stored
    ensures forall l, i {:trigger Upcoming(n, l, i)} {:trigger Upcoming(m, l, i)} | Upcoming(n, l, i) :: Upcoming(m, l, i)
  {
  }

  /** Pieces stay logged when nothing is forgotten. */
  lemma {:induction false} KeepLogged(n: Net, m: Net)
    requires Shape(n) && Shape(m) && |n.readers| == |m.readers| && n.log <= m.log
    requires m.core.pieces.Keys <= n.core.pieces.Keys
    requires forall o | o in m.core.pieces :: Logged(n, o) && m.core.pieces[o] == n.core.pieces[o]
    requires forall l | 0 <= l < |n.stored| :: n.stored[l] <= m.stored[l]
    ensures forall o | o in m.core.pieces :: Logged(m, o)
  {
    forall o | o in m.core.pieces ensures Logged(m, o) {
      var i :| 0 <= i < |n.log| && n.log[i].offset == o && n.log[i].data == n.core.pieces[o]
               && i < n.stored[n.log[i].lane];
      assert m.log[i] == n.log[i];
    }
  }

  lemma {:induction false} TilesGrow(log: seq<Segment>, total: Data, more: Data)
    requires Tiles(log, total, 0, |total|)
    ensures Tiles(log, total + more, 0, |total|)
  {
    forall i | 0 <= i < |log| ensures Carried(log[i], total + more) {
      assert Carried(log[i], total);
      assert (total + more)[log[i].offset..log[i].End()] == total[log[i].offset..log[i].End()];
    }
  }

  lemma {:induction false} SendInv(n: Net, data: Data)
    requires Inv(n) && data != []
    ensures Inv(Step(n, Send(data)))
  {
    var added := Split(|n.total|, data, |n.readers|);
    var m := n.(log := n.log + added, total := n.total + data);
    SplitTiles(n.total, data, |n.readers|);
    ChainEnds(added, m.total, |n.total|, |m.total|);
    SendShape(n, m, added, data);
    NotYet(n, m, added);
    assert m.total[..n.core.next] == n.total[..n.core.next];
    KeepLogged(n, m);
    KeepUpcoming(n, m);
  }

  lemma {:induction false} SendShape(n: Net, m: Net, added: seq<Segment>, data: Data)
    requires Shape(n) && m == n.(log := n.log + added, total := n.total + data)
    requires Tiles(added, m.total, |n.total|, |m.total|)
    requires forall s | s in added :: s.lane < |n.readers|
    ensures Shape(m)
  {
    TilesGrow(n.log, n.total, data);
    TilesJoin(n.log, added, m.total, 0, |n.total|, |m.total|);
    forall i | 0 <= i < |m.log| ensures m.log[i].lane < |m.readers| {
      if i >= |n.log| { assert m.log[i] in added; }
    }
  }

  /** What is sent now lies beyond everything the consumer has taken. */
  lemma {:induction false} NotYet(n: Net, m: Net, added: seq<Segment>)
    requires Delivery(n) && m.log == n.log + added && forall s | s in added :: |n.total| <= s.offset
    ensures forall i | 0 <= i < |m.log| && m.log[i].offset < n.core.next ::
              i < |n.log| && m.log[i] == n.log[i]
  {
    forall i | |n.log| <= i < |m.log| ensures m.log[i].offset >= n.core.next {
      assert m.log[i] in added;
    }
  }

  lemma {:induction false} BodyInv(n: Net, l: nat)
    requires Inv(n) && Enabled(n, Body(l))
    ensures Inv(Step(n, Body(l)))
  {
    FreshOffset(n, l);
    var m := Step(n, Body(l));
    var i := n.readers[l].i;
    assert Upcoming(n, l, i);
    assert Lanes(m) by { RunningUpdate(n.readers, l, Idle); }
    assert Counted(m.core) by { TotalAdd(n.core.pieces, n.log[i].offset, n.log[i].data); }
    assert Placement(m) by { BodyPlacement(n, m, l, i); }
  }

  lemma {:induction false} BodyPlacement(n: Net, m: Net, l: nat, i: nat)
    requires Shape(n) && Placement(n) && l < |n.readers| && n.readers[l] == Reading(i) && Upcoming(n, l, i)
    requires !Repeated(n.core, n.log[i].offset)
    requires m == n.(readers := n.readers[l := Idle], stored := n.stored[l := i + 1],
                     core := Store(n.core, n.log[i].offset, n.log[i].data))
    ensures Shape(m) && Placement(m)
  {
    forall o | o in m.core.pieces ensures o >= m.core.next && Logged(m, o) { BodyLogged(n, m, l, i, o); }
    forall k | 0 <= k < |m.log| && k < m.stored[m.log[k].lane]
      ensures m.log[k].offset < m.core.next || m.log[k].offset in m.core.pieces
    {
      if m.log[k].lane == l && k != i { assert k < n.stored[l]; }
    }
    forall k | 0 <= k < |m.readers| && (m.readers[k].Waiting? || m.readers[k].Reading?)
      ensures Upcoming(m, k, m.readers[k].i)
    {
      assert Upcoming(n, k, n.readers[k].i);
    }
  }

  /** The piece just stored is logged, and so are the others still. */
  lemma {:induction false} BodyLogged(n: Net, m: Net, l: nat, i: nat, o: nat)
    requires Shape(n) && Shape(m) && o in m.core.pieces && Upcoming(n, l, i)
    requires m == n.(readers := m.readers, stored := n.stored[l := i + 1],
                     core := Store(n.core, n.log[i].offset, n.log[i].data))
    requires o in n.core.pieces ==> Logged(n, o)
    ensures Logged(m, o)
  {
    if o == n.log[i].offset {
      assert m.log[i].data == m.core.pieces[o] && i < m.stored[l];
    } else {
      var k := LoggedAt(n, o);
      assert k < m.stored[m.log[k].lane];
    }
  }

  /** `recv_into` either takes nothing out or takes exactly the piece at the next offset. */
  lemma {:induction false} FillOnce(n: Net)
    requires Inv(n)
    ensures var f := Fill(n.core);
            if n.core.head == [] && n.core.next in n.core.pieces
            then f == Pop(n.core) && f.head != [] && Counted(f) else f == n.core
  {
    if n.core.head == [] && n.core.next in n.core.pieces {
      PieceNonempty(n, n.core.next);
      TotalRemove(n.core.pieces, n.core.next);
    }
  }

  lemma {:induction false} PieceNonempty(n: Net, o: nat)
    requires Shape(n) && o in n.core.pieces && Logged(n, o)
    ensures n.core.pieces[o] != []
  {
    var i := LoggedAt(n, o);
  }

  lemma {:induction false} RecvInv(n: Net, room: nat)
    requires Inv(n)
    ensures Inv(Step(n, Recv(room)))
  {
    FillInv(n);
    RecvStep(n, room);
    var f := n.(core := Fill(n.core));
    if f.core.head != [] { ReadOut(f, Min(room, |f.core.head|)); }
  }

  lemma {:induction false} RecvStep(n: Net, room: nat)
    requires Counted(n.core)
    ensures var f := n.(core := Fill(n.core)); var k := Min(room, |f.core.head|);
            Step(n, Recv(room)) ==
              if f.core.head == [] then f
              else f.(core := f.core.(head := f.core.head[k..]), delivered := f.delivered + f.core.head[..k])
  {
    assert n.delivered + [] == n.delivered;
  }

  lemma {:induction false} FillInv(n: Net)
    requires Inv(n)
    ensures Inv(n.(core := Fill(n.core)))
  {
    FillOnce(n);
    if n.core.head == [] && n.core.next in n.core.pieces { PopInv(n); }
  }

  lemma {:induction false} ReadOut(f: Net, k: nat)
    requires Inv(f) && k <= |f.core.head|
    ensures Inv(f.(core := f.core.(head := f.core.head[k..]), delivered := f.delivered + f.core.head[..k]))
  {
    var m := f.(core := f.core.(head := f.core.head[k..]), delivered := f.delivered + f.core.head[..k]);
    assert m.delivered + m.core.head == f.delivered + f.core.head;
    KeepLogged(f, m);
    KeepUpcoming(f, m);
  }

  lemma {:induction false} PopInv(n: Net)
    requires Inv(n) && n.core.head == [] && n.core.next in n.core.pieces
    requires n.core.held >= |n.core.pieces[n.core.next]|
    ensures Inv(n.(core := Pop(n.core)))
  {
    var m := n.(core := Pop(n.core));
    var i := LoggedAt(n, n.core.next);
    PopDelivery(n, m, i);
    PopPlacement(n, m, i);
    TotalRemove(n.core.pieces, n.core.next);
  }

  /** The log position of the piece at offset `o`. */
  lemma {:induction false} LoggedAt(n: Net, o: nat) returns (i: nat)
    requires Shape(n) && o in n.core.pieces && Logged(n, o)
    ensures i < |n.log| && n.log[i].offset == o && n.log[i].data == n.core.pieces[o]
    ensures i < n.stored[n.log[i].lane] && Carried(n.log[i], n.total)
  {
    i :| 0 <= i < |n.log| && n.log[i].offset == o && n.log[i].data == n.core.pieces[o]
         && i < n.stored[n.log[i].lane];
  }

  lemma {:induction false} PopDelivery(n: Net, m: Net, i: nat)
    requires Shape(n) && Delivery(n) && n.core.head == []
    requires i < |n.log| && n.log[i].offset == n.core.next && Carried(n.log[i], n.total)
    requires m == n.(core := m.core) && m.core.head == n.log[i].data && m.core.next == n.log[i].End()
    ensures Delivery(m)
  {
    PopOrder(n, i);
    assert n.total[..m.core.next] == n.total[..n.core.next] + n.log[i].data;
  }

  lemma {:induction false} PopPlacement(n: Net, m: Net, i: nat)
    requires Shape(n) && Placement(n) && i < |n.log| && n.log[i].data != []
    requires n.log[i].offset == n.core.next && i < n.stored[n.log[i].lane]
    requires m == n.(core := m.core) && m.core.pieces == n.core.pieces - {n.core.next}
    requires m.core.next == n.log[i].End()
    ensures Placement(m)
  {
    PopOrder(n, i);
    KeepLogged(n, m);
    forall p | p in m.core.pieces ensures p >= m.core.next { LaterPiece(n, i, p); }
    KeepUpcoming(n, m);
  }

  lemma {:induction false} LaterPiece(n: Net, i: nat, p: nat)
    requires Shape(n) && p in n.core.pieces && Logged(n, p)
    requires i < |n.log| && n.log[i].data != [] && p != n.log[i].offset && p >= n.log[i].offset
    ensures p >= n.log[i].End()
  {
    PopOrder(n, i);
  }

  /** Moving past log[i] moves past exactly one more segment. */
  lemma {:induction false} PopOrder(n: Net, i: nat)
    requires Shape(n) && i < |n.log| && n.log[i].data != []
    ensures forall k | 0 <= k < |n.log| ::
              && (n.log[k].offset < n.log[i].End() <==> n.log[k].offset < n.log[i].offset || k == i)
              && (n.log[k].offset < n.log[i].End() ==> n.log[k].End() <= n.log[i].End())
  {
    forall k | 0 <= k < |n.log|
      ensures n.log[k].offset < n.log[i].End() <==> n.log[k].offset < n.log[i].offset || k == i
      ensures n.log[k].offset < n.log[i].End() ==> n.log[k].End() <= n.log[i].End()
    {
      assert Carried(n.log[k], n.total);
      if k < i { assert Before(n.log[k], n.log[i]); }
      if i < k { assert Before(n.log[i], n.log[k]); }
    }
  }

  lemma {:induction false} RunInv(n: Net, acts: seq<Action>)
    requires Inv(n)
    ensures Inv(Run(n, acts))
    decreases |acts|
  {
    if acts != [] {
      StepInv(n, acts[0]);
      RunInv(Step(n, acts[0]), acts[1..]);
    }
  }

  // ---------------------------------------------------------------- what every run keeps

  /** Everything the sends of a run put in, in order. */
  function SentBy(acts: seq<Action>): Data {
    if acts == [] then [] else (if acts[0].Send? then acts[0].data else []) + SentBy(acts[1..])
  }

  lemma {:induction false} Associate(a: Data, b: Data, c: Data)
    ensures (a + b) + c == a + (b + c)
  {
  }

  lemma {:induction false} StepTotal(n: Net, a: Action)
    requires |n.readers| >= 1
    ensures var m := Step(n, a);
            |m.readers| == |n.readers| && m.total == n.total + if a.Send? then a.data else []
  {
  }

  lemma {:induction false} RunTotal(n: Net, acts: seq<Action>)
    requires |n.readers| >= 1
    ensures Run(n, acts).total == n.total + SentBy(acts)
    decreases |acts|
  {
    if acts != [] {
      StepTotal(n, acts[0]);
      RunTotal(Step(n, acts[0]), acts[1..]);
      Associate(n.total, if acts[0].Send? then acts[0].data else [], SentBy(acts[1..]));
    }
  }

  /**
    The striped stream refines one first-in first-out byte stream: whatever the lane count, the
    sends, the interleaving and the places where lanes end, what the consumer read is a prefix
    of what was sent, and no lane ever finds a segment malformed.
  */
  lemma {:induction false} FifoPrefix(lanes: nat, acts: seq<Action>)
    requires lanes >= 1
    ensures var n := Run(Init(lanes), acts);
            n.delivered <= SentBy(acts) && (n.core.ended ==> n.readers == seq(lanes, _ => Stopped))
  {
    InitInv(lanes);
    RunInv(Init(lanes), acts);
    RunTotal(Init(lanes), acts);
    RunWidth(Init(lanes), acts);
    var n := Run(Init(lanes), acts);
    assert n.total == [] + SentBy(acts) == SentBy(acts);
    assert n.delivered == n.total[..|n.delivered|] by {
      assert n.delivered == (n.delivered + n.core.head)[..|n.delivered|];
    }
    forall l | 0 <= l < lanes && n.core.ended ensures n.readers[l] == Stopped {
      if n.readers[l] != Stopped { SomeRunning(n.readers, l); }
    }
    assert n.core.ended ==> n.readers == seq(lanes, _ => Stopped);
  }

  lemma {:induction false} RunWidth(n: Net, acts: seq<Action>)
    ensures |Run(n, acts).readers| == |n.readers|
    decreases |acts|
  {
    if acts != [] { RunWidth(Step(n, acts[0]), acts[1..]); }
  }

  /** The segment that holds position `p`. */
  lemma {:induction false} Covering(log: seq<Segment>, total: Data, from: nat, to: nat, p: nat) returns (i: nat)
    requires Tiles(log, total, from, to) && from <= p < to
    ensures i < |log| && log[i].offset <= p < log[i].End()
  {
    i := 0;
    while log[i].End() <= p
      invariant i < |log| && log[i].offset <= p
      decreases |log| - i
    {
      assert i < |log| - 1 ==> Follows(log, i);
      i := i + 1;
    }
  }

  /** While bytes are undelivered, the next offset is the start of a segment. */
  lemma {:induction false} NextSegment(n: Net) returns (i: nat)
    requires Inv(n) && n.core.next < |n.total|
    ensures i < |n.log| && n.log[i].offset == n.core.next && n.log[i].data != []
    ensures forall j | 0 <= j < i :: j < n.stored[n.log[j].lane]
  {
    i := Covering(n.log, n.total, 0, |n.total|, n.core.next);
    assert Carried(n.log[i], n.total);
    forall j | 0 <= j < i ensures j < n.stored[n.log[j].lane] {
      assert Before(n.log[j], n.log[i]) && Carried(n.log[j], n.total);
    }
  }

  /** Every lane delivered every segment it carries. */
  ghost predicate AllStored(n: Net)
    requires Shape(n)
  {
    forall i | 0 <= i < |n.log| :: i < n.stored[n.log[i].lane]
  }

  /** Once every lane delivered its segments, a read that answers end of stream has read them all. */
  lemma {:induction false} CleanEnd(n: Net, room: nat)
    requires Inv(n) && AllStored(n)
    ensures RecvRead(n.core, room).EndOfStream? ==> n.delivered == n.total
    ensures room > 0 && n.delivered != n.total ==>
              |Step(n, Recv(room)).delivered| > |n.delivered|
  {
    FillOnce(n);
    if n.core.head == [] {
      if n.core.next < |n.total| {
        var i := NextSegment(n);
        assert n.core.next in n.core.pieces;
      } else {
        assert n.total[..n.core.next] == n.total;
      }
    }
  }

  /** Another read on a fully handed over stream delivers more. */
  lemma {:induction false} ReadsOn(n: Net, room: nat)
    requires Inv(n) && AllStored(n) && room > 0 && n.delivered != n.total
    ensures var m := Step(n, Recv(room));
            Inv(m) && AllStored(m) && m.total == n.total && |n.delivered| < |m.delivered| <= |n.total|
  {
    CleanEnd(n, room);
    StepInv(n, Recv(room));
    var m := Step(n, Recv(room));
    assert |m.delivered + m.core.head| == m.core.next;
  }

  /** Reading on until nothing is left, which then delivers every byte sent. */
  lemma {:induction false} DrainAll(n: Net, room: nat) returns (times: nat)
    requires Inv(n) && AllStored(n) && room > 0
    ensures Run(n, seq(times, _ => Recv(room))).delivered == n.total
    decreases |n.total| - |n.delivered|
  {
    times := 0;
    if n.delivered != n.total {
      ReadsOn(n, room);
      assert |n.delivered| <= |n.total| by { assert |n.delivered + n.core.head| == n.core.next; }
      var more := DrainAll(Step(n, Recv(room)), room);
      times := more + 1;
      assert seq(times, _ => Recv(room))[1..] == seq(more, _ => Recv(room));
    }
  }

  /** After any run that left every segment handed over, reading on delivers exactly what was sent. */
  lemma {:induction false} AllOfIt(lanes: nat, acts: seq<Action>, room: nat) returns (times: nat)
    requires lanes >= 1 && room > 0
    requires var n := Run(Init(lanes), acts); Shape(n) && AllStored(n)
    ensures Run(Run(Init(lanes), acts), seq(times, _ => Recv(room))).delivered == SentBy(acts)
  {
    InitInv(lanes);
    RunInv(Init(lanes), acts);
    RunTotal(Init(lanes), acts);
    times := DrainAll(Run(Init(lanes), acts), room);
    assert [] + SentBy(acts) == SentBy(acts);
  }

  // ---------------------------------------------------------------- no deadlock

  ghost predicate LaneCanStep(n: Net, l: nat) {
    Enabled(n, AdmitLane(l)) || Enabled(n, Body(l)) || exists i :: Enabled(n, Header(l, i))
  }

  /**
    While a sent byte is undelivered, either the consumer can read, or the lane that carries
    the next segment can step, unless that lane's transport already ended.
  */
  lemma {:induction false} Progress(n: Net, room: nat)
    requires Inv(n) && room > 0 && |n.delivered| < |n.total|
    ensures || (RecvRead(n.core, room).Bytes? && RecvRead(n.core, room).data != [])
            || exists i :: 0 <= i < |n.log| && n.log[i].offset == n.core.next
                 && (n.readers[n.log[i].lane] == Stopped || LaneCanStep(n, n.log[i].lane))
  {
    FillOnce(n);
    if n.core.head == [] && n.core.next !in n.core.pieces {
      assert |n.delivered + n.core.head| == n.core.next;
      var i := NextSegment(n);
      LaneOfNext(n, i);
    }
  }

  lemma {:induction false} LaneOfNext(n: Net, i: nat)
    requires Inv(n) && i < |n.log| && n.log[i].offset == n.core.next && n.core.next !in n.core.pieces
    requires forall j | 0 <= j < i :: j < n.stored[n.log[j].lane]
    ensures var l := n.log[i].lane;
            && Upcoming(n, l, i)
            && match n.readers[l]
               case Idle => Enabled(n, Header(l, i))
               case Waiting(k) => k == i && Enabled(n, AdmitLane(l))
               case Reading(k) => k == i && Enabled(n, Body(l))
               case Stopped => true
  {
    var l := n.log[i].lane;
    assert Upcoming(n, l, i);
    if n.readers[l] != Stopped { SomeRunning(n.readers, l); }
    if n.readers[l].Waiting? || n.readers[l].Reading? {
      assert Upcoming(n, l, n.readers[l].i);
      FreshOffset(n, l);
    }
  }

  ghost predicate AllOpen(n: Net) {
    forall l | 0 <= l < |n.readers| :: n.readers[l] != Stopped
  }

  /** With every lane open, some schedule of reader and consumer steps delivers every byte. */
  lemma {:induction false} Deliverable(n: Net) returns (acts: seq<Action>)
    requires Inv(n) && AllOpen(n)
    ensures forall a | a in acts :: !a.Send? && !a.Cut?
    ensures Run(n, acts).delivered == n.total
    decreases |n.total| - |n.delivered|
  {
    acts := [];
    if |n.delivered| < |n.total| {
      var now := Advance(n);
      var m := Run(n, now);
      RunInv(n, now);
      assert |m.delivered| <= |m.total| by { assert |m.delivered + m.core.head| == m.core.next; }
      var more := Deliverable(m);
      acts := now + more;
      RunJoin(n, now, more);
    } else {
      assert |n.delivered| == |n.total| && n.delivered == n.total by {
        assert |n.delivered + n.core.head| == n.core.next;
        assert n.core.head == [] && n.total[..n.core.next] == n.total;
        assert n.delivered + [] == n.delivered;
      }
    }
  }

  /** After any run that left every lane open, the consumer can still get every byte sent. */
  lemma {:induction false} NeverStuck(lanes: nat, acts: seq<Action>) returns (more: seq<Action>)
    requires lanes >= 1 && AllOpen(Run(Init(lanes), acts))
    ensures forall a | a in more :: !a.Send? && !a.Cut?
    ensures Run(Run(Init(lanes), acts), more).delivered == SentBy(acts)
  {
    InitInv(lanes);
    RunInv(Init(lanes), acts);
    RunTotal(Init(lanes), acts);
    more := Deliverable(Run(Init(lanes), acts));
    assert [] + SentBy(acts) == SentBy(acts);
  }

  lemma {:induction false} RunJoin(n: Net, a: seq<Action>, b: seq<Action>)
    ensures Run(n, a + b) == Run(Run(n, a), b)
    decreases |a|
  {
    if a == [] {
      assert a + b == b;
    } else {
      assert (a + b)[1..] == a[1..] + b;
      RunJoin(Step(n, a[0]), a[1..], b);
    }
  }

  /** The lane of the next segment hands it over within three of its own steps. */
  lemma {:induction false} Handover(n: Net, i: nat) returns (acts: seq<Action>)
    requires Inv(n) && AllOpen(n)
    requires i < |n.log| && n.log[i].offset == n.core.next && n.core.next !in n.core.pieces
    requires forall j | 0 <= j < i :: j < n.stored[n.log[j].lane]
    ensures forall a | a in acts :: !a.Send? && !a.Cut?
    ensures var m := Run(n, acts);
            && Inv(m) && AllOpen(m) && m.core.next in m.core.pieces
            && m == n.(core := m.core, readers := m.readers, stored := m.stored)
    decreases match n.readers[n.log[i].lane] case Idle => 2 case Waiting(_) => 1 case _ => 0
  {
    var a := LaneStep(n, i);
    var m := Step(n, a);
    if a.Body? {
      acts := [a];
      assert Run(n, acts) == m by { assert acts[1..] == []; }
    } else {
      var more := Handover(m, i);
      acts := [a] + more;
      assert acts[1..] == more;
    }
  }

  lemma {:induction false} LaneStep(n: Net, i: nat) returns (a: Action)
    requires Inv(n) && AllOpen(n)
    requires i < |n.log| && n.log[i].offset == n.core.next && n.core.next !in n.core.pieces
    requires forall j | 0 <= j < i :: j < n.stored[n.log[j].lane]
    ensures var m := Step(n, a);
            && Inv(m) && AllOpen(m) && !a.Send? && !a.Cut?
            && m == n.(core := m.core, readers := m.readers, stored := m.stored)
            && (if a.Body? then n.core.next in m.core.pieces && m.core.next == n.core.next
                else m == n.(readers := m.readers)
                     && n.readers[n.log[i].lane] == (if a.Header? then Idle else Waiting(i))
                     && m.readers[n.log[i].lane] == if a.Header? then Waiting(i) else Reading(i))
  {
    LaneOfNext(n, i);
    var l := n.log[i].lane;
    a := match n.readers[l] case Idle => Header(l, i) case Waiting(_) => AdmitLane(l) case _ => Body(l);
    if !a.Header? { FreshOffset(n, l); }
    StepInv(n, a);
  }

  /** A few steps of the next segment's lane and of the consumer deliver more bytes. */
  lemma {:induction false} Advance(n: Net) returns (acts: seq<Action>)
    requires Inv(n) && AllOpen(n) && |n.delivered| < |n.total|
    ensures forall a | a in acts :: !a.Send? && !a.Cut?
    ensures var m := Run(n, acts);
            AllOpen(m) && m.total == n.total && |m.delivered| > |n.delivered|
  {
    var first := [];
    if n.core.head == [] && n.core.next !in n.core.pieces {
      assert |n.delivered + n.core.head| == n.core.next;
      var i := NextSegment(n);
      LaneOfNext(n, i);
      first := Handover(n, i);
    }
    var m := Run(n, first);
    FillOnce(m);
    acts := first + [Recv(1)];
    RunJoin(n, first, [Recv(1)]);
    assert Run(m, [Recv(1)]) == Step(m, Recv(1)) by { assert [Recv(1)][1..] == []; }
  }

  // ---------------------------------------------------------------- back-pressure

  /** Bytes lane `l` is reading that are not the next ones: it was let in while others were held. */
  ghost function ReadAhead(n: Net, l: nat): nat
    requires Shape(n) && Placement(n)
  {
    if l < |n.readers| && n.readers[l].Reading? && n.log[n.readers[l].i].offset != n.core.next
    then |n.log[n.readers[l].i].data| else 0
  }

  ghost function InFlight(n: Net, k: nat): int
    requires Shape(n) && Placement(n)
  {
    if k == 0 then 0 else InFlight(n, k - 1) + ReadAhead(n, k - 1)
  }

  lemma {:induction false} FlightMost(n: Net, k: nat, most: nat)
    requires Shape(n) && Placement(n) && Small(n, most)
    ensures 0 <= InFlight(n, k) <= Times(k, most)
  {
    if k > 0 { FlightMost(n, k - 1, most); }
  }

  lemma {:induction false} FlightLe(n: Net, m: Net, k: nat)
    requires Shape(n) && Placement(n) && Shape(m) && Placement(m)
    requires forall l: nat | l < k :: ReadAhead(m, l) <= ReadAhead(n, l)
    ensures InFlight(m, k) <= InFlight(n, k)
  {
    if k > 0 { FlightLe(n, m, k - 1); }
  }

  /** Changing what one lane reads changes the sum by that much. */
  lemma {:induction false} FlightOne(n: Net, m: Net, k: nat, at: nat)
    requires Shape(n) && Placement(n) && Shape(m) && Placement(m)
    requires forall l: nat | l < k && l != at :: ReadAhead(m, l) == ReadAhead(n, l)
    ensures InFlight(m, k) - InFlight(n, k) == if at < k then ReadAhead(m, at) - ReadAhead(n, at) else 0
  {
    if k > 0 { FlightOne(n, m, k - 1, at); }
  }

  ghost predicate Small(n: Net, most: nat) {
    forall i | 0 <= i < |n.log| :: |n.log[i].data| <= most
  }

  /** Pieces beyond the next offset, and the bodies being read beyond it, stay within the hold. */
  ghost predicate Bounded(n: Net, most: nat)
    requires Shape(n) && Placement(n)
  {
    Small(n, most) ==>
      Total(n.core.pieces - {n.core.next}) + InFlight(n, |n.readers|)
        <= STRIPE_HOLD + Times(|n.readers|, most)
  }

  lemma {:induction false} TotalLess(pieces: map<nat, Data>, k: nat)
    ensures Total(pieces - {k}) <= Total(pieces)
    ensures Total(pieces) == Total(pieces - {k}) + if k in pieces then |pieces[k]| else 0
  {
    if k in pieces { TotalRemove(pieces, k); } else { assert pieces - {k} == pieces; }
  }

  lemma {:induction false} StepBounded(n: Net, a: Action, most: nat)
    requires Inv(n) && Inv(Step(n, a)) && Bounded(n, most)
    ensures Bounded(Step(n, a), most)
  {
    if Enabled(n, a) && Small(Step(n, a), most) {
      SmallBefore(n, a, most);
      match a
      case AdmitLane(l) => AdmitBounded(n, l, most);
      case Body(l) => BodyBounded(n, l, most);
      case Recv(room) => RecvBounded(n, room, most);
      case _ => OtherBounded(n, a, most);
    }
  }

  lemma {:induction false} SmallBefore(n: Net, a: Action, most: nat)
    requires |n.readers| >= 1 && Small(Step(n, a), most)
    ensures Small(n, most)
  {
    assert forall i | 0 <= i < |n.log| :: n.log[i] == Step(n, a).log[i];
  }

  lemma {:induction false} OtherBounded(n: Net, a: Action, most: nat)
    requires Inv(n) && Inv(Step(n, a)) && Bounded(n, most) && Small(n, most) && Enabled(n, a)
    requires a.Send? || a.Header? || a.Cut?
    ensures Bounded(Step(n, a), most)
  {
    QuietBounded(n, Step(n, a), most);
  }

  /** A step that neither stores nor takes a piece, and lets no lane start reading. */
  lemma {:induction false} QuietBounded(n: Net, m: Net, most: nat)
    requires Shape(n) && Placement(n) && Shape(m) && Placement(m) && Bounded(n, most) && Small(n, most)
    requires |m.readers| == |n.readers| && m.core.pieces == n.core.pieces && m.core.next == n.core.next
    requires n.log <= m.log
    requires forall l | 0 <= l < |m.readers| && m.readers[l].Reading? :: n.readers[l] == m.readers[l]
    ensures Bounded(m, most)
  {
    FlightLe(n, m, |n.readers|);
  }

  lemma {:induction false} RecvBounded(n: Net, room: nat, most: nat)
    requires Inv(n) && Inv(Step(n, Recv(room))) && Bounded(n, most) && Small(n, most)
    ensures Bounded(Step(n, Recv(room)), most)
  {
    FillOnce(n);
    TakenBounded(n, Step(n, Recv(room)), most);
  }

  /** The consumer takes nothing, or the piece at the next offset. */
  lemma {:induction false} TakenBounded(n: Net, m: Net, most: nat)
    requires Inv(n) && Shape(m) && Placement(m) && Bounded(n, most) && Small(n, most)
    requires m.log == n.log && m.readers == n.readers
    requires if m.core.next == n.core.next then m.core.pieces == n.core.pieces
             else m.core.pieces == n.core.pieces - {n.core.next} && n.core.next in n.core.pieces
    ensures Bounded(m, most)
  {
    forall l: nat | l < |n.readers| && n.readers[l].Reading? ensures ReadAhead(m, l) <= ReadAhead(n, l) {
      FreshOffset(n, l);
    }
    FlightLe(n, m, |n.readers|);
    TotalLess(n.core.pieces - {n.core.next}, m.core.next);
  }

  lemma {:induction false} AdmitBounded(n: Net, l: nat, most: nat)
    requires Inv(n) && Enabled(n, AdmitLane(l)) && Inv(Step(n, AdmitLane(l)))
    requires Bounded(n, most) && Small(n, most)
    ensures Bounded(Step(n, AdmitLane(l)), most)
  {
    FreshOffset(n, l);
    LetInBounded(n, Step(n, AdmitLane(l)), l, most);
  }

  /** A lane is let in for the next piece, or while no more than the hold is held. */
  lemma {:induction false} LetInBounded(n: Net, m: Net, l: nat, most: nat)
    requires Shape(n) && Placement(n) && Counted(n.core) && Bounded(n, most) && Small(n, most)
    requires l < |n.readers| && n.readers[l].Waiting? && n.readers[l].i < |n.log|
    requires m == n.(readers := n.readers[l := Reading(n.readers[l].i)]) && Shape(m) && Placement(m)
    requires n.log[n.readers[l].i].offset == n.core.next || n.core.held <= STRIPE_HOLD
    ensures Bounded(m, most)
  {
    if n.log[n.readers[l].i].offset == n.core.next {
      FlightLe(n, m, |n.readers|);
    } else {
      TotalLess(n.core.pieces, n.core.next);
      FlightMost(m, |m.readers|, most);
    }
  }

  lemma {:induction false} BodyBounded(n: Net, l: nat, most: nat)
    requires Inv(n) && Enabled(n, Body(l)) && Inv(Step(n, Body(l)))
    requires Bounded(n, most) && Small(n, most)
    ensures Bounded(Step(n, Body(l)), most)
  {
    BodyMoves(n, l);
  }

  /** Handing a body over moves its bytes from the reader to the pieces. */
  lemma {:induction false} BodyMoves(n: Net, l: nat)
    requires Inv(n) && Enabled(n, Body(l)) && Inv(Step(n, Body(l)))
    ensures var m := Step(n, Body(l));
            Total(m.core.pieces - {m.core.next}) + InFlight(m, |m.readers|)
            == Total(n.core.pieces - {n.core.next}) + InFlight(n, |n.readers|)
  {
    FreshOffset(n, l);
    var m, i := Step(n, Body(l)), n.readers[l].i;
    OneReads(n, m, l);
    BodyTotal(n.core, n.log[i].offset, n.log[i].data);
  }

  lemma {:induction false} OneReads(n: Net, m: Net, l: nat)
    requires Shape(n) && Placement(n) && Shape(m) && Placement(m) && l < |n.readers|
    requires m.core.next == n.core.next && m.log == n.log && m.readers == n.readers[l := Idle]
    ensures InFlight(m, |m.readers|) == InFlight(n, |n.readers|) - ReadAhead(n, l)
  {
    forall k: nat | k < |n.readers| && k != l ensures ReadAhead(m, k) == ReadAhead(n, k) {
    }
    FlightOne(n, m, |n.readers|, l);
  }

  /** Storing a piece beyond the next offset adds its bytes; storing the next one adds none. */
  lemma {:induction false} BodyTotal(c: Core, o: nat, data: Data)
    requires o !in c.pieces
    ensures Total(c.pieces[o := data] - {c.next}) == Total(c.pieces - {c.next}) + if o == c.next then 0 else |data|
  {
    if o == c.next {
      assert c.pieces[o := data] - {o} == c.pieces - {o};
    } else {
      assert c.pieces[o := data] - {c.next} == (c.pieces - {c.next})[o := data];
      TotalAdd(c.pieces - {c.next}, o, data);
    }
  }

  lemma {:induction false} RunBounded(n: Net, acts: seq<Action>, most: nat)
    requires Inv(n) && Bounded(n, most)
    ensures Inv(Run(n, acts)) && Bounded(Run(n, acts), most)
    decreases |acts|
  {
    if acts != [] {
      StepInv(n, acts[0]);
      StepBounded(n, acts[0], most);
      RunBounded(Step(n, acts[0]), acts[1..], most);
    }
  }

  /** Memory stays bounded: the hold, plus one largest segment per lane, plus the next one. */
  lemma {:induction false} HeldBounded(lanes: nat, acts: seq<Action>, most: nat)
    requires lanes >= 1
    ensures var n := Run(Init(lanes), acts);
            Small(n, most) ==> n.core.held <= STRIPE_HOLD + (lanes + 1) * most
  {
    var z := Init(lanes);
    InitInv(lanes);
    assert z.core.pieces - {0} == map[];
    assert Bounded(z, most) by { FlightMost(z, lanes, most); }
    RunBounded(z, acts, most);
    RunWidth(z, acts);
    var n := Run(z, acts);
    if Small(n, most) {
      HeldBy(n, most);
      TimesIsProduct(lanes + 1, most);
    }
  }

  lemma {:induction false} HeldBy(n: Net, most: nat)
    requires Shape(n) && Placement(n) && Counted(n.core) && Bounded(n, most) && Small(n, most)
    ensures n.core.held <= STRIPE_HOLD + Times(|n.readers| + 1, most)
  {
    FlightMost(n, |n.readers|, most);
    TotalLess(n.core.pieces, n.core.next);
    if n.core.next in n.core.pieces { PieceSmall(n, n.core.next, most); }
    assert Times(|n.readers| + 1, most) == Times(|n.readers|, most) + most;
  }

  lemma {:induction false} PieceSmall(n: Net, o: nat, most: nat)
    requires Shape(n) && Small(n, most) && o in n.core.pieces && Logged(n, o)
    ensures |n.core.pieces[o]| <= most
  {
  }
}
