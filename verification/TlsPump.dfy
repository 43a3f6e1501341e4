/**
  `TlsStream` after its handshake: one reading thread and any number of writing threads over a
  TLS object that appends arbitrary bytes to its outgoing buffer whenever it is used.

  `_state` is held for single actions. `_wire` is held across actions, from `Acquire` or a
  successful `TryWire` to `Done`. `produced` is history: all the TLS object ever appended. A send
  that fails drops what the socket had not taken, and nothing stops later sends; `lossy` is history,
  that bytes were dropped so.
*/
module TlsPump {
  import opened Bytes

  const TLS_WRITE: nat := 1048576

  datatype Holder = Free | Writer(t: nat) | TheReader

  datatype WriterPc =
    | Resting
    | Waiting(piece: Data)
    | Holding(piece: Data)       // has `_wire`, nothing encrypted yet
    | Sending(rest: Data)        // drained bytes the socket has not taken

  /** `enough`: the read has something to answer, so it returns after the flush. */
  datatype ReaderPc =
    | Away
    | Reading
    | Flushing(enough: bool)     // saw pending bytes, about to try `_wire`
    | Got(enough: bool)          // has `_wire`
    | Pushing(rest: Data, enough: bool)
    | Filling                    // in recv, the socket's to answer

  datatype World = World(
    produced: Data, outgoing: Data, socket: Data, lossy: bool,
    wire: Holder, writers: map<nat, WriterPc>, reader: ReaderPc,
    plain: Data)                 // plaintext encrypted so far, in order

  datatype Action =
    | Want(t: nat, piece: Data) | Acquire(t: nat) | Encrypt(t: nat, count: nat, out: Data) | WriteFails(t: nat, out: Data)
    | Push(t: nat, n: nat) | Done(t: nat) | Break(t: nat)
    | Read | Decrypt(out: Data, enough: bool) | TryWire | Drain | PushReader(n: nat) | DoneReader | BreakReader
    | Fill | Closed

  function At(w: World, t: nat): WriterPc {
    if t in w.writers then w.writers[t] else Resting
  }

  function To(w: World, t: nat, pc: WriterPc): World {
    w.(writers := w.writers[t := pc])
  }

  function After(enough: bool): ReaderPc {
    if enough then Away else Filling
  }

  predicate Enabled(w: World, a: Action) {
    match a
    case Want(t, _) => At(w, t).Resting?
    case Acquire(t) => At(w, t).Waiting? && w.wire.Free?
    case Encrypt(t, count, _) => At(w, t).Holding? && count <= |At(w, t).piece| && count <= TLS_WRITE
    case WriteFails(t, _) => At(w, t).Holding?
    case Push(t, n) => At(w, t).Sending? && 0 < n <= |At(w, t).rest|
    case Done(t) => At(w, t).Sending? && At(w, t).rest == []
    case Break(t) => At(w, t).Sending?
    case Read => w.reader.Away?
    case Decrypt(_, _) => w.reader.Reading?
    case TryWire => w.reader.Flushing?
    case Drain => w.reader.Got?
    case PushReader(n) => w.reader.Pushing? && 0 < n <= |w.reader.rest|
    case DoneReader => w.reader.Pushing? && w.reader.rest == []
    case BreakReader => w.reader.Pushing?
    case Fill => w.reader.Filling?
    case Closed => w.reader.Filling?
  }

  function Step(w: World, a: Action): World {
    if !Enabled(w, a) then w else
      match a
      case Want(t, piece) => To(w, t, Waiting(piece))
      case Acquire(t) => To(w, t, Holding(At(w, t).piece)).(wire := Writer(t))
      case Encrypt(t, count, out) =>
        To(w, t, Sending(w.outgoing + out))
          .(produced := w.produced + out, outgoing := [], plain := w.plain + At(w, t).piece[..count])
      case WriteFails(t, out) =>
        To(w, t, Resting).(produced := w.produced + out, outgoing := w.outgoing + out, wire := Free)
      case Push(t, n) => To(w, t, Sending(At(w, t).rest[n..])).(socket := w.socket + At(w, t).rest[..n])
      case Done(t) => To(w, t, Resting).(wire := Free)
      case Break(t) => To(w, t, Resting).(wire := Free, lossy := w.lossy || At(w, t).rest != [])
      case Read => w.(reader := Reading)
      case Decrypt(out, enough) =>
        w.(produced := w.produced + out, outgoing := w.outgoing + out,
           reader := if w.outgoing + out != [] then Flushing(enough) else After(enough))
      case TryWire =>
        if w.wire.Free? then w.(wire := TheReader, reader := Got(w.reader.enough)) else w.(reader := After(w.reader.enough))
      case Drain => w.(reader := Pushing(w.outgoing, w.reader.enough), outgoing := [])
      case PushReader(n) =>
        w.(reader := Pushing(w.reader.rest[n..], w.reader.enough), socket := w.socket + w.reader.rest[..n])
      case DoneReader => w.(reader := After(w.reader.enough), wire := Free)
      case BreakReader => w.(reader := Away, wire := Free, lossy := w.lossy || w.reader.rest != [])
      case Fill => w.(reader := Reading)
      case Closed => w.(reader := Away)
  }

  function Run(w: World, acts: seq<Action>): World
    decreases |acts|
  {
    if acts == [] then w else Run(Step(w, acts[0]), acts[1..])
  }

  /** After the handshake: everything produced is on the socket. */
  function Connected(handshake: Data): World {
    World(handshake, [], handshake, false, Free, map[], Away, [])
  }

  // ---------------------------------------------------------------- order

  /** Bytes the holder of `_wire` has drained and not yet sent. */
  function InHand(w: World): Data {
    match w.wire
    case Free => []
    case Writer(t) => if At(w, t).Sending? then At(w, t).rest else []
    case TheReader => if w.reader.Pushing? then w.reader.rest else []
  }

  predicate HasWire(pc: WriterPc) {
    pc.Holding? || pc.Sending?
  }

  ghost predicate WireFits(w: World) {
    && (forall t | t in w.writers :: HasWire(w.writers[t]) ==> w.wire == Writer(t))
    && (w.reader.Got? || w.reader.Pushing? ==> w.wire.TheReader?)
  }

  ghost predicate Inv(w: World) {
    && WireFits(w)
    && (!w.lossy ==> w.socket + InHand(w) + w.outgoing == w.produced)
  }

  lemma {:induction false} WriterStep(w: World, a: Action)
    requires Inv(w) && Enabled(w, a)
    requires a.Want? || a.Acquire? || a.Encrypt? || a.WriteFails? || a.Done? || a.Break?
    ensures Inv(Step(w, a))
  {
    var v := Step(w, a);
    assert At(w, a.t) == if a.t in w.writers then w.writers[a.t] else Resting;
    if a.Encrypt? && !w.lossy {
      assert InHand(w) == [] && w.socket + [] == w.socket;
      assert v.socket + InHand(v) + v.outgoing == w.socket + (w.outgoing + a.out) == w.socket + w.outgoing + a.out;
    }
    if a.WriteFails? && !w.lossy {
      assert InHand(w) == [] && w.socket + [] == w.socket;
      assert v.socket + InHand(v) + v.outgoing == w.socket + w.outgoing + a.out;
    }
  }

  lemma {:induction false} ReaderStep(w: World, a: Action)
    requires Inv(w) && Enabled(w, a)
    requires a.Read? || a.Decrypt? || a.TryWire? || a.Drain? || a.DoneReader? || a.BreakReader? || a.Fill? || a.Closed?
    ensures Inv(Step(w, a))
  {
    var v := Step(w, a);
    if a.Decrypt? && !w.lossy {
      assert InHand(v) == InHand(w);
      assert v.socket + InHand(v) + (w.outgoing + a.out) == w.socket + InHand(w) + w.outgoing + a.out;
    }
    if a.Drain? && !w.lossy {
      assert v.socket + InHand(v) + v.outgoing == w.socket + InHand(w) + w.outgoing;
    }
  }

  /** Bytes taken from the front of what is in hand go to the end of what the socket has. */
  lemma {:induction false} PushOrder(socket: Data, rest: Data, outgoing: Data, n: nat)
    requires n <= |rest|
    ensures socket + rest[..n] + rest[n..] + outgoing == socket + rest + outgoing
    ensures socket + rest[..n] <= socket + rest + outgoing
  {
    assert rest[..n] + rest[n..] == rest;
    assert socket + rest[..n] + rest[n..] == socket + (rest[..n] + rest[n..]);
    assert socket + rest + outgoing == socket + rest[..n] + (rest[n..] + outgoing);
  }

  lemma {:induction false} PushStep(w: World, a: Action)
    requires Inv(w) && Enabled(w, a) && (a.Push? || a.PushReader?)
    ensures Inv(Step(w, a))
  {
    if a.Push? {
      assert a.t in w.writers;
      PushOrder(w.socket, At(w, a.t).rest, w.outgoing, a.n);
    } else {
      PushOrder(w.socket, w.reader.rest, w.outgoing, a.n);
    }
  }

  lemma {:induction false} RunInv(w: World, acts: seq<Action>)
    requires Inv(w)
    ensures Inv(Run(w, acts))
    decreases |acts|
  {
    if acts != [] {
      if Enabled(w, acts[0]) {
        if acts[0].Push? || acts[0].PushReader? {
          PushStep(w, acts[0]);
        } else if acts[0].Want? || acts[0].Acquire? || acts[0].Encrypt? || acts[0].WriteFails? || acts[0].Done? || acts[0].Break? {
          WriterStep(w, acts[0]);
        } else {
          ReaderStep(w, acts[0]);
        }
      }
      RunInv(Step(w, acts[0]), acts[1..]);
    }
  }

  /**
    For one reader and any writers interleaving at both locks: as long as no send failed with bytes
    in hand, the bytes on the socket, then those the holder of `_wire` drained, then those still
    buffered are what the TLS object produced, in order.
  */
  lemma {:induction false} BytesInOrder(handshake: Data, acts: seq<Action>)
    ensures var w := Run(Connected(handshake), acts);
            !w.lossy ==> w.socket + InHand(w) + w.outgoing == w.produced
  {
    var w := Connected(handshake);
    assert w.socket + InHand(w) + w.outgoing == w.produced;
    RunInv(w, acts);
  }

  /** Only one thread has drained bytes in hand at a time. */
  lemma {:induction false} OneSender(handshake: Data, acts: seq<Action>, t: nat, u: nat)
    requires t != u
    ensures var w := Run(Connected(handshake), acts);
            !(HasWire(At(w, t)) && HasWire(At(w, u))) && !(HasWire(At(w, t)) && (w.reader.Got? || w.reader.Pushing?))
  {
    var w := Connected(handshake);
    assert w.socket + InHand(w) + w.outgoing == w.produced;
    RunInv(w, acts);
  }

  // ---------------------------------------------------------------- after a failed send

  /** No step that sends. */
  predicate Sends(a: Action) {
    a.Push? || a.PushReader?
  }

  /** Until somebody sends again, the socket has the beginning of what was produced. */
  lemma {:induction false} QuietSocket(w: World, later: seq<Action>)
    requires w.socket <= w.produced && forall a | a in later :: !Sends(a)
    ensures Run(w, later).socket == w.socket && w.socket <= Run(w, later).produced
    decreases |later|
  {
    if later != [] {
      assert !Sends(later[0]) && forall a | a in later[1..] :: a in later;
      QuietSocket(Step(w, later[0]), later[1..]);
    }
  }

  lemma {:induction false} RunOn(w: World, a: Action, rest: seq<Action>)
    ensures Run(w, [a] + rest) == Run(Step(w, a), rest)
  {
    assert ([a] + rest)[1..] == rest;
  }

  /** A thread that rests sends all that is buffered, with one byte more. */
  lemma {:induction false} SendsAll(w: World, t: nat, x: Byte) returns (later: seq<Action>)
    requires w.wire.Free? && At(w, t).Resting?
    ensures later == [Want(t, []), Acquire(t), Encrypt(t, 0, [x]), Push(t, |w.outgoing| + 1)]
    ensures var v := Run(w, later);
            v.socket == w.socket + (w.outgoing + [x]) && v.produced == w.produced + [x]
  {
    var data := w.outgoing + [x];
    var a := Step(w, Want(t, []));
    var b := Step(a, Acquire(t));
    var c := Step(b, Encrypt(t, 0, [x]));
    var push := Push(t, |w.outgoing| + 1);
    assert At(c, t).rest == data && data[..|data|] == data;
    later := [Want(t, [])] + ([Acquire(t)] + ([Encrypt(t, 0, [x])] + ([push] + [])));
    RunOn(w, Want(t, []), [Acquire(t)] + ([Encrypt(t, 0, [x])] + ([push] + [])));
    RunOn(a, Acquire(t), [Encrypt(t, 0, [x])] + ([push] + []));
    RunOn(b, Encrypt(t, 0, [x]), [push] + []);
    RunOn(c, push, []);
  }

  /** A byte that is not this one. */
  function Another(x: Byte): Byte {
    if x == 0 then 1 else 0
  }

  /** After a gap, a send whose last byte is not what belongs there puts the socket out of order. */
  lemma {:induction false} GapShows(socket: Data, rest: Data, outgoing: Data)
    requires rest != []
    ensures var x := Another((rest + outgoing)[|outgoing|]);
            !(socket + (outgoing + [x]) <= socket + rest + outgoing + [x])
  {
    var x := Another((rest + outgoing)[|outgoing|]);
    var got, all := socket + (outgoing + [x]), socket + rest + outgoing + [x];
    var at := |socket| + |outgoing|;
    assert got[at] == x;
    assert all[at] == (rest + outgoing)[|outgoing|];
  }

  /** The next send of a thread that rests, whatever the TLS object produces for it. */
  ghost predicate NextInOrder(w: World, t: nat) {
    forall x :: var v := Run(w, [Want(t, []), Acquire(t), Encrypt(t, 0, [x]), Push(t, |w.outgoing| + 1)]); v.socket <= v.produced
  }

  /**
    When a send fails, a writer's or the flush of a reader, the next one keeps the socket in order exactly
    when the failed one had taken everything that was drained: the code lets later sends follow the gap.
  */
  lemma {:induction false} FailedSendExact(w: World, a: Action, t: nat)
    requires Inv(w) && !w.lossy && Enabled(w, a) && (a.Break? || a.BreakReader?) && At(Step(w, a), t).Resting?
    ensures NextInOrder(Step(w, a), t) <==> InHand(w) == []
  {
    var v := Step(w, a);
    var rest := InHand(w);
    assert a.Break? ==> a.t in w.writers && w.wire == Writer(a.t);
    assert w.produced == w.socket + rest + w.outgoing;
    if rest == [] {
      forall x ensures var u := Run(v, [Want(t, []), Acquire(t), Encrypt(t, 0, [x]), Push(t, |v.outgoing| + 1)]); u.socket <= u.produced {
        var later := SendsAll(v, t, x);
        assert w.socket + rest == w.socket && w.socket + (w.outgoing + [x]) == w.socket + w.outgoing + [x];
      }
    } else {
      var x := Another((rest + w.outgoing)[|w.outgoing|]);
      var later := SendsAll(v, t, x);
      GapShows(w.socket, rest, w.outgoing);
    }
  }

  // ---------------------------------------------------------------- the reader does not wait for a writer

  /** The reading thread is at the socket itself, receiving or sending its own bytes. */
  predicate AtSocket(pc: ReaderPc) {
    pc.Filling? || (pc.Pushing? && pc.rest != [])
  }

  predicate OfReader(a: Action) {
    a.Read? || a.Decrypt? || a.TryWire? || a.Drain? || a.PushReader? || a.DoneReader? || a.BreakReader? || a.Fill? || a.Closed?
  }

  /** Between two visits to the socket, or to its caller. */
  predicate Inside(pc: ReaderPc) {
    !AtSocket(pc) && !pc.Away?
  }

  /** How many steps of its own the reader has left there at most. */
  function Left(pc: ReaderPc): nat {
    match pc
    case Reading => 4
    case Flushing(_) => 3
    case Got(_) => 2
    case Pushing(rest, _) => if rest == [] then 1 else 0
    case _ => 0
  }

  /** The reader's own steps of a run. */
  function Own(w: World, acts: seq<Action>): nat
    decreases |acts|
  {
    if acts == [] then 0
    else (if OfReader(acts[0]) && Enabled(w, acts[0]) then 1 else 0) + Own(Step(w, acts[0]), acts[1..])
  }

  /** The reader is inside all along the run. */
  predicate StaysInside(w: World, acts: seq<Action>)
    decreases |acts|
  {
    Inside(w.reader) && (acts != [] ==> StaysInside(Step(w, acts[0]), acts[1..]))
  }

  lemma {:induction false} CanGoOn(w: World)
    requires Inside(w.reader)
    ensures exists a :: OfReader(a) && Enabled(w, a)
  {
    match w.reader
    case Reading => assert Enabled(w, Decrypt([], true));
    case Flushing(_) => assert Enabled(w, TryWire);
    case Got(_) => assert Enabled(w, Drain);
    case Pushing(_, _) => assert Enabled(w, DoneReader);
  }

  lemma {:induction false} OneNearer(w: World, a: Action)
    requires Inside(w.reader) && Inside(Step(w, a).reader)
    ensures Left(Step(w, a).reader) + (if OfReader(a) && Enabled(w, a) then 1 else 0) <= Left(w.reader)
  {
  }

  /**
    Whatever writers do meanwhile, the reading thread has a step of its own it can take until it is
    back at the socket or at its caller, and it gets there in at most four of them.
  */
  lemma {:induction false} ReaderNeverWaits(w: World, acts: seq<Action>)
    requires StaysInside(w, acts)
    ensures var v := Run(w, acts);
            Inside(v.reader) && Own(w, acts) + Left(v.reader) <= Left(w.reader) && Own(w, acts) < 4 && exists a :: OfReader(a) && Enabled(v, a)
    decreases |acts|
  {
    if acts == [] {
      CanGoOn(w);
    } else {
      ReaderNeverWaits(Step(w, acts[0]), acts[1..]);
      OneNearer(w, acts[0]);
    }
  }

  // ---------------------------------------------------------------- bytes left behind by a reader

  /** The writer's own steps to the end of its send, the socket taking all at once. */
  function Finished(w: World, t: nat, count: nat, out: Data): World {
    var v := Step(w, Encrypt(t, count, out));
    Step(if At(v, t).Sending? && At(v, t).rest != [] then Step(v, Push(t, |At(v, t).rest|)) else v, Done(t))
  }

  /** A send that goes through leaves nothing buffered behind it, if it had still to drain. */
  lemma {:induction false} SendCarries(w: World, t: nat, count: nat, out: Data)
    requires Inv(w) && !w.lossy && At(w, t).Holding? && count <= |At(w, t).piece| && count <= TLS_WRITE
    ensures var v := Finished(w, t, count, out);
            v.outgoing == [] && v.socket == v.produced == w.produced + out && v.wire.Free?
            && At(v, t).Resting? && v.plain == w.plain + At(w, t).piece[..count] && v.reader == w.reader
  {
    assert t in w.writers && w.wire == Writer(t) && InHand(w) == [];
    var v := Step(w, Encrypt(t, count, out));
    assert w.socket + [] == w.socket && w.socket + (w.outgoing + out) == w.socket + w.outgoing + out;
    if w.outgoing + out != [] {
      var x := Step(v, Push(t, |w.outgoing + out|));
      assert (w.outgoing + out)[..|w.outgoing + out|] == w.outgoing + out;
      assert At(x, t).rest == [];
    }
  }

  /** However a send ends, the lock is free again and the thread is done; a read goes on to the socket unless it has enough. */
  lemma {:induction false} SendsEnd(w: World, a: Action)
    requires Enabled(w, a)
    ensures a.Done? || a.Break? || a.WriteFails? ==>
              Step(w, a).wire.Free? && At(Step(w, a), a.t).Resting? && Step(w, a).reader == w.reader && Step(w, a).plain == w.plain
    ensures a.DoneReader? ==> Step(w, a).wire.Free? && Step(w, a).reader == if w.reader.enough then Away else Filling
    ensures a.BreakReader? ==> Step(w, a).wire.Free? && Step(w, a).reader == Away
    ensures a.TryWire? && !w.wire.Free? ==> Step(w, a) == w.(reader := if w.reader.enough then Away else Filling)
    ensures a.Fill? ==> Step(w, a) == w.(reader := Reading)
    ensures a.Closed? ==> Step(w, a) == w.(reader := Away)
  {
  }

  /** A read with nobody sending puts all that the TLS object produced for it on the socket, and then waits or answers. */
  lemma {:induction false} ReadAlone(w: World, out: Data, enough: bool)
    requires Inv(w) && !w.lossy && w.wire.Free? && w.reader.Away?
    ensures var v := Step(Step(w, Read), Decrypt(out, enough));
            if w.outgoing + out == []
            then v == w.(reader := if enough then Away else Filling)
            else
              var x := Step(Step(Step(Step(v, TryWire), Drain), PushReader(|w.outgoing + out|)), DoneReader);
              x == w.(socket := w.produced + out, produced := w.produced + out, outgoing := [], reader := if enough then Away else Filling)
  {
    var data := w.outgoing + out;
    assert w.socket + [] == w.socket;
    assert w.produced == w.socket + w.outgoing;
    if data == [] {
      assert out == [] && w.produced + out == w.produced;
    } else {
      var v := Step(Step(w, Read), Decrypt(out, enough));
      var x := Step(Step(v, TryWire), Drain);
      assert x == w.(produced := w.produced + out, outgoing := [], wire := TheReader, reader := Pushing(data, enough));
      assert data[..|data|] == data && data[|data|..] == [];
      assert w.socket + data == w.produced + out;
    }
  }

  /**
    Bytes a reader could not flush because a writer had `_wire` go with that writer's send just
    when the writer had not drained yet; otherwise they stay until a later send.
  */
  lemma {:induction false} LeftBehindExact(w: World, t: nat, count: nat, out: Data)
    requires Inv(w) && !w.lossy && w.reader.Flushing? && w.outgoing != [] && w.wire == Writer(t) && HasWire(At(w, t))
    requires At(w, t).Holding? ==> count <= |At(w, t).piece| && count <= TLS_WRITE
    ensures var v := Step(w, TryWire);
            v.outgoing == w.outgoing && (Finished(v, t, count, out).outgoing == [] <==> At(w, t).Holding?)
  {
    var v := Step(w, TryWire);
    assert At(v, t) == At(w, t);
    if At(w, t).Holding? {
      assert Inv(v) && At(v, t).piece == At(w, t).piece;
      SendCarries(v, t, count, out);
    } else {
      assert Step(v, Encrypt(t, count, out)) == v;
    }
  }

  /** The writer has drained, and then the reader's bytes are buffered. */
  const MISSED: World := World([1, 2], [2], [], false, Writer(0), map[0 := Sending([1])], Away, [])

  lemma {:induction false} Drained() returns (acts: seq<Action>)
    ensures acts == [Want(0, []), Acquire(0), Encrypt(0, 0, [1])]
    ensures Run(Connected([]), acts) == World([1], [], [], false, Writer(0), map[0 := Sending([1])], Away, [])
  {
    acts := [Want(0, []), Acquire(0), Encrypt(0, 0, [1])];
    Three(Connected([]), acts, World([1], [], [], false, Writer(0), map[0 := Sending([1])], Away, []));
  }

  lemma {:induction false} Missed() returns (acts: seq<Action>)
    ensures acts == [Read, Decrypt([2], true), TryWire]
    ensures Run(World([1], [], [], false, Writer(0), map[0 := Sending([1])], Away, []), acts) == MISSED
  {
    acts := [Read, Decrypt([2], true), TryWire];
    assert [1] + [2] == [1, 2] && [] + [2] == [2];
    Three(World([1], [], [], false, Writer(0), map[0 := Sending([1])], Away, []), acts, MISSED);
  }

  lemma {:induction false} SendsOne(w: World) returns (acts: seq<Action>)
    requires At(w, 0) == Sending([1])
    ensures acts == [Push(0, 1), Done(0)]
    ensures Run(w, acts) == w.(socket := w.socket + [1], wire := Free, writers := w.writers[0 := Resting])
  {
    assert [1][..1] == [1] && [1][1..] == [];
    var v := Step(w, Push(0, 1));
    acts := [Push(0, 1)] + ([Done(0)] + []);
    RunOn(w, Push(0, 1), [Done(0)] + []);
    RunOn(v, Done(0), []);
    assert w.writers[0 := Sending([])][0 := Resting] == w.writers[0 := Resting];
  }

  /** A run after which nobody sends any more and the reader's bytes are still buffered. */
  lemma {:induction false} LeftBehind() returns (acts: seq<Action>)
    ensures acts == [Want(0, []), Acquire(0), Encrypt(0, 0, [1])] + [Read, Decrypt([2], true), TryWire] + [Push(0, 1), Done(0)]
    ensures var w := Run(Connected([]), acts);
            w.produced == [1, 2] && w.socket == [1] && w.outgoing == [2] && w.wire.Free? && w.reader.Away? && At(w, 0).Resting?
  {
    var w := Connected([]);
    acts := Drained();
    var a := Missed();
    RunJoin(w, acts, a);
    acts := acts + a;
    var b := SendsOne(MISSED);
    RunJoin(w, acts, b);
    acts := acts + b;
    assert [] + [1] == [1];
  }

  lemma {:induction false} Three(w: World, acts: seq<Action>, v: World)
    requires |acts| == 3 && v == Step(Step(Step(w, acts[0]), acts[1]), acts[2])
    ensures Run(w, acts) == v
  {
    assert acts[1..][1..] == acts[2..] && acts[2..][1..] == [];
    assert Run(Step(Step(w, acts[0]), acts[1]), acts[2..]) == Run(v, []);
  }

  lemma {:induction false} RunJoin(w: World, a: seq<Action>, b: seq<Action>)
    ensures Run(w, a + b) == Run(Run(w, a), b)
    decreases |a|
  {
    if a == [] {
      assert a + b == b;
    } else {
      assert (a + b)[1..] == a[1..] + b;
      RunJoin(Step(w, a[0]), a[1..], b);
    }
  }

  // ---------------------------------------------------------------- reading into a view

  datatype Answer = Clear(bytes: Data) | WantRead | AtEnd

  /** The TLS object as a reader sees it: decrypted bytes, and whether the peer has ended. */
  class TlsObject {
    var clear: Data
    var ended: bool

    constructor (clear: Data, ended: bool)
      ensures this.clear == clear && this.ended == ended
    {
      this.clear, this.ended := clear, ended;
    }

    /** At most `size` bytes, as many as it likes; an error when there is none. */
    method Read(size: nat) returns (answer: Answer)
      requires size > 0
      modifies this`clear
      ensures old(clear) == [] ==> answer == (if ended then AtEnd else WantRead) && clear == []
      ensures old(clear) != [] ==> answer.Clear? && 0 < |answer.bytes| <= size && answer.bytes + clear == old(clear)
    {
      if clear == [] { return if ended then AtEnd else WantRead; }
      var n: nat :| 0 < n <= size && n <= |clear|;
      answer := Clear(clear[..n]);
      clear := clear[n..];
    }

    /** The loop of `recv_into` under `_state`: it fills the view as far as there are bytes. */
    method ReadInto(size: nat) returns (view: Data, closed: bool)
      modifies this`clear
      ensures view + clear == old(clear) && |view| == Min(size, |old(clear)|)
      ensures closed <==> ended && |old(clear)| < size
    {
      view, closed := [], false;
      while |view| < size
        invariant view + clear == old(clear) && |view| <= size && !closed
        decreases size - |view|
      {
        var answer := Read(size - |view|);
        match answer
        case WantRead => return;
        case AtEnd =>
          closed := true;
          return;
        case Clear(bytes) =>
          assert view + (bytes + clear) == view + bytes + clear;
          view := view + bytes;
      }
    }
  }
}
