/**
  Elice machines and the counts of runtimes on them: `create_session`, `start`,
  `_release_failed_start`, `stop` and `diagnose`, over one provider object.

  A start is several steps, for the provider calls between them take minutes, and nothing keeps
  two starts of one account apart. `on` and `touched` are history: the machine each runtime, or
  start under way, is counted on, and the one each start has launched or started. `ended` lists
  the machines that `_end_machine` stopped or deleted, in order.
*/
module Machines {
  type Machine = string

  datatype Maybe = None | Some(m: Machine)

  datatype Elice = Elice(
    holders: map<Machine, nat>, stopped: set<Machine>, preempted: set<Machine>,
    starting: Maybe,                  // _starting
    pending: Maybe)                   // _pending_machine

  datatype World = World(
    e: Elice,
    underWay: set<nat>,               // starts between Begin and Finish or Fail
    external: map<nat, Maybe>,        // runtimes handed out, by their external_id
    on: map<nat, Machine>, touched: map<nat, Machine>, ended: seq<Machine>)

  datatype Action =
    | Begin(r: nat)                   // start: forget the previous start
    | Touch(r: nat, m: Machine)       // this start launches or starts the machine
    | Refuse(r: nat)                  // the launch was refused, so there is no machine
    | Count(r: nat, m: Machine)       // create_session's last lines
    | Finish(r: nat) | Fail(r: nat)
    | Stop(r: nat) | Preempt(m: Machine)

  function Holders(e: Elice, m: Machine): nat {
    if m in e.holders then e.holders[m] else 0
  }

  predicate Enabled(w: World, a: Action) {
    match a
    case Begin(r) => r !in w.underWay && r !in w.external
    case Touch(r, _) => r in w.underWay && r !in w.on
    case Refuse(r) => r in w.underWay && r !in w.on
    case Count(r, _) => r in w.underWay && r !in w.on
    case Finish(r) => r in w.underWay && r in w.on
    case Fail(r) => r in w.underWay
    case Stop(r) => r in w.external
    case Preempt(_) => true
  }

  /** A count of one fewer, or the machine's end. */
  function Dropped(e: Elice, m: Machine): Elice {
    if Holders(e, m) > 1 then e.(holders := e.holders[m := Holders(e, m) - 1]) else e.(holders := e.holders - {m})
  }

  function Ended(e: Elice, m: Machine): Elice {
    e.(stopped := e.stopped + {m})
  }

  datatype Effect = Effect(e: Elice, ends: bool)

  function Failing(e: Elice): Maybe {
    if e.pending.Some? then e.pending else e.starting
  }

  /** `_release_failed_start`. */
  function AfterFailedStart(e: Elice): Effect {
    var machine := Failing(e);
    var f := e.(starting := None);
    if machine.None? then Effect(f, false)
    else if e.pending == machine then
      (if Holders(e, machine.m) > 1 then Effect(Dropped(f, machine.m), false)
       else Effect(Ended(Dropped(f, machine.m), machine.m), true))
    else if Holders(e, machine.m) > 0 then Effect(f, false)
    else Effect(Ended(f, machine.m), true)
  }

  /** `stop`, on a runtime whose external_id is this. */
  function AfterStop(e: Elice, external: Maybe): Effect {
    if external.None? then Effect(e, false)
    else
      var m := external.m;
      if Holders(e, m) > 1 || m in e.preempted then Effect(Dropped(e, m), false)
      else Effect(Ended(Dropped(e, m), m), true)
  }

  function AfterCount(e: Elice, m: Machine): Elice {
    e.(pending := Some(m), holders := e.holders[m := Holders(e, m) + 1], stopped := e.stopped - {m}, preempted := e.preempted - {m})
  }

  function Step(w: World, a: Action): World {
    if !Enabled(w, a) then w else
      match a
      case Begin(r) => w.(e := w.e.(starting := None, pending := None), underWay := w.underWay + {r})
      case Touch(r, m) => w.(e := w.e.(starting := Some(m)), touched := w.touched[r := m])
      case Refuse(r) => w.(e := w.e.(starting := None), touched := w.touched - {r})
      case Count(r, m) => w.(e := AfterCount(w.e, m), on := w.on[r := m], touched := w.touched - {r})
      case Finish(r) =>
        w.(e := w.e.(starting := None), underWay := w.underWay - {r}, external := w.external[r := w.e.pending])
      case Fail(r) =>
        var effect := AfterFailedStart(w.e);
        w.(e := effect.e, underWay := w.underWay - {r}, on := w.on - {r}, touched := w.touched - {r},
           ended := w.ended + if effect.ends then [Failing(w.e).m] else [])
      case Stop(r) =>
        var effect := AfterStop(w.e, w.external[r]);
        w.(e := effect.e, external := w.external - {r}, on := w.on - {r},
           ended := w.ended + if effect.ends then [w.external[r].m] else [])
      case Preempt(m) => w.(e := w.e.(preempted := w.e.preempted + {m}))
  }

  const EMPTY: World := World(Elice(map[], {}, {}, None, None), {}, map[], map[], map[], [])

  function Run(w: World, acts: seq<Action>): World
    decreases |acts|
  {
    if acts == [] then w else Run(Step(w, acts[0]), acts[1..])
  }

  /** Starts do not overlap. */
  predicate OneAtATime(w: World, acts: seq<Action>)
    decreases |acts|
  {
    acts == [] || ((acts[0].Begin? ==> w.underWay == {}) && OneAtATime(Step(w, acts[0]), acts[1..]))
  }

  // ---------------------------------------------------------------- counts

  /** The runtimes and starts counted on the machine. */
  function On(w: World, m: Machine): set<nat> {
    set r | r in w.on && w.on[r] == m
  }

  ghost predicate CountsFit(w: World) {
    forall m :: Holders(w.e, m) == |On(w, m)|
  }

  /** Who is counted where: each runtime handed out knows its machine, and nothing else is counted but starts under way. */
  ghost predicate StartsFit(w: World) {
    && (forall r | r in w.underWay :: r !in w.external)
    && (forall r | r in w.external :: r in w.on && w.external[r] == Some(w.on[r]))
    && (forall r | r in w.on :: r in w.external || r in w.underWay)
  }

  ghost predicate Inv(w: World) {
    CountsFit(w) && StartsFit(w)
  }

  /**
    The guards the counts depend on, each readable before the action. `_pending_machine` belongs
    to the account and not to a start: a start that finishes must find its own machine there, and
    one that fails its own or, with none of its own, one that nobody is counted on.
  */
  predicate Careful(w: World, a: Action) {
    match a
    case Finish(r) => r in w.on ==> w.e.pending == Some(w.on[r])
    case Fail(r) =>
      if r in w.on then w.e.pending == Some(w.on[r])
      else w.e.pending.None? || Holders(w.e, w.e.pending.m) == 0
    case _ => true
  }

  predicate CarefulRun(w: World, acts: seq<Action>)
    decreases |acts|
  {
    acts == [] || (Careful(w, acts[0]) && CarefulRun(Step(w, acts[0]), acts[1..]))
  }

  lemma {:induction false} OnAdd(w: World, v: World, r: nat, m: Machine, x: Machine)
    requires r !in w.on && v.on == w.on[r := m]
    ensures |On(v, x)| == |On(w, x)| + if x == m then 1 else 0
  {
    assert On(v, x) == On(w, x) + if x == m then {r} else {};
  }

  lemma {:induction false} OnDrop(w: World, v: World, r: nat, x: Machine)
    requires v.on == w.on - {r}
    ensures |On(w, x)| == |On(v, x)| + if r in w.on && w.on[r] == x then 1 else 0
  {
    var s, t := On(w, x), On(v, x);
    if r in w.on && w.on[r] == x {
      assert s == t + {r};
    } else {
      assert s == t;
    }
  }

  lemma {:induction false} DroppedCounts(e: Elice, m: Machine, x: Machine)
    ensures Holders(Dropped(e, m), x) == if x == m && Holders(e, m) > 0 then Holders(e, m) - 1 else Holders(e, x)
  {
  }

  lemma {:induction false} CountInv(w: World, r: nat, m: Machine)
    requires Inv(w) && Enabled(w, Count(r, m))
    ensures Inv(Step(w, Count(r, m)))
  {
    var v := Step(w, Count(r, m));
    forall x ensures Holders(v.e, x) == |On(v, x)| { OnAdd(w, v, r, m, x); }
  }

  lemma {:induction false} FailInv(w: World, r: nat)
    requires Inv(w) && Enabled(w, Fail(r)) && Careful(w, Fail(r))
    ensures Inv(Step(w, Fail(r)))
  {
    var v := Step(w, Fail(r));
    forall x ensures Holders(v.e, x) == |On(v, x)| {
      OnDrop(w, v, r, x);
      if w.e.pending.Some? { DroppedCounts(w.e.(starting := None), w.e.pending.m, x); }
    }
  }

  lemma {:induction false} StopInv(w: World, r: nat)
    requires Inv(w) && Enabled(w, Stop(r))
    ensures Inv(Step(w, Stop(r)))
  {
    var v := Step(w, Stop(r));
    forall x ensures Holders(v.e, x) == |On(v, x)| {
      OnDrop(w, v, r, x);
      DroppedCounts(w.e, w.on[r], x);
    }
  }

  lemma {:induction false} PlainInv(w: World, a: Action)
    requires Inv(w) && Enabled(w, a) && Careful(w, a)
    requires a.Begin? || a.Touch? || a.Refuse? || a.Finish? || a.Preempt?
    ensures Inv(Step(w, a))
  {
    var v := Step(w, a);
    forall x ensures Holders(v.e, x) == |On(v, x)| { assert On(v, x) == On(w, x); }
  }

  lemma {:induction false} StepInv(w: World, a: Action)
    requires Inv(w) && Careful(w, a)
    ensures Inv(Step(w, a))
  {
    if !Enabled(w, a) {
    } else if a.Count? {
      CountInv(w, a.r, a.m);
    } else if a.Fail? {
      FailInv(w, a.r);
    } else if a.Stop? {
      StopInv(w, a.r);
    } else {
      PlainInv(w, a);
    }
  }

  /** A failing start that takes off another's count, or leaves its own on, makes a count wrong. */
  lemma {:induction false} FailBreaks(w: World, r: nat)
    requires Inv(w) && Enabled(w, Fail(r)) && !Careful(w, Fail(r))
    ensures !CountsFit(Step(w, Fail(r)))
  {
    var v := Step(w, Fail(r));
    var m := if r in w.on then w.on[r] else w.e.pending.m;
    OnDrop(w, v, r, m);
    if r in w.on { assert r in On(w, m); }
    if w.e.pending.Some? { DroppedCounts(w.e.(starting := None), w.e.pending.m, m); }
    assert Holders(v.e, m) != |On(v, m)|;
  }

  /** Each step, whatever overlaps, keeps every count and every runtime's machine right exactly when its guard holds. */
  lemma {:induction false} StepExact(w: World, a: Action)
    requires Inv(w) && Enabled(w, a)
    ensures Inv(Step(w, a)) <==> Careful(w, a)
  {
    if Careful(w, a) {
      StepInv(w, a);
    } else if a.Fail? {
      FailBreaks(w, a.r);
    } else {
      assert Step(w, a).external[a.r] != Some(Step(w, a).on[a.r]);
    }
  }

  lemma {:induction false} RunInv(w: World, acts: seq<Action>)
    requires Inv(w) && CarefulRun(w, acts)
    ensures Inv(Run(w, acts))
    decreases |acts|
  {
    if acts != [] {
      StepInv(w, acts[0]);
      RunInv(Step(w, acts[0]), acts[1..]);
    }
  }

  /** With one start under way `_pending_machine` is that start's. */
  ghost predicate OneStart(w: World) {
    && (forall r, q | r in w.underWay && q in w.underWay :: r == q)
    && (forall r | r in w.underWay :: w.e.pending == if r in w.on then Some(w.on[r]) else None)
  }

  lemma {:induction false} OneStartCareful(w: World, a: Action)
    requires Inv(w) && OneStart(w) && (a.Begin? ==> w.underWay == {})
    ensures Enabled(w, a) ==> Careful(w, a)
    ensures OneStart(Step(w, a))
  {
  }

  /** Starts one at a time meet every guard. */
  lemma {:induction false} OneAtATimeInv(w: World, acts: seq<Action>)
    requires Inv(w) && OneStart(w) && OneAtATime(w, acts)
    ensures Inv(Run(w, acts)) && OneStart(Run(w, acts))
    decreases |acts|
  {
    if acts != [] {
      OneStartCareful(w, acts[0]);
      if Enabled(w, acts[0]) { StepInv(w, acts[0]); }
      OneAtATimeInv(Step(w, acts[0]), acts[1..]);
    }
  }

  lemma {:induction false} EmptyInv()
    ensures Inv(EMPTY)
  {
    forall x ensures Holders(EMPTY.e, x) == |On(EMPTY, x)| { assert On(EMPTY, x) == {}; }
  }

  /**
    Over every run of starts, failed starts, stops and preemptions, overlapping ones included, as
    long as each finishing or failing start finds its own machine, each count is the runtimes and
    counted starts on its machine, and each runtime handed out knows its machine.
  */
  lemma {:induction false} GuardedCounts(acts: seq<Action>, m: Machine)
    requires CarefulRun(EMPTY, acts)
    ensures var w := Run(EMPTY, acts);
            Holders(w.e, m) == |set r | r in w.on && w.on[r] == m|
            && forall r | r in w.external :: r in w.on && w.external[r] == Some(w.on[r])
  {
    EmptyInv();
    RunInv(EMPTY, acts);
    assert On(Run(EMPTY, acts), m) == set r | r in Run(EMPTY, acts).on && Run(EMPTY, acts).on[r] == m;
  }

  /** Over starts one at a time, failed starts, stops and preemptions, each count is the runtimes on its machine. */
  lemma {:induction false} CountsAreRuntimes(acts: seq<Action>, m: Machine)
    requires OneAtATime(EMPTY, acts)
    ensures var w := Run(EMPTY, acts);
            Holders(w.e, m) == |set r | r in w.on && w.on[r] == m|
            && forall r | r in w.external :: r in w.on && w.external[r] == Some(w.on[r])
  {
    EmptyInv();
    OneAtATimeInv(EMPTY, acts);
    assert On(Run(EMPTY, acts), m) == set r | r in Run(EMPTY, acts).on && Run(EMPTY, acts).on[r] == m;
  }

  // ---------------------------------------------------------------- when a machine ends

  lemma {:induction false} AloneOn(w: World, r: nat)
    requires Inv(w) && r in w.on
    ensures Holders(w.e, w.on[r]) > 0
    ensures Holders(w.e, w.on[r]) > 1 <==> exists q :: q in w.on && q != r && w.on[q] == w.on[r]
  {
    var s := On(w, w.on[r]);
    assert s == s - {r} + {r};
    if q :| q in w.on && q != r && w.on[q] == w.on[r] {
      assert q in s - {r};
    }
    if |s| > 1 {
      var q :| q in s - {r};
      assert q in w.on;
    }
  }

  /** Stopping a runtime ends its machine just when it is the last one there and Elice has not taken the machine back. */
  lemma {:induction false} StopEndsLast(acts: seq<Action>, r: nat)
    requires OneAtATime(EMPTY, acts) && r in Run(EMPTY, acts).external
    ensures var w := Run(EMPTY, acts);
            r in w.on
            && Step(w, Stop(r)).ended
               == w.ended + (if (exists q :: q in w.on && q != r && w.on[q] == w.on[r]) || w.on[r] in w.e.preempted
                             then [] else [w.on[r]])
  {
    EmptyInv();
    OneAtATimeInv(EMPTY, acts);
    AloneOn(Run(EMPTY, acts), r);
  }

  /**
    A start that fails ends the machine it was counted on, or had launched or started, just when
    no runtime is left there; with no such machine it ends nothing.
  */
  lemma {:induction false} FailedStartEnds(acts: seq<Action>, r: nat)
    requires OneAtATime(EMPTY, acts) && r in Run(EMPTY, acts).underWay
    ensures var w := Run(EMPTY, acts);
            var machine := if r in w.on then Some(w.on[r]) else w.e.starting;
            Step(w, Fail(r)).ended
            == w.ended + (if machine.Some? && !exists q :: q in w.on && q != r && w.on[q] == machine.m then [machine.m] else [])
  {
    EmptyInv();
    OneAtATimeInv(EMPTY, acts);
    var w := Run(EMPTY, acts);
    if r in w.on {
      AloneOn(w, r);
    } else if w.e.starting.Some? {
      NobodyOn(w, w.e.starting.m);
    }
  }

  lemma {:induction false} NobodyOn(w: World, m: Machine)
    requires Inv(w)
    ensures Holders(w.e, m) > 0 <==> exists q :: q in w.on && w.on[q] == m
  {
    if q :| q in w.on && w.on[q] == m { assert q in On(w, m); }
    if |On(w, m)| > 0 {
      var q :| q in On(w, m);
      assert q in w.on;
    }
  }

  // ---------------------------------------------------------------- overlapping starts

  /** The last step of a run that wrote `_pending_machine`: another start began, or one was counted. */
  datatype Written = Nobody | Forgot | By(m: Machine)

  function LastWritten(w: World, acts: seq<Action>): Written
    decreases |acts|
  {
    if acts == [] then Nobody
    else
      var later := LastWritten(Step(w, acts[0]), acts[1..]);
      if !later.Nobody? || !Enabled(w, acts[0]) then later
      else match acts[0]
        case Begin(_) => Forgot
        case Count(_, m) => By(m)
        case _ => Nobody
  }

  lemma {:induction false} PendingIsLast(w: World, acts: seq<Action>)
    ensures Run(w, acts).e.pending
            == match LastWritten(w, acts) case Nobody => w.e.pending case Forgot => None case By(m) => Some(m)
    decreases |acts|
  {
    if acts != [] { PendingIsLast(Step(w, acts[0]), acts[1..]); }
  }

  /** No step is this start's own end. */
  predicate Leaves(acts: seq<Action>, r: nat) {
    forall a | a in acts :: a != Finish(r) && a != Fail(r)
  }

  lemma {:induction false} StillCounted(w: World, acts: seq<Action>, r: nat)
    requires r in w.underWay && r in w.on && r !in w.external && Leaves(acts, r)
    ensures var v := Run(w, acts); r in v.underWay && r in v.on && v.on[r] == w.on[r]
    decreases |acts|
  {
    if acts != [] {
      var v := Step(w, acts[0]);
      assert acts[0] in acts && forall a | a in acts[1..] :: a in acts;
      assert r in v.underWay && r in v.on && r !in v.external && v.on[r] == w.on[r];
      StillCounted(v, acts[1..], r);
    }
  }

  lemma {:induction false} NotHandedOut(w: World, acts: seq<Action>)
    requires forall r | r in w.underWay :: r !in w.external
    ensures forall r | r in Run(w, acts).underWay :: r !in Run(w, acts).external
    decreases |acts|
  {
    if acts != [] { NotHandedOut(Step(w, acts[0]), acts[1..]); }
  }

  /**
    Whatever other starts do between a start's count and its end, it is handed its own machine
    exactly when none of them began or was counted since, or the last that did was counted on the
    same machine.
  */
  lemma {:induction false} FinishExact(before: seq<Action>, r: nat, m: Machine, after: seq<Action>)
    requires Enabled(Run(EMPTY, before), Count(r, m)) && Leaves(after, r)
    ensures var w := Step(Run(EMPTY, before), Count(r, m)); var v := Step(Run(w, after), Finish(r));
            && r in v.external && r in v.on && v.on[r] == m
            && (v.external[r] == Some(m) <==> LastWritten(w, after).Nobody? || LastWritten(w, after) == By(m))
  {
    NotHandedOut(EMPTY, before);
    var w := Step(Run(EMPTY, before), Count(r, m));
    PendingIsLast(w, after);
    StillCounted(w, after, r);
  }

  /** The machines a step ended. */
  function EndedBy(w: World, a: Action): seq<Machine>
    ensures |w.ended| <= |Step(w, a).ended|
  {
    Step(w, a).ended[|w.ended|..]
  }

  /**
    A start that fails leaves the machine of another runtime or counted start alone, its count right
    and the machine not ended, exactly when it finds that machine in `_pending_machine` just in case
    it is counted on it too.
  */
  lemma {:induction false} FailSpares(w: World, q: nat, r: nat)
    requires Inv(w) && Enabled(w, Fail(q)) && r in w.on && r != q
    ensures var v := Step(w, Fail(q)); var m := w.on[r];
            m !in EndedBy(w, Fail(q)) && Holders(v.e, m) == |On(v, m)|
            <==> (w.e.pending == Some(m) <==> q in w.on && w.on[q] == m)
  {
    var v, m := Step(w, Fail(q)), w.on[r];
    OnDrop(w, v, q, m);
    AloneOn(w, r);
    if w.e.pending.Some? { DroppedCounts(w.e.(starting := None), w.e.pending.m, m); }
  }

  /** It ends that machine exactly when it finds it there and nobody else is counted on it. */
  lemma {:induction false} FailEnds(w: World, q: nat, r: nat)
    requires Inv(w) && Enabled(w, Fail(q)) && r in w.on && r != q
    ensures EndedBy(w, Fail(q)) == [w.on[r]]
            <==> w.e.pending == Some(w.on[r]) && forall o | o in w.on && w.on[o] == w.on[r] :: o == r
  {
    AloneOn(w, r);
    if Failing(w.e).Some? { assert [Failing(w.e).m][0] == Failing(w.e).m; }
  }

  /** A machine another start has launched, with nobody counted on it yet, is ended exactly when it was noted last. */
  lemma {:induction false} FailEndsLaunching(w: World, q: nat, r: nat)
    requires Enabled(w, Fail(q)) && r in w.underWay && r != q && r in w.touched && Holders(w.e, w.touched[r]) == 0
    ensures EndedBy(w, Fail(q)) == [w.touched[r]] <==> Failing(w.e) == Some(w.touched[r])
  {
    if Failing(w.e).Some? { assert [Failing(w.e).m][0] == Failing(w.e).m; }
  }

  function Steps(w: World, acts: seq<Action>, n: nat): World
    requires n <= |acts|
  {
    if n == 0 then w else Step(Steps(w, acts, n - 1), acts[n - 1])
  }

  lemma {:induction false} Unroll(w: World, acts: seq<Action>, n: nat)
    requires n <= |acts|
    ensures Run(w, acts) == Run(Steps(w, acts, n), acts[n..])
    decreases n
  {
    if n > 0 {
      Unroll(w, acts, n - 1);
      assert acts[n - 1..][1..] == acts[n..];
    } else {
      assert acts[0..] == acts;
    }
  }

  lemma {:induction false} All(w: World, acts: seq<Action>)
    ensures Run(w, acts) == Steps(w, acts, |acts|)
  {
    Unroll(w, acts, |acts|);
  }

  /** The second of two overlapping starts makes the first forget its machine. */
  const OVERLAP: seq<Action> := [Begin(0), Touch(0, "m"), Count(0, "m"), Begin(1), Finish(0), Fail(1), Stop(0)]

  lemma {:induction false} OverlapBegins()
    ensures Steps(EMPTY, OVERLAP, 4)
            == World(Elice(map["m" := 1], {}, {}, None, None), {0, 1}, map[], map[0 := "m"], map[], [])
  {
    var w := Step(Step(EMPTY, Begin(0)), Touch(0, "m"));
    assert w == World(Elice(map[], {}, {}, Some("m"), None), {0}, map[], map[], map[0 := "m"], []);
    var v := Step(w, Count(0, "m"));
    assert v == World(Elice(map["m" := 1], {}, {}, Some("m"), Some("m")), {0}, map[], map[0 := "m"], map[], []);
    assert Step(v, Begin(1)).underWay == {0, 1};
    assert Steps(EMPTY, OVERLAP, 2) == w && Steps(EMPTY, OVERLAP, 3) == v;
  }

  lemma {:induction false} OverlapEnds(w: World)
    requires w == World(Elice(map["m" := 1], {}, {}, None, None), {0, 1}, map[], map[0 := "m"], map[], [])
    ensures var v := Step(Step(Step(w, Finish(0)), Fail(1)), Stop(0));
            v.on == map[] && v.external == map[] && v.underWay == {} && Holders(v.e, "m") == 1 && v.ended == []
  {
    var v := Step(w, Finish(0));
    assert v.external == map[0 := None] && v.underWay == {1} && v.e == w.e;
    var x := Step(v, Fail(1));
    assert x.underWay == {} && x.e == w.e && x.ended == [];
  }

  /** Afterwards nothing runs, yet the machine is counted as held and was never ended. */
  lemma {:induction false} OverlapLeaks()
    ensures var w := Run(EMPTY, OVERLAP);
            w.on == map[] && w.external == map[] && w.underWay == {} && Holders(w.e, "m") == 1 && w.ended == []
  {
    OverlapBegins();
    OverlapEnds(Steps(EMPTY, OVERLAP, 4));
    Unroll(EMPTY, OVERLAP, 4);
    Unroll(Steps(EMPTY, OVERLAP, 4), [Finish(0), Fail(1), Stop(0)], 3);
    assert OVERLAP[4..] == [Finish(0), Fail(1), Stop(0)];
  }

  /** Two starts counted on two machines, the second one last. */
  const CROSSED: seq<Action> := [Begin(0), Begin(1), Count(0, "m"), Count(1, "n")]

  lemma {:induction false} CrossedIs()
    ensures Run(EMPTY, CROSSED)
            == World(Elice(map["m" := 1, "n" := 1], {}, {}, None, Some("n")), {0, 1}, map[], map[0 := "m", 1 := "n"], map[], [])
  {
    All(EMPTY, CROSSED);
    var w := Step(EMPTY, Begin(0));
    assert w == World(Elice(map[], {}, {}, None, None), {0}, map[], map[], map[], []);
    var x := Step(w, Begin(1));
    assert x == World(Elice(map[], {}, {}, None, None), {0, 1}, map[], map[], map[], []);
    var y := Step(x, Count(0, "m"));
    assert y == World(Elice(map["m" := 1], {}, {}, None, Some("m")), {0, 1}, map[], map[0 := "m"], map[], []);
    assert Steps(EMPTY, CROSSED, 1) == w && Steps(EMPTY, CROSSED, 2) == x && Steps(EMPTY, CROSSED, 3) == y;
  }

  /** Nobody began after start 0 was counted, yet it is handed the other's machine, and stopping it ends that one. */
  lemma {:induction false} WrongMachine()
    ensures var w := Step(Run(EMPTY, CROSSED), Finish(0));
            && w.on[0] == "m" && w.external[0] == Some("n")
            && Step(w, Stop(0)).ended == ["n"] && 1 in Step(w, Stop(0)).on && Step(w, Stop(0)).on[1] == "n"
  {
    CrossedIs();
    assert "m"[0] != "n"[0];
  }

  /** When start 0 fails there instead, it ends the machine of start 1 and leaves its own counted. */
  lemma {:induction false} WrongMachineEnds()
    ensures var w := Step(Run(EMPTY, CROSSED), Fail(0));
            w.ended == ["n"] && Holders(w.e, "m") == 1 && w.on == map[1 := "n"]
  {
    CrossedIs();
  }

  /** A failing start that was counted nowhere ends the machine another start is on. */
  const OTHERS: seq<Action> := [Begin(0), Begin(1), Count(0, "m"), Fail(1)]

  lemma {:induction false} OthersMachineEnds()
    ensures var w := Run(EMPTY, OTHERS);
            w.ended == ["m"] && Holders(w.e, "m") == 0 && 0 in w.underWay && 0 in w.on && w.on[0] == "m"
  {
    All(EMPTY, OTHERS);
    var x := Step(Step(EMPTY, Begin(0)), Begin(1));
    assert x == World(Elice(map[], {}, {}, None, None), {0, 1}, map[], map[], map[], []);
    var y := Step(x, Count(0, "m"));
    assert y == World(Elice(map["m" := 1], {}, {}, None, Some("m")), {0, 1}, map[], map[0 := "m"], map[], []);
    assert Steps(EMPTY, OTHERS, 2) == x && Steps(EMPTY, OTHERS, 3) == y;
  }

  /** A failing start that touched nothing ends the machine another start is launching. */
  const LAUNCHING: seq<Action> := [Begin(0), Begin(1), Touch(1, "n"), Fail(0)]

  lemma {:induction false} LaunchingMachineEnds()
    ensures var w := Run(EMPTY, LAUNCHING); w.ended == ["n"] && 1 in w.underWay && 1 in w.touched && w.touched[1] == "n"
  {
    All(EMPTY, LAUNCHING);
    var x := Step(Step(EMPTY, Begin(0)), Begin(1));
    assert x == World(Elice(map[], {}, {}, None, None), {0, 1}, map[], map[], map[], []);
    assert Steps(EMPTY, LAUNCHING, 2) == x && Steps(EMPTY, LAUNCHING, 3) == Step(x, Touch(1, "n"));
  }

  /** Two overlapping starts that share one machine are both right. */
  const SHARED: seq<Action> := [Begin(0), Touch(0, "m"), Count(0, "m"), Begin(1), Count(1, "m"), Finish(0)]

  lemma {:induction false} SharedMachine()
    ensures var w := Run(EMPTY, SHARED); w.external == map[0 := Some("m")] && Holders(w.e, "m") == 2
  {
    All(EMPTY, SHARED);
    OverlapBegins();
    var w := Steps(EMPTY, OVERLAP, 4);
    assert Steps(EMPTY, SHARED, 4) == w by {
      assert forall k | 0 <= k < 4 :: SHARED[k] == OVERLAP[k];
      SamePrefix(EMPTY, SHARED, OVERLAP, 4);
    }
    var x := Step(w, Count(1, "m"));
    assert x.e == Elice(map["m" := 2], {}, {}, None, Some("m"));
    assert Steps(EMPTY, SHARED, 5) == x;
  }

  lemma {:induction false} SamePrefix(w: World, a: seq<Action>, b: seq<Action>, n: nat)
    requires n <= |a| && n <= |b| && forall k | 0 <= k < n :: a[k] == b[k]
    ensures Steps(w, a, n) == Steps(w, b, n)
  {
    if n > 0 { SamePrefix(w, a, b, n - 1); }
  }

  // ---------------------------------------------------------------- each table by itself

  /** Only the count of `m` may differ. */
  ghost predicate OthersCounted(e: Elice, f: Elice, m: Machine) {
    forall x | x != m :: Holders(f, x) == Holders(e, x)
  }

  /** A session counted on a machine: one more there, and the machine runs and was not taken back. */
  lemma {:induction false} CountedExact(e: Elice, m: Machine)
    ensures var f := AfterCount(e, m);
            && Holders(f, m) == Holders(e, m) + 1 && OthersCounted(e, f, m)
            && f.pending == Some(m) && f.starting == e.starting
            && f.stopped == e.stopped - {m} && f.preempted == e.preempted - {m}
  {
  }

  /** A runtime stopped: one fewer on its machine, which ends with its last one unless it was taken back. */
  lemma {:induction false} StoppedExact(e: Elice, m: Machine)
    ensures AfterStop(e, None) == Effect(e, false)
    ensures var r := AfterStop(e, Some(m)); var f := r.e;
            && Holders(f, m) == (if Holders(e, m) == 0 then 0 else Holders(e, m) - 1) && OthersCounted(e, f, m)
            && (r.ends <==> Holders(e, m) <= 1 && m !in e.preempted)
            && f.stopped == e.stopped + (if r.ends then {m} else {})
            && f.preempted == e.preempted && f.pending == e.pending && f.starting == e.starting
  {
  }

  /**
    A start failed: the machine it counted on loses a count and ends when none is left; one it only launched
    or started ends when nobody is counted there; with neither nothing ends.
  */
  lemma {:induction false} FailedExact(e: Elice, m: Machine)
    ensures e.pending.None? && e.starting.None? ==> AfterFailedStart(e) == Effect(e, false)
    ensures e.pending == Some(m) ==>
              var r := AfterFailedStart(e);
              && Holders(r.e, m) == (if Holders(e, m) == 0 then 0 else Holders(e, m) - 1) && OthersCounted(e, r.e, m)
              && (r.ends <==> Holders(e, m) <= 1) && r.e.stopped == e.stopped + (if r.ends then {m} else {})
    ensures e.pending.None? && e.starting == Some(m) ==>
              var r := AfterFailedStart(e);
              r.e.holders == e.holders && (r.ends <==> Holders(e, m) == 0) && r.e.stopped == e.stopped + (if r.ends then {m} else {})
    ensures var f := AfterFailedStart(e).e; f.starting.None? && f.pending == e.pending && f.preempted == e.preempted
    ensures Failing(e) == if e.pending.Some? then e.pending else e.starting
  {
  }

  /** What a start does on its way: nothing is counted, and nobody else's start is touched. */
  lemma {:induction false} StartExact(w: World, r: nat, m: Machine)
    requires r !in w.underWay && r !in w.external && r !in w.on
    ensures var b := Step(w, Begin(r)); var t := Step(b, Touch(r, m)); var n := Step(t, Refuse(r));
            && b.e == w.e.(starting := None, pending := None) && b.underWay == w.underWay + {r}
            && t.e == b.e.(starting := Some(m)) && r in t.touched && t.touched[r] == m
            && n.e == b.e && r !in n.touched
            && b.on == t.on == n.on == w.on && b.ended == t.ended == n.ended == w.ended && n.external == w.external
  {
  }

  /** How it ends: what is handed out, who is counted no more, and what Elice took back. */
  lemma {:induction false} EndExact(w: World, a: Action)
    requires Enabled(w, a) && (a.Finish? || a.Fail? || a.Stop? || a.Preempt?)
    ensures var v := Step(w, a);
            && v.underWay == (if a.Finish? || a.Fail? then w.underWay - {a.r} else w.underWay)
            && v.external == (if a.Finish? then w.external[a.r := w.e.pending] else if a.Stop? then w.external - {a.r} else w.external)
            && v.on == (if a.Fail? || a.Stop? then w.on - {a.r} else w.on)
            && (a.Finish? ==> v.e == w.e.(starting := None) && v.ended == w.ended)
            && (a.Preempt? ==> v.e == w.e.(preempted := w.e.preempted + {a.m}) && v.ended == w.ended && v.touched == w.touched)
            && |w.ended| <= |v.ended| <= |w.ended| + 1 && v.ended[..|w.ended|] == w.ended
  {
  }

  // ---------------------------------------------------------------- the provider object

  class Provider {
    var holders: map<Machine, nat>
    var stopped: set<Machine>
    var preempted: set<Machine>
    var starting: Maybe
    var pending: Maybe

    constructor ()
      ensures State() == EMPTY.e
    {
      holders, stopped, preempted, starting, pending := map[], {}, {}, None, None;
    }

    ghost function State(): Elice
      reads this
    {
      Elice(holders, stopped, preempted, starting, pending)
    }

    /** `_end_machine`: what it asks of Elice may fail, and nothing here depends on it. */
    method EndMachine(m: Machine)
      modifies this`stopped
      ensures State() == Ended(old(State()), m)
    {
      stopped := stopped + {m};
    }

    /** The last lines of `create_session`. */
    method Counted(m: Machine)
      modifies this
      ensures State() == AfterCount(old(State()), m)
      ensures pending == Some(m) && starting == old(starting) && stopped == old(stopped) - {m} && preempted == old(preempted) - {m}
      ensures holders == old(holders)[m := 1 + if m in old(holders) then old(holders)[m] else 0]
    {
      pending := Some(m);
      holders := holders[m := (if m in holders then holders[m] else 0) + 1];
      stopped := stopped - {m};
      preempted := preempted - {m};
    }

    method ReleaseFailedStart() returns (ended: Maybe)
      modifies this
      ensures State() == AfterFailedStart(old(State())).e
      ensures ended == if AfterFailedStart(old(State())).ends then Failing(old(State())) else None
    {
      var machine := if pending.Some? then pending else starting;
      starting := None;
      if machine.None? { return None; }
      var count := if machine.m in holders then holders[machine.m] else 0;
      if pending == machine {
        if count > 1 {
          holders := holders[machine.m := count - 1];
          return None;
        }
        holders := holders - {machine.m};
      } else if count > 0 {
        return None;
      }
      EndMachine(machine.m);
      ended := machine;
    }

    method Stop(external: Maybe) returns (ended: Maybe)
      modifies this
      ensures State() == AfterStop(old(State()), external).e
      ensures ended == if AfterStop(old(State()), external).ends then external else None
    {
      if external.None? { return None; }
      var m := external.m;
      var count := if m in holders then holders[m] else 0;
      if count > 1 {
        holders := holders[m := count - 1];
        return None;
      }
      holders := holders - {m};
      if m in preempted { return None; }
      EndMachine(m);
      ended := external;
    }

    /** `diagnose`: a spot machine this process did not end and Elice no longer runs was taken back. */
    method Diagnose(external: Maybe, spot: bool, running: bool) returns (taken: bool)
      modifies this`preempted
      ensures taken <==> external.Some? && external.m !in old(stopped) && spot && !running
      ensures preempted == old(preempted) + if taken then {external.m} else {}
    {
      if external.None? || external.m in stopped { return false; }
      if !spot || running { return false; }
      preempted := preempted + {external.m};
      taken := true;
    }
  }
}
