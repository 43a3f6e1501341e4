/**
  `session_cache`: a value built once per key by any number of threads, with a lock per key that
  is made on demand and dropped once the value is stored.

  An action is one section under `_GUARD`, or taking or leaving a key's lock. `_GUARD` is never
  held while a factory runs, so everything interleaves with it. Locks are numbered as they are
  made, and `made` records the key of each.
*/
module SessionCache {
  type Key = string
  type Value = int

  datatype Outcome = Got(value: Value) | Raised

  datatype Pc =
    | Away
    | Asking(k: Key)
    | Waiting(k: Key, l: nat)                      // has the key's lock object
    | Inside(k: Key, l: nat)                       // holds it, has not looked again
    | Building(k: Key, l: nat)                     // the factory runs
    | Built(k: Key, l: nat, v: Value)              // it returned
    | Leaving(k: Key, l: nat, outcome: Outcome)    // about to leave the lock
    | Over(k: Key, outcome: Outcome)

  datatype World = World(
    values: map<Key, Value>, building: map<Key, nat>, holder: map<nat, nat>, made: seq<Key>, threads: map<nat, Pc>)

  datatype Action =
    | Call(t: nat, k: Key) | Ask(t: nat) | Enter(t: nat) | Look(t: nat)
    | FactoryReturns(t: nat, v: Value) | FactoryRaises(t: nat) | Store(t: nat) | Leave(t: nat)

  function At(w: World, t: nat): Pc {
    if t in w.threads then w.threads[t] else Away
  }

  function To(w: World, t: nat, pc: Pc): World {
    w.(threads := w.threads[t := pc])
  }

  predicate Enabled(w: World, a: Action) {
    match a
    case Call(t, _) => At(w, t).Away? || At(w, t).Over?
    case Ask(t) => At(w, t).Asking?
    case Enter(t) => At(w, t).Waiting? && At(w, t).l !in w.holder
    case Look(t) => At(w, t).Inside?
    case FactoryReturns(t, _) => At(w, t).Building?
    case FactoryRaises(t) => At(w, t).Building?
    case Store(t) => At(w, t).Built?
    case Leave(t) => At(w, t).Leaving?
  }

  function AfterAsk(w: World, t: nat): World
    requires At(w, t).Asking?
  {
    var k := At(w, t).k;
    if k in w.values then To(w, t, Over(k, Got(w.values[k])))
    else if k in w.building then To(w, t, Waiting(k, w.building[k]))
    else To(w, t, Waiting(k, |w.made|)).(building := w.building[k := |w.made|], made := w.made + [k])
  }

  function Step(w: World, a: Action): World {
    if !Enabled(w, a) then w else
      match a
      case Call(t, k) => To(w, t, Asking(k))
      case Ask(t) => AfterAsk(w, t)
      case Enter(t) => To(w, t, Inside(At(w, t).k, At(w, t).l)).(holder := w.holder[At(w, t).l := t])
      case Look(t) =>
        var (k, l) := (At(w, t).k, At(w, t).l);
        To(w, t, if k in w.values then Leaving(k, l, Got(w.values[k])) else Building(k, l))
      case FactoryReturns(t, v) => To(w, t, Built(At(w, t).k, At(w, t).l, v))
      case FactoryRaises(t) => To(w, t, Leaving(At(w, t).k, At(w, t).l, Raised))
      case Store(t) =>
        To(w, t, Leaving(At(w, t).k, At(w, t).l, Got(At(w, t).v)))
          .(values := w.values[At(w, t).k := At(w, t).v], building := w.building - {At(w, t).k})
      case Leave(t) => To(w, t, Over(At(w, t).k, At(w, t).outcome)).(holder := w.holder - {At(w, t).l})
  }

  function Run(w: World, acts: seq<Action>): World
    decreases |acts|
  {
    if acts == [] then w else Run(Step(w, acts[0]), acts[1..])
  }

  const EMPTY: World := World(map[], map[], map[], [], map[])

  // ---------------------------------------------------------------- invariant

  predicate Holds(pc: Pc) {
    pc.Inside? || pc.Building? || pc.Built? || pc.Leaving?
  }

  /** The lock is the key's current one, or the key has its value. */
  predicate Current(w: World, k: Key, l: nat) {
    k in w.values || (k in w.building && w.building[k] == l)
  }

  predicate ThreadFits(w: World, t: nat, pc: Pc) {
    && (Holds(pc) ==> pc.l in w.holder && w.holder[pc.l] == t)
    && (Holds(pc) || pc.Waiting? ==> pc.l < |w.made| && w.made[pc.l] == pc.k)
    && match pc
       case Away => true
       case Asking(_) => true
       case Waiting(k, l) => Current(w, k, l)
       case Inside(k, l) => Current(w, k, l)
       case Building(k, l) => k !in w.values && Current(w, k, l)
       case Built(k, l, _) => k !in w.values && Current(w, k, l)
       case Leaving(k, _, outcome) => outcome.Got? ==> k in w.values && w.values[k] == outcome.value
       case Over(k, outcome) => outcome.Got? ==> k in w.values && w.values[k] == outcome.value
  }

  ghost predicate Inv(w: World) {
    && (forall t | t in w.threads :: ThreadFits(w, t, w.threads[t]))
    && (forall k | k in w.building :: w.building[k] < |w.made| && w.made[w.building[k]] == k && k !in w.values)
    && (forall l | l in w.holder :: w.holder[l] in w.threads && Holds(w.threads[w.holder[l]]) && w.threads[w.holder[l]].l == l)
  }

  /** Only this thread's place changes, and what it holds stays what it held. */
  lemma {:induction false} MoveInv(w: World, t: nat, pc: Pc)
    requires Inv(w) && ThreadFits(w, t, pc)
    requires Holds(pc) <==> Holds(At(w, t))
    requires Holds(pc) ==> pc.l == At(w, t).l
    ensures Inv(To(w, t, pc))
  {
    var v := To(w, t, pc);
    forall u | u in v.threads ensures ThreadFits(v, u, v.threads[u]) {
      if u != t { assert ThreadFits(w, u, w.threads[u]); } else { assert ThreadFits(w, t, pc); }
    }
  }

  lemma {:induction false} AskInv(w: World, t: nat)
    requires Inv(w) && At(w, t).Asking?
    ensures Inv(AfterAsk(w, t))
  {
    var k := At(w, t).k;
    if k in w.values || k in w.building {
      MoveInv(w, t, AfterAsk(w, t).threads[t]);
    } else {
      var v := AfterAsk(w, t);
      forall u | u in v.threads ensures ThreadFits(v, u, v.threads[u]) {
        if u != t { assert ThreadFits(w, u, w.threads[u]); }
      }
    }
  }

  lemma {:induction false} EnterInv(w: World, t: nat)
    requires Inv(w) && Enabled(w, Enter(t))
    ensures Inv(Step(w, Enter(t)))
  {
    var v := Step(w, Enter(t));
    assert ThreadFits(w, t, w.threads[t]);
    forall u | u in v.threads ensures ThreadFits(v, u, v.threads[u]) {
      if u != t { assert ThreadFits(w, u, w.threads[u]); }
    }
  }

  lemma {:induction false} StoreInv(w: World, t: nat)
    requires Inv(w) && Enabled(w, Store(t))
    ensures Inv(Step(w, Store(t)))
  {
    var v := Step(w, Store(t));
    assert ThreadFits(w, t, w.threads[t]);
    forall u | u in v.threads ensures ThreadFits(v, u, v.threads[u]) {
      if u != t { assert ThreadFits(w, u, w.threads[u]); }
    }
  }

  lemma {:induction false} LeaveInv(w: World, t: nat)
    requires Inv(w) && Enabled(w, Leave(t))
    ensures Inv(Step(w, Leave(t)))
  {
    var v := Step(w, Leave(t));
    assert ThreadFits(w, t, w.threads[t]);
    forall u | u in v.threads ensures ThreadFits(v, u, v.threads[u]) {
      if u != t { assert ThreadFits(w, u, w.threads[u]); }
    }
  }

  lemma {:induction false} StepInv(w: World, a: Action)
    requires Inv(w)
    ensures Inv(Step(w, a))
  {
    if Enabled(w, a) {
      assert a.t in w.threads ==> ThreadFits(w, a.t, w.threads[a.t]);
      match a
      case Call(t, k) => MoveInv(w, t, Asking(k));
      case Ask(t) => AskInv(w, t);
      case Enter(t) => EnterInv(w, t);
      case Look(t) => MoveInv(w, t, Step(w, a).threads[t]);
      case FactoryReturns(t, v) => MoveInv(w, t, Step(w, a).threads[t]);
      case FactoryRaises(t) => MoveInv(w, t, Step(w, a).threads[t]);
      case Store(t) => StoreInv(w, t);
      case Leave(t) => LeaveInv(w, t);
    }
  }

  lemma {:induction false} RunInv(w: World, acts: seq<Action>)
    requires Inv(w)
    ensures Inv(Run(w, acts))
    decreases |acts|
  {
    if acts != [] {
      StepInv(w, acts[0]);
      RunInv(Step(w, acts[0]), acts[1..]);
    }
  }

  // ---------------------------------------------------------------- what callers see

  /** From the factory's start to the store of its value. */
  predicate Works(pc: Pc) {
    pc.Building? || pc.Built?
  }

  /** Two threads never run a factory for one key at the same time. */
  lemma {:induction false} FactoriesApart(acts: seq<Action>, t: nat, u: nat)
    requires t != u
    ensures var w := Run(EMPTY, acts);
            !(Works(At(w, t)) && Works(At(w, u)) && At(w, t).k == At(w, u).k)
  {
    RunInv(EMPTY, acts);
    var w := Run(EMPTY, acts);
    if t in w.threads && u in w.threads {
      assert ThreadFits(w, t, w.threads[t]) && ThreadFits(w, u, w.threads[u]);
    }
  }

  /** Every caller that returns has the stored value. */
  lemma {:induction false} OneValue(acts: seq<Action>, t: nat)
    ensures var w := Run(EMPTY, acts);
            At(w, t).Over? && At(w, t).outcome.Got? ==> At(w, t).k in w.values && At(w, t).outcome.value == w.values[At(w, t).k]
  {
    RunInv(EMPTY, acts);
    var w := Run(EMPTY, acts);
    if t in w.threads { assert ThreadFits(w, t, w.threads[t]); }
  }

  /**
    In every run, a call for a key that has its value returns it without the key's lock; one that found
    none waits for the lock, and once it is inside returns the value if there is one by then, and
    otherwise runs the factory.
  */
  lemma {:induction false} FoundIsReturned(acts: seq<Action>, t: nat, k: Key)
    ensures var w := Run(EMPTY, acts);
            At(w, t) == Asking(k) ==>
              && (k in w.values ==> Step(w, Ask(t)) == w.(threads := w.threads[t := Over(k, Got(w.values[k]))]))
              && (k !in w.values ==> var v := Step(w, Ask(t)); At(v, t).Waiting? && At(v, t).k == k && v.values == w.values)
    ensures var w := Run(EMPTY, acts);
            At(w, t).Inside? && At(w, t).k == k ==>
              var l := At(w, t).l;
              At(Step(w, Look(t)), t) == (if k in w.values then Leaving(k, l, Got(w.values[k])) else Building(k, l))
  {
  }

  lemma {:induction false} BuildingFits(acts: seq<Action>, t: nat)
    requires At(Run(EMPTY, acts), t).Building?
    ensures At(Run(EMPTY, acts), t).k !in Run(EMPTY, acts).values
  {
    RunInv(EMPTY, acts);
    assert ThreadFits(Run(EMPTY, acts), t, Run(EMPTY, acts).threads[t]);
  }

  lemma {:induction false} Returns(w: World, t: nat, v: Value)
    requires At(w, t).Building?
    ensures var k := At(w, t).k; var x := Step(Step(Step(w, FactoryReturns(t, v)), Store(t)), Leave(t));
            x.values == w.values[k := v] && At(x, t) == Over(k, Got(v)) && k !in x.building
  {
    var a := Step(w, FactoryReturns(t, v));
    assert At(a, t) == Built(At(w, t).k, At(w, t).l, v);
    var b := Step(a, Store(t));
    assert At(b, t) == Leaving(At(w, t).k, At(w, t).l, Got(v));
  }

  lemma {:induction false} Raises(w: World, t: nat)
    requires At(w, t).Building?
    ensures var x := Step(Step(w, FactoryRaises(t)), Leave(t)); x.values == w.values && At(x, t) == Over(At(w, t).k, Raised)
  {
    assert At(Step(w, FactoryRaises(t)), t) == Leaving(At(w, t).k, At(w, t).l, Raised);
  }

  /**
    What the factory returns is what the caller gets, and what the key has from then on; one that raises
    makes its caller raise, and the key has what it had, which is nothing.
  */
  lemma {:induction false} BuiltIsReturned(acts: seq<Action>, t: nat, v: Value)
    requires At(Run(EMPTY, acts), t).Building?
    ensures var w := Run(EMPTY, acts); var k := At(w, t).k;
            var x := Step(Step(Step(w, FactoryReturns(t, v)), Store(t)), Leave(t));
            k !in w.values && x.values == w.values[k := v] && At(x, t) == Over(k, Got(v)) && k !in x.building
    ensures var w := Run(EMPTY, acts);
            var x := Step(Step(w, FactoryRaises(t)), Leave(t)); x.values == w.values && At(x, t) == Over(At(w, t).k, Raised)
  {
    BuildingFits(acts, t);
    Returns(Run(EMPTY, acts), t, v);
    Raises(Run(EMPTY, acts), t);
  }

  lemma {:induction false} ValueStays(w: World, acts: seq<Action>, k: Key)
    requires Inv(w) && k in w.values
    ensures k in Run(w, acts).values && Run(w, acts).values[k] == w.values[k]
    decreases |acts|
  {
    if acts != [] {
      var v := Step(w, acts[0]);
      if acts[0].Store? && Enabled(w, acts[0]) { assert ThreadFits(w, acts[0].t, w.threads[acts[0].t]); }
      StepInv(w, acts[0]);
      ValueStays(v, acts[1..], k);
    }
  }

  /** How many factories of the key have returned. */
  ghost function Successes(w: World, acts: seq<Action>, k: Key): nat
    decreases |acts|
  {
    if acts == [] then 0
    else
      (if acts[0].FactoryReturns? && Enabled(w, acts[0]) && At(w, acts[0].t).k == k then 1 else 0)
      + Successes(Step(w, acts[0]), acts[1..], k)
  }

  /** The key is past the point where a factory may run: it has a value, or a factory that returned one. */
  ghost predicate Settled(w: World, k: Key) {
    k in w.values || exists t :: t in w.threads && w.threads[t].Built? && w.threads[t].k == k
  }

  lemma {:induction false} SettledStays(w: World, a: Action, k: Key)
    requires Inv(w) && Settled(w, k)
    ensures Settled(Step(w, a), k)
    ensures !(a.FactoryReturns? && Enabled(w, a) && At(w, a.t).k == k)
  {
    if Enabled(w, a) {
      if a.t in w.threads { assert ThreadFits(w, a.t, w.threads[a.t]); }
      if k !in w.values {
        var t :| t in w.threads && w.threads[t].Built? && w.threads[t].k == k;
        BuiltStays(w, a, t);
      }
    }
  }

  /** A built value waits for its own thread to store it, and no other factory returns for its key. */
  lemma {:induction false} BuiltStays(w: World, a: Action, t: nat)
    requires Inv(w) && Enabled(w, a) && t in w.threads && w.threads[t].Built?
    ensures Settled(Step(w, a), w.threads[t].k)
    ensures !(a.FactoryReturns? && At(w, a.t).k == w.threads[t].k)
  {
    assert ThreadFits(w, t, w.threads[t]);
    if a.t in w.threads { assert ThreadFits(w, a.t, w.threads[a.t]); }
    if a.t != t { assert Step(w, a).threads[t] == w.threads[t]; }
  }

  lemma {:induction false} NoneAfterSettled(w: World, acts: seq<Action>, k: Key)
    requires Inv(w) && Settled(w, k)
    ensures Successes(w, acts, k) == 0
    decreases |acts|
  {
    if acts != [] {
      SettledStays(w, acts[0], k);
      StepInv(w, acts[0]);
      NoneAfterSettled(Step(w, acts[0]), acts[1..], k);
    }
  }

  lemma {:induction false} AtMostOneFrom(w: World, acts: seq<Action>, k: Key)
    requires Inv(w)
    ensures Successes(w, acts, k) <= 1
    decreases |acts|
  {
    if acts != [] {
      var v := Step(w, acts[0]);
      StepInv(w, acts[0]);
      if acts[0].FactoryReturns? && Enabled(w, acts[0]) && At(w, acts[0].t).k == k {
        assert v.threads[acts[0].t].Built? && v.threads[acts[0].t].k == k;
        NoneAfterSettled(v, acts[1..], k);
      } else {
        AtMostOneFrom(v, acts[1..], k);
      }
    }
  }

  /** However many threads ask and however many factories fail, at most one succeeds per key. */
  lemma {:induction false} BuiltOnce(acts: seq<Action>, k: Key)
    ensures Successes(EMPTY, acts, k) <= 1
  {
    AtMostOneFrom(EMPTY, acts, k);
  }

  /** Nobody is inside the key's lock. */
  ghost predicate Unlocked(w: World, k: Key) {
    forall t | t in w.threads && Holds(w.threads[t]) :: w.threads[t].k != k
  }

  lemma {:induction false} HeldForKey(w: World, l: nat)
    requires Inv(w) && l in w.holder
    ensures l < |w.made| && !Unlocked(w, w.made[l])
  {
    assert ThreadFits(w, w.holder[l], w.threads[w.holder[l]]);
  }

  /** A caller that finds no value and nobody inside the lock gets a lock that is free. */
  lemma {:induction false} LockFree(w: World, t: nat)
    requires Inv(w) && At(w, t).Asking? && At(w, t).k !in w.values && Unlocked(w, At(w, t).k)
    ensures var v := AfterAsk(w, t); At(v, t).Waiting? && At(v, t).k == At(w, t).k && At(v, t).l !in v.holder
  {
    var l := At(AfterAsk(w, t), t).l;
    if l in w.holder { HeldForKey(w, l); }
  }

  lemma {:induction false} EntersAndBuilds(w: World, t: nat)
    requires At(w, t).Waiting? && At(w, t).l !in w.holder && At(w, t).k !in w.values
    ensures At(Step(Step(w, Enter(t)), Look(t)), t) == Building(At(w, t).k, At(w, t).l)
  {
    var v := Step(w, Enter(t));
    assert At(v, t) == Inside(At(w, t).k, At(w, t).l);
  }

  /** A key without a value can be built by the next caller, once whoever failed at it has left the lock. */
  lemma {:induction false} StillBuildable(acts: seq<Action>, k: Key, t: nat)
    requires var w := Run(EMPTY, acts); k !in w.values && Unlocked(w, k) && (At(w, t).Away? || At(w, t).Over?)
    ensures var w := Run(EMPTY, acts);
            var v := Step(Step(Step(Step(w, Call(t, k)), Ask(t)), Enter(t)), Look(t));
            At(v, t).Building? && At(v, t).k == k
  {
    RunInv(EMPTY, acts);
    var w := Run(EMPTY, acts);
    StepInv(w, Call(t, k));
    var v := To(w, t, Asking(k));
    assert Step(w, Call(t, k)) == v;
    LockFree(v, t);
    assert Step(v, Ask(t)) == AfterAsk(v, t) && AfterAsk(v, t).values == w.values;
    EntersAndBuilds(AfterAsk(v, t), t);
  }
}
