/**
  The runtime pool: which sessions are kept, who is using them and who gives their devices back.

  An activity is one thread of control: a call, a `keep_alive` block closing, or `shutdown`. Its
  `Pc` stands in a gap between two critical sections of the pool's guard or the provider's lock,
  and an action runs one section. Any number of activities interleave. A session is identified
  with the grant of devices it was started on. `owner`, `where`, `ledger` and `open` are history:
  who was handed a session, who answers for a grant, which grants are out and which holds are open.
*/
module Pool {
  import D = Devices

  datatype Spec = Spec(key: string, slot: D.Slot, devices: nat)
  datatype Session = Session(key: string, grant: D.Grant)

  datatype Got = Runs(r: nat) | Nothing | Raised

  datatype Pc =
    | Away
    | Scanning(spec: Spec)                  // acquire, about to look for an idle session
    | Missed(spec: Spec)                    // none was idle
    | Reserving(spec: Spec)                 // counted as starting
    | Starting(spec: Spec, g: nat)          // devices taken
    | Failed(spec: Spec, g: nat)            // the start raised
    | Counted(spec: Spec, got: Got)         // about to leave the count of starts
    | Looking(spec: Spec)                   // nothing could be reserved
    | Waiting(spec: Spec)
    | Using(r: nat)
    | Released(r: nat)                      // released with no hold open, about to discard
    | Closing                               // dropped the last hold, about to list idle sessions
    | Sweeping(rest: seq<nat>)              // idle sessions still to discard
    | Returning(r: nat, rest: seq<nat>)     // out of the bucket, devices not yet given back
    | Ending(r: nat, rest: seq<nat>)        // shutting the session down
    | Dropping(rest: seq<nat>)              // shutdown, sessions still to give back

  datatype Place = Bucket | With(a: nat)

  datatype Registry = Registry(sessions: map<nat, Session>, registered: set<nat>, busy: set<nat>, owner: map<nat, nat>)
  datatype Stock = Stock(account: D.Account, ledger: D.Ledger, where: map<nat, Place>, next: nat)
  datatype World = World(reg: Registry, stock: Stock, acts: map<nat, Pc>, depth: nat, open: set<nat>, starting: multiset<D.Slot>)

  datatype Action =
    | Hold(token: nat) | Unhold(a: nat, token: nat)
    | Begin(a: nat, spec: Spec) | Take(a: nat, r: nat) | Miss(a: nat) | Count(a: nat)
    | Reserve(a: nat, inUse: set<nat>) | StartOk(a: nat) | StartFails(a: nat) | Unreserve(a: nat) | Uncount(a: nat)
    | Look(a: nat) | Wake(a: nat)
    | Release(a: nat) | Discard(a: nat) | TryDiscard(a: nat)
    | ListIdle(a: nat, order: seq<nat>) | Sweep(a: nat) | GiveBack(a: nat) | End(a: nat)
    | Shutdown(a: nat, order: seq<nat>) | Drop(a: nat)

  function At(w: World, a: nat): Pc {
    if a in w.acts then w.acts[a] else Away
  }

  function To(w: World, a: nat, pc: Pc): World {
    w.(acts := w.acts[a := pc])
  }

  predicate IdleMatch(w: World, r: nat, key: string) {
    r in w.reg.registered && r !in w.reg.busy && r in w.reg.sessions && w.reg.sessions[r].key == key
  }

  predicate NoIdle(w: World, key: string) {
    forall r | r in w.reg.registered :: !IdleMatch(w, r, key)
  }

  /** `order` names each member of `s` once. */
  ghost predicate Lists(order: seq<nat>, s: set<nat>) {
    D.NoDup(order) && forall r :: r in order <==> r in s
  }

  ghost predicate Enabled(w: World, act: Action) {
    match act
    case Hold(token) => token !in w.open
    case Unhold(a, token) => At(w, a).Away? && token in w.open
    case Begin(a, _) => At(w, a).Away?
    case Take(a, r) => At(w, a).Scanning? && IdleMatch(w, r, At(w, a).spec.key)
    case Miss(a) => At(w, a).Scanning? && NoIdle(w, At(w, a).spec.key)
    case Count(a) => At(w, a).Missed?
    case Reserve(a, _) => At(w, a).Reserving?
    case StartOk(a) => At(w, a).Starting?
    case StartFails(a) => At(w, a).Starting?
    case Unreserve(a) => At(w, a).Failed?
    case Uncount(a) => At(w, a).Counted?
    case Look(a) => At(w, a).Looking?
    case Wake(a) => At(w, a).Waiting?
    case Release(a) => At(w, a).Using?
    case Discard(a) => At(w, a).Using?
    case TryDiscard(a) => At(w, a).Released?
    case ListIdle(a, order) => At(w, a).Closing? && Lists(order, w.reg.registered - w.reg.busy)
    case Sweep(a) => At(w, a).Sweeping?
    case GiveBack(a) => At(w, a).Returning?
    case End(a) => At(w, a).Ending?
    case Shutdown(a, order) => At(w, a).Away? && Lists(order, w.reg.registered)
    case Drop(a) => At(w, a).Dropping?
  }

  // ---------------------------------------------------------------- critical sections

  function AfterUnhold(w: World, a: nat, token: nat): World {
    var depth := if w.depth == 0 then 0 else w.depth - 1;
    To(w, a, if depth == 0 then Closing else Away).(depth := depth, open := w.open - {token})
  }

  function AfterTake(w: World, a: nat, r: nat): World {
    To(w, a, Using(r)).(reg := w.reg.(busy := w.reg.busy + {r}, owner := w.reg.owner[r := a]))
  }

  function AfterReserve(w: World, a: nat, inUse: set<nat>): World
    requires At(w, a).Reserving?
  {
    var spec := At(w, a).spec;
    if spec.slot !in w.stock.account.inventory then To(w, a, Counted(spec, Raised))
    else
      match D.Answer(w.stock.account, spec.slot, spec.devices, inUse)
      case Refused => To(w, a, Counted(spec, Nothing))
      case Granted(indices) => Grant(w, a, spec, indices, inUse)
  }

  function Grant(w: World, a: nat, spec: Spec, indices: seq<nat>, inUse: set<nat>): World
    requires spec.slot in w.stock.account.inventory
  {
    var g := D.Grant(w.stock.next, spec.slot, spec.devices, indices);
    To(w, a, Starting(spec, g.id)).(
      stock := Stock(D.AfterReserve(w.stock.account, spec.slot, spec.devices, inUse), w.stock.ledger + [g],
                     w.stock.where[g.id := With(a)], g.id + 1),
      reg := w.reg.(sessions := w.reg.sessions[g.id := Session(spec.key, g)]))
  }

  function AfterStartOk(w: World, a: nat): World
    requires At(w, a).Starting?
  {
    var g := At(w, a).g;
    To(w, a, Counted(At(w, a).spec, Runs(g))).(
      reg := Registry(w.reg.sessions, w.reg.registered + {g}, w.reg.busy + {g}, w.reg.owner[g := a]),
      stock := w.stock.(where := w.stock.where[g := Bucket]))
  }

  function Without(l: D.Ledger, g: nat): D.Ledger {
    if l == [] then [] else if l[0].id == g then l[1..] else [l[0]] + Without(l[1..], g)
  }

  /** `unreserve` with what the session holds. */
  function Returned(s: Stock, grant: D.Grant): Stock {
    Stock(D.AfterUnreserve(s.account, grant.slot, grant.indices, grant.devices), Without(s.ledger, grant.id),
          s.where - {grant.id}, s.next)
  }

  function GiveUp(w: World, g: nat): Stock {
    if g in w.reg.sessions then Returned(w.stock, w.reg.sessions[g].grant) else w.stock
  }

  function AfterUncount(w: World, a: nat): World
    requires At(w, a).Counted?
  {
    var pc := At(w, a);
    To(w, a, match pc.got
             case Runs(r) => Using(r)
             case Nothing => Looking(pc.spec)
             case Raised => Away)
      .(starting := w.starting - multiset{pc.spec.slot})
  }

  /** Why a start that found no devices waits or gives up. */
  datatype Verdict = Wait | NeverFits | IdleKept | OthersBusy

  function Declared(k: D.Kind): nat {
    match k
    case Indices(registered) => |registered|
    case Count(count) => count
  }

  predicate Holder(w: World, r: nat, slot: D.Slot) {
    r in w.reg.registered && r in w.reg.sessions && w.reg.sessions[r].grant.slot == slot
  }

  /** `_unallocatable`. */
  function Unallocatable(w: World, spec: Spec): Verdict {
    var inventory := w.stock.account.inventory;
    if spec.slot in inventory && Declared(inventory[spec.slot]) < spec.devices then NeverFits
    else if exists r | r in w.reg.registered :: Holder(w, r, spec.slot) && r in w.reg.busy then Wait
    else if w.starting[spec.slot] > 0 then Wait
    else if exists r | r in w.reg.registered :: Holder(w, r, spec.slot) then IdleKept
    else OthersBusy
  }

  /** A registered session holds devices of this slot; it may be asked for one that is in use. */
  ghost predicate HeldHere(w: World, slot: D.Slot, inUse: bool) {
    exists r | r in w.reg.registered :: r in w.reg.sessions && w.reg.sessions[r].grant.slot == slot && (inUse ==> r in w.reg.busy)
  }

  /**
    What a start that found no devices is told: that the slot never has as many; nothing, to wait, while a
    session there is in use or a start is under way; that idle sessions of other keys have them; or that
    somebody else has.
  */
  lemma {:induction false} VerdictExact(w: World, spec: Spec)
    ensures var v := Unallocatable(w, spec); var inventory := w.stock.account.inventory;
            var never := spec.slot in inventory
                         && (match inventory[spec.slot] case Indices(registered) => |registered| < spec.devices case Count(n) => n < spec.devices);
            var waits := HeldHere(w, spec.slot, true) || w.starting[spec.slot] > 0;
            && (v.NeverFits? <==> never) && (v.Wait? <==> !never && waits)
            && (v.IdleKept? <==> !never && !waits && HeldHere(w, spec.slot, false))
            && (v.OthersBusy? <==> !never && !waits && !HeldHere(w, spec.slot, false))
  {
    forall r | r in w.reg.registered
      ensures Holder(w, r, spec.slot) <==> r in w.reg.sessions && w.reg.sessions[r].grant.slot == spec.slot {}
  }

  function AfterLook(w: World, a: nat): World
    requires At(w, a).Looking?
  {
    var spec := At(w, a).spec;
    To(w, a, if !NoIdle(w, spec.key) then Scanning(spec)
             else if Unallocatable(w, spec).Wait? then Waiting(spec)
             else Away)
  }

  function AfterRelease(w: World, a: nat): World
    requires At(w, a).Using?
  {
    var r := At(w, a).r;
    To(w, a, if w.depth > 0 then Away else Released(r))
      .(reg := w.reg.(busy := w.reg.busy - {r}, owner := w.reg.owner - {r}))
  }

  /** The section of `discard` that takes the session out of its bucket. */
  function Removed(w: World, a: nat, r: nat, rest: seq<nat>): World {
    To(w, a, Returning(r, rest)).(
      reg := w.reg.(registered := w.reg.registered - {r}),
      stock := w.stock.(where := w.stock.where[r := With(a)]))
  }

  function AfterDiscard(w: World, a: nat): World
    requires At(w, a).Using?
  {
    var r := At(w, a).r;
    var v := w.(reg := w.reg.(owner := w.reg.owner - {r}));
    if r in w.reg.registered then Removed(v, a, r, []) else To(v, a, Ending(r, []))
  }

  /** A discard of idle sessions leaves this one alone. */
  predicate Spared(w: World, r: nat) {
    r in w.reg.busy || w.depth > 0 || r !in w.reg.registered
  }

  function AfterTryDiscard(w: World, a: nat): World
    requires At(w, a).Released?
  {
    var r := At(w, a).r;
    if Spared(w, r) then To(w, a, Away) else Removed(w, a, r, [])
  }

  function AfterSweep(w: World, a: nat): World
    requires At(w, a).Sweeping?
  {
    var rest := At(w, a).rest;
    if rest == [] then To(w, a, Away)
    else if Spared(w, rest[0]) then To(w, a, Sweeping(rest[1..]))
    else Removed(w, a, rest[0], rest[1..])
  }

  function AfterGiveBack(w: World, a: nat): World
    requires At(w, a).Returning?
  {
    To(w, a, Ending(At(w, a).r, At(w, a).rest)).(stock := GiveUp(w, At(w, a).r))
  }

  function AfterShutdown(w: World, a: nat, order: seq<nat>): World {
    To(w, a, Dropping(order)).(
      depth := 0,
      reg := w.reg.(registered := {}),
      stock := w.stock.(where := map g | g in w.stock.where :: if w.stock.where[g].Bucket? then With(a) else w.stock.where[g]))
  }

  function AfterDrop(w: World, a: nat): World
    requires At(w, a).Dropping?
  {
    var rest := At(w, a).rest;
    if rest == [] then To(w, a, Away) else To(w, a, Dropping(rest[1..])).(stock := GiveUp(w, rest[0]))
  }

  ghost function Step(w: World, act: Action): World {
    if !Enabled(w, act) then w else
      match act
      case Hold(token) => w.(depth := w.depth + 1, open := w.open + {token})
      case Unhold(a, token) => AfterUnhold(w, a, token)
      case Begin(a, spec) => To(w, a, Scanning(spec))
      case Take(a, r) => AfterTake(w, a, r)
      case Miss(a) => To(w, a, Missed(At(w, a).spec))
      case Count(a) => To(w, a, Reserving(At(w, a).spec)).(starting := w.starting + multiset{At(w, a).spec.slot})
      case Reserve(a, inUse) => AfterReserve(w, a, inUse)
      case StartOk(a) => AfterStartOk(w, a)
      case StartFails(a) => To(w, a, Failed(At(w, a).spec, At(w, a).g))
      case Unreserve(a) => To(w, a, Counted(At(w, a).spec, Raised)).(stock := GiveUp(w, At(w, a).g))
      case Uncount(a) => AfterUncount(w, a)
      case Look(a) => AfterLook(w, a)
      case Wake(a) => To(w, a, Scanning(At(w, a).spec))
      case Release(a) => AfterRelease(w, a)
      case Discard(a) => AfterDiscard(w, a)
      case TryDiscard(a) => AfterTryDiscard(w, a)
      case ListIdle(a, order) => To(w, a, Sweeping(order))
      case Sweep(a) => AfterSweep(w, a)
      case GiveBack(a) => AfterGiveBack(w, a)
      case End(a) => To(w, a, Sweeping(At(w, a).rest))
      case Shutdown(a, order) => AfterShutdown(w, a, order)
      case Drop(a) => AfterDrop(w, a)
  }

  ghost function Run(w: World, acts: seq<Action>): World
    decreases |acts|
  {
    if acts == [] then w else Run(Step(w, acts[0]), acts[1..])
  }

  function Initial(account: D.Account): World {
    World(Registry(map[], {}, {}, map[]), Stock(account, [], map[], 0), map[], 0, {}, multiset{})
  }

  // ---------------------------------------------------------------- devices are conserved

  /** The grants an activity must give back or hand on. */
  function Carries(pc: Pc): set<nat> {
    match pc
    case Starting(_, g) => {g}
    case Failed(_, g) => {g}
    case Returning(r, _) => {r}
    case Dropping(rest) => D.Elements(rest)
    case _ => {}
  }

  function Ids(l: D.Ledger): set<nat> {
    set k | 0 <= k < |l| :: l[k].id
  }

  ghost predicate Distinct(l: D.Ledger) {
    forall i, j :: 0 <= i < j < |l| ==> l[i].id != l[j].id
  }

  ghost predicate Entry(sessions: map<nat, Session>, grant: D.Grant) {
    grant.id in sessions && sessions[grant.id].grant == grant
  }

  /** The provider's tables are the grants that are out, and those are the grants someone answers for. */
  ghost predicate LedgerInv(sessions: map<nat, Session>, s: Stock) {
    && D.Matches(s.account, s.ledger) && Distinct(s.ledger) && Ids(s.ledger) == s.where.Keys
    && (forall k :: 0 <= k < |s.ledger| ==> Entry(sessions, s.ledger[k]))
    && (forall g | g in sessions :: g < s.next)
  }

  ghost predicate Placed(w: World, g: nat)
    requires g in w.stock.where
  {
    match w.stock.where[g]
    case Bucket => g in w.reg.registered
    case With(a) => a in w.acts && g in Carries(w.acts[a])
  }

  ghost predicate Carrier(w: World, a: nat)
    requires a in w.acts
  {
    && (forall g | g in Carries(w.acts[a]) :: g in w.stock.where && w.stock.where[g] == With(a))
    && (w.acts[a].Dropping? ==> D.NoDup(w.acts[a].rest))
  }

  /** A grant that is out is at exactly one place: in the pool, or with one activity. */
  ghost predicate PlaceInv(w: World) {
    && (forall g | g in w.stock.where :: Placed(w, g))
    && (forall r | r in w.reg.registered :: r in w.stock.where && w.stock.where[r] == Bucket)
    && (forall a | a in w.acts :: Carrier(w, a))
  }

  ghost predicate StockInv(w: World) {
    LedgerInv(w.reg.sessions, w.stock) && PlaceInv(w)
  }

  /** A change of one activity that carries the same grants before and after. */
  lemma {:induction false} QuietPlace(w: World, v: World, a: nat, pc: Pc)
    requires PlaceInv(w) && v.acts == w.acts[a := pc] && v.stock.where == w.stock.where && v.reg.registered == w.reg.registered
    requires Carries(At(w, a)) == Carries(pc) && !pc.Dropping?
    ensures PlaceInv(v)
  {
    forall g | g in v.stock.where ensures Placed(v, g) { assert Placed(w, g); }
    forall b | b in v.acts ensures Carrier(v, b) { if b in w.acts { assert Carrier(w, b); } }
  }

  /** One grant moves to the activity, which carried none. */
  lemma {:induction false} TakeOver(w: World, v: World, a: nat, g: nat, pc: Pc)
    requires PlaceInv(w) && v.acts == w.acts[a := pc] && v.stock.where == w.stock.where[g := With(a)]
    requires v.reg.registered == w.reg.registered - {g}
    requires Carries(At(w, a)) == {} && Carries(pc) == {g} && !pc.Dropping?
    requires g in w.stock.where ==> w.stock.where[g] == Bucket
    ensures PlaceInv(v)
  {
    forall h | h in v.stock.where ensures Placed(v, h) { if h != g { assert Placed(w, h); } }
    forall b | b in v.acts ensures Carrier(v, b) { if b in w.acts { assert Carrier(w, b); } }
  }

  /** The activity's only grant becomes a session of the pool. */
  lemma {:induction false} PutIn(w: World, v: World, a: nat, g: nat, pc: Pc)
    requires PlaceInv(w) && a in w.acts && v.acts == w.acts[a := pc] && v.stock.where == w.stock.where[g := Bucket]
    requires v.reg.registered == w.reg.registered + {g}
    requires Carries(w.acts[a]) == {g} && Carries(pc) == {} && !pc.Dropping?
    ensures PlaceInv(v)
  {
    assert Carrier(w, a);
    forall h | h in v.stock.where ensures Placed(v, h) { if h != g { assert Placed(w, h); } }
    forall b | b in v.acts ensures Carrier(v, b) { if b in w.acts { assert Carrier(w, b); } }
  }

  /** One of the activity's grants goes. */
  lemma {:induction false} LetGo(w: World, v: World, a: nat, g: nat, pc: Pc)
    requires PlaceInv(w) && a in w.acts && v.acts == w.acts[a := pc] && v.stock.where == w.stock.where - {g}
    requires v.reg.registered == w.reg.registered
    requires g in Carries(w.acts[a]) && Carries(pc) == Carries(w.acts[a]) - {g}
    requires pc.Dropping? ==> D.NoDup(pc.rest)
    ensures PlaceInv(v)
  {
    assert Carrier(w, a);
    forall h | h in v.stock.where ensures Placed(v, h) { assert Placed(w, h); }
    forall b | b in v.acts ensures Carrier(v, b) { if b in w.acts { assert Carrier(w, b); } }
  }

  lemma {:induction false} ShutdownPlace(w: World, a: nat, order: seq<nat>)
    requires PlaceInv(w) && At(w, a).Away? && Lists(order, w.reg.registered)
    ensures PlaceInv(AfterShutdown(w, a, order))
  {
    var v := AfterShutdown(w, a, order);
    forall g | g in v.stock.where ensures Placed(v, g) { assert Placed(w, g); }
    forall b | b in v.acts ensures Carrier(v, b) { if b in w.acts { assert Carrier(w, b); } }
  }

  /** Moving grants about keeps the ledger. */
  lemma {:induction false} SameLedger(sessions: map<nat, Session>, s: Stock, where: map<nat, Place>)
    requires LedgerInv(sessions, s) && where.Keys == s.where.Keys
    ensures LedgerInv(sessions, s.(where := where))
  {
  }

  lemma {:induction false} GrantLedger(w: World, a: nat, spec: Spec, indices: seq<nat>, inUse: set<nat>)
    requires LedgerInv(w.reg.sessions, w.stock) && spec.slot in w.stock.account.inventory
    requires D.Answer(w.stock.account, spec.slot, spec.devices, inUse) == D.Granted(indices)
    ensures var v := Grant(w, a, spec, indices, inUse); LedgerInv(v.reg.sessions, v.stock)
  {
    var v := Grant(w, a, spec, indices, inUse);
    var l, m := w.stock.ledger, v.stock.ledger;
    D.ReserveKeeps(w.stock.account, l, w.stock.next, spec.slot, spec.devices, inUse);
    forall k | 0 <= k < |m| ensures Entry(v.reg.sessions, m[k]) && (k < |l| ==> m[k].id < w.stock.next) {
      if k < |l| { assert Entry(w.reg.sessions, l[k]); }
    }
    forall g ensures g in Ids(m) <==> g in v.stock.where {
      if g in Ids(l) { var k :| 0 <= k < |l| && l[k].id == g; assert m[k].id == g; }
      if g == w.stock.next { assert m[|l|].id == g; }
      if g in Ids(m) { var k :| 0 <= k < |m| && m[k].id == g; assert k < |l| ==> l[k].id in Ids(l); }
    }
  }

  lemma {:induction false} WithoutMiddle(x: D.Ledger, g: D.Grant, y: D.Ledger)
    requires forall k | 0 <= k < |x| :: x[k].id != g.id
    ensures Without(x + [g] + y, g.id) == x + y
    decreases |x|
  {
    if x == [] {
      assert x + [g] + y == [g] + y;
    } else {
      WithoutMiddle(x[1..], g, y);
      assert (x + [g] + y)[1..] == x[1..] + [g] + y;
      assert x + y == [x[0]] + (x[1..] + y);
    }
  }

  lemma {:induction false} WithoutAt(l: D.Ledger, k: nat)
    requires k < |l| && Distinct(l)
    ensures Without(l, l[k].id) == l[..k] + l[k + 1..]
  {
    WithoutMiddle(l[..k], l[k], l[k + 1..]);
    assert l == l[..k] + [l[k]] + l[k + 1..];
  }

  lemma {:induction false} RemainingIds(l: D.Ledger, k: nat)
    requires k < |l| && Distinct(l)
    ensures Ids(l[..k] + l[k + 1..]) == Ids(l) - {l[k].id} && Distinct(l[..k] + l[k + 1..])
    ensures forall g | g in l[..k] + l[k + 1..] :: g in l
  {
    var m := l[..k] + l[k + 1..];
    forall j | 0 <= j < |m| ensures m[j] == l[if j < k then j else j + 1] {}
    forall g ensures g in Ids(m) <==> g in Ids(l) && g != l[k].id {
      if g in Ids(m) { var j :| 0 <= j < |m| && m[j].id == g; assert l[if j < k then j else j + 1].id == g; }
      if g in Ids(l) && g != l[k].id {
        var i :| 0 <= i < |l| && l[i].id == g;
        assert m[if i < k then i else i - 1].id == g;
      }
    }
  }

  /** A grant that is out is given back once: its devices return to the tables and it is no longer out. */
  lemma {:induction false} GiveUpLedger(w: World, g: nat)
    requires LedgerInv(w.reg.sessions, w.stock) && g in w.stock.where
    ensures var s := GiveUp(w, g);
            && LedgerInv(w.reg.sessions, s) && s.where == w.stock.where - {g} && g !in s.where
            && g in w.reg.sessions
            && s.account == D.AfterUnreserve(w.stock.account, w.reg.sessions[g].grant.slot,
                                             w.reg.sessions[g].grant.indices, w.reg.sessions[g].grant.devices)
  {
    var l := w.stock.ledger;
    assert g in Ids(l);
    var k :| 0 <= k < |l| && l[k].id == g;
    assert Entry(w.reg.sessions, l[k]);
    D.UnreserveKeeps(w.stock.account, l, k);
    WithoutAt(l, k);
    RemainingIds(l, k);
    var m := l[..k] + l[k + 1..];
    forall j | 0 <= j < |m| ensures Entry(w.reg.sessions, m[j]) {
      assert m[j] in l;
      var i :| 0 <= i < |l| && l[i] == m[j];
      assert Entry(w.reg.sessions, l[i]);
    }
  }

  lemma {:induction false} RemovedStock(w: World, a: nat, r: nat, rest: seq<nat>)
    requires StockInv(w) && Carries(At(w, a)) == {} && r in w.reg.registered
    ensures StockInv(Removed(w, a, r, rest))
  {
    var v := Removed(w, a, r, rest);
    TakeOver(w, v, a, r, Returning(r, rest));
    assert v.stock.where.Keys == w.stock.where.Keys;
    SameLedger(w.reg.sessions, w.stock, v.stock.where);
  }

  lemma {:induction false} GiveUpStock(w: World, v: World, a: nat, g: nat, pc: Pc)
    requires StockInv(w) && a in w.acts && g in Carries(w.acts[a]) && Carries(pc) == Carries(w.acts[a]) - {g}
    requires v.acts == w.acts[a := pc] && v.stock == GiveUp(w, g) && v.reg == w.reg
    requires pc.Dropping? ==> D.NoDup(pc.rest)
    ensures StockInv(v)
  {
    assert Carrier(w, a);
    GiveUpLedger(w, g);
    LetGo(w, v, a, g, pc);
  }

  lemma {:induction false} DropFirst(rest: seq<nat>)
    requires rest != [] && D.NoDup(rest)
    ensures D.Elements(rest[1..]) == D.Elements(rest) - {rest[0]} && D.NoDup(rest[1..]) && rest[0] in D.Elements(rest)
  {
    assert rest == [rest[0]] + rest[1..];
  }

  lemma {:induction false} DropStock(w: World, a: nat)
    requires StockInv(w) && At(w, a).Dropping?
    ensures StockInv(AfterDrop(w, a))
  {
    var rest := At(w, a).rest;
    assert Carrier(w, a);
    if rest == [] {
      QuietPlace(w, AfterDrop(w, a), a, Away);
    } else {
      DropFirst(rest);
      GiveUpStock(w, AfterDrop(w, a), a, rest[0], Dropping(rest[1..]));
    }
  }

  lemma {:induction false} GrantStock(w: World, a: nat, spec: Spec, indices: seq<nat>, inUse: set<nat>)
    requires StockInv(w) && At(w, a).Reserving? && spec.slot in w.stock.account.inventory
    requires D.Answer(w.stock.account, spec.slot, spec.devices, inUse) == D.Granted(indices)
    ensures StockInv(Grant(w, a, spec, indices, inUse))
  {
    var v := Grant(w, a, spec, indices, inUse);
    GrantLedger(w, a, spec, indices, inUse);
    NextUnused(w);
    assert v.reg.registered == w.reg.registered - {w.stock.next};
    TakeOver(w, v, a, w.stock.next, Starting(spec, w.stock.next));
  }

  /** The next grant number is not out. */
  lemma {:induction false} NextUnused(w: World)
    requires StockInv(w)
    ensures w.stock.next !in w.stock.where && w.stock.next !in w.reg.registered
  {
    var l := w.stock.ledger;
    forall k | 0 <= k < |l| ensures l[k].id < w.stock.next { assert Entry(w.reg.sessions, l[k]); }
    assert w.stock.next !in Ids(l);
  }

  lemma {:induction false} AcquireStock(w: World, act: Action)
    requires StockInv(w) && Enabled(w, act)
    requires act.Begin? || act.Take? || act.Miss? || act.Count? || act.Look? || act.Wake?
    ensures StockInv(Step(w, act))
  {
    var v := Step(w, act);
    QuietPlace(w, v, act.a, v.acts[act.a]);
  }

  lemma {:induction false} ReleaseStock(w: World, act: Action)
    requires StockInv(w) && Enabled(w, act)
    requires act.Uncount? || act.Unhold? || act.Release? || act.ListIdle? || act.End? || act.StartFails?
    ensures StockInv(Step(w, act))
  {
    var v := Step(w, act);
    QuietPlace(w, v, act.a, v.acts[act.a]);
  }

  lemma {:induction false} StartStock(w: World, act: Action)
    requires StockInv(w) && Enabled(w, act) && (act.Reserve? || act.StartOk? || act.Unreserve?)
    ensures StockInv(Step(w, act))
  {
    var a := act.a;
    var v := Step(w, act);
    if act.Reserve? {
      var spec := At(w, a).spec;
      if spec.slot in w.stock.account.inventory && D.Answer(w.stock.account, spec.slot, spec.devices, act.inUse).Granted? {
        GrantStock(w, a, spec, D.Answer(w.stock.account, spec.slot, spec.devices, act.inUse).indices, act.inUse);
      } else {
        QuietPlace(w, v, a, v.acts[a]);
      }
    } else if act.StartOk? {
      var g := At(w, a).g;
      assert Carrier(w, a);
      PutIn(w, v, a, g, v.acts[a]);
      SameLedger(w.reg.sessions, w.stock, v.stock.where);
    } else {
      GiveUpStock(w, v, a, At(w, a).g, v.acts[a]);
    }
  }

  lemma {:induction false} DiscardStock(w: World, a: nat)
    requires StockInv(w) && At(w, a).Using?
    ensures StockInv(AfterDiscard(w, a))
  {
    var u := w.(reg := w.reg.(owner := w.reg.owner - {At(w, a).r}));
    assert StockInv(u) by {
      forall g | g in u.stock.where ensures Placed(u, g) { assert Placed(w, g); }
      forall b | b in u.acts ensures Carrier(u, b) { assert Carrier(w, b); }
    }
    if At(w, a).r in w.reg.registered {
      RemovedStock(u, a, At(w, a).r, []);
    } else {
      QuietPlace(w, AfterDiscard(w, a), a, AfterDiscard(w, a).acts[a]);
    }
  }

  lemma {:induction false} TryDiscardStock(w: World, a: nat)
    requires StockInv(w) && At(w, a).Released?
    ensures StockInv(AfterTryDiscard(w, a))
  {
    if Spared(w, At(w, a).r) { QuietPlace(w, To(w, a, Away), a, Away); } else { RemovedStock(w, a, At(w, a).r, []); }
  }

  lemma {:induction false} SweepStock(w: World, a: nat)
    requires StockInv(w) && At(w, a).Sweeping?
    ensures StockInv(AfterSweep(w, a))
  {
    var rest := At(w, a).rest;
    if rest == [] || Spared(w, rest[0]) {
      QuietPlace(w, AfterSweep(w, a), a, AfterSweep(w, a).acts[a]);
    } else {
      RemovedStock(w, a, rest[0], rest[1..]);
    }
  }

  lemma {:induction false} GiveBackStock(w: World, a: nat)
    requires StockInv(w) && At(w, a).Returning?
    ensures StockInv(AfterGiveBack(w, a))
  {
    GiveUpStock(w, AfterGiveBack(w, a), a, At(w, a).r, Ending(At(w, a).r, At(w, a).rest));
  }

  lemma {:induction false} StepStock(w: World, act: Action)
    requires StockInv(w)
    ensures StockInv(Step(w, act))
  {
    if !Enabled(w, act) {
    } else if act.Hold? {
      HoldStock(w, act);
    } else if act.Reserve? || act.StartOk? || act.Unreserve? {
      StartStock(w, act);
    } else if act.Discard? {
      DiscardStock(w, act.a);
    } else if act.TryDiscard? {
      TryDiscardStock(w, act.a);
    } else if act.Sweep? {
      SweepStock(w, act.a);
    } else if act.GiveBack? {
      GiveBackStock(w, act.a);
    } else if act.Shutdown? {
      ShutdownPlace(w, act.a, act.order);
      SameLedger(w.reg.sessions, w.stock, AfterShutdown(w, act.a, act.order).stock.where);
    } else if act.Drop? {
      DropStock(w, act.a);
    } else if act.Uncount? || act.Unhold? || act.Release? || act.ListIdle? || act.End? || act.StartFails? {
      ReleaseStock(w, act);
    } else {
      AcquireStock(w, act);
    }
  }

  lemma {:induction false} HoldStock(w: World, act: Action)
    requires StockInv(w) && Enabled(w, act) && act.Hold?
    ensures StockInv(Step(w, act))
  {
    var v := Step(w, act);
    forall g | g in v.stock.where ensures Placed(v, g) { assert Placed(w, g); }
    forall b | b in v.acts ensures Carrier(v, b) { assert Carrier(w, b); }
  }

  // ---------------------------------------------------------------- one caller per session

  /** The sessions an activity has been handed. */
  function Owned(pc: Pc): set<nat> {
    match pc
    case Using(r) => {r}
    case Counted(_, Runs(r)) => {r}
    case _ => {}
  }

  function Unstarted(pc: Pc): set<nat> {
    match pc
    case Starting(_, g) => {g}
    case Failed(_, g) => {g}
    case _ => {}
  }

  ghost predicate OwnerFits(w: World, a: nat)
    requires a in w.acts
  {
    && (forall r | r in Owned(w.acts[a]) :: r in w.reg.owner && w.reg.owner[r] == a && r in w.reg.busy)
    && (forall g | g in Unstarted(w.acts[a]) :: g !in w.reg.owner && g in w.reg.sessions)
  }

  ghost predicate SessionFits(w: World, r: nat) {
    r in w.reg.sessions
    && (r in w.reg.busy ==> r in w.reg.owner && w.reg.owner[r] in w.acts && r in Owned(w.acts[w.reg.owner[r]]))
  }

  ghost predicate OwnInv(w: World) {
    && (forall a | a in w.acts :: OwnerFits(w, a))
    && (forall r | r in w.reg.registered :: SessionFits(w, r))
    && (forall r | r in w.reg.owner :: r in w.reg.sessions)
  }

  /** No session is with two callers. */
  lemma {:induction false} OwnedByOne(w: World, a: nat, b: nat)
    requires OwnInv(w) && a != b
    ensures Owned(At(w, a)) !! Owned(At(w, b))
  {
    if a in w.acts && b in w.acts {
      assert OwnerFits(w, a) && OwnerFits(w, b);
    }
  }

  lemma {:induction false} QuietOwn(w: World, v: World, a: nat, pc: Pc)
    requires OwnInv(w) && v.acts == w.acts[a := pc] && v.reg.registered <= w.reg.registered
    requires v.reg.sessions == w.reg.sessions && v.reg.busy == w.reg.busy && v.reg.owner == w.reg.owner
    requires Owned(pc) == Owned(At(w, a)) && Unstarted(pc) <= Unstarted(At(w, a))
    ensures OwnInv(v)
  {
    forall b | b in v.acts ensures OwnerFits(v, b) { if b in w.acts { assert OwnerFits(w, b); } }
    forall r | r in v.reg.registered ensures SessionFits(v, r) { assert SessionFits(w, r); }
  }

  /** A session nobody has is handed to the activity. */
  lemma {:induction false} HandOver(w: World, v: World, a: nat, r: nat, pc: Pc)
    requires OwnInv(w) && v.acts == w.acts[a := pc] && v.reg.registered <= w.reg.registered + {r}
    requires v.reg.sessions == w.reg.sessions && v.reg.busy == w.reg.busy + {r} && v.reg.owner == w.reg.owner[r := a]
    requires Owned(At(w, a)) == {} && Owned(pc) == {r} && Unstarted(pc) == {} && r in w.reg.sessions
    requires forall b | b in w.acts :: r !in Owned(w.acts[b]) && (b != a ==> r !in Unstarted(w.acts[b]))
    ensures OwnInv(v)
  {
    forall b | b in v.acts ensures OwnerFits(v, b) { if b in w.acts { assert OwnerFits(w, b); } }
    forall q | q in v.reg.registered ensures SessionFits(v, q) { if q != r { assert SessionFits(w, q); } }
  }

  /** The activity gives its session up: it is idle, or no longer in the pool. */
  lemma {:induction false} HandBack(w: World, v: World, a: nat, r: nat, pc: Pc)
    requires OwnInv(w) && a in w.acts && v.acts == w.acts[a := pc] && v.reg.registered <= w.reg.registered
    requires v.reg.sessions == w.reg.sessions && v.reg.owner == w.reg.owner - {r}
    requires v.reg.busy == w.reg.busy - {r} || (v.reg.busy == w.reg.busy && r !in v.reg.registered)
    requires Owned(w.acts[a]) == {r} && Owned(pc) == {} && Unstarted(pc) == {}
    ensures OwnInv(v)
  {
    assert OwnerFits(w, a);
    forall b | b in v.acts ensures OwnerFits(v, b) { if b in w.acts { assert OwnerFits(w, b); } }
    forall q | q in v.reg.registered ensures SessionFits(v, q) { assert SessionFits(w, q); }
  }

  lemma {:induction false} GrantOwn(w: World, a: nat, spec: Spec, indices: seq<nat>, inUse: set<nat>)
    requires StockInv(w) && OwnInv(w) && At(w, a).Reserving? && spec.slot in w.stock.account.inventory
    ensures OwnInv(Grant(w, a, spec, indices, inUse))
  {
    var v := Grant(w, a, spec, indices, inUse);
    forall b | b in v.acts ensures OwnerFits(v, b) { if b in w.acts { assert OwnerFits(w, b); } }
    forall r | r in v.reg.registered ensures SessionFits(v, r) { assert SessionFits(w, r); }
  }

  lemma {:induction false} TakeOwn(w: World, a: nat, r: nat)
    requires StockInv(w) && OwnInv(w) && Enabled(w, Take(a, r))
    ensures OwnInv(AfterTake(w, a, r))
  {
    forall b | b in w.acts ensures r !in Owned(w.acts[b]) && r !in Unstarted(w.acts[b]) {
      assert OwnerFits(w, b) && Carrier(w, b);
    }
    HandOver(w, AfterTake(w, a, r), a, r, Using(r));
  }

  lemma {:induction false} StartOkOwn(w: World, a: nat)
    requires StockInv(w) && OwnInv(w) && At(w, a).Starting?
    ensures OwnInv(AfterStartOk(w, a))
  {
    var g := At(w, a).g;
    assert OwnerFits(w, a) && Carrier(w, a);
    forall b | b in w.acts ensures g !in Owned(w.acts[b]) && (b != a ==> g !in Unstarted(w.acts[b])) {
      assert OwnerFits(w, b) && Carrier(w, b);
    }
    HandOver(w, AfterStartOk(w, a), a, g, Counted(At(w, a).spec, Runs(g)));
  }

  lemma {:induction false} PlainOwn(w: World, act: Action)
    requires OwnInv(w) && Enabled(w, act)
    requires act.Begin? || act.Miss? || act.Count? || act.Uncount? || act.Look? || act.Wake? || act.StartFails?
    ensures OwnInv(Step(w, act))
  {
    var v := Step(w, act);
    QuietOwn(w, v, act.a, v.acts[act.a]);
  }

  lemma {:induction false} EndOwn(w: World, act: Action)
    requires OwnInv(w) && Enabled(w, act)
    requires act.Unhold? || act.ListIdle? || act.End?
    ensures OwnInv(Step(w, act))
  {
    var v := Step(w, act);
    QuietOwn(w, v, act.a, v.acts[act.a]);
  }

  lemma {:induction false} GiveBackOwn(w: World, act: Action)
    requires OwnInv(w) && Enabled(w, act) && (act.Unreserve? || act.GiveBack?)
    ensures OwnInv(Step(w, act))
  {
    var v := Step(w, act);
    QuietOwn(w, v, act.a, v.acts[act.a]);
  }

  lemma {:induction false} DropOwn(w: World, a: nat)
    requires OwnInv(w) && At(w, a).Dropping?
    ensures OwnInv(AfterDrop(w, a))
  {
    QuietOwn(w, AfterDrop(w, a), a, AfterDrop(w, a).acts[a]);
  }

  lemma {:induction false} DiscardOwn(w: World, act: Action)
    requires OwnInv(w) && Enabled(w, act)
    requires act.TryDiscard? || act.Sweep? || act.Shutdown?
    ensures OwnInv(Step(w, act))
  {
    var v := Step(w, act);
    QuietOwn(w, v, act.a, v.acts[act.a]);
  }

  lemma {:induction false} ReleaseOwn(w: World, act: Action)
    requires OwnInv(w) && Enabled(w, act) && (act.Release? || act.Discard?)
    ensures OwnInv(Step(w, act))
  {
    var v := Step(w, act);
    HandBack(w, v, act.a, At(w, act.a).r, v.acts[act.a]);
  }

  lemma {:induction false} StepOwn(w: World, act: Action)
    requires StockInv(w) && OwnInv(w)
    ensures OwnInv(Step(w, act))
  {
    if !Enabled(w, act) {
    } else if act.Hold? {
      HoldOwn(w, act);
    } else if act.Take? {
      TakeOwn(w, act.a, act.r);
    } else if act.StartOk? {
      StartOkOwn(w, act.a);
    } else if act.Reserve? {
      ReserveOwn(w, act.a, act.inUse);
    } else if act.Release? || act.Discard? {
      ReleaseOwn(w, act);
    } else if act.TryDiscard? || act.Sweep? || act.Shutdown? {
      DiscardOwn(w, act);
    } else if act.Unhold? || act.ListIdle? || act.End? {
      EndOwn(w, act);
    } else if act.Unreserve? || act.GiveBack? {
      GiveBackOwn(w, act);
    } else if act.Drop? {
      DropOwn(w, act.a);
    } else {
      PlainOwn(w, act);
    }
  }

  lemma {:induction false} HoldOwn(w: World, act: Action)
    requires OwnInv(w) && Enabled(w, act) && act.Hold?
    ensures OwnInv(Step(w, act))
  {
    var v := Step(w, act);
    forall b | b in v.acts ensures OwnerFits(v, b) { assert OwnerFits(w, b); }
    forall r | r in v.reg.registered ensures SessionFits(v, r) { assert SessionFits(w, r); }
  }

  lemma {:induction false} ReserveOwn(w: World, a: nat, inUse: set<nat>)
    requires StockInv(w) && OwnInv(w) && At(w, a).Reserving?
    ensures OwnInv(AfterReserve(w, a, inUse))
  {
    var spec := At(w, a).spec;
    if spec.slot in w.stock.account.inventory && D.Answer(w.stock.account, spec.slot, spec.devices, inUse).Granted? {
      GrantOwn(w, a, spec, D.Answer(w.stock.account, spec.slot, spec.devices, inUse).indices, inUse);
    } else {
      var v := AfterReserve(w, a, inUse);
      QuietOwn(w, v, a, v.acts[a]);
    }
  }

  // ---------------------------------------------------------------- idle sessions are on their way out

  predicate Idle(w: World, r: nat) {
    r in w.reg.registered && r !in w.reg.busy
  }

  /** The activity is about to discard the session, or to look at every idle one. */
  predicate Obliged(pc: Pc, r: nat) {
    match pc
    case Released(q) => q == r
    case Closing => true
    case Sweeping(rest) => r in rest
    case Returning(_, rest) => r in rest
    case Ending(_, rest) => r in rest
    case _ => false
  }

  ghost predicate Answered(w: World, r: nat) {
    exists a :: a in w.acts && Obliged(w.acts[a], r)
  }

  /** With no hold open, some activity is on its way to discarding each idle session. */
  ghost predicate ObligeInv(w: World) {
    w.depth == 0 ==> forall r | Idle(w, r) :: Answered(w, r)
  }

  /** Each session idle after the step is the stepping activity's to discard, or was another's and still is. */
  ghost predicate StillAnswered(w: World, v: World, a: nat, r: nat) {
    Obliged(At(v, a), r) || (w.depth == 0 && Idle(w, r) && !Obliged(At(w, a), r))
  }

  lemma {:induction false} KeepOblige(w: World, v: World, a: nat)
    requires ObligeInv(w) && a in v.acts && v.acts == w.acts[a := v.acts[a]]
    requires v.depth == 0 ==> forall r | Idle(v, r) :: StillAnswered(w, v, a, r)
    ensures ObligeInv(v)
  {
    if v.depth == 0 {
      forall r | Idle(v, r) ensures Answered(v, r) {
        assert StillAnswered(w, v, a, r);
        if !Obliged(v.acts[a], r) {
          assert Answered(w, r);
          var b :| b in w.acts && Obliged(w.acts[b], r);
          assert b != a && v.acts[b] == w.acts[b];
        }
      }
    }
  }

  lemma {:induction false} AcquireOblige(w: World, act: Action)
    requires OwnInv(w) && ObligeInv(w) && Enabled(w, act)
    requires act.Begin? || act.Take? || act.Miss? || act.Count? || act.Reserve? || act.StartOk? || act.StartFails?
             || act.Unreserve? || act.Uncount? || act.Look? || act.Wake?
    ensures ObligeInv(Step(w, act))
  {
    var v := Step(w, act);
    assert v.depth == w.depth && !At(w, act.a).Closing?;
    forall r | v.depth == 0 && Idle(v, r) ensures StillAnswered(w, v, act.a, r) {
      assert Idle(w, r) && !Obliged(At(w, act.a), r);
    }
    KeepOblige(w, v, act.a);
  }

  lemma {:induction false} EndOblige(w: World, act: Action)
    requires OwnInv(w) && ObligeInv(w) && Enabled(w, act)
    requires act.Unhold? || act.ListIdle? || act.GiveBack? || act.End? || act.Shutdown? || act.Drop?
    ensures ObligeInv(Step(w, act))
  {
    var v := Step(w, act);
    forall r | v.depth == 0 && Idle(v, r) ensures StillAnswered(w, v, act.a, r) {}
    KeepOblige(w, v, act.a);
  }

  lemma {:induction false} DiscardOblige(w: World, act: Action)
    requires OwnInv(w) && ObligeInv(w) && Enabled(w, act)
    requires act.Release? || act.Discard? || act.TryDiscard? || act.Sweep?
    ensures ObligeInv(Step(w, act))
  {
    var v := Step(w, act);
    forall r | v.depth == 0 && Idle(v, r) ensures StillAnswered(w, v, act.a, r) {
      if act.Sweep? {
        var rest := At(w, act.a).rest;
        assert rest != [] ==> rest == [rest[0]] + rest[1..];
      }
    }
    KeepOblige(w, v, act.a);
  }

  lemma {:induction false} StepOblige(w: World, act: Action)
    requires OwnInv(w) && ObligeInv(w)
    ensures ObligeInv(Step(w, act))
  {
    if !Enabled(w, act) {
    } else if act.Hold? {
      assert Step(w, act).depth > 0;
    } else if act.Release? || act.Discard? || act.TryDiscard? || act.Sweep? {
      DiscardOblige(w, act);
    } else if act.Unhold? || act.ListIdle? || act.GiveBack? || act.End? || act.Shutdown? || act.Drop? {
      EndOblige(w, act);
    } else {
      AcquireOblige(w, act);
    }
  }

  // ---------------------------------------------------------------- waiting

  predicate InStart(pc: Pc) {
    pc.Reserving? || pc.Starting? || pc.Failed? || pc.Counted?
  }

  predicate Starts(pc: Pc, x: D.Slot) {
    InStart(pc) && pc.spec.slot == x
  }

  function Starters(acts: map<nat, Pc>, x: D.Slot): set<nat> {
    set a | a in acts && Starts(acts[a], x)
  }

  /** `_starting` counts the starts under way. */
  ghost predicate CountInv(w: World) {
    forall x :: w.starting[x] == |Starters(w.acts, x)|
  }

  lemma {:induction false} StartersChange(acts: map<nat, Pc>, a: nat, pc: Pc, x: D.Slot)
    ensures var was := a in acts && Starts(acts[a], x);
            |Starters(acts[a := pc], x)| + (if was then 1 else 0) == |Starters(acts, x)| + (if Starts(pc, x) then 1 else 0)
  {
    var s, t := Starters(acts, x), Starters(acts[a := pc], x);
    if Starts(pc, x) { assert t == s - {a} + {a}; } else { assert t == s - {a}; }
  }

  lemma {:induction false} KeepCount(w: World, v: World, a: nat, pc: Pc)
    requires CountInv(w) && v.acts == w.acts[a := pc]
    requires forall x :: v.starting[x] + (if Starts(At(w, a), x) then 1 else 0) == w.starting[x] + (if Starts(pc, x) then 1 else 0)
    ensures CountInv(v)
  {
    forall x ensures v.starting[x] == |Starters(v.acts, x)| { StartersChange(w.acts, a, pc, x); }
  }

  lemma {:induction false} CountedStart(w: World, a: nat)
    requires CountInv(w) && a in w.acts && InStart(w.acts[a])
    ensures w.starting[w.acts[a].spec.slot] > 0
  {
    var s := Starters(w.acts, w.acts[a].spec.slot);
    assert a in s;
  }

  lemma {:induction false} StartCount(w: World, act: Action)
    requires CountInv(w) && Enabled(w, act)
    requires act.Count? || act.StartOk? || act.StartFails? || act.Unreserve?
    ensures CountInv(Step(w, act))
  {
    var v := Step(w, act);
    KeepCount(w, v, act.a, v.acts[act.a]);
  }

  lemma {:induction false} ReserveCount(w: World, a: nat, inUse: set<nat>)
    requires CountInv(w) && At(w, a).Reserving?
    ensures CountInv(AfterReserve(w, a, inUse))
  {
    KeepCount(w, AfterReserve(w, a, inUse), a, AfterReserve(w, a, inUse).acts[a]);
  }

  lemma {:induction false} UncountCount(w: World, a: nat)
    requires CountInv(w) && At(w, a).Counted?
    ensures CountInv(AfterUncount(w, a))
  {
    CountedStart(w, a);
    KeepCount(w, AfterUncount(w, a), a, AfterUncount(w, a).acts[a]);
  }

  lemma {:induction false} AcquireCount(w: World, act: Action)
    requires CountInv(w) && Enabled(w, act)
    requires act.Begin? || act.Take? || act.Miss? || act.Look? || act.Wake? || act.Release? || act.Discard?
    ensures CountInv(Step(w, act))
  {
    var v := Step(w, act);
    KeepCount(w, v, act.a, v.acts[act.a]);
  }

  lemma {:induction false} EndCount(w: World, act: Action)
    requires CountInv(w) && Enabled(w, act)
    requires act.Unhold? || act.TryDiscard? || act.ListIdle? || act.Sweep? || act.GiveBack? || act.End? || act.Shutdown? || act.Drop?
    ensures CountInv(Step(w, act))
  {
    var v := Step(w, act);
    KeepCount(w, v, act.a, v.acts[act.a]);
  }

  lemma {:induction false} StepCount(w: World, act: Action)
    requires CountInv(w)
    ensures CountInv(Step(w, act))
  {
    if !Enabled(w, act) {
    } else if act.Hold? {
      var v := Step(w, act);
      assert v.acts == w.acts && v.starting == w.starting;
    } else if act.Reserve? {
      ReserveCount(w, act.a, act.inUse);
    } else if act.Uncount? {
      UncountCount(w, act.a);
    } else if act.Count? || act.StartOk? || act.StartFails? || act.Unreserve? {
      StartCount(w, act);
    } else if act.Begin? || act.Take? || act.Miss? || act.Look? || act.Wake? || act.Release? || act.Discard? {
      AcquireCount(w, act);
    } else {
      EndCount(w, act);
    }
  }

  /** The activity is starting a session of the accelerator, or has one of the pool's in use. */
  ghost predicate Serves(w: World, b: nat, x: D.Slot) {
    b in w.acts
    && (Starts(w.acts[b], x) || exists r | r in Owned(w.acts[b]) :: Holder(w, r, x))
  }

  lemma {:induction false} WaitsAt(w: World, spec: Spec)
    requires OwnInv(w) && CountInv(w)
    ensures Unallocatable(w, spec).Wait?
            <==> !(spec.slot in w.stock.account.inventory && Declared(w.stock.account.inventory[spec.slot]) < spec.devices)
                 && exists b :: Serves(w, b, spec.slot)
  {
    var x := spec.slot;
    if r :| r in w.reg.registered && Holder(w, r, x) && r in w.reg.busy {
      assert SessionFits(w, r);
      assert Serves(w, w.reg.owner[r], x);
    }
    if w.starting[x] > 0 {
      assert Starters(w.acts, x) != {};
      var b :| b in Starters(w.acts, x);
      assert Serves(w, b, x);
    }
    if b :| Serves(w, b, x) {
      if Starts(w.acts[b], x) {
        CountedStart(w, b);
      } else {
        assert OwnerFits(w, b);
      }
    }
  }

  // ---------------------------------------------------------------- every run

  ghost predicate Inv(w: World) {
    StockInv(w) && OwnInv(w) && ObligeInv(w) && CountInv(w)
  }

  lemma {:induction false} StepInv(w: World, act: Action)
    requires Inv(w)
    ensures Inv(Step(w, act))
  {
    StepStock(w, act);
    StepOwn(w, act);
    StepOblige(w, act);
    StepCount(w, act);
  }

  lemma {:induction false} RunInv(w: World, acts: seq<Action>)
    requires Inv(w)
    ensures Inv(Run(w, acts))
    decreases |acts|
  {
    if acts != [] {
      StepInv(w, acts[0]);
      RunInv(Step(w, acts[0]), acts[1..]);
    }
  }

  lemma {:induction false} InitialInv(account: D.Account)
    requires D.Matches(account, [])
    ensures Inv(Initial(account))
  {
    var w := Initial(account);
    assert Ids(w.stock.ledger) == {};
    forall x ensures w.starting[x] == |Starters(w.acts, x)| { assert Starters(w.acts, x) == {}; }
  }

  /**
    Whatever calls, blocks, retries, failed starts and shutdowns interleave: with no hold open,
    every idle session of the pool has some activity on its way to discarding it.
  */
  lemma {:induction false} Lifetime(account: D.Account, acts: seq<Action>, r: nat)
    requires D.Matches(account, [])
    ensures var w := Run(Initial(account), acts);
            w.depth == 0 && Idle(w, r) ==> exists a :: a in w.acts && Obliged(w.acts[a], r)
  {
    InitialInv(account);
    RunInv(Initial(account), acts);
    var w := Run(Initial(account), acts);
    if w.depth == 0 && Idle(w, r) { assert Answered(w, r); }
  }

  /** No two activities ever have the same session. */
  lemma {:induction false} Exclusive(account: D.Account, acts: seq<Action>, a: nat, b: nat)
    requires D.Matches(account, []) && a != b
    ensures var w := Run(Initial(account), acts); Owned(At(w, a)) !! Owned(At(w, b))
  {
    InitialInv(account);
    RunInv(Initial(account), acts);
    OwnedByOne(Run(Initial(account), acts), a, b);
  }

  /**
    The devices the provider's tables count as taken are exactly those of the grants that are out,
    no index twice and never more than the inventory, and each such grant is at exactly one place:
    with a session of the pool, or with one activity that starts, discards or drops it.
  */
  lemma {:induction false} Conservation(account: D.Account, acts: seq<Action>)
    requires D.Matches(account, [])
    ensures var w := Run(Initial(account), acts);
            && D.Matches(w.stock.account, w.stock.ledger)
            && Distinct(w.stock.ledger) && Ids(w.stock.ledger) == w.stock.where.Keys
            && (forall g | g in w.stock.where :: Placed(w, g))
            && (forall r | r in w.reg.registered :: r in w.stock.where && w.stock.where[r] == Bucket)
            && (forall a | a in w.acts :: Carrier(w, a))
  {
    InitialInv(account);
    RunInv(Initial(account), acts);
  }

  predicate GivesBack(w: World, act: Action, g: nat) {
    match act
    case Unreserve(a) => At(w, a).Failed? && At(w, a).g == g
    case GiveBack(a) => At(w, a).Returning? && At(w, a).r == g
    case Drop(a) => At(w, a).Dropping? && At(w, a).rest != [] && At(w, a).rest[0] == g
    case _ => false
  }

  lemma {:induction false} GivenBackAt(w: World, act: Action, g: nat)
    requires Inv(w) && GivesBack(w, act, g)
    ensures g in w.stock.where && g in w.reg.sessions && w.reg.sessions[g].grant in w.stock.ledger
    ensures var v := Step(w, act); g !in v.stock.where && g < v.stock.next
  {
    assert Enabled(w, act) && act.a in w.acts && Carrier(w, act.a);
    assert g in Carries(w.acts[act.a]);
    GiveUpLedger(w, g);
    var l := w.stock.ledger;
    assert g in Ids(l);
    var k :| 0 <= k < |l| && l[k].id == g;
    assert Entry(w.reg.sessions, l[k]) && l[k] in l;
    assert Step(w, act).stock == GiveUp(w, g);
  }

  /**
    Each grant is given back once: the step that gives it back finds it out, with exactly the
    devices it took, and afterwards it is not out and its number is never used again.
  */
  lemma {:induction false} GivenBackOnce(account: D.Account, acts: seq<Action>, act: Action, g: nat)
    requires D.Matches(account, []) && GivesBack(Run(Initial(account), acts), act, g)
    ensures var w := Run(Initial(account), acts);
            g in w.stock.where && g in w.reg.sessions && w.reg.sessions[g].grant in w.stock.ledger
    ensures var v := Step(Run(Initial(account), acts), act); g !in v.stock.where && g < v.stock.next
  {
    InitialInv(account);
    RunInv(Initial(account), acts);
    GivenBackAt(Run(Initial(account), acts), act, g);
  }

  /** A call waits just when what it asks for can exist and another activity will free some of it. */
  lemma {:induction false} WaitsForSomeone(account: D.Account, acts: seq<Action>, spec: Spec)
    requires D.Matches(account, [])
    ensures var w := Run(Initial(account), acts); var inventory := w.stock.account.inventory;
            Unallocatable(w, spec).Wait?
            <==> !(spec.slot in inventory && Declared(inventory[spec.slot]) < spec.devices)
                 && exists b :: Serves(w, b, spec.slot)
  {
    InitialInv(account);
    RunInv(Initial(account), acts);
    WaitsAt(Run(Initial(account), acts), spec);
  }

  predicate SomeoneIsOn(w: World) {
    exists a | a in w.acts :: !w.acts[a].Away?
  }

  lemma {:induction false} SessionNeedsSomeone(w: World, r: nat)
    requires Inv(w) && w.depth == 0 && r in w.reg.registered
    ensures SomeoneIsOn(w)
  {
    assert SessionFits(w, r);
    if r in w.reg.busy {
      assert !w.acts[w.reg.owner[r]].Away?;
    } else {
      assert Idle(w, r) && Answered(w, r);
      var a :| a in w.acts && Obliged(w.acts[a], r);
      assert !w.acts[a].Away?;
    }
  }

  lemma {:induction false} GrantNeedsSomeone(w: World, g: nat)
    requires Inv(w) && w.depth == 0 && g in w.stock.where
    ensures SomeoneIsOn(w)
  {
    assert Placed(w, g);
    match w.stock.where[g]
    case Bucket => SessionNeedsSomeone(w, g);
    case With(a) => assert !w.acts[a].Away?;
  }

  /** Once every activity is over and no hold is open, no session is left and no device is taken. */
  lemma {:induction false} Quiescent(account: D.Account, acts: seq<Action>)
    requires D.Matches(account, [])
    requires var w := Run(Initial(account), acts); w.depth == 0 && !SomeoneIsOn(w)
    ensures var w := Run(Initial(account), acts);
            && w.reg.registered == {} && w.stock.ledger == []
            && forall x :: D.Reserved(w.stock.account, x) == [] && D.Taken(w.stock.account, x) == 0
  {
    InitialInv(account);
    RunInv(Initial(account), acts);
    var w := Run(Initial(account), acts);
    forall r ensures r !in w.reg.registered {
      if r in w.reg.registered { SessionNeedsSomeone(w, r); }
    }
    forall g ensures g !in Ids(w.stock.ledger) {
      if g in w.stock.where { GrantNeedsSomeone(w, g); }
    }
    NoIds(w.stock.ledger);
    forall x ensures D.Reserved(w.stock.account, x) == [] && D.Taken(w.stock.account, x) == 0 {
      assert D.SlotMatches(w.stock.account, w.stock.ledger, x);
    }
  }

  lemma {:induction false} NoIds(l: D.Ledger)
    requires forall g :: g !in Ids(l)
    ensures l == []
  {
    if l != [] { HasId(l); }
  }

  lemma {:induction false} HasId(l: D.Ledger)
    requires l != []
    ensures exists g :: g in Ids(l)
  {
    assert l[0].id in Ids(l);
  }

  ghost predicate NoShutdown(acts: seq<Action>) {
    forall k | 0 <= k < |acts| :: !acts[k].Shutdown?
  }

  /** Without `shutdown`, the hold depth is the number of holds still open. */
  lemma {:induction false} DepthCounts(w: World, acts: seq<Action>)
    requires NoShutdown(acts) && w.depth == |w.open|
    ensures Run(w, acts).depth == |Run(w, acts).open|
    decreases |acts|
  {
    if acts != [] {
      DepthStep(w, acts[0]);
      assert forall k | 0 <= k < |acts[1..]| :: acts[1..][k] == acts[k + 1];
      DepthCounts(Step(w, acts[0]), acts[1..]);
    }
  }

  lemma {:induction false} DepthStep(w: World, act: Action)
    requires w.depth == |w.open| && !act.Shutdown?
    ensures Step(w, act).depth == |Step(w, act).open|
  {
  }

  // ---------------------------------------------------------------- the way of a call

  /** Whose step it is; a hold is nobody's. */
  predicate OwnStep(act: Action, a: nat) {
    !act.Hold? && act.a == a
  }

  lemma {:induction false} OnlyOwn(w: World, act: Action, a: nat)
    ensures At(Step(w, act), a) == At(w, a) || OwnStep(act, a)
  {
  }

  /** Other activities do not move this one. */
  lemma {:induction false} OthersLeave(w: World, others: seq<Action>, a: nat)
    requires forall act | act in others :: !OwnStep(act, a)
    ensures At(Run(w, others), a) == At(w, a)
    decreases |others|
  {
    if others != [] {
      assert others[0] in others && forall act | act in others[1..] :: act in others;
      OnlyOwn(w, others[0], a);
      OthersLeave(Step(w, others[0]), others[1..], a);
    }
  }

  lemma {:induction false} RunJoin(w: World, x: seq<Action>, y: seq<Action>)
    ensures Run(w, x + y) == Run(Run(w, x), y)
    decreases |x|
  {
    if x == [] {
      assert x + y == y;
    } else {
      assert (x + y)[1..] == x[1..] + y;
      RunJoin(Step(w, x[0]), x[1..], y);
    }
  }

  /** The inventory, as far as it is declared, has what is asked. */
  predicate CanExist(w: World, spec: Spec) {
    spec.slot in w.stock.account.inventory ==>
      match w.stock.account.inventory[spec.slot]
      case Indices(registered) => spec.devices <= |registered|
      case Count(count) => spec.devices <= count
  }

  /** A session of this environment is registered and nobody uses it. */
  ghost predicate IdleOf(w: World, key: string) {
    exists r :: r in w.reg.registered && r !in w.reg.busy && r in w.reg.sessions && w.reg.sessions[r].key == key
  }

  lemma {:induction false} IdleOfIs(w: World, key: string)
    ensures IdleOf(w, key) <==> !NoIdle(w, key)
  {
    if IdleOf(w, key) {
      var r :| r in w.reg.registered && r !in w.reg.busy && r in w.reg.sessions && w.reg.sessions[r].key == key;
      assert IdleMatch(w, r, key);
    }
    if r :| r in w.reg.registered && IdleMatch(w, r, key) { assert IdleOf(w, key); }
  }

  /** Another activity is starting a session of the accelerator, or uses one. */
  ghost predicate OthersServe(w: World, a: nat, x: D.Slot) {
    exists b :: b != a && Serves(w, b, x)
  }

  lemma {:induction false} WaitIs(w: World, spec: Spec, a: nat)
    requires Inv(w) && At(w, a) == Looking(spec)
    ensures Unallocatable(w, spec).Wait? <==> CanExist(w, spec) && OthersServe(w, a, spec.slot)
  {
    WaitsAt(w, spec);
    assert !Serves(w, a, spec.slot);
    if b :| Serves(w, b, spec.slot) { assert OthersServe(w, a, spec.slot); }
  }

  lemma {:induction false} LookGoes(w: World, spec: Spec, a: nat)
    requires Inv(w) && At(w, a) == Looking(spec)
    ensures At(Step(w, Look(a)), a)
            == (if IdleOf(w, spec.key) then Scanning(spec)
                else if CanExist(w, spec) && OthersServe(w, a, spec.slot) then Waiting(spec) else Away)
  {
    IdleOfIs(w, spec.key);
    WaitIs(w, spec, a);
  }

  /**
    In every run, a call that could reserve nothing goes on, whatever others do between its steps: it looks
    for a session again if one of its environment is idle by then; otherwise it waits exactly when what
    it asks can exist and another activity is starting or using a session on that accelerator, and
    is refused when not.
  */
  lemma {:induction false} StarvedCall(account: D.Account, acts: seq<Action>, others: seq<Action>, a: nat, spec: Spec)
    requires D.Matches(account, []) && At(Run(Initial(account), acts), a) == Counted(spec, Nothing)
    requires forall act | act in others :: !OwnStep(act, a)
    ensures var u := Run(Step(Run(Initial(account), acts), Uncount(a)), others); var v := Step(u, Look(a));
            && At(u, a) == Looking(spec)
            && (At(v, a) == Scanning(spec) <==> IdleOf(u, spec.key))
            && (At(v, a) == Waiting(spec) <==> !IdleOf(u, spec.key) && CanExist(u, spec) && OthersServe(u, a, spec.slot))
            && (At(v, a) == Away <==> !IdleOf(u, spec.key) && !(CanExist(u, spec) && OthersServe(u, a, spec.slot)))
  {
    var w := Run(Initial(account), acts);
    InitialInv(account);
    RunInv(Initial(account), acts);
    LooksNext(w, others, a, spec);
    LookGoes(Run(Step(w, Uncount(a)), others), spec, a);
  }

  lemma {:induction false} LooksNext(w: World, others: seq<Action>, a: nat, spec: Spec)
    requires Inv(w) && At(w, a) == Counted(spec, Nothing) && forall act | act in others :: !OwnStep(act, a)
    ensures var u := Run(Step(w, Uncount(a)), others); Inv(u) && At(u, a) == Looking(spec)
  {
    var v := Step(w, Uncount(a));
    StepInv(w, Uncount(a));
    UncountLooks(w, a, spec);
    RunInv(v, others);
    OthersLeave(v, others, a);
  }

  lemma {:induction false} UncountLooks(w: World, a: nat, spec: Spec)
    requires At(w, a) == Counted(spec, Nothing)
    ensures At(Step(w, Uncount(a)), a) == Looking(spec)
  {
  }

  /** From the first look for a session to the session, the refusal or the error. */
  predicate Acquiring(pc: Pc) {
    pc.Scanning? || pc.Missed? || pc.Reserving? || pc.Starting? || pc.Failed? || pc.Counted? || pc.Looking? || pc.Waiting?
  }

  /**
    In every run, a call leaves `acquire` in four ways: with a session that was registered, idle and of its
    environment; with one it started itself; with an error of its start; or refused, when it found no idle
    session and could not wait.
  */
  lemma {:induction false} AcquireEnds(account: D.Account, acts: seq<Action>, act: Action, a: nat)
    requires D.Matches(account, [])
    requires var w := Run(Initial(account), acts); Acquiring(At(w, a)) && !Acquiring(At(Step(w, act), a))
    ensures var w := Run(Initial(account), acts); var v := Step(w, act); var spec := At(w, a).spec;
            || (At(w, a).Scanning? && At(v, a).Using? && var r := At(v, a).r;
                r in w.reg.registered && r !in w.reg.busy && r in v.reg.busy && r in w.reg.sessions && w.reg.sessions[r].key == spec.key)
            || (At(w, a).Counted? && At(w, a).got.Runs? && At(v, a) == Using(At(w, a).got.r))
            || (At(w, a) == Counted(spec, Raised) && At(v, a) == Away)
            || (At(w, a) == Looking(spec) && At(v, a) == Away && !IdleOf(w, spec.key)
                && !(CanExist(w, spec) && OthersServe(w, a, spec.slot)))
  {
    InitialInv(account);
    RunInv(Initial(account), acts);
    var w := Run(Initial(account), acts);
    OnlyOwn(w, act, a);
    if act.Look? { LookGoes(w, At(w, a).spec, a); } else { LeavesAcquire(w, act, a); }
  }

  lemma {:induction false} LeavesAcquire(w: World, act: Action, a: nat)
    requires OwnStep(act, a) && !act.Look? && Acquiring(At(w, a)) && !Acquiring(At(Step(w, act), a))
    ensures var v := Step(w, act); var spec := At(w, a).spec;
            || (At(w, a).Scanning? && At(v, a).Using? && var r := At(v, a).r;
                r in w.reg.registered && r !in w.reg.busy && r in v.reg.busy && r in w.reg.sessions && w.reg.sessions[r].key == spec.key)
            || (At(w, a).Counted? && At(w, a).got.Runs? && At(v, a) == Using(At(w, a).got.r))
            || (At(w, a) == Counted(spec, Raised) && At(v, a) == Away)
  {
  }

  /** A waiting call looks again, and one that finds nothing idle counts itself as starting before it reserves. */
  lemma {:induction false} AcquireGoes(w: World, a: nat)
    ensures At(w, a).Waiting? ==> At(Step(w, Wake(a)), a) == Scanning(At(w, a).spec)
    ensures At(w, a).Scanning? && !IdleOf(w, At(w, a).spec.key) ==>
              var v := Step(Step(w, Miss(a)), Count(a));
              At(v, a) == Reserving(At(w, a).spec) && v.starting == w.starting + multiset{At(w, a).spec.slot}
    ensures At(w, a).Counted? ==> Step(w, Uncount(a)).starting == w.starting - multiset{At(w, a).spec.slot}
  {
    if At(w, a).Scanning? {
      var spec := At(w, a).spec;
      IdleOfIs(w, spec.key);
      if !IdleOf(w, spec.key) { assert At(Step(w, Miss(a)), a) == Missed(spec); }
    }
  }

  /** How many of the accelerator are free, by what is granted and what the machine reports. */
  ghost predicate Enough(w: World, spec: Spec, inUse: set<nat>)
    requires spec.slot in w.stock.account.inventory
  {
    match w.stock.account.inventory[spec.slot]
    case Indices(registered) => |set i | i in registered && i !in D.Out(w.stock.ledger, spec.slot) && i !in inUse| >= spec.devices
    case Count(count) => count >= D.Counted(w.stock.ledger, spec.slot) + spec.devices
  }

  /** A new grant of what was asked is out, with a session of the environment to be. */
  ghost predicate Took(w: World, v: World, g: nat, spec: Spec) {
    && g !in w.stock.where && g in v.reg.sessions && v.reg.sessions[g].key == spec.key
    && v.reg.sessions[g].grant.slot == spec.slot && v.reg.sessions[g].grant.devices == spec.devices
    && v.stock.ledger == w.stock.ledger + [v.reg.sessions[g].grant]
  }

  lemma {:induction false} ReserveAt(w: World, a: nat, spec: Spec, inUse: set<nat>)
    requires StockInv(w) && At(w, a) == Reserving(spec)
    ensures var v := Step(w, Reserve(a, inUse));
            if spec.slot !in w.stock.account.inventory then At(v, a) == Counted(spec, Raised) && v.stock == w.stock
            else if D.Answer(w.stock.account, spec.slot, spec.devices, inUse).Refused?
            then At(v, a) == Counted(spec, Nothing) && v.stock == w.stock
            else At(v, a) == Starting(spec, w.stock.next) && Took(w, v, w.stock.next, spec)
  {
    forall g | g in w.stock.where ensures g != w.stock.next {
      assert g in Ids(w.stock.ledger);
      var k :| 0 <= k < |w.stock.ledger| && w.stock.ledger[k].id == g;
      assert Entry(w.reg.sessions, w.stock.ledger[k]);
    }
  }

  /**
    A reservation gives the call devices to start on exactly when the accelerator is known and as many are
    free as it asks, and nothing otherwise; an unknown accelerator is an error.
  */
  lemma {:induction false} ReserveGoes(account: D.Account, acts: seq<Action>, a: nat, spec: Spec, inUse: set<nat>)
    requires D.Matches(account, []) && At(Run(Initial(account), acts), a) == Reserving(spec)
    ensures var w := Run(Initial(account), acts); var v := Step(w, Reserve(a, inUse));
            if spec.slot !in w.stock.account.inventory then At(v, a) == Counted(spec, Raised) && v.stock == w.stock
            else if !Enough(w, spec, inUse) then At(v, a) == Counted(spec, Nothing) && v.stock == w.stock
            else At(v, a).Starting? && At(v, a).spec == spec && Took(w, v, At(v, a).g, spec)
  {
    InitialInv(account);
    RunInv(Initial(account), acts);
    var w := Run(Initial(account), acts);
    ReserveAt(w, a, spec, inUse);
    if spec.slot in w.stock.account.inventory {
      D.RefusedExactly(w.stock.account, w.stock.ledger, spec.slot, spec.devices, inUse);
    }
  }

  lemma {:induction false} StartOkGoes(w: World, a: nat, spec: Spec, g: nat)
    requires PlaceInv(w) && At(w, a) == Starting(spec, g)
    ensures var v := Step(Step(w, StartOk(a)), Uncount(a));
            g !in w.reg.registered && At(v, a) == Using(g) && v.reg.registered == w.reg.registered + {g} && g in v.reg.busy
            && v.stock.ledger == w.stock.ledger
  {
    assert Carrier(w, a) && g in Carries(w.acts[a]);
    assert At(Step(w, StartOk(a)), a) == Counted(spec, Runs(g));
  }

  lemma {:induction false} StartFailsGoes(w: World, a: nat, spec: Spec, g: nat)
    requires PlaceInv(w) && At(w, a) == Starting(spec, g)
    ensures var f := Step(w, StartFails(a));
            At(f, a) == Failed(spec, g) && f.reg.registered == w.reg.registered && f.stock == w.stock && g in w.stock.where
  {
    assert Carrier(w, a) && g in Carries(w.acts[a]);
  }

  lemma {:induction false} FailedGoes(w: World, a: nat, spec: Spec, g: nat)
    requires Inv(w) && At(w, a) == Failed(spec, g)
    ensures var v := Step(Step(w, Unreserve(a)), Uncount(a));
            At(v, a) == Away && g !in v.stock.where && v.reg.registered == w.reg.registered
  {
    GivenBackAt(w, Unreserve(a), g);
    UnreserveGoes(w, a, spec, g);
  }

  lemma {:induction false} UnreserveGoes(w: World, a: nat, spec: Spec, g: nat)
    requires At(w, a) == Failed(spec, g)
    ensures var u := Step(w, Unreserve(a)); var v := Step(u, Uncount(a));
            At(v, a) == Away && v.stock == u.stock && v.reg.registered == w.reg.registered
  {
    assert At(Step(w, Unreserve(a)), a) == Counted(spec, Raised);
  }

  /** A start that succeeds registers its session, in use; one that fails gives its devices back and raises. */
  lemma {:induction false} StartGoes(account: D.Account, acts: seq<Action>, a: nat, spec: Spec, g: nat)
    requires D.Matches(account, []) && At(Run(Initial(account), acts), a) == Starting(spec, g)
    ensures var w := Run(Initial(account), acts); var v := Step(Step(w, StartOk(a)), Uncount(a));
            g !in w.reg.registered && At(v, a) == Using(g) && v.reg.registered == w.reg.registered + {g} && g in v.reg.busy
            && v.stock.ledger == w.stock.ledger
    ensures var w := Run(Initial(account), acts); var v := Step(Step(Step(w, StartFails(a)), Unreserve(a)), Uncount(a));
            At(v, a) == Away && g in w.stock.where && g !in v.stock.where && v.reg.registered == w.reg.registered
  {
    InitialInv(account);
    RunInv(Initial(account), acts);
    var w := Run(Initial(account), acts);
    StartOkGoes(w, a, spec, g);
    StartFailsGoes(w, a, spec, g);
    StepInv(w, StartFails(a));
    FailedGoes(Step(w, StartFails(a)), a, spec, g);
  }

  // ---------------------------------------------------------------- the way of a session

  /**
    A call that is over marks its session idle, and with no hold open goes on to discard it: unless
    somebody has it again, a hold was opened or another took it out, it is taken out of the pool, its
    devices are given back, and only then it is shut down.
  */
  lemma {:induction false} ReleaseGoes(w: World, a: nat)
    requires At(w, a).Using?
    ensures var r := At(w, a).r; var v := Step(w, Release(a));
            r !in v.reg.busy && v.reg.registered == w.reg.registered && At(v, a) == (if w.depth == 0 then Released(r) else Away)
    ensures var r := At(w, a).r; var v := Step(w, Discard(a));
            && (r in w.reg.registered ==> At(v, a) == Returning(r, []) && v.reg.registered == w.reg.registered - {r})
            && (r !in w.reg.registered ==> At(v, a) == Ending(r, []) && v.stock == w.stock)
  {
  }

  lemma {:induction false} DiscardGoes(w: World, a: nat)
    ensures At(w, a).Released? ==>
              var r, v := At(w, a).r, Step(w, TryDiscard(a));
              if r in w.reg.registered && r !in w.reg.busy && w.depth == 0
              then At(v, a) == Returning(r, []) && v.reg.registered == w.reg.registered - {r}
              else At(v, a) == Away && v.reg == w.reg && v.stock == w.stock
    ensures At(w, a).Sweeping? ==>
              var rest, v := At(w, a).rest, Step(w, Sweep(a));
              if rest == [] then At(v, a) == Away
              else if rest[0] in w.reg.registered && rest[0] !in w.reg.busy && w.depth == 0
              then At(v, a) == Returning(rest[0], rest[1..]) && v.reg.registered == w.reg.registered - {rest[0]}
              else At(v, a) == Sweeping(rest[1..]) && v.reg == w.reg && v.stock == w.stock
    ensures At(w, a).Returning? ==>
              var (r, rest) := (At(w, a).r, At(w, a).rest);
              At(Step(w, GiveBack(a)), a) == Ending(r, rest) && At(Step(Step(w, GiveBack(a)), End(a)), a) == Sweeping(rest)
  {
    if At(w, a).Returning? { assert At(Step(w, GiveBack(a)), a).Ending?; }
  }

  /** The last hold's end sweeps the sessions that are idle when it lists them; an earlier one sweeps nothing. */
  lemma {:induction false} UnholdGoes(w: World, a: nat, token: nat, order: seq<nat>)
    ensures At(w, a).Away? && token in w.open ==>
              var v := Step(w, Unhold(a, token));
              && token !in v.open && v.depth == (if w.depth == 0 then 0 else w.depth - 1)
              && At(v, a) == (if v.depth == 0 then Closing else Away)
    ensures At(w, a).Closing? && D.NoDup(order) && (forall r :: r in order <==> r in w.reg.registered && r !in w.reg.busy) ==>
              At(Step(w, ListIdle(a, order)), a) == Sweeping(order)
  {
  }

  /** A shutdown empties the pool at once, and then gives every session's devices back. */
  lemma {:induction false} ShutdownGoes(account: D.Account, acts: seq<Action>, a: nat, order: seq<nat>)
    requires D.Matches(account, []) && At(Run(Initial(account), acts), a).Away?
    requires D.NoDup(order) && forall r :: r in order <==> r in Run(Initial(account), acts).reg.registered
    ensures var v := Step(Run(Initial(account), acts), Shutdown(a, order));
            v.reg.registered == {} && v.depth == 0 && At(v, a) == Dropping(order)
            && forall r | r in order :: r in v.stock.where && v.stock.where[r] == With(a)
  {
    InitialInv(account);
    RunInv(Initial(account), acts);
  }
}
