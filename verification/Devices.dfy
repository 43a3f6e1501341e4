/**
  Device reservation of one provider account: `reserve`, `unreserve` and `free`.

  An accelerator either has registered indices, of which a reservation takes the first free
  ones, or a bare count. The `Ledger` is the specification: the grants given and not yet given
  back, in order. `Matches` says the account's tables are exactly what the ledger holds.
*/
module Devices {
  type Slot = string

  /** One inventory entry: `chooses_indices`, or only a count. */
  datatype Kind = Indices(registered: seq<nat>) | Count(count: nat)

  datatype Account = Account(inventory: map<Slot, Kind>, reserved: map<Slot, seq<nat>>, taken: map<Slot, nat>)

  datatype Reservation = Refused | Granted(indices: seq<nat>)

  function Reserved(a: Account, x: Slot): seq<nat> {
    if x in a.reserved then a.reserved[x] else []
  }

  function Taken(a: Account, x: Slot): nat {
    if x in a.taken then a.taken[x] else 0
  }

  /** Registered indices in neither set, in order. */
  function Free(registered: seq<nat>, held: seq<nat>, busy: set<nat>): (r: seq<nat>)
    ensures forall i :: i in r <==> i in registered && i !in held && i !in busy
    ensures NoDup(registered) ==> NoDup(r)
  {
    if registered == [] then []
    else
      var rest := Free(registered[1..], held, busy);
      if registered[0] in held || registered[0] in busy then rest else [registered[0]] + rest
  }

  ghost predicate NoDup(s: seq<nat>) {
    forall i, j :: 0 <= i < j < |s| ==> s[i] != s[j]
  }

  /** What a reservation answers; `busy` is what the machine reports. */
  function Answer(a: Account, x: Slot, wanted: nat, busy: set<nat>): (r: Reservation)
    requires x in a.inventory
    ensures a.inventory[x].Indices? && r.Granted? ==> |r.indices| == wanted
    ensures a.inventory[x].Count? && r.Granted? ==> r.indices == []
  {
    match a.inventory[x]
    case Indices(registered) =>
      var available := Free(registered, Reserved(a, x), busy);
      if |available| < wanted then Refused else Granted(available[..wanted])
    case Count(count) =>
      if Taken(a, x) + wanted > count then Refused else Granted([])
  }

  function AfterReserve(a: Account, x: Slot, wanted: nat, busy: set<nat>): Account
    requires x in a.inventory
  {
    match Answer(a, x, wanted, busy)
    case Refused => a
    case Granted(indices) =>
      if a.inventory[x].Indices? then a.(reserved := a.reserved[x := Reserved(a, x) + indices])
      else a.(taken := a.taken[x := Taken(a, x) + wanted])
  }

  /** list.remove of the first occurrence, when there is one. */
  function RemoveFirst(s: seq<nat>, i: nat): seq<nat> {
    if s == [] then [] else if s[0] == i then s[1..] else [s[0]] + RemoveFirst(s[1..], i)
  }

  function RemoveEach(s: seq<nat>, indices: seq<nat>): seq<nat>
    decreases |indices|
  {
    if indices == [] then s
    else RemoveFirst(RemoveEach(s, indices[..|indices| - 1]), indices[|indices| - 1])
  }

  function AfterUnreserve(a: Account, x: Slot, indices: seq<nat>, devices: nat): Account {
    if indices != [] then
      (if x in a.reserved then a.(reserved := a.reserved[x := RemoveEach(a.reserved[x], indices)]) else a)
    else a.(taken := a.taken[x := if Taken(a, x) < devices then 0 else Taken(a, x) - devices])
  }

  // ---------------------------------------------------------------- the ledger

  datatype Grant = Grant(id: nat, slot: Slot, devices: nat, indices: seq<nat>)
  type Ledger = seq<Grant>

  /** The indices of accelerator x that are out, in the order they were granted. */
  function Out(l: Ledger, x: Slot): seq<nat> {
    if l == [] then [] else (if l[0].slot == x then l[0].indices else []) + Out(l[1..], x)
  }

  /** How many devices of accelerator x are out without being indices. */
  function Counted(l: Ledger, x: Slot): nat {
    if l == [] then 0
    else (if l[0].slot == x && l[0].indices == [] then l[0].devices else 0) + Counted(l[1..], x)
  }

  ghost predicate SlotMatches(a: Account, l: Ledger, x: Slot) {
    Reserved(a, x) == Out(l, x) && Taken(a, x) == Counted(l, x)
  }

  /** No index is out twice and nothing exceeds the inventory. */
  ghost predicate SlotSound(a: Account, x: Slot) {
    && NoDup(Reserved(a, x))
    && (x in a.inventory ==>
          match a.inventory[x]
          case Indices(registered) =>
            NoDup(registered) && (forall i | i in Reserved(a, x) :: i in registered) && Taken(a, x) == 0
          case Count(count) => Reserved(a, x) == [] && Taken(a, x) <= count)
  }

  ghost predicate Matches(a: Account, l: Ledger) {
    forall x :: SlotMatches(a, l, x) && SlotSound(a, x)
  }

  lemma {:induction false} OutAppend(l: Ledger, m: Ledger, x: Slot)
    ensures Out(l + m, x) == Out(l, x) + Out(m, x)
    decreases |l|
  {
    if l == [] {
      assert l + m == m;
    } else {
      OutAppend(l[1..], m, x);
      assert (l + m)[1..] == l[1..] + m;
    }
  }

  lemma {:induction false} CountedAppend(l: Ledger, m: Ledger, x: Slot)
    ensures Counted(l + m, x) == Counted(l, x) + Counted(m, x)
    decreases |l|
  {
    if l == [] {
      assert l + m == m;
    } else {
      CountedAppend(l[1..], m, x);
      assert (l + m)[1..] == l[1..] + m;
    }
  }

  lemma {:induction false} NoDupAppend(s: seq<nat>, t: seq<nat>)
    requires NoDup(s) && NoDup(t) && forall i | i in t :: i !in s
    ensures NoDup(s + t)
  {
    forall i, j | 0 <= i < j < |s + t| ensures (s + t)[i] != (s + t)[j] {
      if i < |s| <= j { assert (s + t)[j] in t; }
    }
  }

  lemma {:induction false} TakeFirst(registered: seq<nat>, held: seq<nat>, busy: set<nat>, n: nat)
    requires NoDup(registered) && n <= |Free(registered, held, busy)|
    ensures var t := Free(registered, held, busy)[..n];
            NoDup(t) && forall i | i in t :: i in registered && i !in held && i !in busy
  {
    var f := Free(registered, held, busy);
    forall i | i in f[..n] ensures i in f {}
  }

  lemma {:induction false} GrantedSlot(a: Account, l: Ledger, g: Grant, busy: set<nat>)
    requires SlotMatches(a, l, g.slot) && SlotSound(a, g.slot) && g.slot in a.inventory
    requires Answer(a, g.slot, g.devices, busy) == Granted(g.indices)
    ensures var b := AfterReserve(a, g.slot, g.devices, busy);
            SlotMatches(b, l + [g], g.slot) && SlotSound(b, g.slot)
    ensures forall i | i in g.indices :: i !in Out(l, g.slot) && i !in busy
  {
    var x := g.slot;
    OutAppend(l, [g], x);
    CountedAppend(l, [g], x);
    if a.inventory[x].Indices? {
      TakeFirst(a.inventory[x].registered, Reserved(a, x), busy, g.devices);
      NoDupAppend(Reserved(a, x), g.indices);
    }
  }

  lemma {:induction false} OtherSlot(a: Account, l: Ledger, g: Grant, busy: set<nat>, y: Slot)
    requires g.slot in a.inventory && y != g.slot && SlotMatches(a, l, y) && SlotSound(a, y)
    ensures var b := AfterReserve(a, g.slot, g.devices, busy); SlotMatches(b, l + [g], y) && SlotSound(b, y)
  {
    var b := AfterReserve(a, g.slot, g.devices, busy);
    OutAppend(l, [g], y);
    CountedAppend(l, [g], y);
    assert Reserved(b, y) == Reserved(a, y) && Taken(b, y) == Taken(a, y);
  }

  /** A reservation takes exactly what was asked, of what was free, or nothing at all. */
  lemma {:induction false} ReserveKeeps(a: Account, l: Ledger, id: nat, x: Slot, wanted: nat, busy: set<nat>)
    requires Matches(a, l) && x in a.inventory
    ensures var r := Answer(a, x, wanted, busy);
            && Matches(AfterReserve(a, x, wanted, busy), if r.Granted? then l + [Grant(id, x, wanted, r.indices)] else l)
            && (r.Granted? ==> forall i | i in r.indices :: i !in Out(l, x) && i !in busy)
  {
    assert SlotMatches(a, l, x) && SlotSound(a, x);
    var r, b := Answer(a, x, wanted, busy), AfterReserve(a, x, wanted, busy);
    if r.Granted? {
      var g := Grant(id, x, wanted, r.indices);
      GrantedSlot(a, l, g, busy);
      forall y ensures SlotMatches(b, l + [g], y) && SlotSound(b, y) {
        assert SlotMatches(a, l, y) && SlotSound(a, y);
        if y != x { OtherSlot(a, l, g, busy, y); }
      }
    }
  }

  /** A reservation is refused just when fewer than asked are free. */
  lemma {:induction false} RefusedExactly(a: Account, l: Ledger, x: Slot, wanted: nat, busy: set<nat>)
    requires Matches(a, l) && x in a.inventory
    ensures a.inventory[x].Indices? ==>
              (Answer(a, x, wanted, busy).Refused?
               <==> |set i | i in a.inventory[x].registered && i !in Out(l, x) && i !in busy| < wanted)
    ensures a.inventory[x].Count? ==> (Answer(a, x, wanted, busy).Refused? <==> a.inventory[x].count < Counted(l, x) + wanted)
    ensures Answer(a, x, wanted, busy).Refused? ==> AfterReserve(a, x, wanted, busy) == a
  {
    assert SlotMatches(a, l, x) && SlotSound(a, x);
    if a.inventory[x].Indices? {
      var registered := a.inventory[x].registered;
      var available := Free(registered, Reserved(a, x), busy);
      DistinctSize(available);
      assert (set i | i in registered && i !in Out(l, x) && i !in busy) == Elements(available);
    }
  }

  /** Positions of a list, in order. */
  ghost predicate Increasing(at: seq<nat>) {
    forall i, j :: 0 <= i < j < |at| ==> at[i] < at[j]
  }

  /** The list has these values at these positions. */
  ghost predicate Picks(list: seq<nat>, at: seq<nat>, values: seq<nat>) {
    |at| == |values| && forall i | 0 <= i < |at| :: at[i] < |list| && list[at[i]] == values[i]
  }

  /** Each position whose index nobody has is among them. */
  ghost predicate PicksFree(list: seq<nat>, held: seq<nat>, busy: set<nat>, at: seq<nat>) {
    forall k | 0 <= k < |list| && list[k] !in held && list[k] !in busy :: k in at
  }

  function Moved(at: seq<nat>): (r: seq<nat>)
    ensures |r| == |at| && forall i | 0 <= i < |at| :: r[i] == at[i] + 1
  {
    seq(|at|, i requires 0 <= i < |at| => at[i] + 1)
  }

  lemma {:induction false} MovedPicks(list: seq<nat>, at: seq<nat>, values: seq<nat>)
    requires list != [] && Picks(list[1..], at, values) && Increasing(at)
    ensures Picks(list, Moved(at), values) && Increasing(Moved(at)) && forall k | k in Moved(at) :: k > 0
  {
  }

  lemma {:induction false} MovedFree(list: seq<nat>, held: seq<nat>, busy: set<nat>, at: seq<nat>)
    requires list != [] && PicksFree(list[1..], held, busy, at)
    ensures forall k | 0 < k < |list| && list[k] !in held && list[k] !in busy :: k in Moved(at)
  {
    forall k | 0 < k < |list| && list[k] !in held && list[k] !in busy ensures k in Moved(at) {
      assert list[1..][k - 1] == list[k] && k - 1 in at;
      var i :| 0 <= i < |at| && at[i] == k - 1;
      assert Moved(at)[i] == k;
    }
  }

  lemma {:induction false} FirstPicks(list: seq<nat>, at: seq<nat>, values: seq<nat>)
    requires list != [] && Picks(list, at, values) && Increasing(at) && forall k | k in at :: k > 0
    ensures Picks(list, [0] + at, [list[0]] + values) && Increasing([0] + at)
  {
    forall i, j | 0 <= i < j < |[0] + at| ensures ([0] + at)[i] < ([0] + at)[j] {
      assert ([0] + at)[j] == at[j - 1];
      if i > 0 { assert ([0] + at)[i] == at[i - 1]; } else { assert at[j - 1] in at; }
    }
  }

  lemma {:induction false} FirstFree(list: seq<nat>, held: seq<nat>, busy: set<nat>, at: seq<nat>)
    requires forall k | 0 < k < |list| && list[k] !in held && list[k] !in busy :: k in at
    ensures PicksFree(list, held, busy, [0] + at)
  {
  }

  /** The values at the positions are those of the list that nobody has, all of them and in order. */
  ghost predicate Chosen(list: seq<nat>, held: seq<nat>, busy: set<nat>, at: seq<nat>, values: seq<nat>) {
    Increasing(at) && Picks(list, at, values) && PicksFree(list, held, busy, at)
  }

  lemma {:induction false} SkipFirst(list: seq<nat>, held: seq<nat>, busy: set<nat>, at: seq<nat>, values: seq<nat>)
    requires list != [] && Chosen(list[1..], held, busy, at, values) && (list[0] in held || list[0] in busy)
    ensures Chosen(list, held, busy, Moved(at), values)
  {
    MovedPicks(list, at, values);
    MovedFree(list, held, busy, at);
  }

  lemma {:induction false} ChooseFirst(list: seq<nat>, held: seq<nat>, busy: set<nat>, at: seq<nat>, values: seq<nat>)
    requires list != [] && Chosen(list[1..], held, busy, at, values)
    ensures Chosen(list, held, busy, [0] + Moved(at), [list[0]] + values)
  {
    MovedPicks(list, at, values);
    MovedFree(list, held, busy, at);
    FirstPicks(list, Moved(at), values);
    FirstFree(list, held, busy, Moved(at));
  }

  /** Where the free indices are. */
  ghost function FreeAt(registered: seq<nat>, held: seq<nat>, busy: set<nat>): seq<nat> {
    if registered == [] then []
    else
      var later := Moved(FreeAt(registered[1..], held, busy));
      if registered[0] in held || registered[0] in busy then later else [0] + later
  }

  lemma {:induction false} FreeChosen(registered: seq<nat>, held: seq<nat>, busy: set<nat>)
    ensures Chosen(registered, held, busy, FreeAt(registered, held, busy), Free(registered, held, busy))
    decreases |registered|
  {
    if registered != [] {
      FreeChosen(registered[1..], held, busy);
      var at, values := FreeAt(registered[1..], held, busy), Free(registered[1..], held, busy);
      if registered[0] in held || registered[0] in busy {
        SkipFirst(registered, held, busy, at, values);
      } else {
        ChooseFirst(registered, held, busy, at, values);
      }
    }
  }

  /**
    The indices granted are the first free ones of the registered list, in its order: the one at each
    of some increasing positions, and none that is free comes between them or before them and is left.
  */
  lemma {:induction false} GrantsFirstFree(a: Account, x: Slot, wanted: nat, busy: set<nat>) returns (at: seq<nat>)
    requires x in a.inventory && a.inventory[x].Indices? && Answer(a, x, wanted, busy).Granted?
    ensures var registered, got := a.inventory[x].registered, Answer(a, x, wanted, busy).indices;
            var held := if x in a.reserved then a.reserved[x] else [];
            && |got| == wanted && Increasing(at) && Picks(registered, at, got)
            && (forall i | i in got :: i !in held && i !in busy)
            && (forall i, k | 0 <= i < |at| && 0 <= k < at[i] && registered[k] !in held && registered[k] !in busy :: k in at)
  {
    var registered, held := a.inventory[x].registered, Reserved(a, x);
    var all := FreeAt(registered, held, busy);
    FreeChosen(registered, held, busy);
    at := all[..wanted];
    forall i | i in Free(registered, held, busy)[..wanted] ensures i in Free(registered, held, busy) {}
    NoneLeft(registered, held, busy, all, wanted);
  }

  lemma {:induction false} NoneLeft(list: seq<nat>, held: seq<nat>, busy: set<nat>, all: seq<nat>, wanted: nat)
    requires Increasing(all) && PicksFree(list, held, busy, all) && wanted <= |all|
    ensures forall i, k | 0 <= i < wanted && 0 <= k < all[i] && k < |list| && list[k] !in held && list[k] !in busy :: k in all[..wanted]
  {
    forall i, k | 0 <= i < wanted && 0 <= k < all[i] && k < |list| && list[k] !in held && list[k] !in busy
      ensures k in all[..wanted]
    {
      var j :| 0 <= j < |all| && all[j] == k;
      assert j < i;
      assert all[..wanted][j] == k;
    }
  }

  function Elements(s: seq<nat>): (r: set<nat>)
    ensures forall i :: i in r <==> i in s
  {
    set i | i in s
  }

  lemma {:induction false} DistinctSize(s: seq<nat>)
    requires NoDup(s)
    ensures |Elements(s)| == |s|
    decreases |s|
  {
    if s != [] {
      DistinctSize(s[1..]);
      assert s[0] !in s[1..];
      assert forall i :: i in s <==> i == s[0] || i in s[1..];
      assert Elements(s) == {s[0]} + Elements(s[1..]);
    } else {
      assert Elements(s) == {};
    }
  }

  lemma {:induction false} RemoveFirstAt(s: seq<nat>, i: nat, t: seq<nat>)
    requires i !in s
    ensures RemoveFirst(s + [i] + t, i) == s + t
    decreases |s|
  {
    if s == [] {
      assert s + [i] + t == [i] + t;
    } else {
      RemoveFirstAt(s[1..], i, t);
      assert (s + [i] + t)[1..] == s[1..] + [i] + t;
      assert s + t == [s[0]] + (s[1..] + t);
    }
  }

  /** Removing a block's elements one by one from a list without duplicates removes the block. */
  lemma {:induction false} RemoveBlock(s: seq<nat>, block: seq<nat>, t: seq<nat>, n: nat)
    requires NoDup(s + block + t) && n <= |block|
    ensures RemoveEach(s + block + t, block[..n]) == s + block[n..] + t
    decreases n
  {
    if n > 0 {
      RemoveBlock(s, block, t, n - 1);
      assert block[..n][..n - 1] == block[..n - 1];
      assert s + block[n - 1..] + t == s + [block[n - 1]] + (block[n..] + t);
      forall k | 0 <= k < |s| ensures s[k] != block[n - 1] {
        assert (s + block + t)[k] == s[k] && (s + block + t)[|s| + n - 1] == block[n - 1];
      }
      RemoveFirstAt(s, block[n - 1], block[n..] + t);
      assert s + (block[n..] + t) == s + block[n..] + t;
    } else {
      assert block[..0] == [] && block[0..] == block;
    }
  }

  lemma {:induction false} NoDupWithout(s: seq<nat>, block: seq<nat>, t: seq<nat>)
    requires NoDup(s + block + t)
    ensures NoDup(s + t)
  {
    var whole := s + block + t;
    forall i, j | 0 <= i < j < |s + t| ensures (s + t)[i] != (s + t)[j] {
      var k := if i < |s| then i else i + |block|;
      var m := if j < |s| then j else j + |block|;
      assert (s + t)[i] == whole[k] && (s + t)[j] == whole[m];
    }
  }

  lemma {:induction false} Around(l: Ledger, k: nat, x: Slot)
    requires k < |l|
    ensures Out(l, x) == Out(l[..k], x) + Out([l[k]], x) + Out(l[k + 1..], x)
    ensures Counted(l, x) == Counted(l[..k], x) + Counted([l[k]], x) + Counted(l[k + 1..], x)
    ensures Out(l[..k] + l[k + 1..], x) == Out(l[..k], x) + Out(l[k + 1..], x)
    ensures Counted(l[..k] + l[k + 1..], x) == Counted(l[..k], x) + Counted(l[k + 1..], x)
  {
    assert l == l[..k] + [l[k]] + l[k + 1..];
    OutAppend(l[..k] + [l[k]], l[k + 1..], x);
    OutAppend(l[..k], [l[k]], x);
    CountedAppend(l[..k] + [l[k]], l[k + 1..], x);
    CountedAppend(l[..k], [l[k]], x);
    OutAppend(l[..k], l[k + 1..], x);
    CountedAppend(l[..k], l[k + 1..], x);
  }

  /** A list without duplicates, from which one block is given back. */
  lemma {:induction false} BlockReturned(s: seq<nat>, block: seq<nat>, t: seq<nat>)
    requires NoDup(s + block + t)
    ensures RemoveEach(s + block + t, block) == s + t && NoDup(s + t) && forall i | i in s + t :: i in s + block + t
  {
    RemoveBlock(s, block, t, |block|);
    assert block[..|block|] == block && s + block[|block|..] + t == s + t;
    NoDupWithout(s, block, t);
    forall i | i in s + t ensures i in s + block + t { assert i in s || i in t; }
  }

  lemma {:induction false} UnreserveSlot(a: Account, l: Ledger, k: nat)
    requires Matches(a, l) && k < |l|
    ensures var b := AfterUnreserve(a, l[k].slot, l[k].indices, l[k].devices);
            SlotMatches(b, l[..k] + l[k + 1..], l[k].slot) && SlotSound(b, l[k].slot)
  {
    var g := l[k];
    var x := g.slot;
    assert SlotMatches(a, l, x) && SlotSound(a, x);
    Around(l, k, x);
    if g.indices != [] {
      var s, t := Out(l[..k], x), Out(l[k + 1..], x);
      assert Reserved(a, x) == s + g.indices + t;
      BlockReturned(s, g.indices, t);
    }
  }

  /** Giving a grant back undoes it, whichever others were granted or given back in between. */
  lemma {:induction false} UnreserveKeeps(a: Account, l: Ledger, k: nat)
    requires Matches(a, l) && k < |l|
    ensures Matches(AfterUnreserve(a, l[k].slot, l[k].indices, l[k].devices), l[..k] + l[k + 1..])
  {
    var b, m := AfterUnreserve(a, l[k].slot, l[k].indices, l[k].devices), l[..k] + l[k + 1..];
    forall y ensures SlotMatches(b, m, y) && SlotSound(b, y) {
      if y == l[k].slot {
        UnreserveSlot(a, l, k);
      } else {
        assert SlotMatches(a, l, y) && SlotSound(a, y);
        Around(l, k, y);
        assert Reserved(b, y) == Reserved(a, y) && Taken(b, y) == Taken(a, y);
      }
    }
  }

  /** The provider's own tables, updated in place under its lock. */
  class Provider {
    const inventory: map<Slot, Kind>
    var reserved: map<Slot, seq<nat>>
    var taken: map<Slot, nat>

    constructor (inventory: map<Slot, Kind>)
      requires forall x | x in inventory && inventory[x].Indices? :: NoDup(inventory[x].registered)
      ensures this.inventory == inventory && Matches(State(), [])
    {
      this.inventory := inventory;
      reserved, taken := map[], map[];
    }

    ghost function State(): Account
      reads this
    {
      Account(inventory, reserved, taken)
    }

    method Reserve(x: Slot, wanted: nat, busy: set<nat>) returns (r: Reservation)
      requires x in inventory
      modifies this
      ensures r == Answer(old(State()), x, wanted, busy)
      ensures State() == AfterReserve(old(State()), x, wanted, busy)
    {
      match inventory[x]
      case Indices(registered) =>
        var held := if x in reserved then reserved[x] else [];
        var available := Free(registered, held, busy);
        if |available| < wanted { return Refused; }
        reserved := reserved[x := held + available[..wanted]];
        r := Granted(available[..wanted]);
      case Count(count) =>
        var used := if x in taken then taken[x] else 0;
        if used + wanted > count { return Refused; }
        taken := taken[x := used + wanted];
        r := Granted([]);
    }

    method Unreserve(x: Slot, indices: seq<nat>, devices: nat)
      modifies this
      ensures State() == AfterUnreserve(old(State()), x, indices, devices)
    {
      if indices != [] {
        if x !in reserved { return; }
        var held := reserved[x];
        ghost var before := held;
        for k := 0 to |indices|
          invariant State() == old(State())
          invariant held == RemoveEach(before, indices[..k])
        {
          assert indices[..k + 1][..k] == indices[..k];
          held := RemoveFirst(held, indices[k]);
        }
        assert indices[..|indices|] == indices;
        reserved := reserved[x := held];
      } else {
        var used := if x in taken then taken[x] else 0;
        taken := taken[x := if used < devices then 0 else used - devices];
      }
    }
  }
}
