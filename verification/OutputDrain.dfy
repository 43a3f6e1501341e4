/**
  The reading thread of a captured descriptor: what it reads is sent on with every drain token
  removed, and a token may be split across reads.

  A drain token tells the call how far its output has been framed, so what matters is not only
  the bytes sent but where among them `reached` was set.
*/
module OutputDrain {
  import opened Bytes

  /** 0x1a 0x1a "LETIFY-DRAIN-7f3a9c4e" 0x1a 0x1a */
  const DRAIN_TOKEN: Data :=
    [0x1a, 0x1a, 0x4c, 0x45, 0x54, 0x49, 0x46, 0x59, 0x2d, 0x44, 0x52, 0x41, 0x49, 0x4e, 0x2d,
     0x37, 0x66, 0x33, 0x61, 0x39, 0x63, 0x34, 0x65, 0x1a, 0x1a]

  // ---------------------------------------------------------------- what is promised

  predicate Occurs(t: Data, d: Data, i: nat) {
    i + |t| <= |d| && d[i..i + |t|] == t
  }

  ghost predicate Free(t: Data, d: Data) {
    forall i: nat :: !Occurs(t, d, i)
  }

  ghost predicate First(t: Data, d: Data, i: nat) {
    Occurs(t, d, i) && forall j: nat | j < i :: !Occurs(t, d, j)
  }

  /** Where the token first occurs in `d`, or |d| when it does not. */
  ghost function Find(t: Data, d: Data): nat {
    if i: nat :| First(t, d, i) then i else |d|
  }

  lemma {:induction false} Least(t: Data, d: Data, i: nat)
    requires Occurs(t, d, i)
    ensures exists k: nat :: First(t, d, k)
  {
    if j: nat :| j < i && Occurs(t, d, j) {
      Least(t, d, j);
    } else {
      assert First(t, d, i);
    }
  }

  lemma {:induction false} FindFirst(t: Data, d: Data)
    requires t != []
    ensures var i := Find(t, d);
            if i + |t| <= |d| then First(t, d, i) else i == |d| && Free(t, d)
  {
    forall i: nat | Occurs(t, d, i) ensures First(t, d, Find(t, d)) { Least(t, d, i); }
  }

  /** The first occurrence is the one `Find` answers. */
  lemma {:induction false} FindIs(t: Data, d: Data, at: nat)
    requires t != [] && First(t, d, at)
    ensures Find(t, d) == at
  {
    FindFirst(t, d);
  }

  /** The bytes in front of each removed token, leftmost first and never overlapping, and the rest. */
  datatype Cut = Cut(groups: seq<Data>, residue: Data)

  ghost function CutUp(t: Data, d: Data): Cut
    requires t != []
    decreases |d|
  {
    var at := Find(t, d);
    if at + |t| > |d| then Cut([], d)
    else var later := CutUp(t, d[at + |t|..]); Cut([d[..at]] + later.groups, later.residue)
  }

  function After(groups: seq<Data>, c: Cut): Cut {
    Cut(groups + c.groups, c.residue)
  }

  function Before(pre: Data, later: Cut): Cut {
    Cut([pre] + later.groups, later.residue)
  }

  /** The first token of `d` splits it into `pre`, the token and `rest`. */
  lemma {:induction false} CutAt(t: Data, d: Data, pre: Data, rest: Data)
    requires t != [] && Find(t, d) == |pre| && d == pre + t + rest
    ensures CutUp(t, d) == Before(pre, CutUp(t, rest))
  {
    assert d[..|pre|] == pre && d[|pre| + |t|..] == rest;
  }

  /** The last `j` bytes of `d` are the start of a token. */
  predicate Starts(t: Data, d: Data, j: nat) {
    j <= |d| && d[|d| - j..] <= t
  }

  /** `k` bytes at the end of `d` are the most that can be the start of a split token. */
  ghost predicate Longest(t: Data, d: Data, k: nat) {
    k < |t| && Starts(t, d, k) && forall j: nat | k < j < |t| :: !Starts(t, d, j)
  }

  /**
    What the reading thread has done with `input`: a group of bytes was sent before each
    `reached`, `open` was sent after the last one, and `tail` is withheld.
  */
  ghost predicate Drained(t: Data, input: Data, groups: seq<Data>, open: Data, tail: Data)
    requires t != []
  {
    CutUp(t, input) == Cut(groups, open + tail) && Longest(t, open + tail, |tail|)
  }

  /** The result is a function of the bytes alone, so it does not depend on how reads split them. */
  lemma {:induction false} ChunkingIndependent(t: Data, input: Data, g: seq<Data>, o: Data, k: Data,
                            g': seq<Data>, o': Data, k': Data)
    requires t != [] && Drained(t, input, g, o, k) && Drained(t, input, g', o', k')
    ensures g == g' && o == o' && k == k'
  {
    var r := CutUp(t, input).residue;
    assert Starts(t, r, |k|) && Starts(t, r, |k'|);
    assert o == r[..|o|] && o' == r[..|o'|] && k == r[|o|..] && k' == r[|o'|..];
  }

  function Rejoin(t: Data, groups: seq<Data>, residue: Data): Data {
    if groups == [] then residue else groups[0] + t + Rejoin(t, groups[1..], residue)
  }

  /** Nothing but tokens is removed. */
  lemma {:induction false} NothingElseLost(t: Data, d: Data)
    requires t != []
    ensures Rejoin(t, CutUp(t, d).groups, CutUp(t, d).residue) == d
    decreases |d|
  {
    FindFirst(t, d);
    var at := Find(t, d);
    if at + |t| <= |d| {
      var rest := d[at + |t|..];
      NothingElseLost(t, rest);
      assert CutUp(t, d).groups[1..] == CutUp(t, rest).groups;
      AroundToken(t, d, at);
    }
  }

  lemma {:induction false} AroundToken(t: Data, d: Data, at: nat)
    requires Occurs(t, d, at)
    ensures d == d[..at] + t + d[at + |t|..]
  {
    assert d == d[..at] + d[at..at + |t|] + d[at + |t|..];
  }

  /** No token is left in what follows the last one. */
  lemma {:induction false} ResidueFree(t: Data, d: Data)
    requires t != []
    ensures Free(t, CutUp(t, d).residue)
    decreases |d|
  {
    FindFirst(t, d);
    if Find(t, d) + |t| <= |d| { ResidueFree(t, d[Find(t, d) + |t|..]); }
  }

  /** In front of a removed token there is none, not even one that overlaps it. */
  lemma {:induction false} LeftmostFirst(t: Data, d: Data, k: nat)
    requires t != [] && k < |CutUp(t, d).groups|
    ensures First(t, CutUp(t, d).groups[k] + t, |CutUp(t, d).groups[k]|)
    decreases |d|
  {
    FindFirst(t, d);
    var at := Find(t, d);
    if at + |t| <= |d| {
      if k == 0 {
        AroundToken(t, d, at);
        var g := d[..at] + t;
        forall j: nat | j <= at ensures Occurs(t, g, j) <==> Occurs(t, d, j) { assert g == d[..at + |t|]; }
      } else {
        LeftmostFirst(t, d[at + |t|..], k - 1);
      }
    }
  }

  /** The token's text, between two control characters on either side. */
  lemma {:induction false} TokenText(i: nat)
    requires i < 25
    ensures |DRAIN_TOKEN| == 25
    ensures DRAIN_TOKEN[i] as int == if 2 <= i < 23 then "LETIFY-DRAIN-7f3a9c4e"[i - 2] as int else 0x1a
  {
  }

  // ---------------------------------------------------------------- one more read

  /** A token found in `d` is still the first one when more bytes follow. */
  lemma {:induction false} FindStable(t: Data, d: Data, more: Data)
    requires t != [] && Find(t, d) + |t| <= |d|
    ensures Find(t, d + more) == Find(t, d)
  {
    var at := Find(t, d);
    FindFirst(t, d);
    forall j: nat | j <= at ensures Occurs(t, d + more, j) <==> Occurs(t, d, j) {
      assert (d + more)[j..j + |t|] == d[j..j + |t|];
    }
    FindIs(t, d + more, at);
  }

  /** More input changes only what comes after the last token so far. */
  lemma {:induction false} CutExtend(t: Data, d: Data, more: Data)
    requires t != []
    ensures CutUp(t, d + more) == After(CutUp(t, d).groups, CutUp(t, CutUp(t, d).residue + more))
    decreases |d|
  {
    var at := Find(t, d);
    if at + |t| <= |d| {
      FindStable(t, d, more);
      FindFirst(t, d);
      CutExtend(t, d[at + |t|..], more);
      ExtendBehind(t, d, more, d[..at], d[at + |t|..]);
    } else {
      JoinGroups([], [], CutUp(t, d + more).groups);
    }
  }

  lemma {:induction false} ExtendBehind(t: Data, d: Data, more: Data, pre: Data, rest: Data)
    requires t != [] && Occurs(t, d, |pre|) && d[..|pre|] == pre && d[|pre| + |t|..] == rest
    requires Find(t, d) == |pre| == Find(t, d + more)
    requires CutUp(t, rest + more) == After(CutUp(t, rest).groups, CutUp(t, CutUp(t, rest).residue + more))
    ensures CutUp(t, d + more) == After(CutUp(t, d).groups, CutUp(t, CutUp(t, d).residue + more))
  {
    AroundToken(t, d, |pre|);
    assert d + more == pre + t + (rest + more);
    CutAt(t, d, pre, rest);
    CutAt(t, d + more, pre, rest + more);
    JoinGroups([pre], CutUp(t, rest).groups, CutUp(t, CutUp(t, rest).residue + more).groups);
  }

  lemma {:induction false} JoinGroups(a: seq<Data>, b: seq<Data>, c: seq<Data>)
    ensures a + (b + c) == (a + b) + c && [] + c == c
  {
  }

  /** A token that begins in `r` and ends beyond it makes the end of `r` a token's start. */
  lemma {:induction false} SplitToken(t: Data, r: Data, more: Data, p: nat)
    requires p < |r| < p + |t| && Occurs(t, r + more, p)
    ensures Starts(t, r, |r| - p)
  {
    var j := |r| - p;
    assert r[p..] == (r + more)[p..p + |t|][..j] == t[..j];
  }

  /** If more than the new bytes can start a token, then the bytes before them already could. */
  lemma {:induction false} StartsEarlier(t: Data, r: Data, more: Data, j: nat)
    requires j >= |more| && Starts(t, r + more, j)
    ensures Starts(t, r, j - |more|)
  {
    var all, i := r + more, j - |more|;
    assert r[|r| - i..] == all[|all| - j..][..i] == t[..j][..i] == t[..i];
  }

  /** What was sent before the tail cannot be part of a token that ends in later bytes. */
  lemma {:induction false} NoTokenStartsEarlier(t: Data, sent: Data, tail: Data, more: Data, p: nat)
    requires t != [] && Free(t, sent + tail) && Longest(t, sent + tail, |tail|) && p < |sent|
    ensures !Occurs(t, sent + tail + more, p)
  {
    var r := sent + tail;
    assert !Occurs(t, r, p);
    if p + |t| <= |r| {
      assert r[p..p + |t|] == (r + more)[p..p + |t|];
    } else if Occurs(t, r + more, p) {
      SplitToken(t, r, more, p);
      assert false;
    }
  }

  lemma {:induction false} OccursInNew(t: Data, sent: Data, tail: Data, more: Data, j: nat)
    requires t != [] && Free(t, sent + tail) && Longest(t, sent + tail, |tail|)
    ensures Occurs(t, sent + (tail + more), j) <==> j >= |sent| && Occurs(t, tail + more, j - |sent|)
  {
    var d := tail + more;
    var all := sent + d;
    assert all == sent + tail + more;
    if j < |sent| {
      NoTokenStartsEarlier(t, sent, tail, more, j);
    } else if j + |t| <= |all| {
      assert all[j..j + |t|] == d[j - |sent|..j - |sent| + |t|];
    }
  }

  /** The cut of `open + data`, found by looking for tokens in `data` alone. */
  ghost function NextCut(t: Data, open: Data, data: Data): Cut
    requires t != []
  {
    var at := Find(t, data);
    if at + |t| > |data| then Cut([], open + data)
    else Before(open + data[..at], CutUp(t, data[at + |t|..]))
  }

  /** And what may be the start of a token is the same. */
  ghost predicate SameHeld(t: Data, open: Data, data: Data) {
    forall k: nat | Longest(t, data, k) :: Longest(t, open + data, k)
  }

  lemma {:induction false} NextNew(t: Data, data: Data)
    requires t != []
    ensures NextCut(t, [], data) == CutUp(t, data)
  {
    assert [] + data == data;
    var at := Find(t, data);
    if at + |t| <= |data| { assert [] + data[..at] == data[..at]; }
  }

  lemma {:induction false} HeldNew(t: Data, data: Data)
    ensures SameHeld(t, [], data)
  {
    assert [] + data == data;
  }

  lemma {:induction false} CutTail(t: Data, sent: Data, tail: Data, more: Data)
    requires t != [] && Free(t, sent + tail) && Longest(t, sent + tail, |tail|)
    ensures CutUp(t, sent + (tail + more)) == NextCut(t, sent, tail + more)
    ensures SameHeld(t, sent, tail + more)
  {
    var d := tail + more;
    assert Shifted(t, sent, d) by {
      forall j: nat ensures Occurs(t, sent + d, j) <==> j >= |sent| && Occurs(t, d, j - |sent|) {
        OccursInNew(t, sent, tail, more, j);
      }
    }
    SameFind(t, sent, d);
    forall k: nat | Longest(t, d, k) ensures Longest(t, sent + d, k) { SameHold(t, sent, tail, more, k); }
  }

  /** The tokens of `open + data` are those of `data`, moved. */
  ghost predicate Shifted(t: Data, open: Data, data: Data) {
    forall j: nat :: Occurs(t, open + data, j) <==> j >= |open| && Occurs(t, data, j - |open|)
  }

  lemma {:induction false} FindShift(t: Data, open: Data, d: Data)
    requires t != [] && Shifted(t, open, d)
    ensures if Find(t, d) + |t| <= |d| then Find(t, open + d) == |open| + Find(t, d)
            else Find(t, open + d) + |t| > |open + d|
  {
    var at := Find(t, d);
    FindFirst(t, d);
    FindFirst(t, open + d);
    if at + |t| <= |d| {
      assert Occurs(t, open + d, |open| + at);
      FindIs(t, open + d, |open| + at);
    }
  }

  lemma {:induction false} SameFind(t: Data, open: Data, d: Data)
    requires t != [] && Shifted(t, open, d)
    ensures CutUp(t, open + d) == NextCut(t, open, d)
  {
    var at := Find(t, d);
    FindShift(t, open, d);
    if at + |t| <= |d| {
      FindFirst(t, d);
      MovedCut(t, open, d, d[..at], d[at + |t|..]);
    }
  }

  lemma {:induction false} MovedCut(t: Data, open: Data, d: Data, pre: Data, rest: Data)
    requires t != [] && Occurs(t, d, |pre|) && d[..|pre|] == pre && d[|pre| + |t|..] == rest
    requires Find(t, open + d) == |open| + |pre|
    ensures CutUp(t, open + d) == Before(open + pre, CutUp(t, rest))
  {
    AroundToken(t, d, |pre|);
    assert open + d == (open + pre) + t + rest;
    CutAt(t, open + d, open + pre, rest);
  }

  /** Looking in the tail and the new bytes withholds what looking in all of the residue would. */
  lemma {:induction false} SameHold(t: Data, sent: Data, tail: Data, more: Data, k: nat)
    requires t != [] && Longest(t, sent + tail, |tail|) && Longest(t, tail + more, k)
    ensures Longest(t, sent + (tail + more), k)
  {
    var d := tail + more;
    var all := sent + d;
    assert all == (sent + tail) + more;
    forall j: nat | j <= |d| ensures Starts(t, all, j) <==> Starts(t, d, j) {
      assert all[|all| - j..] == d[|d| - j..];
    }
    forall j: nat | |d| < j < |t| ensures !Starts(t, all, j) {
      if Starts(t, all, j) {
        StartsEarlier(t, sent + tail, more, j);
        assert false;
      }
    }
  }

  /** While `data` is searched: the cut of the whole input is what was found and what is left. */
  ghost predicate Looking(t: Data, whole: Cut, groups: seq<Data>, open: Data, data: Data)
    requires t != []
  {
    whole == After(groups, NextCut(t, open, data))
  }

  lemma {:induction false} FeedStart(t: Data, input: Data, groups: seq<Data>, open: Data, tail: Data, chunk: Data)
    requires t != [] && Drained(t, input, groups, open, tail)
    ensures Looking(t, CutUp(t, input + chunk), groups, open, tail + chunk) && SameHeld(t, open, tail + chunk)
  {
    ResidueFree(t, input);
    CutExtend(t, input, chunk);
    CutTail(t, open, tail, chunk);
    assert (open + tail) + chunk == open + (tail + chunk);
  }

  lemma {:induction false} FeedToken(t: Data, whole: Cut, groups: seq<Data>, open: Data, data: Data)
    requires t != [] && Looking(t, whole, groups, open, data) && Find(t, data) + |t| <= |data|
    ensures var at := Find(t, data);
            Looking(t, whole, groups + [open + data[..at]], [], data[at + |t|..])
  {
    var at := Find(t, data);
    var rest := data[at + |t|..];
    NextNew(t, rest);
    AfterToken(groups, open + data[..at], CutUp(t, rest));
  }

  lemma {:induction false} AfterToken(groups: seq<Data>, pre: Data, later: Cut)
    ensures After(groups, Before(pre, later)) == After(groups + [pre], later)
  {
    JoinGroups(groups, [pre], later.groups);
  }

  lemma {:induction false} FeedEnd(t: Data, whole: Cut, groups: seq<Data>, open: Data, data: Data, keep: nat)
    requires t != [] && Looking(t, whole, groups, open, data) && Find(t, data) + |t| > |data|
    requires SameHeld(t, open, data) && Longest(t, data, keep)
    ensures var sent, held := open + data[..|data| - keep], data[|data| - keep..];
            whole == Cut(groups, sent + held) && Longest(t, sent + held, |held|)
    ensures keep == 0 ==> data[..|data| - keep] == data && data[|data| - keep..] == []
  {
    assert groups + [] == groups;
    assert open + data[..|data| - keep] + data[|data| - keep..] == open + data;
  }

  // ---------------------------------------------------------------- the reading thread

  /** How many bytes at the end of `data` could be the start of a split token. */
  method HeldBack(t: Data, data: Data) returns (keep: nat)
    requires t != []
    ensures Longest(t, data, keep)
  {
    keep := Min(|t| - 1, |data|);
    while keep > 0
      invariant 0 <= keep <= Min(|t| - 1, |data|)
      invariant forall j: nat | keep < j < |t| :: !Starts(t, data, j)
    {
      if Starts(t, data, keep) {
        return;
      }
      keep := keep - 1;
    }
  }

  /** bytes.find: where the token first is, or the length when it is nowhere. */
  method Search(t: Data, data: Data) returns (at: nat)
    requires t != []
    ensures at == Find(t, data)
  {
    at := 0;
    while at + |t| <= |data|
      invariant forall j: nat | j < at :: !Occurs(t, data, j)
    {
      if data[at..at + |t|] == t {
        FindIs(t, data, at);
        return;
      }
      at := at + 1;
    }
    FindFirst(t, data);
    at := |data|;
  }

  class Pump {
    const token: Data
    var tail: Data
    /** The frames sent between one `reached` and the next, joined. */
    var groups: seq<Data>
    var open: Data
    ghost var input: Data

    ghost predicate Valid()
      reads this
    {
      token != [] && Drained(token, input, groups, open, tail)
    }

    constructor (token: Data)
      requires token != []
      ensures Valid() && this.token == token && input == [] && tail == [] && groups == [] && open == []
    {
      this.token := token;
      tail, groups, open, input := [], [], [], [];
    }

    method Send(data: Data)
      modifies this`open
      ensures open == old(open) + data
    {
      if data == [] {
        return;
      }
      open := open + data;
    }

    method Reach()
      modifies this`open, this`groups
      ensures groups == old(groups) + [old(open)] && open == []
    {
      groups := groups + [open];
      open := [];
    }

    /** What the thread does with the bytes of one read. */
    method Feed(chunk: Data)
      requires Valid()
      modifies this
      ensures Valid() && input == old(input) + chunk
    {
      var data := tail + chunk;
      ghost var base := CutUp(token, input + chunk);
      FeedStart(token, input, groups, open, tail, chunk);
      input := input + chunk;
      tail := [];
      while true
        invariant tail == [] && input == old(input) + chunk
        invariant Looking(token, base, groups, open, data) && SameHeld(token, open, data)
        decreases |data|
      {
        var at := Search(token, data);
        if at + |token| > |data| {
          break;
        }
        FeedToken(token, base, groups, open, data);
        HeldNew(token, data[at + |token|..]);
        Send(data[..at]);
        data := data[at + |token|..];
        Reach();
      }
      var keep := HeldBack(token, data);
      FeedEnd(token, base, groups, open, data, keep);
      if keep > 0 {
        tail := data[|data| - keep..];
        data := data[..|data| - keep];
      }
      Send(data);
    }

    /** Read until the end. */
    method Run(chunks: seq<Data>)
      requires Valid() && input == []
      modifies this
      ensures Valid() && input == Flatten(chunks)
    {
      for i := 0 to |chunks|
        invariant Valid() && input == Flatten(chunks[..i])
      {
        Feed(chunks[i]);
        FlattenSnoc(chunks[..i], chunks[i]);
        assert chunks[..i] + [chunks[i]] == chunks[..i + 1];
      }
      assert chunks[..|chunks|] == chunks;
    }
  }
}
