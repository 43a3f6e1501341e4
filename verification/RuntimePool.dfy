/**
  The pool as the object the code keeps: buckets of session objects whose `busy` flag callers
  share with the pool, changed in place. Each method is one critical section under the guard, or a
  sequence of them run without interference; the interleavings are the subject of `Pool`.
*/
module RuntimePool {
  class Runtime {
    const key: string
    var busy: bool

    constructor (key: string)
      ensures this.key == key && busy
    {
      this.key := key;
      busy := true;
    }
  }

  /** What the guarded part of `discard` found. */
  datatype Found = Spared | Gone | TakenOut

  function Without(s: seq<Runtime>, r: Runtime): (t: seq<Runtime>)
    ensures r !in s ==> t == s
  {
    if s == [] then [] else if s[0] == r then s[1..] else [s[0]] + Without(s[1..], r)
  }

  ghost predicate Distinct(s: seq<Runtime>) {
    forall i, j :: 0 <= i < j < |s| ==> s[i] != s[j]
  }

  lemma {:induction false} WithoutRemoves(s: seq<Runtime>, r: Runtime)
    requires Distinct(s)
    ensures Distinct(Without(s, r)) && forall q :: q in Without(s, r) <==> q in s && q != r
    decreases |s|
  {
    if s != [] {
      assert s == [s[0]] + s[1..];
      assert s[0] !in s[1..];
      if s[0] != r {
        WithoutRemoves(s[1..], r);
        assert Without(s, r) == [s[0]] + Without(s[1..], r);
      }
    }
  }

  /** The others keep their order. */
  lemma {:induction false} WithoutExact(before: seq<Runtime>, r: Runtime, after: seq<Runtime>)
    requires r !in before
    ensures Without(before + [r] + after, r) == before + after
    decreases |before|
  {
    var s := before + [r] + after;
    if before == [] {
      assert s[1..] == after;
    } else {
      assert s[0] == before[0] && s[1..] == before[1..] + [r] + after;
      WithoutExact(before[1..], r, after);
      assert before == [before[0]] + before[1..];
    }
  }

  class Pool {
    var buckets: map<string, seq<Runtime>>
    var depth: nat

    constructor ()
      ensures Valid() && Live() == {} && depth == 0
    {
      buckets := map[];
      depth := 0;
    }

    ghost predicate Valid()
      reads this
    {
      forall k | k in buckets :: Distinct(buckets[k]) && forall r | r in buckets[k] :: r.key == k
    }

    /** The registered sessions. */
    ghost function Live(): (s: set<Runtime>)
      reads this
    {
      set k, r | k in buckets && r in buckets[k] :: r
    }

    function Bucket(key: string): seq<Runtime>
      reads this
    {
      if key in buckets then buckets[key] else []
    }

    /** A session is in the bucket of its own key, or nowhere. */
    lemma {:induction false} OwnBucket()
      requires Valid()
      ensures forall r :: r in Live() <==> r in Bucket(r.key)
    {
      forall r ensures r in Live() <==> r in Bucket(r.key) {
        if r in Live() {
          var k :| k in buckets && r in buckets[k];
          assert r.key == k;
        }
      }
    }

    /** The first scan of `acquire`: the first idle session of the bucket, now busy, or nothing. */
    method TakeIdle(key: string) returns (r: Runtime?)
      requires Valid()
      modifies Bucket(key)
      ensures r == null <==> forall q | q in Bucket(key) :: old(q.busy)
      ensures r != null ==> exists n :: 0 <= n < |Bucket(key)| && Bucket(key)[n] == r && !old(r.busy) && r.busy
                                        && forall m | 0 <= m < n :: old(Bucket(key)[m].busy)
      ensures forall q: Runtime | q != r && q in Live() :: q.busy == old(q.busy)
    {
      var bucket := Bucket(key);
      for n := 0 to |bucket|
        invariant forall q: Runtime | q in Live() :: q.busy == old(q.busy)
        invariant forall m | 0 <= m < n :: old(bucket[m].busy)
      {
        if !bucket[n].busy {
          bucket[n].busy := true;
          return bucket[n];
        }
      }
      return null;
    }

    /** The end of `_start`: the session is in the pool, and with the caller that started it. */
    method Register(r: Runtime)
      requires Valid() && r !in Live()
      modifies this, r
      ensures Valid() && Live() == old(Live()) + {r} && r.busy && depth == old(depth)
      ensures Bucket(r.key) == old(Bucket(r.key)) + [r] && forall k | k != r.key :: Bucket(k) == old(Bucket(k))
    {
      OwnBucket();
      r.busy := true;
      buckets := buckets[r.key := Bucket(r.key) + [r]];
      OwnBucket();
      assert forall q :: q in Live() <==> q in old(Live()) || q == r;
    }

    method Hold()
      modifies this`depth
      ensures depth == old(depth) + 1
    {
      depth := depth + 1;
    }

    /** The guarded part of `discard`. */
    method TakeOut(r: Runtime, idleOnly: bool) returns (found: Found)
      requires Valid()
      modifies this`buckets
      ensures Valid() && Live() == old(Live()) - (if found.TakenOut? then {r} else {})
      ensures found.Spared? <==> idleOnly && (r.busy || depth > 0 || r !in old(Live()))
      ensures found.TakenOut? <==> !found.Spared? && r in old(Live())
      ensures Bucket(r.key) == if found.TakenOut? then Without(old(Bucket(r.key)), r) else old(Bucket(r.key))
      ensures forall k | k != r.key :: Bucket(k) == old(Bucket(k))
    {
      if idleOnly && (r.busy || depth > 0) { return Spared; }
      OwnBucket();
      var bucket := Bucket(r.key);
      if r !in bucket { return if idleOnly then Spared else Gone; }
      WithoutRemoves(bucket, r);
      buckets := buckets[r.key := Without(bucket, r)];
      OwnBucket();
      assert forall q :: q in Live() <==> q in old(Live()) && q != r;
      found := TakenOut;
    }

    /** `release`: idle again, and out of the pool unless it is held. */
    method Release(r: Runtime) returns (ended: bool)
      requires Valid()
      modifies this`buckets, r
      ensures Valid() && !r.busy
      ensures ended <==> old(depth) == 0 && r in old(Live())
      ensures Live() == old(Live()) - (if ended then {r} else {})
    {
      r.busy := false;
      if depth > 0 { return false; }
      var found := TakeOut(r, true);
      ended := found.TakenOut?;
    }

    /** The list `release_idle` goes through. */
    method ListIdle() returns (idle: seq<Runtime>)
      requires Valid()
      ensures forall r :: r in idle <==> r in Live() && !r.busy
    {
      idle := [];
      var left := buckets.Keys;
      while left != {}
        invariant left <= buckets.Keys
        invariant forall r :: r in idle <==> r in Live() && !r.busy && r.key !in left
        decreases |left|
      {
        var k :| k in left;
        left := left - {k};
        ghost var before := idle;
        for n := 0 to |buckets[k]|
          invariant forall r :: r in idle <==> r in before || (r in buckets[k][..n] && !r.busy)
        {
          assert buckets[k][..n + 1] == buckets[k][..n] + [buckets[k][n]];
          if !buckets[k][n].busy { idle := idle + [buckets[k][n]]; }
        }
        assert buckets[k][..|buckets[k]|] == buckets[k];
      }
    }

    /** `unhold`: when the last hold closes, every idle session leaves, and no busy one does. */
    method Unhold()
      requires Valid()
      modifies this
      ensures Valid() && depth == if old(depth) == 0 then 0 else old(depth) - 1
      ensures forall r :: r in Live() <==> r in old(Live()) && (depth > 0 || r.busy)
    {
      depth := if depth == 0 then 0 else depth - 1;
      if depth > 0 { return; }
      var idle := ListIdle();
      for n := 0 to |idle|
        invariant Valid() && depth == 0
        invariant forall r :: r in Live() <==> r in old(Live()) && r !in idle[..n]
      {
        assert idle[..n + 1] == idle[..n] + [idle[n]];
        var found := TakeOut(idle[n], true);
      }
      assert idle[..|idle|] == idle;
    }

    /** The guarded part of `shutdown`: everything leaves, whatever it is doing. */
    method Clear() returns (everything: seq<Runtime>)
      requires Valid()
      modifies this
      ensures Valid() && Live() == {} && depth == 0
      ensures forall r :: r in everything <==> r in old(Live())
    {
      everything := [];
      var left := buckets.Keys;
      while left != {}
        invariant left <= buckets.Keys && buckets == old(buckets)
        invariant forall r :: r in everything <==> r in Live() && r.key !in left
        decreases |left|
      {
        var k :| k in left;
        left := left - {k};
        everything := everything + buckets[k];
      }
      buckets := map[];
      depth := 0;
    }
  }
}
