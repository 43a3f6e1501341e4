/**
  Keeping the caches within their budget: `_op_data_evict` over the file cache, `_disk_evict`
  over the blob directory, and `_op_data_have`, whose touch protects what it reports.

  Both sweeps go through the scanned files from the least recently used and differ only in what
  they leave alone, which is the `Policy`.
*/
module Eviction {
  import opened Strings

  /** One scanned file: last use, name, size and link count. */
  datatype File = File(used: int, name: string, size: nat, links: nat)

  datatype Policy =
    | FileCache(now: int, recent: int, wanted: set<string>)
    | BlobFiles(keep: string)

  /** Left alone whatever the total. */
  predicate Protected(f: File, p: Policy) {
    match p
    case FileCache(now, recent, wanted) => f.links > 1 || now - f.used < recent || f.name in wanted
    case BlobFiles(keep) => f.name == keep
  }

  /** Taken by a sweep that reaches it; `removable` names the files whose removal succeeds. */
  predicate Goes(f: File, p: Policy, removable: set<string>) {
    !Protected(f, p) && f.name in removable
  }

  // ---------------------------------------------------------------- sorting

  predicate Before(f: File, g: File) {
    f.used < g.used || (f.used == g.used && AtMost(f.name, g.name))
  }

  ghost predicate Sorted(s: seq<File>) {
    forall i, j :: 0 <= i < j < |s| ==> Before(s[i], s[j])
  }

  function Insert(f: File, s: seq<File>): seq<File> {
    if s == [] then [f] else if Before(f, s[0]) then [f] + s else [s[0]] + Insert(f, s[1..])
  }

  /** `files.sort()`. */
  function Sort(s: seq<File>): seq<File> {
    if s == [] then [] else Insert(s[0], Sort(s[1..]))
  }

  lemma {:induction false} Precedes(f: File, g: File, h: File)
    requires Before(f, g) && Before(g, h)
    ensures Before(f, h)
  {
    if f.used == g.used == h.used { AtMostTransitive(f.name, g.name, h.name); }
  }

  lemma {:induction false} TailSorted(s: seq<File>)
    requires s != [] && Sorted(s)
    ensures Sorted(s[1..]) && forall g | g in s[1..] :: Before(s[0], g)
  {
    forall i, j | 0 <= i < j < |s[1..]| ensures Before(s[1..][i], s[1..][j]) { assert Before(s[i + 1], s[j + 1]); }
    forall g | g in s[1..] ensures Before(s[0], g) {
      var k :| 0 <= k < |s[1..]| && s[1..][k] == g;
      assert Before(s[0], s[k + 1]);
    }
  }

  lemma {:induction false} InsertSorted(f: File, s: seq<File>)
    requires Sorted(s)
    ensures Sorted(Insert(f, s)) && multiset(Insert(f, s)) == multiset(s) + multiset{f}
    decreases |s|
  {
    if s == [] {
    } else if Before(f, s[0]) {
      forall j | 0 < j < |[f] + s| ensures Before(f, ([f] + s)[j]) {
        if j > 1 { Precedes(f, s[0], s[j - 1]); }
      }
    } else {
      AtMostTotal(f.name, s[0].name);
      assert s == [s[0]] + s[1..];
      TailSorted(s);
      InsertSorted(f, s[1..]);
      var t := Insert(f, s[1..]);
      assert Before(s[0], f);
      forall j | 0 <= j < |t| ensures Before(s[0], t[j]) {
        assert t[j] in multiset(t);
        assert t[j] == f || t[j] in s[1..];
      }
    }
  }

  lemma {:induction false} SortSorted(s: seq<File>)
    ensures Sorted(Sort(s)) && multiset(Sort(s)) == multiset(s)
    decreases |s|
  {
    if s != [] {
      SortSorted(s[1..]);
      InsertSorted(s[0], Sort(s[1..]));
      assert s == [s[0]] + s[1..];
    }
  }

  function Total(s: seq<File>): nat {
    if s == [] then 0 else s[0].size + Total(s[1..])
  }

  lemma {:induction false} InsertTotal(f: File, s: seq<File>)
    ensures Total(Insert(f, s)) == f.size + Total(s)
    decreases |s|
  {
    if s != [] {
      assert ([f] + s)[1..] == s;
      if !Before(f, s[0]) {
        InsertTotal(f, s[1..]);
        assert ([s[0]] + Insert(f, s[1..]))[1..] == Insert(f, s[1..]);
      }
    }
  }

  lemma {:induction false} SortTotal(s: seq<File>)
    ensures Total(Sort(s)) == Total(s)
    decreases |s|
  {
    if s != [] {
      SortTotal(s[1..]);
      InsertTotal(s[0], Sort(s[1..]));
    }
  }

  lemma {:induction false} TotalAppend(s: seq<File>, t: seq<File>)
    ensures Total(s + t) == Total(s) + Total(t)
    decreases |s|
  {
    if s == [] {
      assert s + t == t;
    } else {
      TotalAppend(s[1..], t);
      assert (s + t)[1..] == s[1..] + t;
    }
  }

  // ---------------------------------------------------------------- the sweep

  /** What a sweep removes from the ordered files, in order. */
  function Swept(files: seq<File>, total: int, budget: int, p: Policy, removable: set<string>): seq<File>
    decreases |files|
  {
    if files == [] || total <= budget then []
    else if Goes(files[0], p, removable) then
      [files[0]] + Swept(files[1..], total - files[0].size, budget, p, removable)
    else Swept(files[1..], total, budget, p, removable)
  }

  /** Only files of the cache go, and none that is protected. */
  lemma {:induction false} SweptAreUnprotected(files: seq<File>, total: int, budget: int, p: Policy, removable: set<string>)
    ensures forall f | f in Swept(files, total, budget, p, removable) :: f in files && Goes(f, p, removable)
    decreases |files|
  {
    if files != [] && total > budget {
      var rest := if Goes(files[0], p, removable) then total - files[0].size else total;
      SweptAreUnprotected(files[1..], rest, budget, p, removable);
      assert forall f | f in files[1..] :: f in files;
    }
  }

  /** Those that go are an oldest-first run of those that may: the first ones, up to some point of the order. */
  lemma {:induction false} SweptIsPrefix(files: seq<File>, total: int, budget: int, p: Policy, removable: set<string>)
    returns (n: nat)
    ensures n <= |files| && Swept(files, total, budget, p, removable) == Going(files[..n], p, removable)
    ensures n < |files| ==> total - Total(Swept(files, total, budget, p, removable)) <= budget
    decreases |files|
  {
    if files == [] || total <= budget {
      n := 0;
      assert files[..0] == [];
    } else {
      var rest := if Goes(files[0], p, removable) then total - files[0].size else total;
      var m := SweptIsPrefix(files[1..], rest, budget, p, removable);
      n := m + 1;
      assert files[..n][1..] == files[1..][..m];
      if Goes(files[0], p, removable) {
        assert ([files[0]] + Swept(files[1..], rest, budget, p, removable))[1..] == Swept(files[1..], rest, budget, p, removable);
      }
    }
  }

  /** The files that may go, in order. */
  function Going(files: seq<File>, p: Policy, removable: set<string>): seq<File> {
    if files == [] then []
    else (if Goes(files[0], p, removable) then [files[0]] else []) + Going(files[1..], p, removable)
  }

  lemma {:induction false} GoingExactly(files: seq<File>, p: Policy, removable: set<string>)
    ensures forall f :: f in Going(files, p, removable) <==> f in files && Goes(f, p, removable)
    decreases |files|
  {
    if files != [] {
      GoingExactly(files[1..], p, removable);
      assert files == [files[0]] + files[1..];
    }
  }

  /** No removal is made once the total is within the budget. */
  lemma {:induction false} SweptIsMinimal(files: seq<File>, total: int, budget: int, p: Policy, removable: set<string>, k: nat)
    requires k < |Swept(files, total, budget, p, removable)|
    ensures total - Total(Swept(files, total, budget, p, removable)[..k]) > budget
    decreases |files|
  {
    var s := Swept(files, total, budget, p, removable);
    if Goes(files[0], p, removable) {
      var rest := Swept(files[1..], total - files[0].size, budget, p, removable);
      assert s == [files[0]] + rest;
      if k > 0 {
        SweptIsMinimal(files[1..], total - files[0].size, budget, p, removable, k - 1);
        assert s[..k] == [files[0]] + rest[..k - 1];
        TotalAppend([files[0]], rest[..k - 1]);
        assert [files[0]][1..] == [];
      } else {
        assert s[..0] == [];
      }
    } else {
      SweptIsMinimal(files[1..], total, budget, p, removable, k);
    }
  }

  ghost predicate DistinctNames(files: seq<File>) {
    forall i, j :: 0 <= i < j < |files| ==> files[i].name != files[j].name
  }

  /** Afterwards the total is within the budget, or nothing is left that may go. */
  lemma {:induction false} WithinOrStuck(files: seq<File>, total: int, budget: int, p: Policy, removable: set<string>)
    ensures var s := Swept(files, total, budget, p, removable);
            total - Total(s) <= budget || forall f | f in files && f !in s :: !Goes(f, p, removable)
  {
    var n := SweptIsPrefix(files, total, budget, p, removable);
    if n == |files| {
      assert files[..n] == files;
      GoingExactly(files, p, removable);
    }
  }

  /** A file that may go is removed before any that was used later. */
  lemma {:induction false} OldestFirst(files: seq<File>, total: int, budget: int, p: Policy, removable: set<string>, i: nat, j: nat)
    requires Sorted(files) && DistinctNames(files) && i < j < |files|
    requires files[j] in Swept(files, total, budget, p, removable) && Goes(files[i], p, removable)
    ensures Before(files[i], files[j]) && files[i] in Swept(files, total, budget, p, removable)
  {
    var n := SweptIsPrefix(files, total, budget, p, removable);
    GoingExactly(files[..n], p, removable);
    assert files[j] in files[..n];
    assert j < n;
    assert files[..n][i] == files[i];
  }

  lemma {:induction false} TotalSnoc(s: seq<File>, f: File)
    ensures Total(s + [f]) == Total(s) + f.size
  {
    TotalAppend(s, [f]);
    assert [f][1..] == [];
  }

  lemma {:induction false} SweptStep(files: seq<File>, k: nat, total: int, budget: int, p: Policy, removable: set<string>, removed: seq<File>)
    requires k < |files|
    ensures removed + Swept(files[k..], total, budget, p, removable)
            == if total <= budget then removed
               else if Goes(files[k], p, removable) then
                 removed + [files[k]] + Swept(files[k + 1..], total - files[k].size, budget, p, removable)
               else removed + Swept(files[k + 1..], total, budget, p, removable)
  {
    assert files[k..][1..] == files[k + 1..] && files[k..][0] == files[k];
    if total <= budget {
      assert removed + [] == removed;
    } else if Goes(files[k], p, removable) {
      var rest := Swept(files[k + 1..], total - files[k].size, budget, p, removable);
      assert removed + ([files[k]] + rest) == removed + [files[k]] + rest;
    }
  }

  /** Of the files that may go, those that stay were not used before those that go. */
  lemma {:induction false} LaterStay(files: seq<File>, total: int, budget: int, p: Policy, removable: set<string>)
    requires Sorted(files)
    ensures forall f, g | f in Swept(files, total, budget, p, removable) && g in files && g !in Swept(files, total, budget, p, removable)
                          && Goes(g, p, removable) :: f.used <= g.used
  {
    var s := Swept(files, total, budget, p, removable);
    var n := SweptIsPrefix(files, total, budget, p, removable);
    GoingExactly(files[..n], p, removable);
    forall k | 0 <= k < n ensures files[k] in files[..n] { assert files[..n][k] == files[k]; }
    forall f, g | f in s && g in files && g !in s && Goes(g, p, removable) ensures f.used <= g.used {
      assert f in files[..n];
      var i :| 0 <= i < n && files[i] == f;
      var j :| 0 <= j < |files| && files[j] == g;
      assert j >= n;
      assert Before(files[i], files[j]);
    }
  }

  /** Removals are made oldest first. */
  lemma {:induction false} SweptInOrder(files: seq<File>, total: int, budget: int, p: Policy, removable: set<string>, i: nat, j: nat)
    requires Sorted(files) && i < j < |Swept(files, total, budget, p, removable)|
    ensures var s := Swept(files, total, budget, p, removable); s[i].used <= s[j].used
    decreases |files|
  {
    TailSorted(files);
    if Goes(files[0], p, removable) {
      var left := total - files[0].size;
      var rest := Swept(files[1..], left, budget, p, removable);
      if i > 0 {
        SweptInOrder(files[1..], left, budget, p, removable, i - 1, j - 1);
      } else {
        SweptAreUnprotected(files[1..], left, budget, p, removable);
        assert rest[j - 1] in rest;
      }
    } else {
      SweptInOrder(files[1..], total, budget, p, removable, i, j);
    }
  }

  /**
    The file can go, by its own fields: of the file cache one with a single link, that no running call
    lists and that was not used within the window; of the blob files any but the one just written.
  */
  predicate Takeable(f: File, p: Policy, removable: set<string>) {
    && f.name in removable
    && match p
       case FileCache(now, recent, wanted) => f.links <= 1 && now - f.used >= recent && f.name !in wanted
       case BlobFiles(keep) => f.name != keep
  }

  ghost predicate NoneLater(removed: seq<File>, f: File) {
    forall g | g in removed :: g.used <= f.used
  }

  /** Nothing else went, and each file that can go went, oldest first, until the total fitted and no longer. */
  ghost predicate Fair(scanned: seq<File>, budget: int, p: Policy, removable: set<string>, removed: seq<File>, total: int) {
    && (forall f | f in removed :: f in scanned && Takeable(f, p, removable))
    && (forall f | f in scanned && f !in removed && Takeable(f, p, removable) :: total <= budget && NoneLater(removed, f))
    && (removed != [] ==> total + removed[|removed| - 1].size > budget)
    && (forall i, j | 0 <= i < j < |removed| :: removed[i].used <= removed[j].used)
  }

  lemma {:induction false} LastOver(files: seq<File>, total: int, budget: int, p: Policy, removable: set<string>)
    ensures var s := Swept(files, total, budget, p, removable); s != [] ==> total - Total(s) + s[|s| - 1].size > budget
  {
    var s := Swept(files, total, budget, p, removable);
    if s != [] {
      var n := |s| - 1;
      SweptIsMinimal(files, total, budget, p, removable, n);
      assert s == s[..n] + [s[n]];
      TotalSnoc(s[..n], s[n]);
    }
  }

  lemma {:induction false} SweepExact(scanned: seq<File>, budget: int, p: Policy, removable: set<string>)
    ensures var removed := Swept(Sort(scanned), Total(scanned), budget, p, removable);
            Fair(scanned, budget, p, removable, removed, Total(scanned) - Total(removed))
  {
    var files, total := Sort(scanned), Total(scanned);
    var removed := Swept(files, total, budget, p, removable);
    SortSorted(scanned);
    forall f ensures f in files <==> f in scanned { assert f in multiset(files) <==> f in multiset(scanned); }
    SweptAreUnprotected(files, total, budget, p, removable);
    forall f | f in scanned && f !in removed && Takeable(f, p, removable)
      ensures total - Total(removed) <= budget && NoneLater(removed, f)
    {
      assert Goes(f, p, removable);
      WithinOrStuck(files, total, budget, p, removable);
      LaterStay(files, total, budget, p, removable);
    }
    LastOver(files, total, budget, p, removable);
    forall i, j | 0 <= i < j < |removed| ensures removed[i].used <= removed[j].used {
      SweptInOrder(files, total, budget, p, removable, i, j);
    }
  }

  /** The sweep itself, as both functions run it. */
  method Sweep(scanned: seq<File>, budget: int, p: Policy, removable: set<string>) returns (removed: seq<File>, total: int)
    ensures removed == Swept(Sort(scanned), Total(scanned), budget, p, removable)
    ensures total == Total(scanned) - Total(removed)
    ensures Fair(scanned, budget, p, removable, removed, total)
  {
    removed, total := SweepSorted(Sort(scanned), Total(scanned), budget, p, removable);
    SweepExact(scanned, budget, p, removable);
  }

  /** The loop over the sorted files. */
  method SweepSorted(files: seq<File>, scanned: int, budget: int, p: Policy, removable: set<string>)
    returns (removed: seq<File>, total: int)
    ensures removed == Swept(files, scanned, budget, p, removable)
    ensures total == scanned - Total(removed)
  {
    total := scanned;
    removed := [];
    for k := 0 to |files|
      invariant removed + Swept(files[k..], total, budget, p, removable) == Swept(files, scanned, budget, p, removable)
      invariant total == scanned - Total(removed)
    {
      SweptStep(files, k, total, budget, p, removable, removed);
      if total <= budget { return; }
      if Goes(files[k], p, removable) {
        TotalSnoc(removed, files[k]);
        removed := removed + [files[k]];
        total := total - files[k].size;
      }
    }
    assert files[|files|..] == [] && removed + [] == removed;
  }

  // ---------------------------------------------------------------- the cache

  datatype Entry = Entry(used: int, size: nat, links: nat)
  type Cache = map<string, Entry>

  /** Files being received are not scanned. */
  ghost predicate Scanned(name: string) {
    forall i: nat :: !OccursAt(".partial.", name, i)
  }

  /** `_data_scan` lists the cache's scanned files once each, in the directory's order. */
  ghost predicate ScanOf(files: seq<File>, c: Cache) {
    && DistinctNames(files)
    && (forall f | f in files ::
          f.name in c && Scanned(f.name) && f == File(c[f.name].used, f.name, c[f.name].size, c[f.name].links))
    && (forall name | name in c && Scanned(name) :: exists f :: f in files && f.name == name)
  }

  function Names(files: seq<File>): set<string> {
    set f | f in files :: f.name
  }

  /** `_op_data_have` at time `now`: held digests are reported, and touched where that is allowed. */
  function Touched(c: Cache, asked: seq<(string, nat)>, now: int, touchable: set<string>): Cache
    decreases |asked|
  {
    if asked == [] then c
    else
      var before := Touched(c, asked[..|asked| - 1], now, touchable);
      var (d, size) := asked[|asked| - 1];
      if d in before && before[d].size == size && d in touchable then before[d := before[d].(used := now)] else before
  }

  predicate Held(c: Cache, d: string, size: nat) {
    d in c && c[d].size == size
  }

  lemma {:induction false} TouchedIs(c: Cache, asked: seq<(string, nat)>, now: int, touchable: set<string>, d: string)
    ensures var v := Touched(c, asked, now, touchable);
            (d in v <==> d in c)
            && (d in c ==> v[d] == if d in touchable && (d, c[d].size) in asked then c[d].(used := now) else c[d])
    decreases |asked|
  {
    if asked != [] {
      TouchedIs(c, asked[..|asked| - 1], now, touchable, d);
      assert asked == asked[..|asked| - 1] + [asked[|asked| - 1]];
      var x := asked[|asked| - 1];
      TouchedIs(c, asked[..|asked| - 1], now, touchable, x.0);
    }
  }

  method Have(c: Cache, asked: seq<(string, nat)>, now: int, touchable: set<string>) returns (held: seq<string>, after: Cache)
    ensures after == Touched(c, asked, now, touchable)
    ensures forall d :: d in held <==> exists size :: (d, size) in asked && d in c && c[d].size == size
  {
    held, after := [], c;
    for k := 0 to |asked|
      invariant after == Touched(c, asked[..k], now, touchable)
      invariant forall d :: d in held <==> exists size :: (d, size) in asked[..k] && Held(c, d, size)
    {
      var (d, size) := asked[k];
      assert asked[..k + 1][..k] == asked[..k] && asked[..k + 1] == asked[..k] + [(d, size)];
      TouchedIs(c, asked[..k], now, touchable, d);
      assert Held(after, d, size) <==> Held(c, d, size);
      if d in after && after[d].size == size {
        held := held + [d];
        if d in touchable { after := after[d := after[d].(used := now)]; }
      }
    }
    assert asked[..|asked|] == asked;
  }

  /** An eviction of the cache: the scan, the sweep, and what is left. */
  ghost function Evicted(c: Cache, files: seq<File>, budget: int, p: Policy, removable: set<string>): Cache {
    c - Names(Swept(Sort(files), Total(files), budget, p, removable))
  }

  lemma {:induction false} SweptOfScan(c: Cache, files: seq<File>, budget: int, p: Policy, removable: set<string>, d: string)
    requires ScanOf(files, c) && d in Names(Swept(Sort(files), Total(files), budget, p, removable))
    ensures d in c && Goes(File(c[d].used, d, c[d].size, c[d].links), p, removable)
  {
    var s := Swept(Sort(files), Total(files), budget, p, removable);
    var f :| f in s && f.name == d;
    SweptAreUnprotected(Sort(files), Total(files), budget, p, removable);
    SortSorted(files);
    assert f in multiset(Sort(files));
    assert f in files;
  }

  /** A digest a running call lists is never evicted. */
  lemma {:induction false} ListedSurvives(c: Cache, files: seq<File>, budget: int, p: Policy, removable: set<string>, d: string)
    requires ScanOf(files, c) && p.FileCache? && d in p.wanted && d in c
    ensures d in Evicted(c, files, budget, p, removable)
  {
    if d in Names(Swept(Sort(files), Total(files), budget, p, removable)) {
      SweptOfScan(c, files, budget, p, removable, d);
    }
  }

  /**
    A digest reported held is not evicted within the recent window after the report, where the
    file could be touched.
  */
  lemma {:induction false} ReportedSurvives(c: Cache, asked: seq<(string, nat)>, at: int, touchable: set<string>,
                                            files: seq<File>, budget: int, p: Policy, removable: set<string>, d: string)
    requires d in c && (d, c[d].size) in asked && d in touchable
    requires var v := Touched(c, asked, at, touchable); ScanOf(files, v)
    requires p.FileCache? && p.now - at < p.recent
    ensures d in Evicted(Touched(c, asked, at, touchable), files, budget, p, removable)
  {
    var v := Touched(c, asked, at, touchable);
    TouchedIs(c, asked, at, touchable, d);
    if d in Names(Swept(Sort(files), Total(files), budget, p, removable)) {
      SweptOfScan(v, files, budget, p, removable, d);
    }
  }

  /** With no budget everything that may go goes. */
  lemma {:induction false} NothingIsEnough(files: seq<File>, total: int, p: Policy, removable: set<string>)
    requires total >= Total(files) && forall f | f in files :: f.size > 0
    ensures forall f | f in files && Goes(f, p, removable) :: f in Swept(files, total, 0, p, removable)
    decreases |files|
  {
    if files != [] {
      assert files[0] in files && forall f | f in files[1..] :: f in files;
      NothingIsEnough(files[1..], if Goes(files[0], p, removable) then total - files[0].size else total, p, removable);
      assert files == [files[0]] + files[1..];
    }
  }

  lemma {:induction false} AllThatMayGo(c: Cache, files: seq<File>, p: Policy, removable: set<string>, d: string)
    requires ScanOf(files, c) && (forall f | f in files :: f.size > 0) && d in c && Scanned(d)
    requires Goes(File(c[d].used, d, c[d].size, c[d].links), p, removable)
    ensures d in Names(Swept(Sort(files), Total(files), 0, p, removable))
  {
    var sorted := Sort(files);
    SortSorted(files);
    SortTotal(files);
    forall f | f in sorted ensures f in files { assert f in multiset(sorted); }
    NothingIsEnough(sorted, Total(files), p, removable);
    var f :| f in files && f.name == d;
    assert f in multiset(sorted);
  }

  /**
    Where it could not be touched, the report protects nothing: with no budget it goes
    just when it went before, by its links, its last use and the running calls.
  */
  lemma {:induction false} UntouchedGoes(c: Cache, asked: seq<(string, nat)>, at: int, touchable: set<string>,
                                         files: seq<File>, p: Policy, removable: set<string>, d: string)
    requires d in c && d !in touchable && Scanned(d)
    requires ScanOf(files, Touched(c, asked, at, touchable)) && forall f | f in files :: f.size > 0
    ensures d !in Evicted(Touched(c, asked, at, touchable), files, 0, p, removable)
            <==> Goes(File(c[d].used, d, c[d].size, c[d].links), p, removable)
  {
    var v := Touched(c, asked, at, touchable);
    TouchedIs(c, asked, at, touchable, d);
    if d in Names(Swept(Sort(files), Total(files), 0, p, removable)) { SweptOfScan(v, files, 0, p, removable, d); }
    if Goes(File(c[d].used, d, c[d].size, c[d].links), p, removable) { AllThatMayGo(v, files, p, removable, d); }
  }

  // ---------------------------------------------------------------- calls that come while a sweep runs

  /** A sweep of the cache: the files it has still to look at, its total, and what it leaves alone. */
  datatype Sweeping = Resting | Underway(todo: seq<File>, total: int, p: Policy)

  /** The cache's digests, those running calls list, and the sweep. */
  datatype Room = Room(cache: set<string>, listed: set<string>, sweep: Sweeping)

  datatype Action =
    | Lists(d: string) | Forgets(d: string)                     // a call registers, or is over
    | Arrives(d: string)
    | Scans(files: seq<File>, now: int, recent: int)            // the scan, and then what is in flight
    | Looks(ok: bool)                                           // the next file; `ok` is whether it can be removed

  /** The next file of the sweep, or its end. */
  function AfterLook(w: Room, budget: int, ok: bool): Room
    requires w.sweep.Underway?
  {
    if w.sweep.todo == [] || w.sweep.total <= budget then w.(sweep := Resting)
    else
      var f, rest := w.sweep.todo[0], w.sweep.todo[1..];
      if Protected(f, w.sweep.p) || !ok then w.(sweep := w.sweep.(todo := rest))
      else w.(cache := w.cache - {f.name}, sweep := w.sweep.(todo := rest, total := w.sweep.total - f.size))
  }

  function Step(w: Room, budget: int, a: Action): Room {
    match a
    case Lists(d) => w.(listed := w.listed + {d})
    case Forgets(d) => w.(listed := w.listed - {d})
    case Arrives(d) => w.(cache := w.cache + {d})
    case Scans(files, now, recent) =>
      if w.sweep.Underway? then w else w.(sweep := Underway(Sort(files), Total(files), FileCache(now, recent, w.listed)))
    case Looks(ok) => if w.sweep.Underway? then AfterLook(w, budget, ok) else w
  }

  function Run(w: Room, budget: int, acts: seq<Action>): Room
    decreases |acts|
  {
    if acts == [] then w else Run(Step(w, budget, acts[0]), budget, acts[1..])
  }

  /** The digest is listed, and was when a sweep that still runs read what is in flight. */
  ghost predicate Kept(w: Room, d: string) {
    d in w.cache && d in w.listed && (w.sweep.Underway? ==> w.sweep.p.FileCache? && d in w.sweep.p.wanted)
  }

  /**
    However calls, arrivals and sweeps interleave, a digest that is listed before a sweep reads what
    is in flight stays in the cache for as long as it is listed.
  */
  lemma {:induction false} ListedStays(w: Room, budget: int, acts: seq<Action>, d: string)
    requires Kept(w, d) && Forgets(d) !in acts
    ensures Kept(Run(w, budget, acts), d)
    decreases |acts|
  {
    if acts != [] {
      assert acts[0] in acts && forall a | a in acts[1..] :: a in acts;
      ListedStays(Step(w, budget, acts[0]), budget, acts[1..], d);
    }
  }

  predicate OnlyLooks(acts: seq<Action>) {
    forall a | a in acts :: a.Looks?
  }

  /** Every file of the digest that the sweep has still to look at is protected for another reason. */
  ghost predicate Spared(s: Sweeping, d: string)
    requires s.Underway?
  {
    forall f | f in s.todo && f.name == d :: Protected(f, s.p)
  }

  lemma {:induction false} SparedStays(w: Room, budget: int, acts: seq<Action>, d: string)
    requires d in w.cache && OnlyLooks(acts) && (w.sweep.Underway? ==> w.sweep.total <= budget || Spared(w.sweep, d))
    ensures d in Run(w, budget, acts).cache
    decreases |acts|
  {
    if acts != [] {
      assert acts[0].Looks? && forall a | a in acts[1..] :: a in acts;
      SparedStays(Step(w, budget, acts[0]), budget, acts[1..], d);
    }
  }

  /** A run of the sweep in which the files before this one cannot be removed, and this one can. */
  lemma {:induction false} Reaches(w: Room, budget: int, d: string) returns (acts: seq<Action>)
    requires w.sweep.Underway? && w.sweep.total > budget && !Spared(w.sweep, d)
    ensures OnlyLooks(acts) && d !in Run(w, budget, acts).cache
    decreases |w.sweep.todo|
  {
    var f := w.sweep.todo[0];
    if f.name == d && !Protected(f, w.sweep.p) {
      acts := [Looks(true)];
      assert acts[1..] == [];
      assert Run(w, budget, acts) == Run(AfterLook(w, budget, true), budget, []);
    } else {
      var v := AfterLook(w, budget, false);
      assert !Spared(v.sweep, d) by {
        var g :| g in w.sweep.todo && g.name == d && !Protected(g, w.sweep.p);
        assert w.sweep.todo == [f] + v.sweep.todo;
        assert g in v.sweep.todo;
      }
      var rest := Reaches(v, budget, d);
      acts := [Looks(false)] + rest;
      assert acts[1..] == rest;
    }
  }

  /**
    A call that lists a digest while a sweep runs keeps it safe from that sweep, whatever it manages
    to remove, exactly when the sweep is over anyway or protects what is left of it for another reason.
  */
  lemma {:induction false} LateListingExact(w: Room, budget: int, d: string)
    requires w.sweep.Underway? && d in w.cache
    ensures (forall acts | OnlyLooks(acts) :: d in Run(Step(w, budget, Lists(d)), budget, acts).cache)
            <==> w.sweep.total <= budget || Spared(w.sweep, d)
  {
    var v := Step(w, budget, Lists(d));
    if w.sweep.total <= budget || Spared(w.sweep, d) {
      forall acts | OnlyLooks(acts) ensures d in Run(v, budget, acts).cache { SparedStays(v, budget, acts, d); }
    } else {
      var acts := Reaches(v, budget, d);
    }
  }

  /** The sweep goes on to its end, with nothing else in between. */
  function SweptRoom(w: Room, budget: int, removable: set<string>): Room
    requires w.sweep.Underway?
    decreases |w.sweep.todo|
  {
    if w.sweep.todo == [] then Step(w, budget, Looks(true))
    else
      var v := Step(w, budget, Looks(w.sweep.todo[0].name in removable));
      if v.sweep.Underway? then SweptRoom(v, budget, removable) else v
  }

  /** Undisturbed, it removes what the sweep of its files removes, and is over. */
  lemma {:induction false} SweptAlone(w: Room, budget: int, removable: set<string>)
    requires w.sweep.Underway?
    ensures var v := SweptRoom(w, budget, removable);
            && v.sweep.Resting? && v.listed == w.listed
            && v.cache == w.cache - Names(Swept(w.sweep.todo, w.sweep.total, budget, w.sweep.p, removable))
    decreases |w.sweep.todo|
  {
    var files, total := w.sweep.todo, w.sweep.total;
    if files == [] || total <= budget {
      assert Names([]) == {};
    } else {
      var v := Step(w, budget, Looks(files[0].name in removable));
      SweptAlone(v, budget, removable);
      if Goes(files[0], w.sweep.p, removable) {
        var rest := Swept(files[1..], total - files[0].size, budget, w.sweep.p, removable);
        assert Names([files[0]] + rest) == {files[0].name} + Names(rest);
      }
    }
  }

  // ---------------------------------------------------------------- a file several senders fill

  const PARALLEL := ".letify-placing..parallel"

  ghost predicate Hex(d: string) {
    forall i | 0 <= i < |d| :: d[i] != '.'
  }

  /**
    The file parallel senders fill is scanned like a finished one, for its name lacks the marker
    the scan skips: it counts towards the total, and between writes only its age protects it.
  */
  lemma {:induction false} ParallelIsScanned(d: string, f: File, p: Policy)
    requires Hex(d) && f.name == d + PARALLEL && f.links == 1
    requires p.FileCache? && forall w | w in p.wanted :: Hex(w)
    ensures Scanned(f.name)
    ensures Protected(f, p) <==> p.now - f.used < p.recent
  {
    forall i: nat ensures !OccursAt(".partial.", f.name, i) {
      if OccursAt(".partial.", f.name, i) { DotAt(f.name, i); }
      if |d| <= i && i + 9 <= |f.name| {
        assert f.name[i..i + 9] == PARALLEL[i - |d|..i - |d| + 9];
      }
    }
    assert f.name[|d|] == '.';
  }

  lemma {:induction false} DotAt(s: string, i: nat)
    requires OccursAt(".partial.", s, i)
    ensures s[i] == '.' && s[i + 4] == 't'
  {
    assert s[i..i + 9][0] == s[i] && s[i..i + 9][4] == s[i + 4];
  }
}
