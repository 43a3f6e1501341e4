/**
  What becomes of a file between its hash and its commit. The hash reads a file, and what is renamed
  or copied into the cache some time later is whatever is at the name by then. So the commit keeps
  the promise exactly when that still has the bytes that were hashed; each step in between leaves
  them there exactly when it meets a condition that can be checked before it.
*/
module CacheCommits {
  import opened Bytes
  import opened DataCache
  import opened CacheLimits

  // ---------------------------------------------------------------- the commit

  /** What follows a hash that was read to its end: a seal, a move, or a copy. */
  predicate EndsHash(a: Action) {
    a.Seal? || a.CollectMove? || a.CollectOpen?
  }

  /** The commit by hash a.k, a copy with all its steps. */
  ghost function Committing(H: Data -> Digest, w: World, a: Action): World
    requires EndsHash(a)
  {
    var v := Step(H, w, a);
    if a.CollectOpen? then Step(H, Step(H, v, CollectFill(a.k)), CollectRename(a.k)) else v
  }

  /** It takes the file at the name into the cache. */
  ghost predicate Takes(H: Data -> Digest, w: World, a: Action)
    requires EndsHash(a) && a.k in w.up.hashes
  {
    var h := w.up.hashes[a.k];
    match a
    case Seal(_) => Seals(H, w, h)
    case CollectMove(_) => Stores(H, w, h, false)
    case CollectOpen(_, poll) => Stores(H, w, h, poll)
  }

  /** The digest it takes it as. */
  function DigestOf(H: Data -> Digest, h: Hash): Digest {
    if h.n.Parallel? then h.n.d else H(h.hashed)
  }

  /** The part of the invariant that says what each name and each inode is. */
  ghost predicate FilesFit(H: Data -> Digest, w: World) {
    Kinds(H, w) && forall n | n in w.disk.names :: NameFits(w, n)
  }

  lemma {:induction false} FilesRight(H: Data -> Digest, w: World)
    requires FilesFit(H, w)
    ensures Right(H, w)
  {
    forall d | Blob(d) in w.disk.names
      ensures w.disk.names[Blob(d)] in w.disk.content && H(w.disk.content[w.disk.names[Blob(d)]]) == d
    {
      assert NameFits(w, Blob(d));
    }
  }

  /** After the commit the cache file is what was at the name. */
  ghost predicate Taken(H: Data -> Digest, w: World, n: Name, d: Digest, v: World)
    requires n in w.disk.names && w.disk.names[n] in w.disk.content
  {
    && Blob(d) in v.disk.names && v.disk.names[Blob(d)] in v.disk.content
    && v.disk.content[v.disk.names[Blob(d)]] == w.disk.content[w.disk.names[n]]
    && v.disk.names[Blob(d)] in v.disk.kind && v.disk.kind[v.disk.names[Blob(d)]] == Committed(d)
  }

  /** And every other file of the cache is as it was. */
  ghost predicate OthersKept(w: World, d: Digest, v: World) {
    && (forall e | e != d && Blob(e) in v.disk.names :: Blob(e) in w.disk.names && v.disk.names[Blob(e)] == w.disk.names[Blob(e)])
    && (forall i | i in v.disk.kind && v.disk.kind[i].Committed? && !(Blob(d) in v.disk.names && v.disk.names[Blob(d)] == i) ::
          i in w.disk.kind && w.disk.kind[i] == v.disk.kind[i])
    && (forall i | i in w.disk.kind && w.disk.kind[i].Committed? && i in w.disk.content ::
          i in v.disk.content && v.disk.content[i] == w.disk.content[i])
  }

  lemma {:induction false} MoveTakes(H: Data -> Digest, w: World, a: Action)
    requires FilesFit(H, w) && EndsHash(a) && Enabled(w, a) && Takes(H, w, a) && !a.CollectOpen?
    ensures var h := w.up.hashes[a.k]; var d := DigestOf(H, h); var v := Committing(H, w, a);
            h.n in w.disk.names && w.disk.names[h.n] in w.disk.content && Taken(H, w, h.n, d, v) && OthersKept(w, d, v)
  {
    assert NameFits(w, w.up.hashes[a.k].n);
  }

  /** A copy that was just opened is filled and renamed. */
  lemma {:induction false} FillAndRename(H: Data -> Digest, v: World, k: nat, o: Out)
    requires k in v.up.collecting && v.up.collecting[k] == o && !o.filled
    requires Upload(o.d) in v.disk.names && v.disk.names[Upload(o.d)] == o.to
    requires o.to in v.disk.content && v.disk.content[o.to] == [] && o.from in v.disk.content
    ensures var x := Step(H, Step(H, v, CollectFill(k)), CollectRename(k));
            && x.disk.names == v.disk.names[Blob(o.d) := o.to] - {Upload(o.d)}
            && x.disk.content == v.disk.content[o.to := v.disk.content[o.from]]
            && x.disk.kind == v.disk.kind[o.to := Committed(o.d)]
  {
    assert Overwrite([], 0, v.disk.content[o.from]) == v.disk.content[o.from];
  }

  lemma {:induction false} CopyPuts(H: Data -> Digest, w: World, a: Action)
    requires a.CollectOpen? && Enabled(w, a) && Takes(H, w, a) && (forall i | i in w.disk.content :: i < w.disk.unused)
    requires var h := w.up.hashes[a.k]; Inode(w, Upload(H(h.hashed))) != w.disk.names[h.n]
    ensures var h := w.up.hashes[a.k]; var d := H(h.hashed); var i := Inode(w, Upload(d)); var v := Committing(H, w, a);
            && v.disk.names == w.disk.names[Blob(d) := i] - {Upload(d)}
            && v.disk.content == w.disk.content[i := w.disk.content[w.disk.names[h.n]]]
            && v.disk.kind == w.disk.kind[i := Committed(d)]
  {
    var h := w.up.hashes[a.k];
    var d := H(h.hashed);
    var i := Inode(w, Upload(d));
    var v := Step(H, w, a);
    CopyOpened(H, w, a.k, a.poll);
    FillAndRename(H, v, a.k, v.up.collecting[a.k]);
    var bytes := w.disk.content[w.disk.names[h.n]];
    assert w.disk.content[i := []][i := bytes] == w.disk.content[i := bytes];
    assert v.disk.names[Blob(d) := i] - {Upload(d)} == w.disk.names[Blob(d) := i] - {Upload(d)};
    assert v.disk.kind[i := Committed(d)] == w.disk.kind[i := Committed(d)];
  }

  lemma {:induction false} CopyTakes(H: Data -> Digest, w: World, a: Action)
    requires FilesFit(H, w) && a.CollectOpen? && Enabled(w, a) && Takes(H, w, a)
    ensures var h := w.up.hashes[a.k]; var d := DigestOf(H, h); var v := Committing(H, w, a);
            h.n in w.disk.names && w.disk.names[h.n] in w.disk.content && Taken(H, w, h.n, d, v) && OthersKept(w, d, v)
  {
    var h := w.up.hashes[a.k];
    var d := H(h.hashed);
    assert NameFits(w, h.n);
    if Upload(d) in w.disk.names { assert NameFits(w, Upload(d)); }
    CopyPuts(H, w, a);
  }

  lemma {:induction false} TakenRight(H: Data -> Digest, w: World, n: Name, d: Digest, v: World)
    requires FilesFit(H, w) && n in w.disk.names && w.disk.names[n] in w.disk.content
    requires Taken(H, w, n, d, v) && OthersKept(w, d, v)
    ensures Right(H, v) <==> H(w.disk.content[w.disk.names[n]]) == d
  {
    FilesRight(H, w);
    if H(w.disk.content[w.disk.names[n]]) == d {
      forall e | Blob(e) in v.disk.names
        ensures v.disk.names[Blob(e)] in v.disk.content && H(v.disk.content[v.disk.names[Blob(e)]]) == e
      {
        if e != d { assert NameFits(w, Blob(e)); }
      }
    }
  }

  lemma {:induction false} RightNames(H: Data -> Digest, w: World, v: World)
    requires Right(H, w) && v.disk.content == w.disk.content && v.disk.kind == w.disk.kind
    requires forall m | m in v.disk.names :: m in w.disk.names && v.disk.names[m] == w.disk.names[m]
    ensures Right(H, v)
  {
  }

  lemma {:induction false} NothingCopied(H: Data -> Digest, w: World, a: Action)
    requires a.CollectOpen? && Enabled(w, a) && !Takes(H, w, a)
    ensures Committing(H, w, a).disk == w.disk
  {
    var v := w.(up := w.up.(hashes := w.up.hashes - {a.k}));
    assert Step(H, w, a) == v;
    assert Step(H, v, CollectFill(a.k)) == v && Step(H, v, CollectRename(a.k)) == v;
  }

  /** A commit that takes nothing changes no file of the cache. */
  lemma {:induction false} NothingTaken(H: Data -> Digest, w: World, a: Action)
    requires FilesFit(H, w) && EndsHash(a) && Enabled(w, a) && !Takes(H, w, a)
    ensures Right(H, Committing(H, w, a))
  {
    FilesRight(H, w);
    if a.CollectOpen? { NothingCopied(H, w, a); }
    RightNames(H, w, Committing(H, w, a));
  }

  /**
    A file goes into the cache rightly, by a seal, a move or a copy, exactly when the file that is at the
    name by then has the bytes that were hashed, whatever happened to it since it was hashed.
  */
  lemma {:induction false} CommitExact(H: Data -> Digest, w: World, a: Action)
    requires CollisionFree(H) && FilesFit(H, w) && EndsHash(a) && Enabled(w, a)
    ensures Right(H, Committing(H, w, a)) <==> (Takes(H, w, a) ==> Still(w, w.up.hashes[a.k].n, w.up.hashes[a.k].hashed))
  {
    var h := w.up.hashes[a.k];
    if Takes(H, w, a) {
      if a.CollectOpen? { CopyTakes(H, w, a); } else { MoveTakes(H, w, a); }
      TakenRight(H, w, h.n, DigestOf(H, h), Committing(H, w, a));
    } else {
      NothingTaken(H, w, a);
    }
  }

  /** So it is after every guarded run. */
  lemma {:induction false} CommitAfterExact(H: Data -> Digest, acts: seq<Action>, a: Action)
    requires CollisionFree(H) && CarefulRun(H, EMPTY, acts) && EndsHash(a) && Enabled(Run(H, EMPTY, acts), a)
    ensures var w := Run(H, EMPTY, acts);
            Right(H, Committing(H, w, a)) <==> (Takes(H, w, a) ==> Still(w, w.up.hashes[a.k].n, w.up.hashes[a.k].hashed))
  {
    RunInv(H, EMPTY, acts);
    CommitExact(H, Run(H, EMPTY, acts), a);
  }

  // ---------------------------------------------------------------- one step in between

  /** The same step, but for what a write brings and how large a file begins. */
  predicate SameTurn(a: Action, b: Action) {
    || a == b
    || (a.FillWrite? && b.FillWrite? && a.k == b.k)
    || (a.Write? && b.Write? && a.h == b.h)
    || (a.Begin? && b.Begin? && a.d == b.d)
  }

  /** Another file is at `n`, or none. */
  predicate Elsewhere(w: World, n: Name, i: nat) {
    n in w.disk.names ==> w.disk.names[n] != i
  }

  /**
    The condition for the file at `n` to keep its bytes: it is not written, not begun over again, and
    what comes to its name has the same bytes.
  */
  ghost predicate Steady(w: World, a: Action, n: Name, bytes: Data) {
    Enabled(w, a) ==>
      match a
      case Begin(d, _) => n != Parallel(d)
      case FillWrite(k, _, _) => Elsewhere(w, n, w.up.fills[k])
      case Write(h, _, _) => Elsewhere(w, n, w.run.handles[h])
      case PlaceLink(p) => n == Path(p) ==> Still(w, Blob(w.run.places[p].d), bytes)
      case PlaceCopy(p) => n == Path(p) ==> Still(w, Blob(w.run.places[p].d), bytes)
      case RenameCopy(t) => n == Path(w.run.threads[t].p) ==> Still(w, Copy(w.run.threads[t].p), bytes)
      case Open(t, _) => n == Path(w.run.threads[t].p) ==> n in w.disk.names || bytes == []
      case BodyLink(p, q) => n == Path(q) ==> Still(w, Path(p), bytes)
      case BodyRename(p, q) => n == Path(q) ==> Still(w, Path(p), bytes)
      case _ => true
  }

  /** These come to a name that had another file or none. */
  predicate ComesTo(w: World, a: Action, n: Name) {
    || (a.Begin? && n == Parallel(a.d)) || ((a.PlaceLink? || a.PlaceCopy?) && n == Path(a.p))
    || ((a.BodyLink? || a.BodyRename?) && n == Path(a.q))
    || ((a.RenameCopy? || a.Open?) && a.t in w.run.threads && n == Path(w.run.threads[a.t].p))
  }

  predicate OfUploads(a: Action) {
    || a.PutStart? || a.PutChunk? || a.PutCheck? || a.PutRename? || a.Begin? || a.FillOpen? || a.FillWrite?
    || a.HashStart? || a.HashRead?
  }

  predicate OfCommits(a: Action) {
    a.Seal? || a.CollectMove? || a.CollectOpen? || a.CollectFill? || a.CollectRename? || a.Evict? || a.Remove?
  }

  lemma {:induction false} UploadKeepsName(H: Data -> Digest, w: World, a: Action, n: Name)
    requires OfUploads(a) && (n.Parallel? || n.Path?) && !ComesTo(w, a, n) && n in Step(H, w, a).disk.names
    ensures n in w.disk.names && Step(H, w, a).disk.names[n] == w.disk.names[n]
  {
  }

  lemma {:induction false} CommitKeepsName(H: Data -> Digest, w: World, a: Action, n: Name)
    requires OfCommits(a) && (n.Parallel? || n.Path?) && n in Step(H, w, a).disk.names
    ensures n in w.disk.names && Step(H, w, a).disk.names[n] == w.disk.names[n]
  {
  }

  lemma {:induction false} CallKeepsName(H: Data -> Digest, w: World, a: Action, n: Name)
    requires !OfUploads(a) && !OfCommits(a) && (n.Parallel? || n.Path?) && !ComesTo(w, a, n) && n in Step(H, w, a).disk.names
    ensures n in w.disk.names && Step(H, w, a).disk.names[n] == w.disk.names[n]
  {
  }

  /** What is at the name keeps its bytes. */
  lemma {:induction false} SteadyBytes(H: Data -> Digest, w: World, a: Action, n: Name)
    requires Inv(H, w) && (n.Parallel? || n.Path?) && n in w.disk.names
    requires !(a.Begin? && n == Parallel(a.d)) && !(a.FillWrite? && a.k in w.up.fills && w.up.fills[a.k] == w.disk.names[n])
    requires !(a.Write? && a.h in w.run.handles && w.run.handles[a.h] == w.disk.names[n])
    ensures w.disk.names[n] !in Rewritten(H, w, a)
  {
    assert NameFits(w, n);
    forall x | x in Rewritten(H, w, a) && x in w.disk.kind ensures x != w.disk.names[n] { CommittedSafe(H, w, a, x); }
  }

  /** What comes to the name has these bytes. */
  lemma {:induction false} ComesKeeps(H: Data -> Digest, w: World, a: Action, n: Name, bytes: Data)
    requires Inv(H, w) && Still(w, n, bytes) && Enabled(w, a) && Steady(w, a, n, bytes) && ComesTo(w, a, n)
    ensures Still(Step(H, w, a), n, bytes)
  {
    UnusedInode(H, w);
  }

  lemma {:induction false} SteadyKeeps(H: Data -> Digest, w: World, a: Action, n: Name, bytes: Data)
    requires Inv(H, w) && (n.Parallel? || n.Path?) && Still(w, n, bytes) && Steady(w, a, n, bytes)
    ensures Still(Step(H, w, a), n, bytes)
  {
    if Enabled(w, a) {
      if ComesTo(w, a, n) {
        ComesKeeps(H, w, a, n, bytes);
      } else if n in Step(H, w, a).disk.names {
        if OfUploads(a) { UploadKeepsName(H, w, a, n); } else if OfCommits(a) { CommitKeepsName(H, w, a, n); } else { CallKeepsName(H, w, a, n); }
        SteadyBytes(H, w, a, n);
        RewritesOnly(H, w, a);
      }
    }
  }

  /** Some bytes for a write, or some size for a file begun over again, make it another file. */
  lemma {:induction false} Unsteady(H: Data -> Digest, w: World, a: Action, n: Name, bytes: Data) returns (b: Action)
    requires Inv(H, w) && (n.Parallel? || n.Path?) && Still(w, n, bytes) && !Steady(w, a, n, bytes)
    ensures SameTurn(a, b) && !Still(Step(H, w, b), n, bytes)
  {
    match a
    case Begin(d, _) => b := Begin(d, |bytes| + 1);
    case FillWrite(k, _, _) =>
      b := FillWrite(k, |bytes|, [0]);
      WriteLonger(H, w, b, n, bytes);
    case Write(h, _, _) =>
      b := Write(h, |bytes|, [0]);
      WriteLonger(H, w, b, n, bytes);
    case _ =>
      b := a;
      ComesOther(H, w, a, n, bytes);
  }

  lemma {:induction false} WriteLonger(H: Data -> Digest, w: World, b: Action, n: Name, bytes: Data)
    requires n in w.disk.names && Still(w, n, bytes) && Enabled(w, b)
    requires || (b.FillWrite? && b.offset == |bytes| && b.chunk == [0] && w.up.fills[b.k] == w.disk.names[n])
             || (b.Write? && b.offset == |bytes| && b.chunk == [0] && w.run.handles[b.h] == w.disk.names[n])
    ensures !Still(Step(H, w, b), n, bytes)
  {
    LongerDiffers(bytes);
  }

  lemma {:induction false} ComesOther(H: Data -> Digest, w: World, a: Action, n: Name, bytes: Data)
    requires Inv(H, w) && Still(w, n, bytes) && !Steady(w, a, n, bytes) && !a.Begin? && !a.FillWrite? && !a.Write?
    ensures !Still(Step(H, w, a), n, bytes)
  {
    UnusedInode(H, w);
  }

  lemma {:induction false} SameSteady(w: World, a: Action, b: Action, n: Name, bytes: Data)
    requires SameTurn(a, b) && Steady(w, a, n, bytes)
    ensures Steady(w, b, n, bytes)
  {
  }

  /**
    Whatever a write brings and however large a file begins, a step leaves the file at a name with the
    bytes it had exactly when it meets the condition.
  */
  lemma {:induction false} SteadyExact(H: Data -> Digest, w: World, a: Action, n: Name, bytes: Data)
    requires Inv(H, w) && (n.Parallel? || n.Path?) && Still(w, n, bytes)
    ensures (forall b | SameTurn(a, b) :: Still(Step(H, w, b), n, bytes)) <==> Steady(w, a, n, bytes)
  {
    if Steady(w, a, n, bytes) {
      forall b | SameTurn(a, b) ensures Still(Step(H, w, b), n, bytes) {
        SameSteady(w, a, b, n, bytes);
        SteadyKeeps(H, w, b, n, bytes);
      }
    } else {
      var b := Unsteady(H, w, a, n, bytes);
    }
  }

  /** Every step meets the condition. */
  ghost predicate SteadyRun(H: Data -> Digest, w: World, acts: seq<Action>, n: Name, bytes: Data)
    decreases |acts|
  {
    acts == [] || (Steady(w, acts[0], n, bytes) && SteadyRun(H, Step(H, w, acts[0]), acts[1..], n, bytes))
  }

  lemma {:induction false} SteadyStays(H: Data -> Digest, w: World, acts: seq<Action>, n: Name, bytes: Data)
    requires Inv(H, w) && (n.Parallel? || n.Path?) && Still(w, n, bytes)
    requires CarefulRun(H, w, acts) && SteadyRun(H, w, acts, n, bytes)
    ensures Still(Run(H, w, acts), n, bytes)
    decreases |acts|
  {
    if acts != [] {
      SteadyKeeps(H, w, acts[0], n, bytes);
      StepInv(H, w, acts[0]);
      SteadyStays(H, Step(H, w, acts[0]), acts[1..], n, bytes);
    }
  }

  /**
    A file that had its bytes when its hash was at the end goes into the cache rightly, whatever is done
    in between, as long as each of those steps meets its guard and leaves the file at the name alone.
  */
  lemma {:induction false} SteadyCommits(H: Data -> Digest, w: World, acts: seq<Action>, a: Action)
    requires CollisionFree(H) && Inv(H, w) && CarefulRun(H, w, acts) && EndsHash(a) && Enabled(Run(H, w, acts), a)
    requires var h := Run(H, w, acts).up.hashes[a.k]; Still(w, h.n, h.hashed) && SteadyRun(H, w, acts, h.n, h.hashed)
    ensures Right(H, Committing(H, Run(H, w, acts), a))
  {
    var h := Run(H, w, acts).up.hashes[a.k];
    SteadyStays(H, w, acts, h.n, h.hashed);
    RunInv(H, w, acts);
    CommitExact(H, Run(H, w, acts), a);
  }

  // ---------------------------------------------------------------- a write while the file is read

  ghost predicate Begun(h: Hash) {
    h.hashed != [] || h.done
  }

  /** What the hash has at the end, if the file stays as it is. */
  function Whole(h: Hash, bytes: Data): Data {
    if h.done then h.hashed else h.hashed + (if |h.hashed| <= |bytes| then bytes[|h.hashed|..] else [])
  }

  /** The file is read on to its end. */
  function ReadOn(w: World, k: nat): World {
    if k !in w.up.hashes || w.up.hashes[k].inode !in w.disk.content then w
    else
      var h := w.up.hashes[k];
      w.(up := w.up.(hashes := w.up.hashes[k := h.(hashed := Whole(h, w.disk.content[h.inode]), done := true)]))
  }

  lemma {:induction false} ReadKeeps(H: Data -> Digest, w: World, k: nat, count: nat)
    requires k in w.up.hashes && w.up.hashes[k].inode in w.disk.content
    ensures var v := Step(H, w, HashRead(k, count));
            k in v.up.hashes && v.up.hashes[k].inode == w.up.hashes[k].inode && v.disk == w.disk && ReadOn(v, k) == ReadOn(w, k)
  {
    var v, h := Step(H, w, HashRead(k, count)), w.up.hashes[k];
    var bytes := w.disk.content[h.inode];
    if Enabled(w, HashRead(k, count)) {
      var piece := Slice(bytes, |h.hashed|, |h.hashed| + count);
      assert Whole(v.up.hashes[k], bytes) == Whole(h, bytes);
      var last := h.(hashed := Whole(h, bytes), done := true);
      assert v.up.hashes[k := last] == w.up.hashes[k := last];
    }
  }

  /** However it is read, that is what is there at the end. */
  lemma {:induction false} ReadsOn(H: Data -> Digest, w: World, k: nat, counts: seq<nat>)
    requires k in w.up.hashes && w.up.hashes[k].inode in w.disk.content
    ensures var v := Reads(H, w, k, counts); k in v.up.hashes && (v.up.hashes[k].done ==> v == ReadOn(w, k))
    decreases |counts|
  {
    if counts == [] {
      assert w.up.hashes[k := w.up.hashes[k]] == w.up.hashes;
    } else {
      ReadKeeps(H, w, k, counts[0]);
      ReadsOn(H, Step(H, w, HashRead(k, counts[0])), k, counts[1..]);
    }
  }

  /** And the end is reached. */
  lemma {:induction false} ReadsEnd(H: Data -> Digest, w: World, k: nat) returns (counts: seq<nat>)
    requires k in w.up.hashes && w.up.hashes[k].inode in w.disk.content
    ensures Reads(H, w, k, counts) == ReadOn(w, k)
  {
    var c := |w.disk.content[w.up.hashes[k].inode]| + 1;
    counts := [c, 1];
    var v := Step(H, w, HashRead(k, c));
    assert counts[1..] == [1] && [1][1..] == [];
    assert Reads(H, w, k, counts) == Step(H, v, HashRead(k, 1));
    ReadsOn(H, w, k, counts);
  }

  /** The hash can be ended by this. */
  predicate Suits(h: Hash, a: Action)
    requires EndsHash(a)
  {
    match a
    case Seal(_) => h.n.Parallel?
    case CollectMove(_) => h.n.Path? && !h.shared
    case CollectOpen(_, poll) => h.n.Path? && (poll || h.shared)
  }

  /** It ends in a cache that is right, however the file is read on. */
  ghost predicate EndsRight(H: Data -> Digest, w: World, a: Action)
    requires EndsHash(a)
  {
    Right(H, Committing(H, ReadOn(w, a.k), a))
  }

  lemma {:induction false} EndsExact(H: Data -> Digest, w: World, a: Action)
    requires CollisionFree(H) && FilesFit(H, w) && EndsHash(a) && a.k in w.up.hashes && a.k !in w.up.collecting
    requires Suits(w.up.hashes[a.k], a) && w.up.hashes[a.k].inode in w.disk.content
    ensures var h := w.up.hashes[a.k]; var x := ReadOn(w, a.k);
            EndsRight(H, w, a) <==> (Takes(H, x, a) ==> Still(w, h.n, Whole(h, w.disk.content[h.inode])))
  {
    var x := ReadOn(w, a.k);
    forall n | n in x.disk.names ensures NameFits(x, n) { assert NameFits(w, n); }
    CommitExact(H, x, a);
  }

  /** A byte that is not the first of these. */
  function Spoiling(bytes: Data): Byte {
    if bytes == [] || bytes[0] == 0 then 1 else 0
  }

  /** The same bytes but for the first. */
  function Spoiled(bytes: Data): (r: Data)
    requires bytes != []
    ensures r != bytes && |r| == |bytes| && r[1..] == bytes[1..]
  {
    var r := [Spoiling(bytes)] + bytes[1..];
    assert r[0] != bytes[0];
    r
  }

  lemma {:induction false} OverwriteAll(bytes: Data, chunk: Data)
    requires |bytes| <= |chunk|
    ensures Overwrite(bytes, 0, chunk) == chunk
  {
  }

  /** Part of the file was hashed before its first byte changed. */
  lemma {:induction false} SpoiledWhole(h: Hash, bytes: Data)
    requires !h.done && h.hashed != [] && h.hashed <= bytes
    ensures Whole(h, Spoiled(bytes)) == bytes
  {
    var m := |h.hashed|;
    assert Spoiled(bytes)[m..] == Spoiled(bytes)[1..][m - 1..] && bytes[m..] == bytes[1..][m - 1..];
    assert bytes == bytes[..m] + bytes[m..];
  }

  /** Some file of that digest, no shorter than `least`, begins with what was hashed. */
  ghost predicate Completable(H: Data -> Digest, h: Hash, d: Digest, least: nat) {
    exists bytes: Data :: H(bytes) == d && h.hashed <= bytes && least <= |bytes| && (h.done ==> bytes == h.hashed)
  }

  /** A parallel upload is being hashed at its name, or was, and was not written since. */
  ghost predicate Sealing(H: Data -> Digest, w: World, k: nat) {
    && k in w.up.hashes && k !in w.up.collecting && HashFits(w, k) && w.up.hashes[k].n.Parallel?
    && w.up.hashes[k].n in w.disk.names && w.disk.names[w.up.hashes[k].n] == w.up.hashes[k].inode
  }

  /** What a change of the file leads to, once it is sealed. */
  lemma {:induction false} SealEnds(H: Data -> Digest, w: World, k: nat, v: World)
    requires CollisionFree(H) && Inv(H, v) && Sealing(H, w, k)
    requires k in v.up.hashes && v.up.hashes[k] == w.up.hashes[k] && v.up.collecting == w.up.collecting
    requires var h := w.up.hashes[k]; h.n in v.disk.names && v.disk.names[h.n] == h.inode && h.inode in v.disk.content
    ensures var h := w.up.hashes[k]; var bytes := v.disk.content[h.inode];
            EndsRight(H, v, Seal(k)) <==> (H(Whole(h, bytes)) == h.n.d ==> bytes == Whole(h, bytes))
  {
    EndsExact(H, v, Seal(k));
  }

  /** Bytes that are not shorter cannot be hashed on to the digest. */
  lemma {:induction false} NotCompletable(H: Data -> Digest, h: Hash, d: Digest, least: nat, bytes: Data)
    requires !Completable(H, h, d, least) && least <= |bytes| && (h.done ==> least <= |h.hashed|)
    ensures H(Whole(h, bytes)) != d
  {
    var whole := Whole(h, bytes);
    assert h.hashed <= whole && least <= |whole| && (h.done ==> whole == h.hashed);
  }

  lemma {:induction false} FillWritten(H: Data -> Digest, w: World, k: nat, j: nat, offset: nat, chunk: Data)
    requires CollisionFree(H) && Inv(H, w) && Sealing(H, w, k) && j in w.up.fills
    ensures var v := Step(H, w, FillWrite(j, offset, chunk)); var h := w.up.hashes[k];
            var bytes := if w.up.fills[j] == h.inode then Overwrite(w.disk.content[h.inode], offset, chunk) else w.disk.content[h.inode];
            EndsRight(H, v, Seal(k)) <==> (H(Whole(h, bytes)) == h.n.d ==> bytes == Whole(h, bytes))
  {
    StepInv(H, w, FillWrite(j, offset, chunk));
    SealEnds(H, w, k, Step(H, w, FillWrite(j, offset, chunk)));
  }

  /**
    A ranged write while a file is hashed, or after: whatever it writes, a seal that reads on to the end
    leaves the cache right exactly when it writes another file, or nothing was read yet, or what was read
    is no beginning of a file of that digest any more.
  */
  lemma {:induction false} FillWriteExact(H: Data -> Digest, w: World, k: nat, j: nat)
    requires CollisionFree(H) && Inv(H, w) && Sealing(H, w, k) && j in w.up.fills
    ensures var h := w.up.hashes[k];
            (forall offset: nat, chunk: Data :: EndsRight(H, Step(H, w, FillWrite(j, offset, chunk)), Seal(k)))
            <==> !Begun(h) || w.up.fills[j] != h.inode || !Completable(H, h, h.n.d, |w.disk.content[h.inode]|)
  {
    var h := w.up.hashes[k];
    var was := w.disk.content[h.inode];
    if Begun(h) && w.up.fills[j] == h.inode && Completable(H, h, h.n.d, |was|) {
      var bytes: Data :| H(bytes) == h.n.d && h.hashed <= bytes && |was| <= |bytes| && (h.done ==> bytes == h.hashed);
      if h.done {
        LongerDiffers(was);
        FillWritten(H, w, k, j, |was|, [0]);
      } else {
        SpoiledWhole(h, bytes);
        OverwriteAll(was, Spoiled(bytes));
        FillWritten(H, w, k, j, 0, Spoiled(bytes));
      }
    } else {
      forall offset: nat, chunk: Data ensures EndsRight(H, Step(H, w, FillWrite(j, offset, chunk)), Seal(k)) {
        FillWritten(H, w, k, j, offset, chunk);
        OverwriteGrows(was, offset, chunk);
        if !Completable(H, h, h.n.d, |was|) {
          NotCompletable(H, h, h.n.d, |was|, if w.up.fills[j] == h.inode then Overwrite(was, offset, chunk) else was);
        }
      }
    }
  }

  /** An upload begun over again, and the first ranged write to it. */
  ghost function Refilled(H: Data -> Digest, w: World, d: Digest, size: nat, j: nat, offset: nat, chunk: Data): World {
    Step(H, Step(H, Step(H, w, Begin(d, size)), FillOpen(j, d)), FillWrite(j, offset, chunk))
  }

  lemma {:induction false} BegunIs(H: Data -> Digest, w: World, d: Digest, size: nat)
    ensures var v := Step(H, w, Begin(d, size)); var i := Inode(w, Parallel(d)); var zeros: Data := seq(size, _ => 0);
            v.up == w.up && v.disk.names == w.disk.names[Parallel(d) := i] && v.disk.content == w.disk.content[i := zeros]
  {
    if Parallel(d) in w.disk.names { assert w.disk.names[Parallel(d) := w.disk.names[Parallel(d)]] == w.disk.names; }
  }

  lemma {:induction false} FilledIs(H: Data -> Digest, w: World, d: Digest, j: nat, offset: nat, chunk: Data)
    requires j !in w.up.fills && Parallel(d) in w.disk.names && w.disk.names[Parallel(d)] in w.disk.content
    ensures var v := Step(H, Step(H, w, FillOpen(j, d)), FillWrite(j, offset, chunk)); var i := w.disk.names[Parallel(d)];
            && v.up.hashes == w.up.hashes && v.up.collecting == w.up.collecting && v.disk.names == w.disk.names
            && v.disk.content == w.disk.content[i := Overwrite(w.disk.content[i], offset, chunk)]
  {
  }

  lemma {:induction false} RefilledInv(H: Data -> Digest, w: World, d: Digest, size: nat, j: nat, offset: nat, chunk: Data)
    requires Inv(H, w)
    ensures Inv(H, Refilled(H, w, d, size, j, offset, chunk))
  {
    StepInv(H, w, Begin(d, size));
    StepInv(H, Step(H, w, Begin(d, size)), FillOpen(j, d));
    StepInv(H, Step(H, Step(H, w, Begin(d, size)), FillOpen(j, d)), FillWrite(j, offset, chunk));
  }

  lemma {:induction false} RefilledIs(H: Data -> Digest, w: World, d: Digest, size: nat, j: nat, offset: nat, chunk: Data)
    requires j !in w.up.fills
    ensures var v := Refilled(H, w, d, size, j, offset, chunk); var i := Inode(w, Parallel(d));
            && v.up.hashes == w.up.hashes && v.up.collecting == w.up.collecting
            && v.disk.names == w.disk.names[Parallel(d) := i]
            && v.disk.content == w.disk.content[i := Overwrite(seq(size, _ => 0), offset, chunk)]
  {
    var zeros: Data := seq(size, _ => 0);
    var i := Inode(w, Parallel(d));
    BegunIs(H, w, d, size);
    FilledIs(H, Step(H, w, Begin(d, size)), d, j, offset, chunk);
    assert w.disk.content[i := zeros][i := Overwrite(zeros, offset, chunk)] == w.disk.content[i := Overwrite(zeros, offset, chunk)];
  }

  lemma {:induction false} BegunOver(H: Data -> Digest, w: World, k: nat, d: Digest, size: nat, j: nat, offset: nat, chunk: Data)
    requires CollisionFree(H) && Inv(H, w) && Sealing(H, w, k) && j !in w.up.fills
    ensures var h := w.up.hashes[k];
            var bytes := if h.n == Parallel(d) then Overwrite(seq(size, _ => 0), offset, chunk) else w.disk.content[h.inode];
            EndsRight(H, Refilled(H, w, d, size, j, offset, chunk), Seal(k)) <==> (H(Whole(h, bytes)) == h.n.d ==> bytes == Whole(h, bytes))
  {
    var h := w.up.hashes[k];
    RefilledIs(H, w, d, size, j, offset, chunk);
    RefilledInv(H, w, d, size, j, offset, chunk);
    assert NameFits(w, h.n);
    if Parallel(d) in w.disk.names { assert NameFits(w, Parallel(d)); }
    SealEnds(H, w, k, Refilled(H, w, d, size, j, offset, chunk));
  }

  /**
    An upload that begins over again while a file is hashed, or after: however large it begins and whatever
    is written next, a seal that reads on to the end leaves the cache right exactly when it is another
    upload, or nothing was read yet, or what was read begins no file of that digest.
  */
  lemma {:induction false} BeginExact(H: Data -> Digest, w: World, k: nat, d: Digest, j: nat)
    requires CollisionFree(H) && Inv(H, w) && Sealing(H, w, k) && j !in w.up.fills
    ensures var h := w.up.hashes[k];
            (forall size: nat, offset: nat, chunk: Data :: EndsRight(H, Refilled(H, w, d, size, j, offset, chunk), Seal(k)))
            <==> !Begun(h) || h.n != Parallel(d) || !Completable(H, h, d, 0)
  {
    var h := w.up.hashes[k];
    var none: Data := seq(0, _ => 0);
    if Begun(h) && h.n == Parallel(d) && Completable(H, h, d, 0) {
      var bytes: Data :| H(bytes) == d && h.hashed <= bytes && 0 <= |bytes| && (h.done ==> bytes == h.hashed);
      if h.done {
        var other: Data := bytes + [0];
        OverwriteAll(none, other);
        BegunOver(H, w, k, d, 0, j, 0, other);
      } else {
        SpoiledWhole(h, bytes);
        OverwriteAll(none, Spoiled(bytes));
        BegunOver(H, w, k, d, 0, j, 0, Spoiled(bytes));
      }
    } else {
      forall size: nat, offset: nat, chunk: Data ensures EndsRight(H, Refilled(H, w, d, size, j, offset, chunk), Seal(k)) {
        BegunOver(H, w, k, d, size, j, offset, chunk);
        if h.n == Parallel(d) && !Completable(H, h, d, 0) {
          NotCompletable(H, h, d, 0, Overwrite(seq(size, _ => 0), offset, chunk));
        }
      }
    }
  }

  /** An output is being hashed at its name, or was, and was not written since; this will end it. */
  ghost predicate Collects(H: Data -> Digest, w: World, a: Action) {
    && EndsHash(a) && a.k in w.up.hashes && a.k !in w.up.collecting && HashFits(w, a.k) && !a.Seal? && Suits(w.up.hashes[a.k], a)
    && w.up.hashes[a.k].n in w.disk.names && w.disk.names[w.up.hashes[a.k].n] == w.up.hashes[a.k].inode
  }

  /** After the body's write. */
  function Written(w: World, j: nat, offset: nat, chunk: Data): World
    requires j in w.run.handles
  {
    WriteAt(w, w.run.handles[j], offset, chunk)
  }

  lemma {:induction false} WriteIs(H: Data -> Digest, w: World, j: nat, offset: nat, chunk: Data)
    requires j in w.run.handles
    ensures Step(H, w, Write(j, offset, chunk)) == Written(w, j, offset, chunk)
  {
  }

  lemma {:induction false} WrittenFits(H: Data -> Digest, w: World, j: nat, offset: nat, chunk: Data)
    requires Inv(H, w) && j in w.run.handles
    ensures FilesFit(H, Written(w, j, offset, chunk))
  {
    var v := Written(w, j, offset, chunk);
    forall n | n in v.disk.names ensures NameFits(v, n) { assert NameFits(w, n); }
  }

  /** The bytes the hashed file then has. */
  function NewBytes(w: World, k: nat, j: nat, offset: nat, chunk: Data): Data
    requires k in w.up.hashes && w.up.hashes[k].inode in w.disk.content && j in w.run.handles
  {
    var i := w.up.hashes[k].inode;
    if w.run.handles[j] == i then Overwrite(w.disk.content[i], offset, chunk) else w.disk.content[i]
  }

  lemma {:induction false} BodyWritten(H: Data -> Digest, w: World, a: Action, j: nat, offset: nat, chunk: Data)
    requires CollisionFree(H) && Inv(H, w) && Collects(H, w, a) && j in w.run.handles
    ensures var v := Written(w, j, offset, chunk); var h := w.up.hashes[a.k]; var bytes := NewBytes(w, a.k, j, offset, chunk);
            EndsRight(H, v, a) <==> (Takes(H, ReadOn(v, a.k), a) ==> bytes == Whole(h, bytes))
  {
    WrittenFits(H, w, j, offset, chunk);
    EndsExact(H, Written(w, j, offset, chunk), a);
  }

  predicate Polls(a: Action) {
    a.CollectOpen? && a.poll
  }

  /** Whether these bytes would be taken, hashed from this file. */
  predicate WouldTake(H: Data -> Digest, w: World, h: Hash, a: Action, whole: Data)
    requires EndsHash(a) && !a.Seal?
  {
    Stores(H, w, h.(hashed := whole), Polls(a))
  }

  lemma {:induction false} TakesWhole(H: Data -> Digest, v: World, a: Action)
    requires EndsHash(a) && !a.Seal? && a.k in v.up.hashes && v.up.hashes[a.k].inode in v.disk.content
    ensures var h := v.up.hashes[a.k];
            Takes(H, ReadOn(v, a.k), a) == WouldTake(H, v, h, a, Whole(h, v.disk.content[h.inode]))
  {
  }

  /** A body's write changes no cache file, so but for a poll it does not change that. */
  lemma {:induction false} StillTakes(H: Data -> Digest, w: World, h: Hash, a: Action, whole: Data, j: nat, offset: nat, chunk: Data)
    requires Inv(H, w) && EndsHash(a) && !a.Seal? && j in w.run.handles && h.n in w.disk.names && !Polls(a)
    ensures WouldTake(H, Written(w, j, offset, chunk), h, a, whole) == WouldTake(H, w, h, a, whole)
  {
    var d := H(whole);
    assert NameFits(w, h.n);
    if Blob(d) in w.disk.names { assert NameFits(w, Blob(d)); }
  }

  /** What is longer than the file and than any in the cache is taken, unless the call placed it itself. */
  lemma {:induction false} LongTaken(H: Data -> Digest, v: World, h: Hash, a: Action, whole: Data)
    requires CollisionFree(H) && FilesFit(H, v) && EndsHash(a) && !a.Seal? && h.n.Path? && h.n in v.disk.names
    requires |whole| > h.size && !Known(v, h.n.p, H(whole))
    requires forall d | Blob(d) in v.disk.names && v.disk.names[Blob(d)] in v.disk.content ::
               |v.disk.content[v.disk.names[Blob(d)]]| < |whole|
    ensures WouldTake(H, v, h, a, whole)
  {
    assert NameFits(v, h.n);
    forall d | Blob(d) in v.disk.names ensures d != H(whole) { assert NameFits(v, Blob(d)); }
  }

  /** Longer than every file there is. */
  ghost function Longest(content: map<nat, Data>): (n: nat)
    ensures forall i | i in content :: |content[i]| < n
  {
    var sizes := set i | i in content :: |content[i]|;
    assert forall i | i in content :: |content[i]| in sizes;
    Above(sizes)
  }

  /** These bytes and then zeros, one of two lengths, so that the call did not place them. */
  lemma {:induction false} Lengthened(H: Data -> Digest, w: World, p: PathName, bytes: Data, least: nat) returns (longer: Data)
    requires CollisionFree(H)
    ensures bytes <= longer && |longer| > least && !Known(w, p, H(longer))
  {
    longer := bytes + seq(least + 1, _ => 0);
    if Known(w, p, H(longer)) {
      var longest := longer + [0];
      assert |longest| != |longer|;
      longer := longest;
    }
  }

  /** After a write to an output, part of which was hashed, that makes it long and other than it will be hashed as. */
  lemma {:induction false} LongWritten(H: Data -> Digest, w: World, a: Action, j: nat, longer: Data)
    requires CollisionFree(H) && Inv(H, w) && Collects(H, w, a) && j in w.run.handles
    requires var h := w.up.hashes[a.k];
             && w.run.handles[j] == h.inode && h.hashed != [] && !h.done && w.disk.content[h.inode] <= longer
             && |longer| > h.size && |longer| > Longest(w.disk.content) && !Known(w, h.n.p, H(longer))
    ensures !EndsRight(H, Written(w, j, 0, Spoiled(longer)), a)
  {
    var h := w.up.hashes[a.k];
    var v := Written(w, j, 0, Spoiled(longer));
    SpoiledWhole(h, longer);
    OverwriteAll(w.disk.content[h.inode], Spoiled(longer));
    BodyWritten(H, w, a, j, 0, Spoiled(longer));
    WrittenFits(H, w, j, 0, Spoiled(longer));
    TakesWhole(H, v, a);
    forall d | Blob(d) in v.disk.names && v.disk.names[Blob(d)] in v.disk.content
      ensures |v.disk.content[v.disk.names[Blob(d)]]| < |longer|
    {
      assert NameFits(w, Blob(d));
    }
    LongTaken(H, v, h, a, longer);
  }

  /** After a write to an output that was hashed to its end. */
  lemma {:induction false} LateWritten(H: Data -> Digest, w: World, a: Action, j: nat)
    requires CollisionFree(H) && Inv(H, w) && Collects(H, w, a) && j in w.run.handles
    requires w.run.handles[j] == w.up.hashes[a.k].inode && w.up.hashes[a.k].done && (Polls(a) || Takes(H, w, a))
    ensures !EndsRight(H, Written(w, j, |w.disk.content[w.up.hashes[a.k].inode]|, [0]), a)
  {
    var h := w.up.hashes[a.k];
    var was := w.disk.content[h.inode];
    var v := Written(w, j, |was|, [0]);
    LongerDiffers(was);
    OverwriteEnd(was, [0]);
    BodyWritten(H, w, a, j, |was|, [0]);
    TakesWhole(H, v, a);
    if Polls(a) { PollTakes(H, w, h, a, j); } else { StillTakes(H, w, h, a, h.hashed, j, |was|, [0]); }
  }

  /** A poll sees that the output got longer than the file of the cache that it was. */
  lemma {:induction false} PollTakes(H: Data -> Digest, w: World, h: Hash, a: Action, j: nat)
    requires CollisionFree(H) && Inv(H, w) && EndsHash(a) && Polls(a) && j in w.run.handles && h.n.Path? && h.n in w.disk.names
    requires w.disk.names[h.n] == h.inode && w.run.handles[j] == h.inode
    requires h.inode in w.disk.content && w.disk.content[h.inode] == h.hashed
    ensures WouldTake(H, Written(w, j, |h.hashed|, [0]), h, a, h.hashed)
  {
    OverwriteEnd(h.hashed, [0]);
    if Blob(H(h.hashed)) in w.disk.names { assert NameFits(w, Blob(H(h.hashed))); }
  }

  /** The bytes that break it. */
  lemma {:induction false} BodySpoils(H: Data -> Digest, w: World, a: Action, j: nat) returns (offset: nat, chunk: Data)
    requires CollisionFree(H) && Inv(H, w) && Collects(H, w, a) && j in w.run.handles
    requires Begun(w.up.hashes[a.k]) && w.run.handles[j] == w.up.hashes[a.k].inode
    requires w.up.hashes[a.k].done ==> Polls(a) || Takes(H, w, a)
    ensures !EndsRight(H, Step(H, w, Write(j, offset, chunk)), a)
  {
    var h := w.up.hashes[a.k];
    if h.done {
      offset, chunk := |w.disk.content[h.inode]|, [0];
      LateWritten(H, w, a, j);
    } else {
      var longer := Lengthened(H, w, h.n.p, w.disk.content[h.inode], h.size + Longest(w.disk.content));
      offset, chunk := 0, Spoiled(longer);
      LongWritten(H, w, a, j, longer);
    }
    WriteIs(H, w, j, offset, chunk);
  }

  lemma {:induction false} BodySpares(H: Data -> Digest, w: World, a: Action, j: nat, offset: nat, chunk: Data)
    requires CollisionFree(H) && Inv(H, w) && Collects(H, w, a) && j in w.run.handles
    requires || !Begun(w.up.hashes[a.k]) || w.run.handles[j] != w.up.hashes[a.k].inode
             || (w.up.hashes[a.k].done && !Polls(a) && !Takes(H, w, a))
    ensures EndsRight(H, Step(H, w, Write(j, offset, chunk)), a)
  {
    var h := w.up.hashes[a.k];
    WriteIs(H, w, j, offset, chunk);
    BodyWritten(H, w, a, j, offset, chunk);
    if h.done && !Polls(a) {
      TakesWhole(H, Written(w, j, offset, chunk), a);
      StillTakes(H, w, h, a, h.hashed, j, offset, chunk);
    }
  }

  /**
    A write by the body while its output is hashed, or after: whatever it writes, collecting the output
    once it was read to its end leaves the cache right exactly when it writes another file, or nothing was
    read yet, or the hash is over and the output is not taken, by other than a poll, which looks at the
    output's size once more.
  */
  lemma {:induction false} WriteExact(H: Data -> Digest, w: World, a: Action, j: nat)
    requires CollisionFree(H) && Inv(H, w) && Collects(H, w, a) && j in w.run.handles
    ensures var h := w.up.hashes[a.k];
            (forall offset: nat, chunk: Data :: EndsRight(H, Step(H, w, Write(j, offset, chunk)), a))
            <==> !Begun(h) || w.run.handles[j] != h.inode || (h.done && !Polls(a) && !Takes(H, w, a))
  {
    var h := w.up.hashes[a.k];
    if Begun(h) && w.run.handles[j] == h.inode && (h.done ==> Polls(a) || Takes(H, w, a)) {
      var offset, chunk := BodySpoils(H, w, a, j);
    } else {
      forall offset: nat, chunk: Data ensures EndsRight(H, Step(H, w, Write(j, offset, chunk)), a) {
        BodySpares(H, w, a, j, offset, chunk);
      }
    }
  }

  // ---------------------------------------------------------------- from the end of the hash to the rename

  /** What other senders do to a parallel upload meanwhile. */
  predicate OfSenders(a: Action) {
    a.FillOpen? || a.FillWrite? || a.Begin?
  }

  predicate Sending(acts: seq<Action>) {
    forall a | a in acts :: OfSenders(a)
  }

  /** The same steps in the same order, with any bytes at any offset and any sizes. */
  predicate SameSchedule(a: seq<Action>, b: seq<Action>) {
    |a| == |b| && forall j | 0 <= j < |a| :: SameTurn(a[j], b[j])
  }

  predicate BeginsOver(w: World, a: Action, i: nat) {
    a.Begin? && Parallel(a.d) in w.disk.names && w.disk.names[Parallel(a.d)] == i
  }

  /** At some moment, from here to the end, a ranged write has the file open, or it is begun over again. */
  ghost predicate EverTouched(H: Data -> Digest, w: World, acts: seq<Action>, i: nat)
    decreases |acts|
  {
    i in w.up.fills.Values
    || (acts != [] && (BeginsOver(w, acts[0], i) || EverTouched(H, Step(H, w, acts[0]), acts[1..], i)))
  }

  /** Alike but for the bytes. */
  predicate SameShape(w: World, v: World) {
    w.disk.names == v.disk.names && w.disk.unused == v.disk.unused && w.up.fills == v.up.fills
  }

  lemma {:induction false} ShapeStep(H: Data -> Digest, w: World, v: World, a: Action, b: Action)
    requires SameShape(w, v) && SameTurn(a, b) && OfSenders(a)
    ensures SameShape(Step(H, w, a), Step(H, v, b))
  {
  }

  lemma {:induction false} ScheduleTouches(H: Data -> Digest, w: World, v: World, a: seq<Action>, b: seq<Action>, i: nat)
    requires SameShape(w, v) && SameSchedule(a, b) && Sending(a)
    ensures EverTouched(H, w, a, i) == EverTouched(H, v, b, i)
    decreases |a|
  {
    if a != [] {
      assert SameTurn(a[0], b[0]) && a[0] in a && forall x | x in a[1..] :: x in a;
      forall j | 0 <= j < |a| - 1 ensures SameTurn(a[1..][j], b[1..][j]) { assert SameTurn(a[j + 1], b[j + 1]); }
      ShapeStep(H, w, v, a[0], b[0]);
      ScheduleTouches(H, Step(H, w, a[0]), Step(H, v, b[0]), a[1..], b[1..], i);
    }
  }

  /** The file stays at its name, and the hashes stay as they are. */
  ghost predicate Staying(w: World, v: World, n: Name, i: nat) {
    && n in v.disk.names && v.disk.names[n] == i && i in v.disk.content && i < v.disk.unused
    && v.up.hashes == w.up.hashes && v.up.collecting == w.up.collecting
  }

  lemma {:induction false} SendStep(H: Data -> Digest, w: World, a: Action, n: Name, i: nat)
    requires OfSenders(a) && Staying(w, w, n, i)
    ensures var v := Step(H, w, a);
            Staying(w, v, n, i)
            && (i !in w.up.fills.Values && !BeginsOver(w, a, i) ==> v.disk.content[i] == w.disk.content[i])
  {
    if a.FillWrite? && a.k in w.up.fills { assert w.up.fills[a.k] in w.up.fills.Values; }
  }

  /** A file that is never open and never begun over keeps its bytes. */
  lemma {:induction false} NeverTouched(H: Data -> Digest, w: World, acts: seq<Action>, n: Name, i: nat)
    requires Sending(acts) && Staying(w, w, n, i) && !EverTouched(H, w, acts, i)
    ensures var v := Run(H, w, acts); Staying(w, v, n, i) && v.disk.content[i] == w.disk.content[i] && i !in v.up.fills.Values
    decreases |acts|
  {
    if acts != [] {
      assert acts[0] in acts && forall x | x in acts[1..] :: x in acts;
      SendStep(H, w, acts[0], n, i);
      NeverTouched(H, Step(H, w, acts[0]), acts[1..], n, i);
    }
  }

  lemma {:induction false} SendingCareful(H: Data -> Digest, w: World, acts: seq<Action>)
    requires Sending(acts)
    ensures CarefulRun(H, w, acts)
    decreases |acts|
  {
    if acts != [] {
      assert OfSenders(acts[0]) && forall x | x in acts[1..] :: x in acts;
      SendingCareful(H, Step(H, w, acts[0]), acts[1..]);
    }
  }

  /** The file of the cache named d has these bytes. */
  ghost predicate Holds(w: World, d: Digest, bytes: Data) {
    Blob(d) in w.disk.names && w.disk.names[Blob(d)] in w.disk.content && w.disk.content[w.disk.names[Blob(d)]] == bytes
  }

  lemma {:induction false} SendSpares(H: Data -> Digest, w: World, a: Action, d: Digest, bytes: Data)
    requires Inv(H, w) && OfSenders(a) && Holds(w, d, bytes)
    ensures Holds(Step(H, w, a), d, bytes)
  {
    assert NameFits(w, Blob(d));
    RewritesOnly(H, w, a);
    forall x | x in Rewritten(H, w, a) && x in w.disk.kind ensures x != w.disk.names[Blob(d)] { CommittedSafe(H, w, a, x); }
  }

  /** Senders reach no file of the cache that is in order. */
  lemma {:induction false} SendingSpares(H: Data -> Digest, w: World, acts: seq<Action>, d: Digest, bytes: Data)
    requires Inv(H, w) && Sending(acts) && Holds(w, d, bytes)
    ensures Holds(Run(H, w, acts), d, bytes)
    decreases |acts|
  {
    if acts != [] {
      var a := acts[0];
      assert OfSenders(a) && forall x | x in acts[1..] :: x in acts;
      SendSpares(H, w, a, d, bytes);
      StepInv(H, w, a);
      SendingSpares(H, Step(H, w, a), acts[1..], d, bytes);
    }
  }

  /** The rename, and what senders do after it. */
  ghost function SealRun(H: Data -> Digest, w: World, k: nat, window: seq<Action>, later: seq<Action>): World {
    Run(H, Step(H, Run(H, w, window), Seal(k)), later)
  }

  /** What is to be sealed: a file with the bytes that were hashed to the end, and the right digest. */
  ghost predicate Sealable(H: Data -> Digest, w: World, k: nat) {
    Enabled(w, Seal(k)) && Seals(H, w, w.up.hashes[k]) && Still(w, w.up.hashes[k].n, w.up.hashes[k].hashed)
  }

  lemma {:induction false} SealsNow(H: Data -> Digest, w: World, k: nat)
    requires Inv(H, w) && Sealable(H, w, k) && w.disk.names[w.up.hashes[k].n] !in w.up.fills.Values
    ensures Inv(H, Step(H, w, Seal(k))) && Holds(Step(H, w, Seal(k)), w.up.hashes[k].n.d, w.up.hashes[k].hashed)
  {
    SealInv(H, w, k);
  }

  lemma {:induction false} WindowKeeps(H: Data -> Digest, w: World, k: nat, window: seq<Action>)
    requires Inv(H, w) && Sealable(H, w, k) && Sending(window)
    requires !EverTouched(H, w, window, w.disk.names[w.up.hashes[k].n])
    ensures var v := Run(H, w, window);
            && Inv(H, v) && Sealable(H, v, k) && v.up.hashes[k] == w.up.hashes[k]
            && v.disk.names[v.up.hashes[k].n] !in v.up.fills.Values
  {
    SendingCareful(H, w, window);
    RunInv(H, w, window);
    StaysSealable(H, w, k, window);
  }

  lemma {:induction false} StaysSealable(H: Data -> Digest, w: World, k: nat, window: seq<Action>)
    requires Inv(H, w) && Sealable(H, w, k) && Sending(window)
    requires !EverTouched(H, w, window, w.disk.names[w.up.hashes[k].n])
    ensures var v := Run(H, w, window);
            Sealable(H, v, k) && v.up.hashes[k] == w.up.hashes[k] && v.disk.names[v.up.hashes[k].n] !in v.up.fills.Values
  {
    var n := w.up.hashes[k].n;
    AtItsName(H, w, n);
    NeverTouched(H, w, window, n, w.disk.names[n]);
  }

  lemma {:induction false} AtItsName(H: Data -> Digest, w: World, n: Name)
    requires Inv(H, w) && n in w.disk.names
    ensures Staying(w, w, n, w.disk.names[n])
  {
    assert NameFits(w, n);
  }

  lemma {:induction false} SealHolds(H: Data -> Digest, w: World, k: nat, window: seq<Action>, later: seq<Action>)
    requires Inv(H, w) && Sealable(H, w, k) && Sending(window) && Sending(later)
    requires !EverTouched(H, w, window, w.disk.names[w.up.hashes[k].n])
    ensures Holds(SealRun(H, w, k, window, later), w.up.hashes[k].n.d, w.up.hashes[k].hashed)
  {
    var h := w.up.hashes[k];
    WindowKeeps(H, w, k, window);
    SealsNow(H, Run(H, w, window), k);
    SendingSpares(H, Step(H, Run(H, w, window), Seal(k)), later, h.n.d, h.hashed);
  }

  lemma {:induction false} KeepsOpen(H: Data -> Digest, w: World, a: Action, i: nat, k: nat)
    requires OfSenders(a) && (a.FillWrite? ==> a.k != k) && k in w.up.fills && w.up.fills[k] == i
    ensures i in Step(H, w, a).up.fills.Values
  {
    var fills := Step(H, w, a).up.fills;
    assert k in fills && fills[k] == i;
  }

  /** The step after which a file is open no more writes it. */
  lemma {:induction false} LastToClose(H: Data -> Digest, w: World, a: Action, i: nat)
    requires OfSenders(a) && i in w.up.fills.Values && i !in Step(H, w, a).up.fills.Values
    ensures a.FillWrite? && a.k in w.up.fills && w.up.fills[a.k] == i
  {
    var k :| k in w.up.fills && w.up.fills[k] == i;
    if !a.FillWrite? || a.k != k { KeepsOpen(H, w, a, i, k); }
  }

  /** That step with bytes that make it another file. */
  lemma {:induction false} SpoilNow(H: Data -> Digest, w: World, acts: seq<Action>, n: Name, i: nat, bytes: Data) returns (first: Action)
    requires Sending(acts) && acts != [] && Staying(w, w, n, i)
    requires i in w.up.fills.Values || BeginsOver(w, acts[0], i)
    requires !EverTouched(H, Step(H, w, acts[0]), acts[1..], i)
    ensures SameTurn(acts[0], first)
    ensures var v := Run(H, Step(H, w, first), acts[1..]); Staying(w, v, n, i) && v.disk.content[i] != bytes
  {
    var a, was := acts[0], w.disk.content[i];
    assert a in acts && forall x | x in acts[1..] :: x in acts;
    if a.Begin? {
      first := Begin(a.d, |bytes| + 1);
      if !BeginsOver(w, a, i) { LastToClose(H, w, a, i); }
    } else {
      LastToClose(H, w, a, i);
      first := FillWrite(a.k, |was| + |bytes|, [0]);
    }
    var x := Step(H, w, first);
    SendStep(H, w, first, n, i);
    assert |x.disk.content[i]| > |bytes|;
    ShapeStep(H, w, w, a, first);
    ScheduleTouches(H, Step(H, w, a), x, acts[1..], acts[1..], i);
    NeverTouched(H, x, acts[1..], n, i);
  }

  /** Some bytes and sizes for a schedule that touches the file change it, or leave it open. */
  lemma {:induction false} Spoil(H: Data -> Digest, w: World, acts: seq<Action>, n: Name, i: nat, bytes: Data) returns (b: seq<Action>)
    requires Sending(acts) && Staying(w, w, n, i) && EverTouched(H, w, acts, i)
    ensures SameSchedule(acts, b)
    ensures var v := Run(H, w, b); Staying(w, v, n, i) && (v.disk.content[i] == bytes ==> i in v.up.fills.Values)
    decreases |acts|
  {
    if acts == [] {
      b := [];
    } else {
      var first, rest := acts[0], acts[1..];
      assert first in acts && forall x | x in acts[1..] :: x in acts;
      if EverTouched(H, Step(H, w, first), acts[1..], i) {
        SendStep(H, w, first, n, i);
        rest := Spoil(H, Step(H, w, first), acts[1..], n, i, bytes);
      } else {
        first := SpoilNow(H, w, acts, n, i, bytes);
      }
      b := [first] + rest;
      RunOn(H, w, first, rest);
      forall j | 0 <= j < |acts| ensures SameTurn(acts[j], b[j]) {
        if j > 0 { assert SameTurn(acts[1..][j - 1], rest[j - 1]); }
      }
    }
  }

  lemma {:induction false} SealSpoils(H: Data -> Digest, w: World, k: nat, acts: seq<Action>)
    returns (b: seq<Action>, later: seq<Action>)
    requires Inv(H, w) && Sealable(H, w, k) && Sending(acts)
    requires EverTouched(H, w, acts, w.disk.names[w.up.hashes[k].n])
    ensures SameSchedule(acts, b) && Sending(later)
    ensures !Holds(SealRun(H, w, k, b, later), w.up.hashes[k].n.d, w.up.hashes[k].hashed)
  {
    var h := w.up.hashes[k];
    var i := w.disk.names[h.n];
    AtItsName(H, w, h.n);
    b := Spoil(H, w, acts, h.n, i, h.hashed);
    later := [];
    var v := Run(H, w, b);
    var x := Step(H, v, Seal(k));
    assert x.disk.names[Blob(h.n.d)] == i && x.disk.content == v.disk.content;
    if v.disk.content[i] == h.hashed {
      var j :| j in v.up.fills && v.up.fills[j] == i;
      var last := FillWrite(j, |h.hashed|, [0]);
      later := [last] + [];
      RunOn(H, x, last, []);
      LongerDiffers(h.hashed);
    }
  }

  /**
    A file that was read to its end and has the right digest: whatever other senders write and however
    large they begin it, in the window before the rename and after it, the cache file is what was hashed
    exactly when at no moment from the end of the hash to the rename it is open for a ranged write or
    begun over again.
  */
  lemma {:induction false} SealWindowExact(H: Data -> Digest, w: World, k: nat, acts: seq<Action>)
    requires Inv(H, w) && Sealable(H, w, k) && Sending(acts)
    ensures var h := w.up.hashes[k];
            (forall b, later | SameSchedule(acts, b) && Sending(later) :: Holds(SealRun(H, w, k, b, later), h.n.d, h.hashed))
            <==> !EverTouched(H, w, acts, w.disk.names[h.n])
  {
    var h := w.up.hashes[k];
    var i := w.disk.names[h.n];
    if EverTouched(H, w, acts, i) {
      var b, later := SealSpoils(H, w, k, acts);
    } else {
      forall b, later | SameSchedule(acts, b) && Sending(later) ensures Holds(SealRun(H, w, k, b, later), h.n.d, h.hashed) {
        forall x: Action | x in b ensures OfSenders(x) {
          var j :| 0 <= j < |b| && b[j] == x;
          assert SameTurn(acts[j], b[j]) && acts[j] in acts;
        }
        ScheduleTouches(H, w, w, acts, b, i);
        SealHolds(H, w, k, b, later);
      }
    }
  }
}
