/**
  Where the cache's guards are exact. For each action that `DataCache.Careful` restricts: when the
  guard holds, no later steps that meet their own guards can make the cache wrong, whatever they
  are (uploads, seals, collections, placements, writes by bodies); when it fails, some can.
  `GuardExact` says so for all of them at once.
*/
module CacheLimits {
  import opened Bytes
  import opened DataCache

  /** The digest tells any two files apart. */
  ghost predicate CollisionFree(H: Data -> Digest) {
    forall a, b :: H(a) == H(b) ==> a == b
  }

  /** The cache's promise, for the names it has and for the files it ever had. */
  ghost predicate Right(H: Data -> Digest, w: World) {
    CacheCorrect(H, w) && LinksCorrect(H, w)
  }

  /** However things go on from here, with every later step meeting its guard, the promise is kept. */
  ghost predicate SafeUnderGuards(H: Data -> Digest, w: World) {
    forall later | CarefulRun(H, w, later) :: Right(H, Run(H, w, later))
  }

  lemma {:induction false} InOrderIsSafe(H: Data -> Digest, w: World)
    requires Inv(H, w)
    ensures SafeUnderGuards(H, w)
  {
    forall later | CarefulRun(H, w, later) ensures Right(H, Run(H, w, later)) {
      RunInv(H, w, later);
      InvCorrect(H, Run(H, w, later));
    }
  }

  // ---------------------------------------------------------------- how the promise can be broken

  lemma {:induction false} RunOn(H: Data -> Digest, w: World, a: Action, rest: seq<Action>)
    ensures Run(H, w, [a] + rest) == Run(H, Step(H, w, a), rest)
  {
    assert ([a] + rest)[1..] == rest;
  }

  lemma {:induction false} BrokenNow(H: Data -> Digest, w: World)
    requires !Right(H, w)
    ensures !SafeUnderGuards(H, w)
  {
    assert CarefulRun(H, w, []) && Run(H, w, []) == w;
  }

  lemma {:induction false} BrokenAfter(H: Data -> Digest, w: World, a: Action)
    requires Careful(H, w, a) && !SafeUnderGuards(H, Step(H, w, a))
    ensures !SafeUnderGuards(H, w)
  {
    var later :| CarefulRun(H, Step(H, w, a), later) && !Right(H, Run(H, Step(H, w, a), later));
    RunOn(H, w, a, later);
    assert ([a] + later)[1..] == later;
    assert CarefulRun(H, w, [a] + later);
  }

  lemma {:induction false} WrongFile(H: Data -> Digest, w: World, i: nat)
    requires i in w.disk.kind && w.disk.kind[i].Committed? && i in w.disk.content
    requires H(w.disk.content[i]) != w.disk.kind[i].d
    ensures !SafeUnderGuards(H, w)
  {
    BrokenNow(H, w);
  }

  lemma {:induction false} WrongName(H: Data -> Digest, w: World, d: Digest)
    requires Blob(d) in w.disk.names && w.disk.names[Blob(d)] in w.disk.content
    requires H(w.disk.content[w.disk.names[Blob(d)]]) != d
    ensures !SafeUnderGuards(H, w)
  {
    BrokenNow(H, w);
  }

  ghost function Above(s: set<nat>): (n: nat)
    ensures forall x | x in s :: x < n
  {
    if s == {} then 0
    else
      var x :| x in s;
      var n := Above(s - {x});
      assert s == (s - {x}) + {x};
      if x < n then n else x + 1
  }

  lemma {:induction false} LongerDiffers(bytes: Data)
    ensures Overwrite(bytes, |bytes|, [0]) != bytes
  {
    OverwriteEnd(bytes, [0]);
    assert |Overwrite(bytes, |bytes|, [0])| == |bytes| + 1;
  }

  /** The collections that have still to copy. */
  ghost function Uncopied(w: World): set<nat> {
    set k | k in w.up.collecting && !w.up.collecting[k].filled
  }

  lemma {:induction false} WriteBreaks(H: Data -> Digest, w: World, h: nat)
    requires CollisionFree(H) && h in w.run.handles && w.run.handles[h] in w.disk.content && !CopySource(w, w.run.handles[h])
    requires w.run.handles[h] in w.disk.kind && w.disk.kind[w.run.handles[h]] == Committed(H(w.disk.content[w.run.handles[h]]))
    ensures !SafeUnderGuards(H, w)
  {
    var i := w.run.handles[h];
    var a := Write(h, |w.disk.content[i]|, [0]);
    LongerDiffers(w.disk.content[i]);
    WrongFile(H, Step(H, w, a), i);
    BrokenAfter(H, w, a);
  }

  /** A file of the cache that is open for writing gets another byte, once nobody has still to copy it. */
  lemma {:induction false} OpenBreaks(H: Data -> Digest, w: World, h: nat)
    requires CollisionFree(H) && h in w.run.handles && w.run.handles[h] in w.disk.content
    requires w.run.handles[h] in w.disk.kind && w.disk.kind[w.run.handles[h]].Committed?
    ensures !SafeUnderGuards(H, w)
    decreases Uncopied(w)
  {
    var i := w.run.handles[h];
    if H(w.disk.content[i]) != w.disk.kind[i].d {
      WrongFile(H, w, i);
    } else if k :| k in w.up.collecting && w.up.collecting[k].from == i && !w.up.collecting[k].filled {
      assert k in Uncopied(w) && k !in Uncopied(Step(H, w, CollectFill(k)));
      assert Uncopied(Step(H, w, CollectFill(k))) <= Uncopied(w);
      OpenBreaks(H, Step(H, w, CollectFill(k)), h);
      BrokenAfter(H, w, CollectFill(k));
    } else {
      WriteBreaks(H, w, h);
    }
  }

  /** A file of the cache is at this path. */
  ghost predicate CacheAt(w: World, q: PathName) {
    && Path(q) in w.disk.names && w.disk.names[Path(q)] in w.disk.content
    && w.disk.names[Path(q)] in w.disk.kind && w.disk.kind[w.disk.names[Path(q)]].Committed?
  }

  lemma {:induction false} ReadyBreaks(H: Data -> Digest, w: World, t: nat)
    requires CollisionFree(H) && t in w.run.threads && w.run.threads[t].Ready? && CacheAt(w, w.run.threads[t].p)
    ensures !SafeUnderGuards(H, w)
  {
    var h := Above(w.run.handles.Keys);
    assert h !in w.run.handles.Keys;
    OpenBreaks(H, Step(H, w, Open(t, h)), h);
    BrokenAfter(H, w, Open(t, h));
  }

  /** Threads at a path that is not shielded are past any conversion, or there is none to come. */
  ghost predicate ThreadsFit(w: World, q: PathName) {
    forall t | t in w.run.threads && w.run.threads[t].p == q ::
      && (Converts(w.run.threads[t]) ==> IsLinked(w, q)) && (w.run.threads[t].Ready? ==> !IsPending(w, q))
  }

  /** A new thread opens a path that the call knows as its own, or does not know. */
  lemma {:induction false} NewBreaks(H: Data -> Digest, w: World, q: PathName)
    requires CollisionFree(H) && CacheAt(w, q) && !IsPending(w, q) && !IsLinked(w, q) && ThreadsFit(w, q)
    ensures !SafeUnderGuards(H, w)
  {
    var t := Above(w.run.threads.Keys);
    assert t !in w.run.threads.Keys;
    var u := Step(H, w, Want(t, q));
    assert !Converting(u, q);
    assert Step(H, u, Enter(t)).run.threads[t] == Ready(q);
    ReadyBreaks(H, Step(H, u, Enter(t)), t);
    BrokenAfter(H, u, Enter(t));
    BrokenAfter(H, w, Want(t, q));
  }

  /** A file of the cache at a path that is not shielded can be written by the calls. */
  lemma {:induction false} UnshieldedBreaks(H: Data -> Digest, w: World, q: PathName)
    requires CollisionFree(H) && CacheAt(w, q) && ThreadsFit(w, q) && !Shielded(w, q)
    ensures !SafeUnderGuards(H, w)
  {
    if t :| t in w.run.threads && w.run.threads[t].p == q && w.run.threads[t].Ready? {
      ReadyBreaks(H, w, t);
    } else if t :| t in w.run.threads && w.run.threads[t].p == q && w.run.threads[t].Renamed? {
      ReadyBreaks(H, Step(H, w, MarkOwn(t)), t);
      BrokenAfter(H, w, MarkOwn(t));
    } else if IsPending(w, q) {
      NewBreaks(H, Step(H, w, PlaceMark(q)), q);
      BrokenAfter(H, w, PlaceMark(q));
    } else {
      NewBreaks(H, w, q);
    }
  }

  // ---------------------------------------------------------------- opens that skip the conversion

  /** Going straight to the real open is harmless exactly when the file at the path is not the cache's. */
  lemma {:induction false} ReadyExact(H: Data -> Digest, w: World, v: World, t: nat)
    requires CollisionFree(H) && Inv(H, w) && t in v.run.threads && v.run.threads[t].Ready? && v.disk == w.disk
    requires Private(w, v.run.threads[t].p) ==> Inv(H, v)
    ensures SafeUnderGuards(H, v) <==> Private(w, v.run.threads[t].p)
  {
    var p := v.run.threads[t].p;
    if Private(w, p) {
      InOrderIsSafe(H, v);
    } else {
      assert NameFits(w, Path(p));
      ReadyBreaks(H, v, t);
    }
  }

  /** A failed copy of a conversion is harmless exactly when the cache's file is not at the path. */
  lemma {:induction false} FailedCopyExact(H: Data -> Digest, w: World, t: nat)
    requires CollisionFree(H) && Inv(H, w) && Enabled(w, CopyFails(t))
    ensures SafeUnderGuards(H, Step(H, w, CopyFails(t))) <==> Private(w, w.run.threads[t].p)
  {
    if Private(w, w.run.threads[t].p) { BodyStep(H, w, CopyFails(t)); }
    ReadyExact(H, w, Step(H, w, CopyFails(t)), t);
  }

  /** So it is with an open by a thread that outlives its call, which the patch no longer answers. */
  lemma {:induction false} UnseenExact(H: Data -> Digest, w: World, t: nat, p: PathName)
    requires CollisionFree(H) && Inv(H, w) && Enabled(w, Unseen(t, p))
    ensures SafeUnderGuards(H, Step(H, w, Unseen(t, p))) <==> Private(w, p)
  {
    if Private(w, p) { BodyStep(H, w, Unseen(t, p)); }
    ReadyExact(H, w, Step(H, w, Unseen(t, p)), t);
  }

  // ---------------------------------------------------------------- renames and links by the body

  /** A cache file that comes to an unshielded path can be written there. */
  lemma {:induction false} AliasBreaks(H: Data -> Digest, w: World, v: World, p: PathName, q: PathName)
    requires CollisionFree(H) && Inv(H, w) && Path(p) in w.disk.names && !Private(w, p) && !Shielded(w, q)
    requires v.run == w.run && v.disk.content == w.disk.content && v.disk.kind == w.disk.kind
    requires Path(q) in v.disk.names && v.disk.names[Path(q)] == w.disk.names[Path(p)]
    ensures !SafeUnderGuards(H, v)
  {
    assert NameFits(w, Path(p));
    assert ThreadsFit(v, q) by {
      forall t | t in w.run.threads ensures ThreadFits(w, w.run.threads[t]) {}
    }
    UnshieldedBreaks(H, v, q);
  }

  /**
    A rename by the body, which is not patched, is harmless exactly when the file is not the cache's,
    or goes to a path that will be converted; also when it replaces an output that is being collected,
    for then the collection's own guard fails.
  */
  lemma {:induction false} BodyRenameExact(H: Data -> Digest, w: World, p: PathName, q: PathName)
    requires CollisionFree(H) && Inv(H, w) && Enabled(w, BodyRename(p, q))
    ensures SafeUnderGuards(H, Step(H, w, BodyRename(p, q))) <==> Private(w, p) || Shielded(w, q)
  {
    var v := Step(H, w, BodyRename(p, q));
    if Private(w, p) || Shielded(w, q) {
      NameStep(H, w, BodyRename(p, q));
      InOrderIsSafe(H, v);
    } else {
      assert p != q;
      AliasBreaks(H, w, v, p, q);
    }
  }

  /** So it is with a link by the body. */
  lemma {:induction false} BodyLinkExact(H: Data -> Digest, w: World, p: PathName, q: PathName)
    requires CollisionFree(H) && Inv(H, w) && Enabled(w, BodyLink(p, q))
    ensures SafeUnderGuards(H, Step(H, w, BodyLink(p, q))) <==> Private(w, p) || Shielded(w, q)
  {
    var v := Step(H, w, BodyLink(p, q));
    if Private(w, p) || Shielded(w, q) {
      NameStep(H, w, BodyLink(p, q));
      InOrderIsSafe(H, v);
    } else {
      AliasBreaks(H, w, v, p, q);
    }
  }

  // ---------------------------------------------------------------- a file renamed into the cache

  /**
    A seal that found the right digest is harmless exactly when the file that is at the name by then
    has the bytes that were hashed and no ranged write has it open.
  */
  lemma {:induction false} SealExact(H: Data -> Digest, w: World, k: nat)
    requires CollisionFree(H) && Inv(H, w) && Enabled(w, Seal(k)) && Seals(H, w, w.up.hashes[k])
    ensures var h := w.up.hashes[k];
            SafeUnderGuards(H, Step(H, w, Seal(k))) <==> Still(w, h.n, h.hashed) && w.disk.names[h.n] !in w.up.fills.Values
  {
    var v, h := Step(H, w, Seal(k)), w.up.hashes[k];
    var i := w.disk.names[h.n];
    assert NameFits(w, h.n);
    if !Still(w, h.n, h.hashed) {
      WrongName(H, v, h.n.d);
    } else if j :| j in w.up.fills && w.up.fills[j] == i {
      var a := FillWrite(j, |h.hashed|, [0]);
      LongerDiffers(h.hashed);
      WrongName(H, Step(H, v, a), h.n.d);
      BrokenAfter(H, v, a);
    } else {
      SealInv(H, w, k);
      InOrderIsSafe(H, v);
    }
  }

  lemma {:induction false} OtherName(H: Data -> Digest, w: World, n: Name, d: Digest) returns (m: Name)
    requires Inv(H, w) && n.Path? && n in w.disk.names && w.disk.names[n] in w.disk.content
    requires H(w.disk.content[w.disk.names[n]]) == d && !OnlyShielded(w, n, d)
    ensures m in w.disk.names && m != n && m.Path? && w.disk.names[m] == w.disk.names[n] && !Shielded(w, m.p)
  {
    m :| m in w.disk.names && m != n && m != Blob(d) && w.disk.names[m] == w.disk.names[n] && !(m.Path? && Shielded(w, m.p));
    assert NameFits(w, m) && NameFits(w, n);
  }

  /** The file at `n`, moved into the cache, still has a name that some call can write. */
  lemma {:induction false} MovedNameBreaks(H: Data -> Digest, w: World, k: nat)
    requires CollisionFree(H) && Inv(H, w) && Enabled(w, CollectMove(k)) && Stores(H, w, w.up.hashes[k], false)
    requires Still(w, w.up.hashes[k].n, w.up.hashes[k].hashed)
    requires !OnlyShielded(w, w.up.hashes[k].n, H(w.up.hashes[k].hashed))
    ensures !SafeUnderGuards(H, Step(H, w, CollectMove(k)))
  {
    var v, h := Step(H, w, CollectMove(k)), w.up.hashes[k];
    var m := OtherName(H, w, h.n, H(h.hashed));
    assert NameFits(w, h.n);
    assert ThreadsFit(v, m.p) by {
      forall t | t in w.run.threads ensures ThreadFits(w, w.run.threads[t]) {}
    }
    assert !Shielded(v, m.p);
    UnshieldedBreaks(H, v, m.p);
  }

  /**
    A returned call's file is renamed into the cache harmlessly exactly when the file that is at the
    name by then has the bytes that were hashed, nobody has it open for writing, and its other names
    will be converted.
  */
  lemma {:induction false} CollectMoveExact(H: Data -> Digest, w: World, k: nat)
    requires CollisionFree(H) && Inv(H, w) && Enabled(w, CollectMove(k)) && Stores(H, w, w.up.hashes[k], false)
    ensures var h := w.up.hashes[k];
            SafeUnderGuards(H, Step(H, w, CollectMove(k)))
            <==> Still(w, h.n, h.hashed) && w.disk.names[h.n] !in w.run.handles.Values && OnlyShielded(w, h.n, H(h.hashed))
  {
    var v, h := Step(H, w, CollectMove(k)), w.up.hashes[k];
    var i, d := w.disk.names[h.n], H(h.hashed);
    if !Still(w, h.n, h.hashed) {
      WrongName(H, v, d);
    } else if j :| j in w.run.handles && w.run.handles[j] == i {
      OpenBreaks(H, v, j);
    } else if !OnlyShielded(w, h.n, d) {
      MovedNameBreaks(H, w, k);
    } else {
      CollectMoveInv(H, w, k);
      InOrderIsSafe(H, v);
    }
  }

  // ---------------------------------------------------------------- one upload name for several

  /** A collection's copy that an upload appends to is committed with the wrong bytes. */
  lemma {:induction false} AppendedTo(H: Data -> Digest, v: World, d: Digest, k: nat, bytes: Data)
    requires CollisionFree(H) && H(bytes) == d
    requires d in v.up.puts && !v.up.puts[d].checked && k in v.up.collecting && v.up.collecting[k].d == d
    requires v.up.collecting[k].filled && Upload(d) in v.disk.names && v.disk.names[Upload(d)] == v.up.puts[d].inode
    requires v.up.puts[d].inode in v.disk.content
    ensures !SafeUnderGuards(H, v)
  {
    var a := PutChunk(d, bytes + [0]);
    var x := Step(H, v, a);
    assert |x.disk.content[v.up.puts[d].inode]| > |bytes|;
    WrongName(H, Step(H, x, CollectRename(k)), d);
    BrokenAfter(H, x, CollectRename(k));
    BrokenAfter(H, v, a);
  }

  /** So it is when the collection has still to copy. */
  lemma {:induction false} CopiedTo(H: Data -> Digest, v: World, d: Digest, k: nat, bytes: Data)
    requires CollisionFree(H) && H(bytes) == d
    requires d in v.up.puts && !v.up.puts[d].checked && k in v.up.collecting && v.up.collecting[k].d == d
    requires Upload(d) in v.disk.names && v.disk.names[Upload(d)] == v.up.puts[d].inode
    requires v.up.puts[d].inode in v.disk.content
    ensures !SafeUnderGuards(H, v)
  {
    if v.up.collecting[k].filled {
      AppendedTo(H, v, d, k, bytes);
    } else {
      AppendedTo(H, Step(H, v, CollectFill(k)), d, k, bytes);
      BrokenAfter(H, v, CollectFill(k));
    }
  }

  /** Starting an upload is harmless exactly when no collection is copying that digest beside the cache. */
  lemma {:induction false} StartUploadExact(H: Data -> Digest, w: World, d: Digest)
    requires CollisionFree(H) && Inv(H, w)
    ensures SafeUnderGuards(H, Step(H, w, PutStart(d))) <==> !Collecting(w, d)
  {
    var v := Step(H, w, PutStart(d));
    if k :| k in w.up.collecting && w.up.collecting[k].d == d {
      assert CollectFits(H, w, k);
      CreateHolds(w, Upload(d), Uploading(d), []);
      CopiedTo(H, v, d, k, if w.up.collecting[k].filled then w.disk.content[w.up.collecting[k].to] else w.up.hashes[k].hashed);
    } else {
      StepInv(H, w, PutStart(d));
      InOrderIsSafe(H, v);
    }
  }

  /** What opening the copy leaves: the upload file empty, and everything else as it was. */
  lemma {:induction false} CopyOpened(H: Data -> Digest, w: World, k: nat, poll: bool)
    requires Enabled(w, CollectOpen(k, poll)) && Stores(H, w, w.up.hashes[k], poll)
    ensures var v := Step(H, w, CollectOpen(k, poll)); var h := w.up.hashes[k]; var n := Upload(H(h.hashed));
            && n in v.disk.names && v.disk.names[n] == Inode(w, n)
            && v.disk.content == w.disk.content[Inode(w, n) := []]
            && v.up == w.up.(collecting := w.up.collecting[k := Out(H(h.hashed), w.disk.names[h.n], Inode(w, n), false)])
  {
  }

  /** An empty file committed under a digest that is another file's. */
  lemma {:induction false} EmptyCommits(H: Data -> Digest, v: World, a: Action, d: Digest, bytes: Data)
    requires CollisionFree(H) && H(bytes) == d && bytes != []
    requires (a == PutRename(d) && d in v.up.puts && v.up.puts[d].checked)
             || (a.CollectRename? && a.k in v.up.collecting && v.up.collecting[a.k].filled && v.up.collecting[a.k].d == d)
    requires Upload(d) in v.disk.names && v.disk.names[Upload(d)] in v.disk.content
    requires v.disk.content[v.disk.names[Upload(d)]] == []
    ensures !SafeUnderGuards(H, v)
  {
    WrongName(H, Step(H, v, a), d);
    BrokenAfter(H, v, a);
  }

  /** A copy of something else than what was hashed. */
  lemma {:induction false} CopiesOther(H: Data -> Digest, v: World, k: nat)
    requires k in v.up.collecting && !v.up.collecting[k].filled && v.up.collecting[k].from in v.disk.content
    requires Upload(v.up.collecting[k].d) in v.disk.names && v.disk.names[Upload(v.up.collecting[k].d)] == v.up.collecting[k].to
    requires v.up.collecting[k].to in v.disk.content
    requires |v.disk.content[v.up.collecting[k].to]| <= |v.disk.content[v.up.collecting[k].from]|
    requires H(v.disk.content[v.up.collecting[k].from]) != v.up.collecting[k].d
    ensures !SafeUnderGuards(H, v)
  {
    var o := v.up.collecting[k];
    var x := Step(H, v, CollectFill(k));
    assert x.disk.content[o.to] == v.disk.content[o.from];
    WrongName(H, Step(H, x, CollectRename(k)), o.d);
    BrokenAfter(H, x, CollectRename(k));
    BrokenAfter(H, v, CollectFill(k));
  }

  /** The file beside the cache went into it meanwhile. */
  lemma {:induction false} CopiesIntoCache(H: Data -> Digest, v: World, k: nat)
    requires k in v.up.collecting && !v.up.collecting[k].filled && v.up.collecting[k].from in v.disk.content
    requires v.up.collecting[k].to in v.disk.content && v.up.collecting[k].to in v.disk.kind
    requires v.disk.kind[v.up.collecting[k].to] == Committed(v.up.collecting[k].d)
    requires |v.disk.content[v.up.collecting[k].to]| <= |v.disk.content[v.up.collecting[k].from]|
    requires H(v.disk.content[v.up.collecting[k].from]) != v.up.collecting[k].d
    ensures !SafeUnderGuards(H, v)
  {
    var o, x := v.up.collecting[k], Step(H, v, CollectFill(k));
    assert x.disk.content[o.to] == v.disk.content[o.from];
    WrongFile(H, x, o.to);
    BrokenAfter(H, v, CollectFill(k));
  }

  /** Another collection's rename finds the copy just opened, and empty. */
  lemma {:induction false} RenamesEmpty(H: Data -> Digest, v: World, j: nat, d: Digest, bytes: Data)
    requires CollisionFree(H) && H(bytes) == d && bytes != []
    requires j in v.up.collecting && v.up.collecting[j].d == d
    requires Upload(d) in v.disk.names && v.disk.names[Upload(d)] in v.disk.content
    requires v.disk.content[v.disk.names[Upload(d)]] == []
    requires !v.up.collecting[j].filled ==> v.up.collecting[j].to != v.disk.names[Upload(d)]
    ensures !SafeUnderGuards(H, v)
  {
    if v.up.collecting[j].filled {
      EmptyCommits(H, v, CollectRename(j), d, bytes);
    } else {
      EmptyCommits(H, Step(H, v, CollectFill(j)), CollectRename(j), d, bytes);
      BrokenAfter(H, v, CollectFill(j));
    }
  }

  lemma {:induction false} UploadApart(H: Data -> Digest, w: World, d: Digest, n: Name)
    requires Inv(H, w) && n in w.disk.names && !n.Upload?
    ensures Inode(w, Upload(d)) != w.disk.names[n]
  {
    assert NameFits(w, n);
    if Upload(d) in w.disk.names { assert NameFits(w, Upload(d)); }
  }

  /** An upload of that digest that is under way appends to the copy, or commits it empty. */
  lemma {:induction false} OpenedOverPut(H: Data -> Digest, v: World, d: Digest, k: nat, bytes: Data)
    requires CollisionFree(H) && H(bytes) == d && bytes != []
    requires d in v.up.puts && k in v.up.collecting && v.up.collecting[k].d == d
    requires Upload(d) in v.disk.names && v.disk.names[Upload(d)] == v.up.puts[d].inode
    requires v.up.puts[d].inode in v.disk.content && v.disk.content[v.up.puts[d].inode] == []
    ensures !SafeUnderGuards(H, v)
  {
    if v.up.puts[d].checked { EmptyCommits(H, v, PutRename(d), d, bytes); } else { CopiedTo(H, v, d, k, bytes); }
  }

  /** Another collection of the digest that has copied, or has its file elsewhere. */
  lemma {:induction false} Sharer(H: Data -> Digest, w: World, bytes: Data) returns (j: nat)
    requires CollisionFree(H) && Inv(H, w) && H(bytes) !in w.up.puts && !Joins(w, H(bytes), bytes)
    ensures j in w.up.collecting && w.up.collecting[j].d == H(bytes)
    ensures !w.up.collecting[j].filled ==> w.up.collecting[j].to != Inode(w, Upload(H(bytes)))
  {
    var d := H(bytes);
    j :| j in w.up.collecting && w.up.collecting[j].d == d
         && !(!w.up.collecting[j].filled && Upload(d) in w.disk.names && j in w.up.hashes && w.up.hashes[j].hashed == bytes);
    assert CollectFits(H, w, j);
  }

  lemma {:induction false} PutBeside(H: Data -> Digest, w: World, d: Digest)
    requires Inv(H, w) && d in w.up.puts
    ensures Upload(d) in w.disk.names && w.disk.names[Upload(d)] == w.up.puts[d].inode
  {
    assert PutFits(w, d);
  }

  lemma {:induction false} ChangedBreaks(H: Data -> Digest, w: World, k: nat, poll: bool)
    requires CollisionFree(H) && Inv(H, w) && Enabled(w, CollectOpen(k, poll)) && Stores(H, w, w.up.hashes[k], poll)
    requires !Still(w, w.up.hashes[k].n, w.up.hashes[k].hashed)
    ensures !SafeUnderGuards(H, Step(H, w, CollectOpen(k, poll)))
  {
    CopyOpened(H, w, k, poll);
    UploadApart(H, w, H(w.up.hashes[k].hashed), w.up.hashes[k].n);
    CopiesOther(H, Step(H, w, CollectOpen(k, poll)), k);
  }

  lemma {:induction false} SharedBreaks(H: Data -> Digest, w: World, k: nat, poll: bool)
    requires CollisionFree(H) && Inv(H, w) && Enabled(w, CollectOpen(k, poll)) && Stores(H, w, w.up.hashes[k], poll)
    requires w.up.hashes[k].hashed != [] && !Joins(w, H(w.up.hashes[k].hashed), w.up.hashes[k].hashed)
    ensures !SafeUnderGuards(H, Step(H, w, CollectOpen(k, poll)))
  {
    var bytes, v := w.up.hashes[k].hashed, Step(H, w, CollectOpen(k, poll));
    var d := H(bytes);
    CopyOpened(H, w, k, poll);
    if d in w.up.puts {
      PutBeside(H, w, d);
      OpenedOverPut(H, v, d, k, bytes);
    } else {
      var j := Sharer(H, w, bytes);
      RenamesEmpty(H, v, j, d, bytes);
    }
  }

  /**
    A collection opens its copy harmlessly exactly when the file that is at the name by then has the
    bytes that were hashed, that digest is not being uploaded, and no other collection of it has copied
    or lost the file beside the cache to a rename. Two that have still to copy are harmless.
  */
  lemma {:induction false} CollectOpenExact(H: Data -> Digest, w: World, k: nat, poll: bool)
    requires CollisionFree(H) && Inv(H, w) && Enabled(w, CollectOpen(k, poll)) && Stores(H, w, w.up.hashes[k], poll)
    requires w.up.hashes[k].hashed != []
    ensures var h := w.up.hashes[k]; var d := H(h.hashed);
            SafeUnderGuards(H, Step(H, w, CollectOpen(k, poll)))
            <==> Still(w, h.n, h.hashed) && d !in w.up.puts
                 && forall j | j in w.up.collecting && w.up.collecting[j].d == d :: !w.up.collecting[j].filled && Upload(d) in w.disk.names
  {
    var h := w.up.hashes[k];
    forall j | j in w.up.collecting && w.up.collecting[j].d == H(h.hashed) && !w.up.collecting[j].filled
      ensures j in w.up.hashes && w.up.hashes[j].hashed == h.hashed
    {
      assert CollectFits(H, w, j);
    }
    if Still(w, h.n, h.hashed) && Joins(w, H(h.hashed), h.hashed) {
      StepInv(H, w, CollectOpen(k, poll));
      InOrderIsSafe(H, Step(H, w, CollectOpen(k, poll)));
    } else if !Still(w, h.n, h.hashed) {
      ChangedBreaks(H, w, k, poll);
    } else {
      SharedBreaks(H, w, k, poll);
    }
  }

  lemma {:induction false} OverwriteGrows(bytes: Data, offset: nat, chunk: Data)
    ensures |Overwrite(bytes, offset, chunk)| >= |bytes|
  {
  }

  /** A changed source is copied as it is now: into the file that will be renamed, or into the cache itself. */
  lemma {:induction false} ChangedSourceBreaks(H: Data -> Digest, w: World, k: nat, offset: nat, chunk: Data)
    requires CollisionFree(H) && Inv(H, w) && k in w.up.collecting && !w.up.collecting[k].filled
    requires w.up.collecting[k].from in w.disk.kind && w.disk.kind[w.up.collecting[k].from] == Body
    requires Overwrite(w.disk.content[w.up.collecting[k].from], offset, chunk) != w.disk.content[w.up.collecting[k].from]
    ensures !SafeUnderGuards(H, WriteAt(w, w.up.collecting[k].from, offset, chunk))
  {
    var o := w.up.collecting[k];
    var v := WriteAt(w, o.from, offset, chunk);
    assert CollectFits(H, w, k);
    BesideKind(H, w, k);
    OverwriteGrows(w.disk.content[o.from], offset, chunk);
    if Upload(o.d) in w.disk.names { CopiesOther(H, v, k); } else { CopiesIntoCache(H, v, k); }
  }

  /** A write by the body is harmless exactly when it changes no file that a collection has still to copy. */
  lemma {:induction false} CopyWriteExact(H: Data -> Digest, w: World, h: nat, offset: nat, chunk: Data)
    requires CollisionFree(H) && Inv(H, w) && h in w.run.handles
    ensures var i := w.run.handles[h];
            i in w.disk.content
            && (SafeUnderGuards(H, Step(H, w, Write(h, offset, chunk)))
                <==> !CopySource(w, i) || Overwrite(w.disk.content[i], offset, chunk) == w.disk.content[i])
  {
    var i := w.run.handles[h];
    var v := WriteAt(w, i, offset, chunk);
    assert Step(H, w, Write(h, offset, chunk)) == v;
    if CopySource(w, i) && Overwrite(w.disk.content[i], offset, chunk) != w.disk.content[i] {
      var k :| k in w.up.collecting && w.up.collecting[k].from == i && !w.up.collecting[k].filled;
      ChangedSourceBreaks(H, w, k, offset, chunk);
    } else {
      WriteInv(H, w, h, offset, chunk);
      InOrderIsSafe(H, v);
    }
  }

  // ---------------------------------------------------------------- all of the guards

  lemma {:induction false} OpenGuardExact(H: Data -> Digest, w: World, k: nat, poll: bool)
    requires CollisionFree(H) && Inv(H, w) && Enabled(w, CollectOpen(k, poll)) && w.up.hashes[k].hashed != []
    ensures SafeUnderGuards(H, Step(H, w, CollectOpen(k, poll))) ==> Careful(H, w, CollectOpen(k, poll))
  {
    if !Careful(H, w, CollectOpen(k, poll)) {
      if !Still(w, w.up.hashes[k].n, w.up.hashes[k].hashed) { ChangedBreaks(H, w, k, poll); } else { SharedBreaks(H, w, k, poll); }
    }
  }

  /**
    Each guard is exact: from a state in order, a step leaves the cache safe from everything that may
    follow exactly when it meets its guard.
  */
  lemma {:induction false} GuardExact(H: Data -> Digest, w: World, a: Action)
    requires CollisionFree(H) && Inv(H, w) && Enabled(w, a)
    requires a.CollectOpen? ==> w.up.hashes[a.k].hashed != []
    ensures SafeUnderGuards(H, Step(H, w, a)) <==> Careful(H, w, a)
  {
    if Careful(H, w, a) {
      StepInv(H, w, a);
      InOrderIsSafe(H, Step(H, w, a));
    } else {
      match a
      case CopyFails(t) => FailedCopyExact(H, w, t);
      case Unseen(t, p) => UnseenExact(H, w, t, p);
      case BodyLink(p, q) => BodyLinkExact(H, w, p, q);
      case BodyRename(p, q) => BodyRenameExact(H, w, p, q);
      case Write(h, offset, chunk) => CopyWriteExact(H, w, h, offset, chunk);
      case Seal(k) => SealExact(H, w, k);
      case CollectMove(k) => CollectMoveExact(H, w, k);
      case CollectOpen(k, poll) => OpenGuardExact(H, w, k, poll);
      case PutStart(d) => StartUploadExact(H, w, d);
    }
  }
}
