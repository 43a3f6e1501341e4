/**
  What the cache's operations come to, on the names and the bytes: a file sent in pieces or in ranges,
  sealed, placed, converted, collected and removed. The operations as `DataCache.Worker` runs them are
  those its actions make up, one after the other.
*/
module CacheOps {
  import opened Bytes
  import opened DataCache
  import opened CacheCommits

  /** This file is in the cache. */
  ghost predicate Holds(w: World, d: Digest, bytes: Data) {
    Blob(d) in w.disk.names && w.disk.names[Blob(d)] in w.disk.content && w.disk.content[w.disk.names[Blob(d)]] == bytes
  }

  /** The file at a name has these bytes. */
  ghost predicate Bears(w: World, n: Name, bytes: Data) {
    n in w.disk.names && w.disk.names[n] in w.disk.content && w.disk.content[w.disk.names[n]] == bytes
  }

  /** No trace of an upload of this digest. */
  ghost predicate NoUpload(w: World, d: Digest) {
    d !in w.up.puts && Upload(d) !in w.disk.names
  }

  // ---------------------------------------------------------------- a file sent in pieces

  /** Every other cache file is where it was, with the bytes it had. */
  ghost predicate OthersUntouched(w: World, v: World, d: Digest) {
    forall e | e != d && Blob(e) in w.disk.names && w.disk.names[Blob(e)] in w.disk.content ::
      Blob(e) in v.disk.names && v.disk.names[Blob(e)] == w.disk.names[Blob(e)] && w.disk.names[Blob(e)] in v.disk.content
      && v.disk.content[w.disk.names[Blob(e)]] == w.disk.content[w.disk.names[Blob(e)]]
  }

  /** An upload of d is under way, and its file is what was sent so far. */
  ghost predicate Sent(w: World, d: Digest, bytes: Data) {
    d in w.up.puts && !w.up.puts[d].checked && Bears(w, Upload(d), bytes)
  }

  lemma {:induction false} CacheApart(H: Data -> Digest, w: World, d: Digest, e: Digest)
    requires Inv(H, w) && Blob(e) in w.disk.names
    ensures w.disk.names[Blob(e)] in w.disk.content && w.disk.names[Blob(e)] != Inode(w, Upload(d))
  {
    assert NameFits(w, Blob(e));
    if Upload(d) in w.disk.names { assert NameFits(w, Upload(d)); }
  }

  lemma {:induction false} OthersKeptBy(H: Data -> Digest, w: World, v: World, d: Digest, bytes: Data)
    requires Inv(H, w) && v.disk.content == w.disk.content[Inode(w, Upload(d)) := bytes]
    requires forall e | Blob(e) in w.disk.names :: Blob(e) in v.disk.names && v.disk.names[Blob(e)] == w.disk.names[Blob(e)]
    ensures Untouched(w, v)
  {
    forall e | Blob(e) in w.disk.names ensures w.disk.names[Blob(e)] in w.disk.content && w.disk.names[Blob(e)] != Inode(w, Upload(d)) {
      CacheApart(H, w, d, e);
    }
  }

  lemma {:induction false} StartExact(H: Data -> Digest, w: World, d: Digest)
    requires Inv(H, w)
    ensures Sent(AfterPutStart(w, d), d, []) && Untouched(w, AfterPutStart(w, d))
  {
    CreateHolds(w, Upload(d), Uploading(d), []);
    OthersKeptBy(H, w, AfterPutStart(w, d), d, []);
  }

  lemma {:induction false} ChunkExact(H: Data -> Digest, w: World, d: Digest, bytes: Data, chunk: Data)
    requires Inv(H, w) && Sent(w, d, bytes)
    ensures Sent(AfterPutChunk(w, d, chunk), d, bytes + chunk) && Untouched(w, AfterPutChunk(w, d, chunk))
    ensures w.up.puts[d].hashed == bytes
  {
    assert PutFits(w, d);
    OverwriteEnd(bytes, chunk);
    OthersKeptBy(H, w, AfterPutChunk(w, d, chunk), d, bytes + chunk);
  }

  lemma {:induction false} UntouchedOn(u: World, v: World, w: World)
    requires Untouched(w, u) && Untouched(u, v)
    ensures Untouched(w, v)
  {
  }

  /** A piece starts the file over at offset zero, and otherwise is appended; without a start it is refused. */
  lemma {:induction false} PieceExact(H: Data -> Digest, w: World, d: Digest, offset: nat, chunk: Data)
    requires Inv(H, w) && !Collecting(w, d)
    ensures var v := AfterPut(H, w, d, offset, chunk, false);
            && (offset == 0 ==> Sent(v, d, chunk))
            && (forall bytes | offset != 0 && Sent(w, d, bytes) :: Sent(v, d, bytes + chunk))
            && (offset == 0 || (exists bytes :: Sent(w, d, bytes)) ==> Untouched(w, v))
            && (offset != 0 && d !in w.up.puts ==> v == w)
    ensures PutOutcome(H, w, d, offset, chunk, false) == if offset != 0 && d !in w.up.puts then Missing else Done
  {
    if offset == 0 {
      var u := AfterPutStart(w, d);
      StartExact(H, w, d);
      PutStartInv(H, w, d);
      ChunkExact(H, u, d, [], chunk);
      assert [] + chunk == chunk;
      UntouchedOn(u, AfterPutChunk(u, d, chunk), w);
    } else {
      forall bytes | Sent(w, d, bytes) ensures Sent(AfterPutChunk(w, d, chunk), d, bytes + chunk) && Untouched(w, AfterPutChunk(w, d, chunk)) {
        ChunkExact(H, w, d, bytes, chunk);
      }
    }
  }

  /** The check and the rename: the file is in the cache if it has the digest, and gone if not. */
  lemma {:induction false} CheckExact(H: Data -> Digest, w: World, d: Digest, bytes: Data)
    requires Inv(H, w) && Sent(w, d, bytes)
    ensures var v := AfterPutLast(H, w, d);
            && NoUpload(v, d)
            && (if H(bytes) == d then Holds(v, d, bytes) && OthersUntouched(w, v, d) else Untouched(w, v))
  {
    assert PutFits(w, d);
    forall e | Blob(e) in w.disk.names ensures w.disk.names[Blob(e)] in w.disk.content && w.disk.names[Blob(e)] != Inode(w, Upload(d)) {
      CacheApart(H, w, d, e);
    }
  }

  lemma {:induction false} OthersOn(w: World, u: World, v: World, d: Digest)
    requires Untouched(w, u)
    ensures Untouched(u, v) ==> Untouched(w, v)
    ensures OthersUntouched(u, v, d) ==> OthersUntouched(w, v, d)
  {
  }

  /**
    The last piece of an upload, which may be the only one. What was sent with it goes into the cache if it
    has the digest, and that is when the worker answers that it is done; otherwise the upload is gone and the
    cache is as it was.
  */
  lemma {:induction false} LastPieceExact(H: Data -> Digest, w: World, d: Digest, offset: nat, chunk: Data, sent: Data)
    requires Inv(H, w) && !Collecting(w, d) && (if offset == 0 then sent == [] else Sent(w, d, sent))
    ensures var v := AfterPut(H, w, d, offset, chunk, true); var r := PutOutcome(H, w, d, offset, chunk, true);
            && NoUpload(v, d)
            && (if H(sent + chunk) == d then r == Done && Holds(v, d, sent + chunk) && OthersUntouched(w, v, d)
                else r == WrongDigest && Untouched(w, v))
  {
    var u := if offset == 0 then AfterPutStart(w, d) else w;
    if offset == 0 {
      StartExact(H, w, d);
      PutStartInv(H, w, d);
    }
    ChunkExact(H, u, d, sent, chunk);
    PutChunkInv(H, u, d, chunk);
    var x := AfterPutChunk(u, d, chunk);
    CheckExact(H, x, d, sent + chunk);
    LastIs(H, w, d, offset, chunk);
    OthersOn(w, u, x, d);
    OthersOn(w, x, AfterPutLast(H, x, d), d);
  }

  /** A piece of an upload that was never started is refused, the last one too, and nothing changes. */
  lemma {:induction false} UnstartedPiece(H: Data -> Digest, w: World, d: Digest, offset: nat, chunk: Data, last: bool)
    requires offset != 0 && d !in w.up.puts
    ensures AfterPut(H, w, d, offset, chunk, last) == w && PutOutcome(H, w, d, offset, chunk, last) == Missing
  {
  }

  lemma {:induction false} LastIs(H: Data -> Digest, w: World, d: Digest, offset: nat, chunk: Data)
    requires offset == 0 || d in w.up.puts
    ensures var u := if offset == 0 then AfterPutStart(w, d) else w;
            && d in u.up.puts
            && AfterPut(H, w, d, offset, chunk, true) == AfterPutLast(H, AfterPutChunk(u, d, chunk), d)
            && PutOutcome(H, w, d, offset, chunk, true) == if H(u.up.puts[d].hashed + chunk) == d then Done else WrongDigest
  {
  }

  /** Pieces sent one after the other leave what was sent, and the cache as it was. */
  lemma {:induction false} PiecesSent(H: Data -> Digest, w: World, d: Digest, pieces: seq<Data>)
    requires Inv(H, w) && !Collecting(w, d) && pieces != []
    ensures var v := AfterPieces(H, w, d, pieces);
            Inv(H, v) && !Collecting(v, d) && Sent(v, d, Flatten(pieces)) && Untouched(w, v)
    decreases |pieces|
  {
    var n := |pieces| - 1;
    var u := AfterPieces(H, w, d, pieces[..n]);
    PiecesInv(H, w, d, pieces);
    PiecesInv(H, w, d, pieces[..n]);
    assert pieces == pieces[..n] + [pieces[n]];
    FlattenSnoc(pieces[..n], pieces[n]);
    PieceExact(H, u, d, |Flatten(pieces[..n])|, pieces[n]);
    if n > 0 {
      PiecesSent(H, w, d, pieces[..n]);
      UntouchedOn(u, AfterPieces(H, w, d, pieces), w);
      if Flatten(pieces[..n]) == [] { assert Flatten(pieces) == pieces[n]; }
    } else {
      assert pieces[..0] == [] && Flatten(pieces) == pieces[0];
    }
  }

  /**
    A file sent in pieces, the last one marked as such: if the pieces together have the digest the cache has
    exactly them, the worker answers that it is done and nothing is left of the upload; if not, it answers
    that the digest is wrong, nothing is left of the upload and the cache is as it was.
  */
  lemma {:induction false} SentInPieces(H: Data -> Digest, w: World, d: Digest, pieces: seq<Data>, last: Data)
    requires Inv(H, w) && !Collecting(w, d)
    ensures var u, offset := AfterPieces(H, w, d, pieces), |Flatten(pieces)|;
            var v, r := AfterPut(H, u, d, offset, last, true), PutOutcome(H, u, d, offset, last, true);
            && NoUpload(v, d)
            && (if H(Flatten(pieces) + last) == d then r == Done && Holds(v, d, Flatten(pieces) + last) && OthersUntouched(w, v, d)
                else r == WrongDigest && Untouched(w, v))
  {
    var u := AfterPieces(H, w, d, pieces);
    if pieces != [] { PiecesSent(H, w, d, pieces); }
    LastPieceExact(H, u, d, |Flatten(pieces)|, last, Flatten(pieces));
    OthersOn(w, u, AfterPut(H, u, d, |Flatten(pieces)|, last, true), d);
  }

  // ---------------------------------------------------------------- a file sent in ranges

  /** Each byte after a write: the new one where it writes, the one before elsewhere, and zero in a gap. */
  lemma {:induction false} OverwriteAt(bytes: Data, offset: nat, chunk: Data, i: nat)
    requires i < |Overwrite(bytes, offset, chunk)|
    ensures |Overwrite(bytes, offset, chunk)| == if chunk == [] || offset + |chunk| <= |bytes| then |bytes| else offset + |chunk|
    ensures Overwrite(bytes, offset, chunk)[i]
            == if offset <= i < offset + |chunk| then chunk[i - offset] else if i < |bytes| then bytes[i] else 0
  {
  }

  /** A ranged write reaches the parallel file of its digest and nothing else, and without one nothing happens. */
  lemma {:induction false} RangeExact(H: Data -> Digest, w: World, d: Digest, offset: nat, chunk: Data, bytes: Data)
    requires Inv(H, w)
    ensures Parallel(d) !in w.disk.names ==> AfterPutAt(w, d, offset, chunk) == w
    ensures Bears(w, Parallel(d), bytes) ==>
              var v := AfterPutAt(w, d, offset, chunk);
              Bears(v, Parallel(d), Overwrite(bytes, offset, chunk)) && Untouched(w, v) && v.disk.names == w.disk.names && v.up == w.up
  {
    if Parallel(d) in w.disk.names {
      assert NameFits(w, Parallel(d));
      forall e | Blob(e) in w.disk.names ensures w.disk.names[Blob(e)] != w.disk.names[Parallel(d)] { assert NameFits(w, Blob(e)); }
    }
  }

  /** The open and the write with nothing in between are the operation. */
  lemma {:induction false} RangeAlone(H: Data -> Digest, w: World, d: Digest, j: nat, offset: nat, chunk: Data)
    requires j !in w.up.fills
    ensures Step(H, Step(H, w, FillOpen(j, d)), FillWrite(j, offset, chunk)) == AfterPutAt(w, d, offset, chunk)
  {
    if Parallel(d) in w.disk.names {
      assert w.up.fills[j := w.disk.names[Parallel(d)]] - {j} == w.up.fills;
    }
  }

  /** An upload begins as zeros of its size, whatever was there. */
  lemma {:induction false} BeginExact(w: World, d: Digest, size: nat)
    ensures var v := AfterBegin(w, d, size); exists bytes: Data :: |bytes| == size && (forall i | 0 <= i < size :: bytes[i] == 0) && Bears(v, Parallel(d), bytes)
  {
    var zeros: Data := seq(size, _ => 0);
    CreateHolds(w, Parallel(d), Filling(d), zeros);
    assert Bears(AfterBegin(w, d, size), Parallel(d), zeros);
  }

  /**
    A seal with nothing else going on: without a file or with one of another size nothing happens; one with
    the wrong digest is removed; the right one is in the cache with its bytes, and its name is gone.
  */
  lemma {:induction false} SealingExact(H: Data -> Digest, w: World, d: Digest, size: nat, bytes: Data)
    requires Inv(H, w)
    ensures Parallel(d) !in w.disk.names ==> AfterSealing(H, w, d, size) == w && SealOutcome(H, w, d, size) == Missing
    ensures Bears(w, Parallel(d), bytes) && |bytes| != size ==> AfterSealing(H, w, d, size) == w && SealOutcome(H, w, d, size) == Short
    ensures Bears(w, Parallel(d), bytes) && |bytes| == size && H(bytes) != d ==>
              var v := AfterSealing(H, w, d, size);
              Parallel(d) !in v.disk.names && Untouched(w, v) && SealOutcome(H, w, d, size) == WrongDigest
    ensures Bears(w, Parallel(d), bytes) && |bytes| == size && H(bytes) == d ==>
              var v := AfterSealing(H, w, d, size);
              Parallel(d) !in v.disk.names && Holds(v, d, bytes) && OthersUntouched(w, v, d) && SealOutcome(H, w, d, size) == Done
  {
  }

  // ---------------------------------------------------------------- one name, one file

  /** But for these, every name has the file it had. */
  ghost predicate NamesBut(w: World, v: World, changed: set<Name>) {
    forall n | n !in changed :: (n in v.disk.names <==> n in w.disk.names) && (n in w.disk.names ==> v.disk.names[n] == w.disk.names[n])
  }

  /** Every file has the bytes it had. */
  ghost predicate FilesAsBefore(w: World, v: World) {
    forall i | i in w.disk.content :: i in v.disk.content && v.disk.content[i] == w.disk.content[i]
  }

  /** A removal takes one name away, a link gives a file one more, a rename does both; the files stay as they are. */
  lemma {:induction false} NamesExact(H: Data -> Digest, w: World, a: Action)
    requires (a.Evict? || a.Remove? || a.BodyLink? || a.BodyRename?) && Enabled(w, a)
    ensures var v := Step(H, w, a);
            && FilesAsBefore(w, v) && v.up == w.up && v.run == w.run
            && (a.Evict? ==> Blob(a.d) !in v.disk.names && NamesBut(w, v, {Blob(a.d)}))
            && (a.Remove? ==> Path(a.p) !in v.disk.names && NamesBut(w, v, {Path(a.p)}))
            && (a.BodyLink? ==> NamesBut(w, v, {Path(a.q)}))
            && (a.BodyRename? ==> Path(a.p) !in v.disk.names && NamesBut(w, v, {Path(a.p), Path(a.q)}))
            && (a.BodyLink? || a.BodyRename? ==> Path(a.q) in v.disk.names && v.disk.names[Path(a.q)] == w.disk.names[Path(a.p)])
  {
    if a.BodyRename? { assert Path(a.p) != Path(a.q); }
  }

  /** An open for writing keeps the file at the path with its bytes, or makes an empty one. */
  lemma {:induction false} OpenExact(H: Data -> Digest, w: World, t: nat, h: nat)
    requires Inv(H, w) && Enabled(w, Open(t, h))
    ensures var p, v := w.run.threads[t].p, Step(H, w, Open(t, h));
            && t !in v.run.threads && h in v.run.handles && Path(p) in v.disk.names && v.run.handles[h] == v.disk.names[Path(p)]
            && NamesBut(w, v, {Path(p)}) && FilesAsBefore(w, v)
            && (if Path(p) in w.disk.names then v.disk == w.disk else Bears(v, Path(p), []))
  {
    UnusedInode(H, w);
  }

  /** What a body writes is in the file it has open, and in no other. */
  lemma {:induction false} WritesExact(H: Data -> Digest, w: World, h: nat, offset: nat, chunk: Data)
    requires Inv(H, w) && h in w.run.handles
    ensures var i, v := w.run.handles[h], Step(H, w, Write(h, offset, chunk));
            && i in w.disk.content && i in v.disk.content && v.disk.content[i] == Overwrite(w.disk.content[i], offset, chunk)
            && (forall j | j in w.disk.content && j != i :: j in v.disk.content && v.disk.content[j] == w.disk.content[j])
            && v.disk.names == w.disk.names && v.run == w.run && v.up == w.up
  {
    assert OpenFits(w);
  }

  /** What is closed is written no more, and the other files stay open. */
  lemma {:induction false} CloseExact(H: Data -> Digest, w: World, h: nat, j: nat)
    requires h in w.run.handles
    ensures var v := Step(H, w, Close(h));
            && v.disk == w.disk && v.up == w.up && h !in v.run.handles
            && (j != h ==> (j in v.run.handles <==> j in w.run.handles) && (j in w.run.handles ==> v.run.handles[j] == w.run.handles[j]))
  {
  }

  // ---------------------------------------------------------------- placing and converting

  lemma {:induction false} LinkAlone(H: Data -> Digest, w: World, p: PathName)
    requires IsPending(w, p) && Blob(w.run.places[p].d) in w.disk.names && w.disk.names[Blob(w.run.places[p].d)] in w.disk.content
    ensures Step(H, Step(H, w, PlaceLink(p)), PlaceMark(p)) == AfterPlace(w, p, true)
  {
    assert Step(H, w, PlaceLink(p)) == AfterPlaceLink(w, p);
  }

  lemma {:induction false} CopyAlone(H: Data -> Digest, w: World, p: PathName)
    requires IsPending(w, p) && Blob(w.run.places[p].d) in w.disk.names && w.disk.names[Blob(w.run.places[p].d)] in w.disk.content
    ensures Step(H, Step(H, w, PlaceCopy(p)), PlaceMark(p)) == AfterPlace(w, p, false)
  {
    assert Step(H, w, PlaceCopy(p)) == AfterPlaceCopy(w, p);
  }

  /** With nothing in between, the steps that place a file are the operation. */
  lemma {:induction false} PlaceAlone(H: Data -> Digest, w: World, p: PathName, linkable: bool)
    requires Inv(H, w) && IsPending(w, p) && Blob(w.run.places[p].d) in w.disk.names
    ensures Step(H, Step(H, w, if linkable then PlaceLink(p) else PlaceCopy(p)), PlaceMark(p)) == AfterPlace(w, p, linkable)
  {
    assert NameFits(w, Blob(w.run.places[p].d));
    if linkable { LinkAlone(H, w, p); } else { CopyAlone(H, w, p); }
  }

  /** With no cache file nothing is placed. */
  lemma {:induction false} NothingPlaced(H: Data -> Digest, w: World, p: PathName, linkable: bool)
    requires IsPending(w, p) && Blob(w.run.places[p].d) !in w.disk.names
    ensures AfterPlace(w, p, linkable) == w && !Enabled(w, PlaceLink(p)) && !Enabled(w, PlaceCopy(p))
  {
  }

  /** A placement changes the name at the path, and no file. */
  lemma {:induction false} PlaceExact(H: Data -> Digest, w: World, p: PathName, linkable: bool)
    requires Inv(H, w) && IsPending(w, p) && Blob(w.run.places[p].d) in w.disk.names
    ensures var v, b := AfterPlace(w, p, linkable), Blob(w.run.places[p].d);
            && NamesBut(w, v, {Path(p)}) && FilesAsBefore(w, v)
            && b in v.disk.names && v.disk.names[b] in v.disk.content && Bears(v, Path(p), v.disk.content[v.disk.names[b]])
            && (linkable <==> v.disk.names[Path(p)] == v.disk.names[b])
  {
    assert NameFits(w, Blob(w.run.places[p].d));
    UnusedInode(H, w);
  }

  /** A conversion by one thread, from the first critical section on. */
  ghost function Converted(H: Data -> Digest, w: World, t: nat): World {
    Step(H, Step(H, Step(H, Step(H, w, Enter(t)), CopyBeside(t)), RenameCopy(t)), MarkOwn(t))
  }

  /** Nobody else is in the middle of converting the path a thread wants, and its placement is over. */
  ghost predicate MayEnter(w: World, t: nat) {
    Enabled(w, Enter(t))
  }

  lemma {:induction false} CopyOfLink(H: Data -> Digest, w: World, t: nat, p: PathName, a: World)
    requires IsLinked(w, p) && Path(p) in w.disk.names && w.disk.names[Path(p)] in w.disk.content
    requires a == w.(run := w.run.(threads := w.run.threads[t := Copying(p)]))
    ensures var x := Create(w, Copy(p), Body, w.disk.content[w.disk.names[Path(p)]]);
            Step(H, a, CopyBeside(t)) == x.(run := x.run.(threads := w.run.threads[t := Copying(p)][t := Copied(p)]))
  {
    assert Enabled(a, CopyBeside(t));
  }

  /** The conversion's steps with nothing in between are the operation, and then the thread may open the path. */
  lemma {:induction false} ConvertAlone(H: Data -> Digest, w: World, t: nat)
    requires Inv(H, w) && MayEnter(w, t) && IsLinked(w, w.run.threads[t].p) && Path(w.run.threads[t].p) in w.disk.names
    ensures var p, v := w.run.threads[t].p, AfterPrivate(w, w.run.threads[t].p);
            Converted(H, w, t) == v.(run := v.run.(threads := w.run.threads[t := Ready(p)]))
  {
    var p := w.run.threads[t].p;
    assert NameFits(w, Path(p));
    var a := Step(H, w, Enter(t));
    CopyOfLink(H, w, t, p, a);
    ConvertEnds(H, w, t, p, Step(H, a, CopyBeside(t)));
  }

  lemma {:induction false} ConvertEnds(H: Data -> Digest, w: World, t: nat, p: PathName, b: World)
    requires IsLinked(w, p) && Path(p) in w.disk.names && w.disk.names[Path(p)] in w.disk.content
    requires var x := Create(w, Copy(p), Body, w.disk.content[w.disk.names[Path(p)]]);
             b == x.(run := x.run.(threads := w.run.threads[t := Copying(p)][t := Copied(p)]))
    ensures var v := AfterPrivate(w, p);
            Step(H, Step(H, b, RenameCopy(t)), MarkOwn(t)) == v.(run := v.run.(threads := w.run.threads[t := Ready(p)]))
  {
    var c := AfterRenameCopy(b, t);
    assert Step(H, b, RenameCopy(t)) == c;
    assert c.run == w.run.(threads := w.run.threads[t := Renamed(p)])
      by { assert c.run.threads == w.run.threads[t := Renamed(p)]; }
    MarkEnds(H, w, t, p, c);
  }

  lemma {:induction false} MarkEnds(H: Data -> Digest, w: World, t: nat, p: PathName, c: World)
    requires IsLinked(w, p) && c.run == w.run.(threads := w.run.threads[t := Renamed(p)])
    ensures var d := w.run.places[p].d;
            Step(H, c, MarkOwn(t)) == c.(run := w.run.(places := w.run.places[p := Own(d)], threads := w.run.threads[t := Ready(p)]))
  {
    assert AfterMarkOwn(c, t).run.threads == w.run.threads[t := Ready(p)];
  }

  /** A path that is no link is opened as it is. */
  lemma {:induction false} EnterExact(H: Data -> Digest, w: World, t: nat)
    requires MayEnter(w, t)
    ensures var p, v := w.run.threads[t].p, Step(H, w, Enter(t));
            && v.disk == w.disk && v.up == w.up && v.run.places == w.run.places && t in v.run.threads
            && v.run.threads[t] == (if p in w.run.places && w.run.places[p].Linked? then Copying(p) else Ready(p))
  {
  }

  /** The path is a file of the call's own with these bytes; but for the path and its copy no name changed. */
  ghost predicate OwnFile(w: World, v: World, p: PathName, bytes: Data) {
    && Bears(v, Path(p), bytes) && Untouched(w, v) && p in v.run.places && v.run.places[p].Own?
    && Copy(p) !in v.disk.names && NamesBut(w, v, {Path(p), Copy(p)})
    && forall n | n in v.disk.names && n != Path(p) :: v.disk.names[n] != v.disk.names[Path(p)]
  }

  lemma {:induction false} PrivateExact(H: Data -> Digest, w: World, p: PathName, bytes: Data)
    requires Inv(H, w) && IsLinked(w, p) && Bears(w, Path(p), bytes)
    ensures OwnFile(w, AfterPrivate(w, p), p, bytes)
  {
    PrivateIsolates(H, w, p);
    PrivateIs(w, p, bytes);
    if Copy(p) in w.disk.names { assert NameFits(w, Copy(p)); }
    UnusedInode(H, w);
  }

  /** So it is after a thread's conversion, and the thread may open the path. */
  lemma {:induction false} ConvertExact(H: Data -> Digest, w: World, t: nat, bytes: Data)
    requires Inv(H, w) && MayEnter(w, t) && IsLinked(w, w.run.threads[t].p) && Bears(w, Path(w.run.threads[t].p), bytes)
    ensures OwnFile(w, Converted(H, w, t), w.run.threads[t].p, bytes)
    ensures t in Converted(H, w, t).run.threads && Converted(H, w, t).run.threads[t] == Ready(w.run.threads[t].p)
  {
    ConvertAlone(H, w, t);
    PrivateExact(H, w, w.run.threads[t].p, bytes);
    assert OwnFile(w, Converted(H, w, t), w.run.threads[t].p, bytes)
      by { SameFile(w, AfterPrivate(w, w.run.threads[t].p), Converted(H, w, t), w.run.threads[t].p, bytes); }
  }

  lemma {:induction false} SameFile(w: World, u: World, v: World, p: PathName, bytes: Data)
    requires OwnFile(w, u, p, bytes) && v.disk == u.disk && v.run.places == u.run.places
    ensures OwnFile(w, v, p, bytes)
  {
  }

  // ---------------------------------------------------------------- collecting

  /** The digest of a hashed file is not held with that size, and the call did not place it at the path itself. */
  ghost predicate Wanted(H: Data -> Digest, w: World, k: nat, size: nat, placed: bool)
    requires k in w.up.hashes && w.up.hashes[k].n.Path?
  {
    var h := w.up.hashes[k];
    && h.n in w.disk.names && w.disk.names[h.n] in w.disk.content
    && !(exists bytes :: Bears(w, Blob(H(h.hashed)), bytes) && |bytes| == size)
    && !(placed && h.n.p in w.run.places && !w.run.places[h.n.p].Pending? && w.run.places[h.n.p].d == H(h.hashed))
  }

  lemma {:induction false} WantedIs(H: Data -> Digest, w: World, k: nat, poll: bool)
    requires Inv(H, w) && k in w.up.hashes && w.up.hashes[k].n.Path?
    ensures var h := w.up.hashes[k];
            h.n in w.disk.names ==>
              w.disk.names[h.n] in w.disk.content
              && (Stores(H, w, h, poll) <==> Wanted(H, w, k, if poll then |w.disk.content[w.disk.names[h.n]]| else h.size, !poll))
    ensures w.up.hashes[k].n !in w.disk.names ==> !Stores(H, w, w.up.hashes[k], poll)
  {
    var h := w.up.hashes[k];
    if h.n in w.disk.names { assert NameFits(w, h.n); }
    if Blob(H(h.hashed)) in w.disk.names {
      assert NameFits(w, Blob(H(h.hashed)));
      assert Bears(w, Blob(H(h.hashed)), w.disk.content[w.disk.names[Blob(H(h.hashed))]]);
    }
  }

  /** A collected output of one name is what the cache has afterwards, its path is gone, and otherwise nothing happens. */
  lemma {:induction false} MoveExact(H: Data -> Digest, w: World, k: nat, bytes: Data)
    requires Inv(H, w) && Enabled(w, CollectMove(k)) && Bears(w, w.up.hashes[k].n, bytes)
    ensures var h := w.up.hashes[k]; var d := H(h.hashed); var v := Step(H, w, CollectMove(k));
            if Wanted(H, w, k, h.size, true)
            then Holds(v, d, bytes) && h.n !in v.disk.names && OthersUntouched(w, v, d) && NamesBut(w, v, {h.n, Blob(d)})
            else v.disk == w.disk
    ensures k !in Step(H, w, CollectMove(k)).up.hashes
  {
    WantedIs(H, w, k, false);
  }

  /** One of several names, or of a running call, is copied: it stays at its path too. */
  lemma {:induction false} CopyOutExact(H: Data -> Digest, w: World, k: nat, poll: bool, bytes: Data)
    requires Inv(H, w) && Enabled(w, CollectOpen(k, poll)) && Bears(w, w.up.hashes[k].n, bytes)
    ensures var h := w.up.hashes[k]; var d := H(h.hashed); var v := Committing(H, w, CollectOpen(k, poll));
            if Wanted(H, w, k, if poll then |bytes| else h.size, !poll)
            then Holds(v, d, bytes) && Bears(v, h.n, bytes) && Upload(d) !in v.disk.names && OthersUntouched(w, v, d)
                 && NamesBut(w, v, {Upload(d), Blob(d)})
            else v.disk == w.disk
  {
    var h := w.up.hashes[k];
    WantedIs(H, w, k, poll);
    if Wanted(H, w, k, if poll then |bytes| else h.size, !poll) {
      CopiedOut(H, w, k, poll, bytes);
    } else {
      NothingCopied(H, w, CollectOpen(k, poll));
    }
  }

  lemma {:induction false} CopiedOut(H: Data -> Digest, w: World, k: nat, poll: bool, bytes: Data)
    requires Inv(H, w) && Enabled(w, CollectOpen(k, poll)) && Bears(w, w.up.hashes[k].n, bytes) && Stores(H, w, w.up.hashes[k], poll)
    ensures var h := w.up.hashes[k]; var d := H(h.hashed); var v := Committing(H, w, CollectOpen(k, poll));
            Holds(v, d, bytes) && Bears(v, h.n, bytes) && Upload(d) !in v.disk.names && OthersUntouched(w, v, d)
            && NamesBut(w, v, {Upload(d), Blob(d)})
  {
    var h := w.up.hashes[k];
    var d := H(h.hashed);
    assert NameFits(w, h.n);
    if Upload(d) in w.disk.names { assert NameFits(w, Upload(d)); }
    UnusedInode(H, w);
    CopyPuts(H, w, CollectOpen(k, poll));
    forall e | Blob(e) in w.disk.names ensures w.disk.names[Blob(e)] in w.disk.content && w.disk.names[Blob(e)] != Inode(w, Upload(d)) {
      CacheApart(H, w, d, e);
    }
    CopyLeaves(w, Committing(H, w, CollectOpen(k, poll)), h.n, d, bytes);
  }

  lemma {:induction false} CopyLeaves(w: World, v: World, n: Name, d: Digest, bytes: Data)
    requires n.Path? && Bears(w, n, bytes) && Inode(w, Upload(d)) != w.disk.names[n]
    requires v.disk.names == w.disk.names[Blob(d) := Inode(w, Upload(d))] - {Upload(d)}
    requires v.disk.content == w.disk.content[Inode(w, Upload(d)) := bytes]
    requires forall e | Blob(e) in w.disk.names :: w.disk.names[Blob(e)] != Inode(w, Upload(d))
    ensures Holds(v, d, bytes) && Bears(v, n, bytes) && Upload(d) !in v.disk.names && OthersUntouched(w, v, d)
            && NamesBut(w, v, {Upload(d), Blob(d)})
  {
  }

  /** A hash begins with nothing read, with the size the file has and whether it has another name. */
  lemma {:induction false} HashBegins(H: Data -> Digest, w: World, k: nat, n: Name, bytes: Data)
    requires Enabled(w, HashStart(k, n)) && Bears(w, n, bytes)
    ensures var v := Step(H, w, HashStart(k, n));
            && k in v.up.hashes && v.up.hashes[k].n == n && v.up.hashes[k].inode == w.disk.names[n]
            && v.up.hashes[k].size == |bytes| && v.up.hashes[k].hashed == [] && !v.up.hashes[k].done
            && (v.up.hashes[k].shared <==> exists m :: m in w.disk.names && m != n && w.disk.names[m] == w.disk.names[n])
            && v.disk == w.disk && v.run == w.run
  {
  }
}
