/**
  Runs from the empty cache on which the code breaks its promise. Each answers the whole list of
  actions, and after it the cache file of the one-byte file 7 is wrong:

  - the body renames or links a linked file to a path that is not converted, and opens it there;
  - the copy of a conversion fails, or the call is over, and the open goes through the link;
  - an output is moved into the cache while it is open, or has a name that is not converted;
  - an output is written, or another file is renamed over it, between its hash and its move or copy, or
    is written while it is copied;
  - a ranged write comes between the hash of a file and its rename, or is open across the rename;
  - one of two seals renames the file, it begins over again, and the other renames what it begins with;
  - an upload starts over the copy of a collection, or a copy is opened over an upload or another copy.
*/
module CacheBreaks {
  import opened Bytes
  import opened DataCache
  import opened CacheLimits

  /** A digest that tells the one-byte file 7 from the empty file and from everything else. */
  function Sample(bytes: Data): Digest {
    if bytes == [] then "none" else if bytes == [7] then "seven" else "other"
  }

  /** The file 7 is sent. */
  const SEND: seq<Action> := [PutStart("seven"), PutChunk("seven", [7]), PutCheck("seven"), PutRename("seven")]

  /** And placed at "p" by a link. */
  const LINK: seq<Action> := SEND + [Register("p", "seven"), PlaceLink("p"), PlaceMark("p")]

  /** A body writes the file 7 at "p", and closes it; another writes the file 8 at "t". */
  const OUTPUT: seq<Action> := [Want(0, "p"), Enter(0), Open(0, 0), Write(0, 0, [7])]
  const CLOSED: seq<Action> := OUTPUT + [Close(0)]
  const SECOND: seq<Action> := [Want(0, "t"), Enter(0), Open(0, 0), Write(0, 0, [8]), Close(0)]

  /** Senders on several connections fill the file 7. */
  const FILL: seq<Action> := [Begin("seven", 1), FillOpen(0, "seven"), FillWrite(0, 0, [7])]

  /** A one-byte file is hashed to its end. */
  function Hashing(k: nat, n: Name): seq<Action> {
    [HashStart(k, n), HashRead(k, 2), HashRead(k, 1)]
  }

  lemma {:induction false} RunSnoc(w: World, acts: seq<Action>, a: Action)
    ensures Run(Sample, w, acts + [a]) == Step(Sample, Run(Sample, w, acts), a)
    decreases |acts|
  {
    if acts == [] {
      assert [a][1..] == [] && acts + [a] == [a];
    } else {
      assert (acts + [a])[1..] == acts[1..] + [a];
      RunSnoc(Step(Sample, w, acts[0]), acts[1..], a);
    }
  }

  /** The run leads from the empty cache here. */
  ghost predicate After(acts: seq<Action>, w: World) {
    w == Run(Sample, EMPTY, acts)
  }

  /** The run goes on with this. */
  lemma {:induction false} Next(acts: seq<Action>, w: World, a: Action) returns (more: seq<Action>, v: World)
    requires After(acts, w)
    ensures more == acts + [a] && v == Step(Sample, w, a) && After(more, v)
  {
    more, v := acts + [a], Step(Sample, w, a);
    RunSnoc(EMPTY, acts, a);
  }

  /** The file i, with these bytes, is at the name. */
  ghost predicate At(w: World, n: Name, i: nat, bytes: Data) {
    n in w.disk.names && w.disk.names[n] == i && i in w.disk.content && w.disk.content[i] == bytes
  }

  /** The cache file named "seven" is not the file 7. */
  lemma {:induction false} Wrong(w: World, i: nat, bytes: Data)
    requires At(w, Blob("seven"), i, bytes) && bytes != [7]
    ensures !CacheCorrect(Sample, w)
  {
    assert "none"[0] != "seven"[0] && "other"[0] != "seven"[0];
  }

  /** No thread is at work. */
  ghost predicate Idle(w: World) {
    w.run.threads == map[] && 0 !in w.run.handles
  }

  // ---------------------------------------------------------------- steps that several runs share

  /** A thread opens a path that the call does not know. */
  lemma {:induction false} Opens(was: seq<Action>, u: World, p: PathName) returns (acts: seq<Action>, w: World)
    requires After(was, u) && Idle(u) && p !in u.run.places
    ensures acts == was + [Want(0, p)] + [Enter(0)] && After(acts, w)
    ensures w.disk == u.disk && w.up == u.up && w.run == u.run.(threads := map[0 := Ready(p)])
  {
    acts, w := Next(was, u, Want(0, p));
    assert w.run.threads == map[0 := Wants(p)];
    acts, w := Next(acts, w, Enter(0));
    assert w.run.threads == map[0 := Ready(p)];
  }

  /** What is open for writing is written over. */
  lemma {:induction false} Writes(was: seq<Action>, u: World, i: nat, chunk: Data) returns (acts: seq<Action>, w: World)
    requires After(was, u) && 0 in u.run.handles && u.run.handles[0] == i
    requires i in u.disk.content && |u.disk.content[i]| <= |chunk|
    ensures acts == was + [Write(0, 0, chunk)] && After(acts, w)
    ensures w == u.(disk := u.disk.(content := u.disk.content[i := chunk]))
  {
    acts, w := Next(was, u, Write(0, 0, chunk));
    assert Overwrite(u.disk.content[i], 0, chunk) == chunk;
  }

  /** A thread past any conversion opens the path and writes 8 into the cache. */
  lemma {:induction false} WritesEight(was: seq<Action>, u: World, p: PathName) returns (acts: seq<Action>, w: World)
    requires After(was, u) && 0 in u.run.threads && u.run.threads[0] == Ready(p) && 0 !in u.run.handles
    requires At(u, Path(p), 0, [7]) && At(u, Blob("seven"), 0, [7])
    ensures acts == was + [Open(0, 0)] + [Write(0, 0, [8])] && After(acts, w) && !CacheCorrect(Sample, w)
  {
    acts, w := Next(was, u, Open(0, 0));
    acts, w := Writes(acts, w, 0, [8]);
    Wrong(w, 0, [8]);
  }

  lemma {:induction false} BodyRenames(was: seq<Action>, u: World, p: PathName, q: PathName)
    returns (acts: seq<Action>, w: World)
    requires After(was, u) && Path(p) in u.disk.names
    requires Path(q) in u.disk.names ==> u.disk.names[Path(q)] != u.disk.names[Path(p)]
    ensures acts == was + [BodyRename(p, q)] && After(acts, w)
    ensures w == u.(disk := u.disk.(names := u.disk.names[Path(q) := u.disk.names[Path(p)]] - {Path(p)}))
  {
    acts, w := Next(was, u, BodyRename(p, q));
  }

  lemma {:induction false} BodyLinks(was: seq<Action>, u: World, p: PathName, q: PathName)
    returns (acts: seq<Action>, w: World)
    requires After(was, u) && Path(p) in u.disk.names && Path(q) !in u.disk.names
    ensures acts == was + [BodyLink(p, q)] && After(acts, w)
    ensures w == u.(disk := u.disk.(names := u.disk.names[Path(q) := u.disk.names[Path(p)]]))
  {
    acts, w := Next(was, u, BodyLink(p, q));
  }

  lemma {:induction false} Shuts(was: seq<Action>, u: World) returns (acts: seq<Action>, w: World)
    requires After(was, u) && 0 in u.run.handles
    ensures acts == was + [Close(0)] && After(acts, w)
    ensures w == u.(run := u.run.(handles := u.run.handles - {0}))
  {
    acts, w := Next(was, u, Close(0));
  }

  lemma {:induction false} Reads(was: seq<Action>, u: World, k: nat, h: Hash, count: nat, piece: Data)
    returns (acts: seq<Action>, w: World)
    requires After(was, u) && k in u.up.hashes && u.up.hashes[k] == h && !h.done && count > 0
    requires h.inode in u.disk.content && piece == Slice(u.disk.content[h.inode], |h.hashed|, |h.hashed| + count)
    ensures acts == was + [HashRead(k, count)] && After(acts, w)
    ensures w == u.(up := u.up.(hashes := u.up.hashes[k := h.(hashed := h.hashed + piece, done := piece == [])]))
  {
    acts, w := Next(was, u, HashRead(k, count));
  }

  /** A one-byte file is hashed to its end. */
  lemma {:induction false} Hashes(was: seq<Action>, u: World, k: nat, n: Name) returns (acts: seq<Action>, w: World)
    requires After(was, u) && At(u, n, 0, [7]) && (n.Path? || n.Parallel?)
    requires k !in u.up.hashes && k !in u.up.collecting
    ensures acts == was + Hashing(k, n) && After(acts, w)
    ensures w == u.(up := u.up.(hashes := u.up.hashes[k := Hash(n, 0, 1, Shared(u, n), [7], true)]))
  {
    var h, seven: Data := Hash(n, 0, 1, Shared(u, n), [], false), [7];
    assert Slice(seven, 0, 2) == seven && [] + seven == seven && Slice(seven, 1, 2) == [] && seven + [] == seven;
    acts, w := Next(was, u, HashStart(k, n));
    acts, w := Reads(acts, w, k, h, 2, [7]);
    acts, w := Reads(acts, w, k, h.(hashed := [7]), 1, []);
    assert u.up.hashes[k := h][k := h.(hashed := [7])][k := h.(hashed := [7], done := true)]
           == u.up.hashes[k := h.(hashed := [7], done := true)];
  }

  /** The file 7 is sent and checked. */
  lemma {:induction false} Uploads(was: seq<Action>, u: World) returns (acts: seq<Action>, w: World)
    requires After(was, u) && Upload("seven") !in u.disk.names
    ensures acts == was + [PutStart("seven")] + [PutChunk("seven", [7])] + [PutCheck("seven")] && After(acts, w)
    ensures w.run == u.run && w.disk == Created(u.disk, Upload("seven"), Uploading("seven"), [7])
    ensures w.up == u.up.(puts := u.up.puts["seven" := Put(u.disk.unused, [7], true)])
  {
    var i := u.disk.unused;
    acts, w := Next(was, u, PutStart("seven"));
    acts, w := Next(acts, w, PutChunk("seven", [7]));
    assert [] + [7] == [7] && Overwrite([], 0, [7]) == [7];
    assert u.disk.content[i := []][i := [7]] == u.disk.content[i := [7]];
    acts, w := Next(acts, w, PutCheck("seven"));
    assert w.up.puts == u.up.puts["seven" := Put(i, [7], true)];
  }

  /** A poll opens its copy of what is at "p" by then. */
  lemma {:induction false} CopyOpens(was: seq<Action>, u: World, k: nat, i: nat, bytes: Data)
    returns (acts: seq<Action>, w: World)
    requires After(was, u) && At(u, Path("p"), i, bytes) && Blob("seven") !in u.disk.names && i < u.disk.unused
    requires k in u.up.hashes && u.up.hashes[k] == Hash(Path("p"), 0, 1, false, [7], true) && k !in u.up.collecting
    ensures acts == was + [CollectOpen(k, true)] && After(acts, w) && w.run == u.run
    ensures w.up == u.up.(collecting := u.up.collecting[k := Out("seven", i, Inode(u, Upload("seven")), false)])
    ensures w.disk == Created(u.disk, Upload("seven"), Uploading("seven"), [])
  {
    acts, w := Next(was, u, CollectOpen(k, true));
  }

  /** It copies what that has by then. */
  lemma {:induction false} CopyFills(was: seq<Action>, u: World, i: nat, bytes: Data)
    returns (acts: seq<Action>, w: World)
    requires After(was, u) && 0 in u.up.collecting && !u.up.collecting[0].filled && u.up.collecting[0].from == i
    requires At(u, Upload("seven"), u.up.collecting[0].to, []) && i in u.disk.content && u.disk.content[i] == bytes
    ensures acts == was + [CollectFill(0)] && After(acts, w)
    ensures var o := u.up.collecting[0];
            w.up == u.up.(collecting := u.up.collecting[0 := o.(filled := true)], hashes := u.up.hashes - {0})
            && w.disk == u.disk.(content := u.disk.content[o.to := bytes])
  {
    acts, w := Next(was, u, CollectFill(0));
    assert Overwrite([], 0, bytes) == bytes;
  }

  /** The copy is renamed as it is by then. */
  lemma {:induction false} CopyRenames(was: seq<Action>, u: World, i: nat, bytes: Data)
    returns (acts: seq<Action>, w: World)
    requires After(was, u) && 0 in u.up.collecting && u.up.collecting[0].filled && u.up.collecting[0].d == "seven"
    requires At(u, Upload("seven"), i, bytes) && bytes != [7]
    ensures acts == was + [CollectRename(0)] && After(acts, w) && !CacheCorrect(Sample, w)
  {
    acts, w := Next(was, u, CollectRename(0));
    Wrong(w, i, bytes);
  }

  // ---------------------------------------------------------------- a linked file

  /** The file 7 was sent and linked at "p". */
  ghost predicate LinkedSeven(w: World) {
    && At(w, Blob("seven"), 0, [7]) && At(w, Path("p"), 0, [7]) && Idle(w) && Path("q") !in w.disk.names
    && "p" in w.run.places && w.run.places["p"] == Linked("seven") && "q" !in w.run.places
  }

  lemma {:induction false} Sends() returns (acts: seq<Action>, w: World)
    ensures acts == SEND && After(acts, w) && At(w, Blob("seven"), 0, [7]) && w.run == EMPTY.run
    ensures forall n | n in w.disk.names :: n == Blob("seven")
  {
    acts, w := Uploads([], EMPTY);
    acts, w := Next(acts, w, PutRename("seven"));
  }

  lemma {:induction false} Registers(was: seq<Action>, u: World) returns (acts: seq<Action>, w: World)
    requires After(was, u) && u.run == EMPTY.run && Path("p") !in u.disk.names && Copy("p") !in u.disk.names
    ensures acts == was + [Register("p", "seven")] && After(acts, w)
    ensures w.disk == u.disk && w.run == Calls(map[], map["p" := Pending("seven", Absent)], map[])
  {
    acts, w := Next(was, u, Register("p", "seven"));
  }

  lemma {:induction false} Places(was: seq<Action>, u: World) returns (acts: seq<Action>, w: World)
    requires After(was, u) && At(u, Blob("seven"), 0, [7]) && "p" in u.run.places && u.run.places["p"].Pending?
    requires u.run.places["p"].d == "seven"
    ensures acts == was + [PlaceLink("p")] + [PlaceMark("p")] && After(acts, w)
    ensures w.disk == u.disk.(names := u.disk.names[Path("p") := 0])
    ensures w.run == u.run.(places := u.run.places["p" := Linked("seven")])
  {
    acts, w := Next(was, u, PlaceLink("p"));
    acts, w := Next(acts, w, PlaceMark("p"));
  }

  lemma {:induction false} Links() returns (acts: seq<Action>, w: World)
    ensures acts == LINK && After(acts, w) && LinkedSeven(w)
  {
    assert "p"[0] != "q"[0];
    acts, w := Sends();
    acts, w := Registers(acts, w);
    acts, w := Places(acts, w);
  }

  /** The body renames a linked file, and then writes it through a patched open. */
  lemma {:induction false} RenameBreaks() returns (acts: seq<Action>, w: World)
    ensures acts == LINK + [BodyRename("p", "q"), Want(0, "q"), Enter(0), Open(0, 0), Write(0, 0, [8])]
    ensures After(acts, w) && !CacheCorrect(Sample, w)
  {
    acts, w := Links();
    acts, w := BodyRenames(acts, w, "p", "q");
    acts, w := Opens(acts, w, "q");
    acts, w := WritesEight(acts, w, "q");
  }

  /** So it is with a link. */
  lemma {:induction false} LinkBreaks() returns (acts: seq<Action>, w: World)
    ensures acts == LINK + [BodyLink("p", "q"), Want(0, "q"), Enter(0), Open(0, 0), Write(0, 0, [8])]
    ensures After(acts, w) && !CacheCorrect(Sample, w)
  {
    acts, w := Links();
    acts, w := BodyLinks(acts, w, "p", "q");
    acts, w := Opens(acts, w, "q");
    acts, w := WritesEight(acts, w, "q");
  }

  lemma {:induction false} CopyFailing(was: seq<Action>, u: World) returns (acts: seq<Action>, w: World)
    requires After(was, u) && LinkedSeven(u)
    ensures acts == was + [Want(0, "p")] + [Enter(0)] + [CopyFails(0)] && After(acts, w)
    ensures w.disk == u.disk && w.run.handles == u.run.handles && 0 in w.run.threads && w.run.threads[0] == Ready("p")
  {
    acts, w := Next(was, u, Want(0, "p"));
    assert w.run.threads == map[0 := Wants("p")];
    acts, w := Next(acts, w, Enter(0));
    acts, w := Next(acts, w, CopyFails(0));
  }

  /** The copy of a conversion fails, and the open goes through the link. */
  lemma {:induction false} FailedCopyBreaks() returns (acts: seq<Action>, w: World)
    ensures acts == LINK + [Want(0, "p"), Enter(0), CopyFails(0), Open(0, 0), Write(0, 0, [8])]
    ensures After(acts, w) && !CacheCorrect(Sample, w)
  {
    acts, w := Links();
    acts, w := CopyFailing(acts, w);
    acts, w := WritesEight(acts, w, "p");
  }

  /** A thread that outlives its call opens a linked file. */
  lemma {:induction false} UnseenBreaks() returns (acts: seq<Action>, w: World)
    ensures acts == LINK + [Unseen(0, "p"), Open(0, 0), Write(0, 0, [8])]
    ensures After(acts, w) && !CacheCorrect(Sample, w)
  {
    acts, w := Links();
    acts, w := Next(acts, w, Unseen(0, "p"));
    acts, w := WritesEight(acts, w, "p");
  }

  // ---------------------------------------------------------------- an output

  /** The file 7 is the only one, at "p", and nothing is being done to it. */
  ghost predicate OutputSeven(w: World) {
    && At(w, Path("p"), 0, [7]) && w.disk.unused == 1 && w.up == EMPTY.up && w.run.places == map[]
    && w.run.threads == map[]
    && forall n | n in w.disk.names :: n == Path("p")
  }

  /** A thread writes a new output, and has it open. */
  lemma {:induction false} WritesOutput(was: seq<Action>, u: World, p: PathName, b: Byte)
    returns (acts: seq<Action>, w: World)
    requires After(was, u) && Idle(u) && p !in u.run.places && Path(p) !in u.disk.names
    ensures acts == was + [Want(0, p)] + [Enter(0)] + [Open(0, 0)] + [Write(0, 0, [b])] && After(acts, w)
    ensures w.up == u.up && w.run == Calls(u.run.handles[0 := u.disk.unused], u.run.places, map[])
    ensures w.disk == Created(u.disk, Path(p), Body, [b])
  {
    acts, w := Opens(was, u, p);
    var i, ready := u.disk.unused, w;
    acts, w := Next(acts, w, Open(0, 0));
    assert ready.run.threads - {0} == map[];
    var empty := w;
    acts, w := Writes(acts, w, i, [b]);
    assert empty.disk.content[i := [b]] == u.disk.content[i := [b]];
  }

  /** The body writes the file 7, and has it open. */
  lemma {:induction false} Outputs() returns (acts: seq<Action>, w: World)
    ensures acts == OUTPUT && After(acts, w)
    ensures OutputSeven(w) && w.run.handles == map[0 := 0]
  {
    acts, w := WritesOutput([], EMPTY, "p", 7);
  }

  lemma {:induction false} Closes() returns (acts: seq<Action>, w: World)
    ensures acts == CLOSED && After(acts, w)
    ensures OutputSeven(w) && w.run.handles == map[]
  {
    acts, w := Outputs();
    acts, w := Shuts(acts, w);
  }

  /** Another output, the file 8, is written at "t". */
  lemma {:induction false} OutputsBoth() returns (acts: seq<Action>, w: World)
    ensures acts == CLOSED + SECOND
    ensures After(acts, w) && At(w, Path("p"), 0, [7]) && At(w, Path("t"), 1, [8])
    ensures w.up == EMPTY.up && w.run.places == map[] && w.disk.unused == 2
    ensures forall n | n in w.disk.names :: n == Path("p") || n == Path("t")
  {
    assert "p"[0] != "t"[0];
    acts, w := Closes();
    acts, w := WritesOutput(acts, w, "t", 8);
    acts, w := Shuts(acts, w);
  }

  lemma {:induction false} HashesClosed() returns (acts: seq<Action>, w: World)
    ensures acts == CLOSED + Hashing(0, Path("p"))
    ensures After(acts, w) && HashedSeven(w) && w.run.handles == map[] && w.run.threads == map[]
  {
    acts, w := Closes();
    acts, w := Hashes(acts, w, 0, Path("p"));
  }

  /** It is the only file, and it is hashed. */
  ghost predicate HashedSeven(w: World) {
    && At(w, Path("p"), 0, [7]) && w.disk.unused == 1 && w.run.places == map[]
    && (forall n | n in w.disk.names :: n == Path("p"))
    && w.up == EMPTY.up.(hashes := map[0 := Hash(Path("p"), 0, 1, false, [7], true)])
  }

  lemma {:induction false} HashesOpen() returns (acts: seq<Action>, w: World)
    ensures acts == OUTPUT + Hashing(0, Path("p"))
    ensures After(acts, w) && HashedSeven(w) && w.run.handles == map[0 := 0]
  {
    acts, w := Outputs();
    acts, w := Hashes(acts, w, 0, Path("p"));
  }

  lemma {:induction false} HashesBoth() returns (acts: seq<Action>, w: World)
    ensures acts == CLOSED + SECOND + Hashing(0, Path("p"))
    ensures After(acts, w) && At(w, Path("p"), 0, [7]) && At(w, Path("t"), 1, [8])
    ensures w.up == EMPTY.up.(hashes := map[0 := Hash(Path("p"), 0, 1, false, [7], true)]) && w.run.places == map[]
    ensures w.disk.unused == 2 && forall n | n in w.disk.names :: n == Path("p") || n == Path("t")
  {
    acts, w := OutputsBoth();
    acts, w := Hashes(acts, w, 0, Path("p"));
  }

  /** What is at "p" by then goes into the cache. */
  lemma {:induction false} Moves(was: seq<Action>, u: World, i: nat, bytes: Data) returns (acts: seq<Action>, w: World)
    requires After(was, u) && At(u, Path("p"), i, bytes) && Blob("seven") !in u.disk.names && u.run.places == map[]
    requires u.up == EMPTY.up.(hashes := map[0 := Hash(Path("p"), 0, 1, false, [7], true)])
    ensures acts == was + [CollectMove(0)] && After(acts, w)
    ensures w.run == u.run && w.disk.content == u.disk.content
    ensures w.disk.names == u.disk.names[Blob("seven") := i] - {Path("p")}
  {
    acts, w := Next(was, u, CollectMove(0));
  }

  /** The body left its output open, and writes on once it is in the cache. */
  lemma {:induction false} OpenOutputBreaks() returns (acts: seq<Action>, w: World)
    ensures acts == OUTPUT + Hashing(0, Path("p")) + [CollectMove(0), Write(0, 0, [8])]
    ensures After(acts, w) && !CacheCorrect(Sample, w)
  {
    acts, w := HashesOpen();
    acts, w := Moves(acts, w, 0, [7]);
    acts, w := Writes(acts, w, 0, [8]);
    Wrong(w, 0, [8]);
  }

  /** It writes on before that, once the output is hashed. */
  lemma {:induction false} LateOutputBreaks() returns (acts: seq<Action>, w: World)
    ensures acts == OUTPUT + Hashing(0, Path("p")) + [Write(0, 0, [8]), Close(0), CollectMove(0)]
    ensures After(acts, w) && !CacheCorrect(Sample, w)
  {
    acts, w := HashesOpen();
    acts, w := Writes(acts, w, 0, [8]);
    acts, w := Shuts(acts, w);
    acts, w := Moves(acts, w, 0, [8]);
    Wrong(w, 0, [8]);
  }

  /** The output gets another name once it is hashed, and is written there once it is in the cache. */
  lemma {:induction false} OtherNameBreaks() returns (acts: seq<Action>, w: World)
    ensures acts == CLOSED + Hashing(0, Path("p"))
                    + [BodyLink("p", "q"), CollectMove(0), Want(0, "q"), Enter(0), Open(0, 0), Write(0, 0, [8])]
    ensures After(acts, w) && !CacheCorrect(Sample, w)
  {
    assert "p"[0] != "q"[0];
    acts, w := HashesClosed();
    acts, w := BodyLinks(acts, w, "p", "q");
    acts, w := Moves(acts, w, 0, [7]);
    acts, w := Opens(acts, w, "q");
    acts, w := WritesEight(acts, w, "q");
  }

  /** Another file is renamed over the output once it is hashed, and is moved into the cache instead. */
  lemma {:induction false} ReplacedMoveBreaks() returns (acts: seq<Action>, w: World)
    ensures acts == CLOSED + SECOND + Hashing(0, Path("p")) + [BodyRename("t", "p"), CollectMove(0)]
    ensures After(acts, w) && !CacheCorrect(Sample, w)
  {
    assert "p"[0] != "t"[0];
    acts, w := HashesBoth();
    acts, w := BodyRenames(acts, w, "t", "p");
    acts, w := Moves(acts, w, 1, [8]);
    Wrong(w, 1, [8]);
  }

  /** The same while the call runs: a poll hashes the output, and copies its next version. */
  lemma {:induction false} ReplacedPollBreaks() returns (acts: seq<Action>, w: World)
    ensures acts == CLOSED + SECOND + Hashing(0, Path("p"))
                    + [BodyRename("t", "p"), CollectOpen(0, true), CollectFill(0), CollectRename(0)]
    ensures After(acts, w) && !CacheCorrect(Sample, w)
  {
    assert "p"[0] != "t"[0];
    acts, w := HashesBoth();
    acts, w := BodyRenames(acts, w, "t", "p");
    acts, w := CopyOpens(acts, w, 0, 1, [8]);
    acts, w := CopyFills(acts, w, 1, [8]);
    acts, w := CopyRenames(acts, w, 2, [8]);
  }

  // ---------------------------------------------------------------- one file beside the cache

  /** An upload that starts over a collection's copy empties what is renamed. */
  lemma {:induction false} SharedUploadBreaks() returns (acts: seq<Action>, w: World)
    ensures acts == CLOSED + Hashing(0, Path("p"))
                    + [CollectOpen(0, true), CollectFill(0), PutStart("seven"), CollectRename(0)]
    ensures After(acts, w) && !CacheCorrect(Sample, w)
  {
    acts, w := HashesClosed();
    acts, w := CopyOpens(acts, w, 0, 0, [7]);
    acts, w := CopyFills(acts, w, 0, [7]);
    acts, w := Next(acts, w, PutStart("seven"));
    acts, w := CopyRenames(acts, w, 1, []);
  }

  /** A collection that opens its copy over an upload that was just checked empties it as well. */
  lemma {:induction false} SharedCopyBreaks() returns (acts: seq<Action>, w: World)
    ensures acts == CLOSED + Hashing(0, Path("p"))
                    + [PutStart("seven"), PutChunk("seven", [7]), PutCheck("seven"), CollectOpen(0, true), PutRename("seven")]
    ensures After(acts, w) && !CacheCorrect(Sample, w)
  {
    acts, w := HashesClosed();
    acts, w := Uploads(acts, w);
    acts, w := CopyOpens(acts, w, 0, 0, [7]);
    acts, w := Next(acts, w, PutRename("seven"));
    Wrong(w, 1, []);
  }

  lemma {:induction false} HashesTwice() returns (acts: seq<Action>, w: World)
    ensures acts == CLOSED + Hashing(0, Path("p")) + Hashing(1, Path("p"))
    ensures After(acts, w) && At(w, Path("p"), 0, [7]) && w.disk.unused == 1 && w.up.collecting == map[]
    ensures 0 in w.up.hashes && w.up.hashes[0] == Hash(Path("p"), 0, 1, false, [7], true)
    ensures 1 in w.up.hashes && w.up.hashes[1] == w.up.hashes[0]
    ensures forall n | n in w.disk.names :: n == Path("p")
  {
    acts, w := HashesClosed();
    acts, w := Hashes(acts, w, 1, Path("p"));
  }

  /** So does a second collection that opens its copy over the first one's. */
  lemma {:induction false} TwoCollectionsBreak() returns (acts: seq<Action>, w: World)
    ensures acts == CLOSED + Hashing(0, Path("p")) + Hashing(1, Path("p"))
                    + [CollectOpen(0, true), CollectFill(0), CollectOpen(1, true), CollectRename(0)]
    ensures After(acts, w) && !CacheCorrect(Sample, w)
  {
    acts, w := HashesTwice();
    acts, w := CopyOpens(acts, w, 0, 0, [7]);
    acts, w := CopyFills(acts, w, 0, [7]);
    acts, w := CopyOpens(acts, w, 1, 0, [7]);
    acts, w := CopyRenames(acts, w, 1, []);
  }

  lemma {:induction false} Reopens(was: seq<Action>, u: World) returns (acts: seq<Action>, w: World)
    requires After(was, u) && Idle(u) && "p" !in u.run.places && At(u, Path("p"), 0, [7])
    ensures acts == was + [Want(0, "p")] + [Enter(0)] + [Open(0, 0)] && After(acts, w)
    ensures w.disk == u.disk && w.up == u.up && 0 in w.run.handles && w.run.handles[0] == 0
  {
    acts, w := Opens(was, u, "p");
    acts, w := Next(acts, w, Open(0, 0));
  }

  /** The body opens its output while it is being copied, and changes it. */
  lemma {:induction false} CopyWriteBreaks() returns (acts: seq<Action>, w: World)
    ensures acts == CLOSED + Hashing(0, Path("p"))
                    + [Want(0, "p"), Enter(0), Open(0, 0), CollectOpen(0, true), Write(0, 0, [8]), CollectFill(0), CollectRename(0)]
    ensures After(acts, w) && !CacheCorrect(Sample, w)
  {
    acts, w := HashesClosed();
    acts, w := Reopens(acts, w);
    acts, w := CopyOpens(acts, w, 0, 0, [7]);
    acts, w := Writes(acts, w, 0, [8]);
    acts, w := CopyFills(acts, w, 0, [8]);
    acts, w := CopyRenames(acts, w, 1, [8]);
  }

  // ---------------------------------------------------------------- a parallel upload

  lemma {:induction false} Begins(was: seq<Action>, u: World) returns (acts: seq<Action>, w: World)
    requires After(was, u)
    ensures acts == was + [Begin("seven", 1)] && After(acts, w)
    ensures w == u.(disk := Created(u.disk, Parallel("seven"), Filling("seven"), [0]))
  {
    acts, w := Next(was, u, Begin("seven", 1));
    var zeros: Data := seq(1, _ => 0);
    assert zeros == [0];
  }

  /** Senders on several connections have filled the file 7, and it is hashed. */
  lemma {:induction false} HashesFilled() returns (acts: seq<Action>, w: World)
    ensures acts == FILL + Hashing(0, Parallel("seven")) && After(acts, w)
    ensures At(w, Parallel("seven"), 0, [7]) && w.up.fills == map[] && w.up.collecting == map[] && w.disk.unused == 1
    ensures 1 !in w.up.hashes && 0 in w.up.hashes
    ensures w.up.hashes[0] == Hash(Parallel("seven"), 0, 1, w.up.hashes[0].shared, [7], true)
  {
    acts, w := Begins([], EMPTY);
    acts, w := Next(acts, w, FillOpen(0, "seven"));
    acts, w := Next(acts, w, FillWrite(0, 0, [7]));
    assert Overwrite([0], 0, [7]) == [7];
    acts, w := Hashes(acts, w, 0, Parallel("seven"));
  }

  lemma {:induction false} FillsEight(was: seq<Action>, u: World) returns (acts: seq<Action>, w: World)
    requires After(was, u) && 0 in u.up.fills && u.up.fills[0] == 0 && 0 in u.disk.content && u.disk.content[0] == [7]
    ensures acts == was + [FillWrite(0, 0, [8])] && After(acts, w)
    ensures w.disk == u.disk.(content := u.disk.content[0 := [8]]) && w.up.hashes == u.up.hashes
    ensures w.up.collecting == u.up.collecting
  {
    acts, w := Next(was, u, FillWrite(0, 0, [8]));
    assert Overwrite([7], 0, [8]) == [8];
  }

  /** A seal by hash k renames what is at the name by then. */
  lemma {:induction false} SealsNow(was: seq<Action>, u: World, k: nat, i: nat, bytes: Data)
    returns (acts: seq<Action>, w: World)
    requires After(was, u) && At(u, Parallel("seven"), i, bytes) && k in u.up.hashes && k !in u.up.collecting
    requires u.up.hashes[k].n == Parallel("seven") && u.up.hashes[k].hashed == [7] && u.up.hashes[k].done
    ensures acts == was + [Seal(k)] && After(acts, w) && w.up == u.up.(hashes := u.up.hashes - {k})
    ensures w.disk == Disk(u.disk.names[Blob("seven") := i] - {Parallel("seven")}, u.disk.content,
                           u.disk.kind[i := Committed("seven")], u.disk.unused)
  {
    acts, w := Next(was, u, Seal(k));
  }

  /** A ranged write opens the file once it is hashed, and is over before the rename. */
  lemma {:induction false} LateWriteBreaks() returns (acts: seq<Action>, w: World)
    ensures acts == FILL + Hashing(0, Parallel("seven")) + [FillOpen(0, "seven"), FillWrite(0, 0, [8]), Seal(0)]
    ensures After(acts, w) && !CacheCorrect(Sample, w)
  {
    acts, w := HashesFilled();
    acts, w := Next(acts, w, FillOpen(0, "seven"));
    acts, w := FillsEight(acts, w);
    acts, w := SealsNow(acts, w, 0, 0, [8]);
    Wrong(w, 0, [8]);
  }

  /** One is open across the rename. */
  lemma {:induction false} OpenAcrossBreaks() returns (acts: seq<Action>, w: World)
    ensures acts == FILL + Hashing(0, Parallel("seven")) + [FillOpen(0, "seven"), Seal(0), FillWrite(0, 0, [8])]
    ensures After(acts, w) && !CacheCorrect(Sample, w)
  {
    acts, w := HashesFilled();
    acts, w := Next(acts, w, FillOpen(0, "seven"));
    acts, w := SealsNow(acts, w, 0, 0, [7]);
    acts, w := FillsEight(acts, w);
    Wrong(w, 0, [8]);
  }

  lemma {:induction false} HashesForTwo() returns (acts: seq<Action>, w: World)
    ensures acts == FILL + Hashing(0, Parallel("seven")) + Hashing(1, Parallel("seven"))
    ensures After(acts, w) && At(w, Parallel("seven"), 0, [7]) && w.up.collecting == map[] && w.disk.unused == 1
    ensures 0 in w.up.hashes && w.up.hashes[0] == Hash(Parallel("seven"), 0, 1, w.up.hashes[0].shared, [7], true)
    ensures 1 in w.up.hashes && w.up.hashes[1] == Hash(Parallel("seven"), 0, 1, w.up.hashes[1].shared, [7], true)
  {
    acts, w := HashesFilled();
    acts, w := Hashes(acts, w, 1, Parallel("seven"));
  }

  /** Two seals hash the file; one renames it, it begins over again, and the other renames the zeros. */
  lemma {:induction false} TwoSealsBreak() returns (acts: seq<Action>, w: World)
    ensures acts == FILL + Hashing(0, Parallel("seven")) + Hashing(1, Parallel("seven"))
                    + [Seal(1), Begin("seven", 1), Seal(0)]
    ensures After(acts, w) && !CacheCorrect(Sample, w)
  {
    acts, w := HashesForTwo();
    acts, w := SealsNow(acts, w, 1, 0, [7]);
    acts, w := Begins(acts, w);
    acts, w := SealsNow(acts, w, 0, 1, [0]);
    Wrong(w, 1, [0]);
  }
}
