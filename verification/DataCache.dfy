/**
  The content-addressed file cache of a worker, with real aliasing: names point to inodes and
  inodes hold bytes, so a cache file linked into a running call is one inode with two names.

  An `Action` is one file operation or one critical section, and any number of uploads, seals,
  collections, data threads and body threads interleave between actions. A file is hashed by
  reading it piece by piece, and is renamed into the cache some time after its end was read.
  `kind` is history: it records what an inode was made for, and the cache's promise is that an
  inode that was ever committed as the file of digest d keeps bytes whose digest is d.
*/
module DataCache {
  import opened Bytes

  type Digest = string
  type PathName = string

  datatype Name =
    | Blob(d: Digest)         // the committed cache file
    | Upload(d: Digest)       // `<blob>.partial.<pid>`: one uploader, or a collection
    | Parallel(d: Digest)     // `<blob>.letify-placing..parallel`
    | Path(p: PathName)       // a path of a call's directory
    | Copy(p: PathName)       // `<path>.letify-placing.<pid>`: a conversion's copy

  datatype Kind = Committed(d: Digest) | Uploading(d: Digest) | Filling(d: Digest) | Body

  /** How far the data thread is with a path: nothing is there, or a link or a copy was just put there. */
  datatype Stage = Absent | ByLink | ByCopy

  /** A manifest path: pending, linked to the cache, or a file of the call's own. */
  datatype Place = Pending(d: Digest, stage: Stage) | Linked(d: Digest) | Own(d: Digest)

  /** A body thread inside a patched open for writing. */
  datatype Thread =
    | Wants(p: PathName)      // before the conversion's first critical section
    | Copying(p: PathName)    // in `converting`, nothing copied
    | Copied(p: PathName)     // the copy is beside the path
    | Renamed(p: PathName)    // the copy is at the path, `placed` still says linked
    | Ready(p: PathName)      // about to call the real open

  /** An upload: its inode, the bytes given to its hasher, and whether the digest was found right. */
  datatype Put = Put(inode: nat, hashed: Data, checked: bool)

  /**
    A file being hashed, for a seal or a collection: the name it was opened by, its inode, its size
    and whether it had other names then, the bytes read so far, and whether the end was reached.
  */
  datatype Hash = Hash(n: Name, inode: nat, size: nat, shared: bool, hashed: Data, done: bool)

  /** A collection that copies: the digest, the file copied, the file beside the cache, and whether it is copied. */
  datatype Out = Out(d: Digest, from: nat, to: nat, filled: bool)

  /** Directory entries, bytes and history of inodes, and the next inode number. */
  datatype Disk = Disk(names: map<Name, nat>, content: map<nat, Data>, kind: map<nat, Kind>, unused: nat)

  /** What the cache's own operations are in the middle of. */
  datatype Uploads = Uploads(
    puts: map<Digest, Put>,         // _DATA_OPEN
    fills: map<nat, nat>,           // handles of data_put_at, by inode
    hashes: map<nat, Hash>,         // files being hashed, until they are committed or copied
    collecting: map<nat, Out>)      // collections that copy, until the copy is renamed

  /** What the running calls have. */
  datatype Calls = Calls(
    handles: map<nat, nat>,         // files a body has open for writing, by inode
    places: map<PathName, Place>,
    threads: map<nat, Thread>)

  datatype World = World(disk: Disk, up: Uploads, run: Calls)

  datatype Action =
    | PutStart(d: Digest) | PutChunk(d: Digest, chunk: Data) | PutCheck(d: Digest) | PutRename(d: Digest)
    | Begin(d: Digest, size: nat)
    | FillOpen(k: nat, d: Digest) | FillWrite(k: nat, offset: nat, chunk: Data)
    | HashStart(k: nat, n: Name) | HashRead(k: nat, count: nat) | Seal(k: nat)
    | Register(p: PathName, d: Digest)
    | PlaceLink(p: PathName) | PlaceCopy(p: PathName) | PlaceMark(p: PathName)
    | Want(t: nat, p: PathName) | Enter(t: nat) | CopyBeside(t: nat) | CopyFails(t: nat)
    | RenameCopy(t: nat) | MarkOwn(t: nat) | Open(t: nat, h: nat)
    | Unseen(t: nat, p: PathName)   // an open for writing once the call is unregistered: nothing more is placed there
    | Write(h: nat, offset: nat, chunk: Data) | Close(h: nat)
    | Remove(p: PathName) | BodyLink(p: PathName, q: PathName) | BodyRename(p: PathName, q: PathName)
    | CollectMove(k: nat) | CollectOpen(k: nat, poll: bool) | CollectFill(k: nat) | CollectRename(k: nat)
    | Evict(d: Digest)

  // ---------------------------------------------------------------- file operations

  /** Bytes after writing `chunk` at `offset`; a gap reads as zeros, and writing nothing makes none. */
  function Overwrite(bytes: Data, offset: nat, chunk: Data): Data {
    if chunk == [] then bytes else
    var padded := if |bytes| < offset then bytes + seq(offset - |bytes|, _ => 0) else bytes;
    padded[..offset] + chunk + if offset + |chunk| < |padded| then padded[offset + |chunk|..] else []
  }

  function WriteAt(w: World, i: nat, offset: nat, chunk: Data): World {
    w.(disk := w.disk.(content := w.disk.content[i := Overwrite(if i in w.disk.content then w.disk.content[i] else [], offset, chunk)]))
  }

  /** open(name, "wb"), written full of `bytes`: an existing file keeps its inode. */
  function Created(s: Disk, n: Name, k: Kind, bytes: Data): Disk {
    if n in s.names then s.(content := s.content[s.names[n] := bytes])
    else Disk(s.names[n := s.unused], s.content[s.unused := bytes], s.kind[s.unused := k], s.unused + 1)
  }

  function Create(w: World, n: Name, k: Kind, bytes: Data): World {
    w.(disk := Created(w.disk, n, k, bytes))
  }

  function Inode(w: World, n: Name): nat {
    if n in w.disk.names then w.disk.names[n] else w.disk.unused
  }

  /** os.replace(a, b). */
  function Replace(w: World, a: Name, b: Name): World
    requires a in w.disk.names
  {
    w.(disk := w.disk.(names := w.disk.names[b := w.disk.names[a]] - {a}))
  }

  function Unlink(w: World, n: Name): World {
    w.(disk := w.disk.(names := w.disk.names - {n}))
  }

  /** Rename a verified file into the cache. */
  function Commit(w: World, n: Name, d: Digest): World
    requires n in w.disk.names && n != Blob(d)
  {
    w.(disk := Replace(w, n, Blob(d)).disk.(kind := w.disk.kind[w.disk.names[n] := Committed(d)]))
  }

  /** Whether the file at `n` has another name. */
  predicate Shared(w: World, n: Name)
    requires n in w.disk.names
  {
    exists m :: m in w.disk.names && m != n && w.disk.names[m] == w.disk.names[n]
  }

  // ---------------------------------------------------------------- steps

  predicate IsPending(w: World, p: PathName) {
    p in w.run.places && w.run.places[p].Pending?
  }

  ghost predicate Idle(w: World, p: PathName) {
    forall t | t in w.run.threads :: w.run.threads[t].p != p
  }

  ghost predicate Converting(w: World, p: PathName) {
    exists t :: t in w.run.threads && w.run.threads[t].p == p
                && (w.run.threads[t].Copying? || w.run.threads[t].Copied? || w.run.threads[t].Renamed?)
  }

  /** What must hold for the action to be possible at all. */
  ghost predicate Enabled(w: World, a: Action) {
    match a
    case PutStart(d) => true
    case PutChunk(d, _) => d in w.up.puts && !w.up.puts[d].checked
    case PutCheck(d) => d in w.up.puts && !w.up.puts[d].checked
    case PutRename(d) => d in w.up.puts && w.up.puts[d].checked
    case Begin(d, _) => true
    case FillOpen(k, d) => k !in w.up.fills && Parallel(d) in w.disk.names
    case FillWrite(k, _, _) => k in w.up.fills
    case HashStart(k, n) => k !in w.up.hashes && k !in w.up.collecting && (n.Parallel? || n.Path?) && n in w.disk.names
                            && w.disk.names[n] in w.disk.content
    case HashRead(k, count) => k in w.up.hashes && !w.up.hashes[k].done && count > 0 && w.up.hashes[k].inode in w.disk.content
    case Seal(k) => k in w.up.hashes && k !in w.up.collecting && w.up.hashes[k].done && w.up.hashes[k].n.Parallel?
    // A call's directory is new when the call registers.
    case Register(p, d) => p !in w.run.places && Path(p) !in w.disk.names && Copy(p) !in w.disk.names && Idle(w, p)
    case PlaceLink(p) => p in w.run.places && w.run.places[p].Pending? && Blob(w.run.places[p].d) in w.disk.names
    case PlaceCopy(p) => p in w.run.places && w.run.places[p].Pending? && Blob(w.run.places[p].d) in w.disk.names
                         && w.disk.names[Blob(w.run.places[p].d)] in w.disk.content
    case PlaceMark(p) => p in w.run.places && w.run.places[p].Pending? && !w.run.places[p].stage.Absent? && Path(p) in w.disk.names
    case Want(t, p) => t !in w.run.threads
    case Enter(t) => t in w.run.threads && w.run.threads[t].Wants? && !Converting(w, w.run.threads[t].p)
                     && !(w.run.threads[t].p in w.run.places && w.run.places[w.run.threads[t].p].Pending?)
    case CopyBeside(t) => t in w.run.threads && w.run.threads[t].Copying? && Path(w.run.threads[t].p) in w.disk.names
                          && w.disk.names[Path(w.run.threads[t].p)] in w.disk.content
    case CopyFails(t) => t in w.run.threads && w.run.threads[t].Copying?
    case RenameCopy(t) => t in w.run.threads && w.run.threads[t].Copied? && Copy(w.run.threads[t].p) in w.disk.names
    case MarkOwn(t) => t in w.run.threads && w.run.threads[t].Renamed? && w.run.threads[t].p in w.run.places
    case Open(t, h) => t in w.run.threads && w.run.threads[t].Ready? && h !in w.run.handles
    case Unseen(t, p) => t !in w.run.threads
    case Write(h, _, _) => h in w.run.handles
    case Close(h) => h in w.run.handles
    case Remove(p) => Path(p) in w.disk.names
    case BodyLink(p, q) => Path(p) in w.disk.names && Path(q) !in w.disk.names
    // Renaming onto another name of the same file changes nothing.
    case BodyRename(p, q) => Path(p) in w.disk.names && (Path(q) !in w.disk.names || w.disk.names[Path(q)] != w.disk.names[Path(p)])
    case CollectMove(k) => k in w.up.hashes && k !in w.up.collecting && w.up.hashes[k].done && w.up.hashes[k].n.Path? && !w.up.hashes[k].shared
    case CollectOpen(k, poll) => k in w.up.hashes && k !in w.up.collecting && w.up.hashes[k].done && w.up.hashes[k].n.Path?
                                 && (poll || w.up.hashes[k].shared)
    case CollectFill(k) => k in w.up.collecting && !w.up.collecting[k].filled
    case CollectRename(k) => k in w.up.collecting && w.up.collecting[k].filled
    case Evict(d) => Blob(d) in w.disk.names
  }

  /** The call placed this digest at the path, so there is nothing to collect. */
  predicate Known(w: World, p: PathName, d: Digest) {
    p in w.run.places && !w.run.places[p].Pending? && w.run.places[p].d == d
  }

  /**
    What was hashed goes into the cache: the file is still there, a returned call did not place these
    bytes itself (which a poll of a running call does not ask), and no cache file of that digest has
    the size the file had when it was looked up before the hash, or, for a poll, has now.
  */
  predicate Stores(H: Data -> Digest, w: World, h: Hash, poll: bool) {
    var d := H(h.hashed);
    && h.n.Path? && h.n in w.disk.names && w.disk.names[h.n] in w.disk.content
    && (poll || !Known(w, h.n.p, d))
    && var size := if poll then |w.disk.content[w.disk.names[h.n]]| else h.size;
       !(Blob(d) in w.disk.names && w.disk.names[Blob(d)] in w.disk.content && |w.disk.content[w.disk.names[Blob(d)]]| == size)
  }

  function AfterBegin(w: World, d: Digest, size: nat): World {
    Create(w, Parallel(d), Filling(d), seq(size, _ => 0))
  }

  function AfterPutStart(w: World, d: Digest): World {
    Create(w, Upload(d), Uploading(d), []).(up := w.up.(puts := w.up.puts[d := Put(Inode(w, Upload(d)), [], false)]))
  }

  function AfterPutChunk(w: World, d: Digest, chunk: Data): World
    requires d in w.up.puts
  {
    WriteAt(w, w.up.puts[d].inode, |w.up.puts[d].hashed|, chunk)
      .(up := w.up.(puts := w.up.puts[d := Put(w.up.puts[d].inode, w.up.puts[d].hashed + chunk, false)]))
  }

  /** The digest of the pieces is compared; a wrong one removes the file. */
  function AfterPutCheck(H: Data -> Digest, w: World, d: Digest): World
    requires d in w.up.puts
  {
    if H(w.up.puts[d].hashed) != d then Unlink(w.(up := w.up.(puts := w.up.puts - {d})), Upload(d))
    else w.(up := w.up.(puts := w.up.puts[d := w.up.puts[d].(checked := true)]))
  }

  function AfterPutRename(w: World, d: Digest): World {
    var v := w.(up := w.up.(puts := w.up.puts - {d}));
    if Upload(d) !in w.disk.names then v else Commit(v, Upload(d), d)
  }

  /** The last piece: the comparison and then the rename. */
  function AfterPutLast(H: Data -> Digest, w: World, d: Digest): World
    requires d in w.up.puts
  {
    var v := AfterPutCheck(H, w, d);
    if d in v.up.puts then AfterPutRename(v, d) else v
  }

  function AfterHashStart(w: World, k: nat, n: Name): World
    requires n in w.disk.names && w.disk.names[n] in w.disk.content
  {
    var i := w.disk.names[n];
    w.(up := w.up.(hashes := w.up.hashes[k := Hash(n, i, |w.disk.content[i]|, Shared(w, n), [], false)]))
  }

  /** The next piece of the file as it is now, up to `count` bytes; none is the end. */
  function AfterHashRead(w: World, k: nat, count: nat): World
    requires k in w.up.hashes && w.up.hashes[k].inode in w.disk.content
  {
    var h := w.up.hashes[k];
    var bytes := w.disk.content[h.inode];
    var piece := Slice(bytes, |h.hashed|, |h.hashed| + count);
    w.(up := w.up.(hashes := w.up.hashes[k := h.(hashed := h.hashed + piece, done := piece == [])]))
  }

  /** The end of `_op_data_seal`: whatever is at the name by then is renamed, or removed. */
  function AfterSeal(H: Data -> Digest, w: World, k: nat): World
    requires k in w.up.hashes && w.up.hashes[k].n.Parallel?
  {
    var h := w.up.hashes[k];
    var v := w.(up := w.up.(hashes := w.up.hashes - {k}));
    if h.n !in w.disk.names then v
    else if H(h.hashed) != h.n.d then Unlink(v, h.n)
    else Commit(v, h.n, h.n.d)
  }

  function AfterPlaceLink(w: World, p: PathName): World
    requires p in w.run.places && Blob(w.run.places[p].d) in w.disk.names
  {
    w.(disk := w.disk.(names := w.disk.names[Path(p) := w.disk.names[Blob(w.run.places[p].d)]]), run := w.run.(places := w.run.places[p := Pending(w.run.places[p].d, ByLink)]))
  }

  function AfterPlaceCopy(w: World, p: PathName): World
    requires p in w.run.places && Blob(w.run.places[p].d) in w.disk.names && w.disk.names[Blob(w.run.places[p].d)] in w.disk.content
  {
    Create(Unlink(w, Path(p)), Path(p), Body, w.disk.content[w.disk.names[Blob(w.run.places[p].d)]])
      .(run := w.run.(places := w.run.places[p := Pending(w.run.places[p].d, ByCopy)]))
  }

  function AfterPlaceMark(w: World, p: PathName): World
    requires p in w.run.places && w.run.places[p].Pending?
  {
    var e := w.run.places[p];
    w.(run := w.run.(places := w.run.places[p := if e.stage.ByLink? then Linked(e.d) else Own(e.d)]))
  }

  /** Leaving the first critical section: convert a link, or go straight to the open. */
  function AfterEnter(w: World, t: nat): World
    requires t in w.run.threads
  {
    var p := w.run.threads[t].p;
    w.(run := w.run.(threads := w.run.threads[t := if p in w.run.places && w.run.places[p].Linked? then Copying(p) else Ready(p)]))
  }

  /** Going straight to the open; the data thread places nothing for a call that is over. */
  function AfterUnseen(w: World, t: nat, p: PathName): World {
    var places := if IsPending(w, p) then w.run.places - {p} else w.run.places;
    w.(run := w.run.(threads := w.run.threads[t := Ready(p)], places := places))
  }

  function AfterCopyBeside(w: World, t: nat): World
    requires t in w.run.threads && Path(w.run.threads[t].p) in w.disk.names && w.disk.names[Path(w.run.threads[t].p)] in w.disk.content
  {
    var p := w.run.threads[t].p;
    Create(w, Copy(p), Body, w.disk.content[w.disk.names[Path(p)]]).(run := w.run.(threads := w.run.threads[t := Copied(p)]))
  }

  function AfterRenameCopy(w: World, t: nat): World
    requires t in w.run.threads && Copy(w.run.threads[t].p) in w.disk.names
  {
    var p := w.run.threads[t].p;
    Replace(w, Copy(p), Path(p)).(run := w.run.(threads := w.run.threads[t := Renamed(p)]))
  }

  function AfterMarkOwn(w: World, t: nat): World
    requires t in w.run.threads && w.run.threads[t].p in w.run.places
  {
    var p := w.run.threads[t].p;
    w.(run := w.run.(places := w.run.places[p := Own(w.run.places[p].d)], threads := w.run.threads[t := Ready(p)]))
  }

  function AfterOpen(w: World, t: nat, h: nat): World
    requires t in w.run.threads
  {
    var p := w.run.threads[t].p;
    (if Path(p) in w.disk.names then w else Create(w, Path(p), Body, []))
      .(run := w.run.(handles := w.run.handles[h := Inode(w, Path(p))], threads := w.run.threads - {t}))
  }

  /** A collected file of one name is renamed into the cache. */
  function AfterCollectMove(H: Data -> Digest, w: World, k: nat): World
    requires k in w.up.hashes && w.up.hashes[k].n.Path?
  {
    var h := w.up.hashes[k];
    var v := w.(up := w.up.(hashes := w.up.hashes - {k}));
    if Stores(H, w, h, false) then Commit(v, h.n, H(h.hashed)) else v
  }

  /** One of several names, or of a running call, is copied beside the cache first. */
  function AfterCollectOpen(H: Data -> Digest, w: World, k: nat, poll: bool): World
    requires k in w.up.hashes
  {
    var h := w.up.hashes[k];
    var d := H(h.hashed);
    if Stores(H, w, h, poll)
    then Create(w, Upload(d), Uploading(d), [])
           .(up := w.up.(collecting := w.up.collecting[k := Out(d, w.disk.names[h.n], Inode(w, Upload(d)), false)]))
    else w.(up := w.up.(hashes := w.up.hashes - {k}))
  }

  function AfterCollectFill(w: World, k: nat): World
    requires k in w.up.collecting
  {
    var o := w.up.collecting[k];
    WriteAt(w, o.to, 0, if o.from in w.disk.content then w.disk.content[o.from] else [])
      .(up := w.up.(collecting := w.up.collecting[k := o.(filled := true)], hashes := w.up.hashes - {k}))
  }

  function AfterCollectRename(w: World, k: nat): World
    requires k in w.up.collecting
  {
    var d := w.up.collecting[k].d;
    var v := w.(up := w.up.(collecting := w.up.collecting - {k}));
    if Upload(d) in w.disk.names then Commit(v, Upload(d), d) else v
  }

  ghost function Step(H: Data -> Digest, w: World, a: Action): World {
    if !Enabled(w, a) then w else
      match a
      case PutStart(d) => AfterPutStart(w, d)
      case PutChunk(d, chunk) => AfterPutChunk(w, d, chunk)
      case PutCheck(d) => AfterPutCheck(H, w, d)
      case PutRename(d) => AfterPutRename(w, d)
      case Begin(d, size) => AfterBegin(w, d, size)
      case FillOpen(k, d) => w.(up := w.up.(fills := w.up.fills[k := w.disk.names[Parallel(d)]]))
      case FillWrite(k, offset, chunk) => WriteAt(w, w.up.fills[k], offset, chunk).(up := w.up.(fills := w.up.fills - {k}))
      case HashStart(k, n) => AfterHashStart(w, k, n)
      case HashRead(k, count) => AfterHashRead(w, k, count)
      case Seal(k) => AfterSeal(H, w, k)
      case Register(p, d) => w.(run := w.run.(places := w.run.places[p := Pending(d, Absent)]))
      case PlaceLink(p) => AfterPlaceLink(w, p)
      case PlaceCopy(p) => AfterPlaceCopy(w, p)
      case PlaceMark(p) => AfterPlaceMark(w, p)
      case Want(t, p) => w.(run := w.run.(threads := w.run.threads[t := Wants(p)]))
      case Enter(t) => AfterEnter(w, t)
      case CopyBeside(t) => AfterCopyBeside(w, t)
      case CopyFails(t) => w.(run := w.run.(threads := w.run.threads[t := Ready(w.run.threads[t].p)]))
      case RenameCopy(t) => AfterRenameCopy(w, t)
      case MarkOwn(t) => AfterMarkOwn(w, t)
      case Open(t, h) => AfterOpen(w, t, h)
      case Unseen(t, p) => AfterUnseen(w, t, p)
      case Write(h, offset, chunk) => WriteAt(w, w.run.handles[h], offset, chunk)
      case Close(h) => w.(run := w.run.(handles := w.run.handles - {h}))
      case Remove(p) => Unlink(w, Path(p))
      case BodyLink(p, q) => w.(disk := w.disk.(names := w.disk.names[Path(q) := w.disk.names[Path(p)]]))
      case BodyRename(p, q) => Replace(w, Path(p), Path(q))
      case CollectMove(k) => AfterCollectMove(H, w, k)
      case CollectOpen(k, poll) => AfterCollectOpen(H, w, k, poll)
      case CollectFill(k) => AfterCollectFill(w, k)
      case CollectRename(k) => AfterCollectRename(w, k)
      case Evict(d) => Unlink(w, Blob(d))
  }

  ghost function Run(H: Data -> Digest, w: World, acts: seq<Action>): World
    decreases |acts|
  {
    if acts == [] then w else Run(H, Step(H, w, acts[0]), acts[1..])
  }

  const EMPTY: World := World(Disk(map[], map[], map[], 0), Uploads(map[], map[], map[], map[]), Calls(map[], map[], map[]))

  // ---------------------------------------------------------------- the promise

  /** Every committed file named d holds bytes whose digest is d. */
  ghost predicate CacheCorrect(H: Data -> Digest, w: World) {
    forall d | Blob(d) in w.disk.names :: w.disk.names[Blob(d)] in w.disk.content && H(w.disk.content[w.disk.names[Blob(d)]]) == d
  }

  /** So does every file that was once committed as d, whether the cache still has it or only the calls it is linked into. */
  ghost predicate LinksCorrect(H: Data -> Digest, w: World) {
    forall i | i in w.disk.kind && w.disk.kind[i].Committed? :: i in w.disk.content && H(w.disk.content[i]) == w.disk.kind[i].d
  }

  /** A collection copies this digest beside the cache, so the upload name is taken. */
  ghost predicate Collecting(w: World, d: Digest) {
    exists k :: k in w.up.collecting && w.up.collecting[k].d == d
  }

  /** Whoever opens the path for writing still has to give it a file of its own first. */
  ghost predicate Shielded(w: World, q: PathName) {
    MayLink(w, q) && forall t | t in w.run.threads && w.run.threads[t].p == q :: !w.run.threads[t].Ready? && !w.run.threads[t].Renamed?
  }

  /** The path is one the call knows to be a link, or the data thread will still replace. */
  ghost predicate MayLink(w: World, p: PathName) {
    p in w.run.places && (w.run.places[p].Linked? || (w.run.places[p].Pending? && !w.run.places[p].stage.ByCopy?))
  }

  /** But for the cache file of d, the other names of the file at `n` are shielded paths. */
  ghost predicate OnlyShielded(w: World, n: Name, d: Digest)
    requires n in w.disk.names
  {
    forall m | m in w.disk.names && m != n && m != Blob(d) && w.disk.names[m] == w.disk.names[n] :: m.Path? && Shielded(w, m.p)
  }

  /** If a file is at the name, it has these bytes. */
  ghost predicate Still(w: World, n: Name, bytes: Data) {
    n in w.disk.names ==> w.disk.names[n] in w.disk.content && w.disk.content[w.disk.names[n]] == bytes
  }

  /** A seal that finds the digest it was asked for renames what is at the name by then. */
  predicate Seals(H: Data -> Digest, w: World, h: Hash) {
    h.n.Parallel? && h.n in w.disk.names && H(h.hashed) == h.n.d
  }

  /** Some collection has still to copy this file. */
  ghost predicate CopySource(w: World, i: nat) {
    exists k :: k in w.up.collecting && w.up.collecting[k].from == i && !w.up.collecting[k].filled
  }

  /**
    A copy of these bytes can be opened beside the cache: nobody uploads that digest, and the
    collections of it have not copied yet, will copy the same bytes, and have their file there.
  */
  ghost predicate Joins(w: World, d: Digest, bytes: Data) {
    && d !in w.up.puts
    && forall j | j in w.up.collecting && w.up.collecting[j].d == d ::
         !w.up.collecting[j].filled && Upload(d) in w.disk.names && j in w.up.hashes && w.up.hashes[j].hashed == bytes
  }

  /**
    The guards the promise depends on, each readable before the action. A file opened without a
    conversion is not the cache's; a link or rename takes a cache file only to a path that will be
    converted; what is renamed or copied into the cache still has the bytes that were hashed; what is
    renamed is not open for writing, and what is to be copied is not changed before that; an upload
    and a collection of one digest do not overlap, and neither do two collections once one has copied,
    for they share one file name. `CacheLimits.GuardExact` shows that none of them asks too much.
  */
  ghost predicate Careful(H: Data -> Digest, w: World, a: Action) {
    match a
    case CopyFails(t) => t in w.run.threads ==> Private(w, w.run.threads[t].p)
    case Unseen(t, p) => Private(w, p)
    case BodyLink(p, q) => Private(w, p) || Shielded(w, q)
    case BodyRename(p, q) => Private(w, p) || Shielded(w, q)
    case Write(h, offset, chunk) =>
      h in w.run.handles && CopySource(w, w.run.handles[h]) ==>
        w.run.handles[h] in w.disk.content
        && Overwrite(w.disk.content[w.run.handles[h]], offset, chunk) == w.disk.content[w.run.handles[h]]
    case Seal(k) =>
      k in w.up.hashes && Seals(H, w, w.up.hashes[k]) ==>
        && Still(w, w.up.hashes[k].n, w.up.hashes[k].hashed) && w.disk.names[w.up.hashes[k].n] !in w.up.fills.Values
    case CollectMove(k) =>
      k in w.up.hashes && Stores(H, w, w.up.hashes[k], false) ==>
        && Still(w, w.up.hashes[k].n, w.up.hashes[k].hashed) && w.disk.names[w.up.hashes[k].n] !in w.run.handles.Values
        && OnlyShielded(w, w.up.hashes[k].n, H(w.up.hashes[k].hashed))
    case CollectOpen(k, poll) =>
      k in w.up.hashes && Stores(H, w, w.up.hashes[k], poll) ==>
        && Still(w, w.up.hashes[k].n, w.up.hashes[k].hashed) && Joins(w, H(w.up.hashes[k].hashed), w.up.hashes[k].hashed)
    case PutStart(d) => !Collecting(w, d)
    case _ => true
  }

  ghost predicate CarefulRun(H: Data -> Digest, w: World, acts: seq<Action>)
    decreases |acts|
  {
    acts == [] || (Careful(H, w, acts[0]) && CarefulRun(H, Step(H, w, acts[0]), acts[1..]))
  }

  // ---------------------------------------------------------------- invariant

  ghost predicate Kinds(H: Data -> Digest, w: World) {
    && w.disk.content.Keys == w.disk.kind.Keys
    && (forall i | i in w.disk.kind :: i < w.disk.unused && (w.disk.kind[i].Committed? ==> H(w.disk.content[i]) == w.disk.kind[i].d))
  }

  ghost predicate NameFits(w: World, n: Name)
    requires n in w.disk.names
  {
    var i := w.disk.names[n];
    i in w.disk.kind &&
    match n
    case Blob(d) => w.disk.kind[i] == Committed(d)
    case Upload(d) => w.disk.kind[i] == Uploading(d)
    case Parallel(d) => w.disk.kind[i] == Filling(d)
    case Copy(p) => w.disk.kind[i] == Body && Unshared(w, n)
    case Path(p) => w.disk.kind[i] == Body || (w.disk.kind[i].Committed? && MayLink(w, p))
  }

  /** A conversion's copy is open in no thread, is not being collected and has no other name. */
  ghost predicate Unshared(w: World, n: Name)
    requires n in w.disk.names
  {
    && (forall h | h in w.run.handles :: w.run.handles[h] != w.disk.names[n])
    && (forall k | k in w.up.collecting :: w.up.collecting[k].from != w.disk.names[n])
    && (forall m | m in w.disk.names && m != n :: w.disk.names[m] != w.disk.names[n])
  }

  /** Nothing of the cache is at the path. */
  ghost predicate Private(w: World, p: PathName) {
    Path(p) in w.disk.names ==> w.disk.names[Path(p)] in w.disk.kind && w.disk.kind[w.disk.names[Path(p)]] == Body
  }

  ghost predicate IsLinked(w: World, p: PathName) {
    p in w.run.places && w.run.places[p].Linked?
  }

  ghost predicate ThreadFits(w: World, t: Thread) {
    match t
    case Wants(p) => true
    case Copying(p) => IsLinked(w, p)
    case Copied(p) => IsLinked(w, p)
    case Renamed(p) => IsLinked(w, p) && Private(w, p)
    case Ready(p) => !IsPending(w, p) && Private(w, p)
  }

  predicate Converts(t: Thread) {
    t.Copying? || t.Copied? || t.Renamed?
  }

  /** At most one thread converts a path. */
  ghost predicate OneConverter(threads: map<nat, Thread>) {
    forall t, u | t in threads && u in threads && t != u && Converts(threads[t]) && Converts(threads[u]) ::
      threads[t].p != threads[u].p
  }

  ghost predicate PutFits(w: World, d: Digest)
    requires d in w.up.puts
  {
    var put := w.up.puts[d];
    && Upload(d) in w.disk.names && w.disk.names[Upload(d)] == put.inode
    && put.inode in w.disk.content && w.disk.content[put.inode] == put.hashed && !Collecting(w, d)
  }

  /** What was checked has its digest. */
  ghost predicate Checked(H: Data -> Digest, w: World) {
    forall d | d in w.up.puts && w.up.puts[d].checked :: H(w.up.puts[d].hashed) == d
  }

  /** Some collection has copied the digest beside the cache already. */
  ghost predicate CopiedBeside(w: World, d: Digest) {
    Upload(d) !in w.disk.names || exists k :: k in w.up.collecting && w.up.collecting[k].d == d && w.up.collecting[k].filled
  }

  /**
    The file beside the cache is the collection's, or went into the cache by another's rename. It is
    empty or a copy of what was hashed, and so is every other that is still to be copied.
  */
  ghost predicate CollectFits(H: Data -> Digest, w: World, k: nat)
    requires k in w.up.collecting
  {
    var o := w.up.collecting[k];
    && o.to in w.disk.kind && o.to in w.disk.content
    && (if Upload(o.d) in w.disk.names then w.disk.names[Upload(o.d)] == o.to else w.disk.kind[o.to] == Committed(o.d))
    && if o.filled then H(w.disk.content[o.to]) == o.d else CopyFits(H, w, k)
  }

  ghost predicate CopyFits(H: Data -> Digest, w: World, k: nat)
    requires k in w.up.collecting && w.up.collecting[k].to in w.disk.content
  {
    var o := w.up.collecting[k];
    && k in w.up.hashes && w.up.hashes[k].done && H(w.up.hashes[k].hashed) == o.d
    && o.from in w.disk.content && w.disk.content[o.from] == w.up.hashes[k].hashed
    && w.disk.content[o.to] == (if CopiedBeside(w, o.d) then w.up.hashes[k].hashed else [])
    && forall j | j in w.up.collecting && w.up.collecting[j].d == o.d && !w.up.collecting[j].filled ::
         j in w.up.hashes && w.up.hashes[j].hashed == w.up.hashes[k].hashed
  }

  ghost predicate OpenFits(w: World) {
    && (forall h | h in w.run.handles :: w.run.handles[h] in w.disk.kind && w.disk.kind[w.run.handles[h]] == Body)
    && (forall k | k in w.up.fills :: w.up.fills[k] in w.disk.kind && w.disk.kind[w.up.fills[k]].Filling?)
    && (forall k | k in w.up.collecting :: w.up.collecting[k].from in w.disk.kind
          && (w.disk.kind[w.up.collecting[k].from].Body? || w.disk.kind[w.up.collecting[k].from].Committed?))
  }

  ghost predicate Inv(H: Data -> Digest, w: World) {
    && Kinds(H, w) && OpenFits(w) && OneConverter(w.run.threads) && Checked(H, w)
    && (forall n | n in w.disk.names :: NameFits(w, n))
    && (forall t | t in w.run.threads :: ThreadFits(w, w.run.threads[t]))
    && (forall d | d in w.up.puts :: PutFits(w, d))
    && (forall k | k in w.up.collecting :: CollectFits(H, w, k))
  }

  lemma {:induction false} InvCorrect(H: Data -> Digest, w: World)
    requires Inv(H, w)
    ensures CacheCorrect(H, w) && LinksCorrect(H, w)
  {
    forall d | Blob(d) in w.disk.names
      ensures w.disk.names[Blob(d)] in w.disk.content && H(w.disk.content[w.disk.names[Blob(d)]]) == d
    {
      assert NameFits(w, Blob(d));
    }
  }

  lemma {:induction false} UploadStep(H: Data -> Digest, w: World, a: Action)
    requires Inv(H, w) && Careful(H, w, a) && Enabled(w, a)
    requires a.PutStart? || a.PutChunk? || a.PutCheck? || a.PutRename? || a.Begin? || a.FillOpen? || a.FillWrite?
    ensures Inv(H, Step(H, w, a))
  {
    match a
    case PutStart(d) => PutStartInv(H, w, d);
    case PutChunk(d, chunk) => PutChunkInv(H, w, d, chunk);
    case PutCheck(d) => PutCheckInv(H, w, d);
    case PutRename(d) => PutRenameInv(H, w, d);
    case Begin(d, size) => BeginInv(H, w, d, size);
    case FillOpen(k, d) => FillOpenInv(H, w, k, d);
    case FillWrite(k, offset, chunk) => FillWriteInv(H, w, k, offset, chunk);
  }

  lemma {:induction false} HashStep(H: Data -> Digest, w: World, a: Action)
    requires Inv(H, w) && Careful(H, w, a) && Enabled(w, a) && (a.HashStart? || a.HashRead? || a.Seal?)
    ensures Inv(H, Step(H, w, a))
  {
    match a
    case HashStart(k, n) => HashStartInv(H, w, k, n);
    case HashRead(k, count) => HashReadInv(H, w, k, count);
    case Seal(k) => SealInv(H, w, k);
  }

  lemma {:induction false} PlaceStep(H: Data -> Digest, w: World, a: Action)
    requires Inv(H, w) && Enabled(w, a)
    requires a.PlaceLink? || a.PlaceCopy? || a.Remove? || a.Evict?
    ensures Inv(H, Step(H, w, a))
  {
    match a
    case PlaceLink(p) => PlaceLinkInv(H, w, p);
    case PlaceCopy(p) => PlaceCopyInv(H, w, p);
    case Remove(p) => UnlinkInv(H, w, Path(p));
    case Evict(d) => UnlinkInv(H, w, Blob(d));
  }

  lemma {:induction false} NameStep(H: Data -> Digest, w: World, a: Action)
    requires Inv(H, w) && Careful(H, w, a) && Enabled(w, a) && (a.BodyLink? || a.BodyRename?)
    ensures Inv(H, Step(H, w, a))
  {
    BodyLinkInv(H, w, a.p, a.q);
    UnlinkInv(H, w.(disk := w.disk.(names := w.disk.names[Path(a.q) := w.disk.names[Path(a.p)]])), Path(a.p));
  }

  lemma {:induction false} BodyStep(H: Data -> Digest, w: World, a: Action)
    requires Inv(H, w) && Careful(H, w, a) && Enabled(w, a)
    requires a.Want? || a.Enter? || a.CopyBeside? || a.CopyFails? || a.RenameCopy? || a.MarkOwn? || a.Unseen?
    ensures Inv(H, Step(H, w, a))
  {
    match a
    case Want(t, p) => ThreadOnly(H, w, a, t);
    case Enter(t) => ThreadOnly(H, w, a, t);
    case CopyBeside(t) => CopyBesideInv(H, w, t);
    case CopyFails(t) => ThreadOnly(H, w, a, t);
    case RenameCopy(t) => RenameCopyInv(H, w, t);
    case MarkOwn(t) => MarkOwnInv(H, w, t);
    case Unseen(t, p) => UnseenInv(H, w, t, p);
  }

  lemma {:induction false} WriteStep(H: Data -> Digest, w: World, a: Action)
    requires Inv(H, w) && Careful(H, w, a) && Enabled(w, a)
    requires a.Open? || a.Write? || a.Close?
    ensures Inv(H, Step(H, w, a))
  {
    match a
    case Open(t, h) => OpenInv(H, w, t, h);
    case Write(h, offset, chunk) => WriteInv(H, w, h, offset, chunk);
    case Close(h) => CloseInv(H, w, h);
  }

  lemma {:induction false} CollectStep(H: Data -> Digest, w: World, a: Action)
    requires Inv(H, w) && Careful(H, w, a) && Enabled(w, a)
    requires a.CollectMove? || a.CollectOpen?
    ensures Inv(H, Step(H, w, a))
  {
    match a
    case CollectMove(k) => CollectMoveInv(H, w, k);
    case CollectOpen(k, poll) => CollectOpenInv(H, w, k, poll);
  }

  lemma {:induction false} CopyStep(H: Data -> Digest, w: World, a: Action)
    requires Inv(H, w) && Enabled(w, a) && (a.CollectFill? || a.CollectRename?)
    ensures Inv(H, Step(H, w, a))
  {
    match a
    case CollectFill(k) => CollectFillInv(H, w, k);
    case CollectRename(k) => CollectRenameInv(H, w, k);
  }

  /** Writing to an inode that was never committed, and that no upload or collection relies on. */
  lemma {:induction false} ContentOnly(H: Data -> Digest, w: World, i: nat, bytes: Data)
    requires Inv(H, w) && i in w.disk.kind && !w.disk.kind[i].Committed?
    requires forall d | d in w.up.puts && Upload(d) in w.disk.names :: w.disk.names[Upload(d)] != i
    requires forall k | k in w.up.collecting :: w.up.collecting[k].to != i
    requires CopySource(w, i) ==> bytes == w.disk.content[i]
    ensures Inv(H, w.(disk := w.disk.(content := w.disk.content[i := bytes])))
  {
    var v := w.(disk := w.disk.(content := w.disk.content[i := bytes]));
    forall n | n in v.disk.names ensures NameFits(v, n) { assert NameFits(w, n); }
    forall t | t in v.run.threads ensures ThreadFits(v, v.run.threads[t]) { assert ThreadFits(w, w.run.threads[t]); }
    forall d | d in v.up.puts ensures PutFits(v, d) { assert PutFits(w, d); }
    forall k | k in v.up.collecting ensures CollectFits(H, v, k) { assert CollectFits(H, w, k); }
  }

  /** A collection's file beside the cache is an upload file, or went into the cache. */
  lemma {:induction false} BesideKind(H: Data -> Digest, w: World, k: nat)
    requires Inv(H, w) && k in w.up.collecting
    ensures var o := w.up.collecting[k];
            o.to in w.disk.kind && (w.disk.kind[o.to] == Committed(o.d) || w.disk.kind[o.to] == Uploading(o.d))
  {
    var o := w.up.collecting[k];
    assert CollectFits(H, w, k);
    if Upload(o.d) in w.disk.names { assert NameFits(w, Upload(o.d)); }
  }

  lemma {:induction false} BesideKinds(H: Data -> Digest, w: World)
    requires Inv(H, w)
    ensures forall k | k in w.up.collecting :: w.up.collecting[k].to in w.disk.kind
              && (w.disk.kind[w.up.collecting[k].to].Committed? || w.disk.kind[w.up.collecting[k].to].Uploading?)
  {
    forall k | k in w.up.collecting
      ensures w.up.collecting[k].to in w.disk.kind
              && (w.disk.kind[w.up.collecting[k].to].Committed? || w.disk.kind[w.up.collecting[k].to].Uploading?)
    {
      BesideKind(H, w, k);
    }
  }

  /** A ranged write, or a body's, reaches no upload file. */
  lemma {:induction false} WriteOnly(H: Data -> Digest, w: World, i: nat, bytes: Data)
    requires Inv(H, w) && i in w.disk.kind && (w.disk.kind[i].Filling? || w.disk.kind[i].Body?)
    requires CopySource(w, i) ==> bytes == w.disk.content[i]
    ensures Inv(H, w.(disk := w.disk.(content := w.disk.content[i := bytes])))
  {
    forall e | Upload(e) in w.disk.names ensures w.disk.names[Upload(e)] != i { assert NameFits(w, Upload(e)); }
    BesideKinds(H, w);
    ContentOnly(H, w, i, bytes);
  }

  lemma {:induction false} UnlinkInv(H: Data -> Digest, w: World, n: Name)
    requires Inv(H, w) && !n.Upload?
    ensures Inv(H, Unlink(w, n))
  {
    var v := Unlink(w, n);
    forall m | m in v.disk.names ensures NameFits(v, m) { assert NameFits(w, m); }
    forall t | t in v.run.threads ensures ThreadFits(v, v.run.threads[t]) { assert ThreadFits(w, w.run.threads[t]); }
    forall d | d in v.up.puts ensures PutFits(v, d) { assert PutFits(w, d); }
    forall k | k in v.up.collecting ensures CollectFits(H, v, k) { assert CollectFits(H, w, k); }
  }

  lemma {:induction false} ThreadsOnly(H: Data -> Digest, w: World, threads: map<nat, Thread>)
    requires Inv(H, w) && OneConverter(threads) && forall t | t in threads :: ThreadFits(w.(run := w.run.(threads := threads)), threads[t])
    ensures Inv(H, w.(run := w.run.(threads := threads)))
  {
    var v := w.(run := w.run.(threads := threads));
    forall m | m in v.disk.names ensures NameFits(v, m) { assert NameFits(w, m); }
    forall d | d in v.up.puts ensures PutFits(v, d) { assert PutFits(w, d); }
    forall k | k in v.up.collecting ensures CollectFits(H, v, k) { assert CollectFits(H, w, k); }
  }

  /** One thread goes on to `to`; only one that begins to convert needs the path to itself. */
  lemma {:induction false} ThreadTo(H: Data -> Digest, w: World, t: nat, to: Thread)
    requires Inv(H, w) && ThreadFits(w, to)
    requires Converts(to) ==> (t in w.run.threads && Converts(w.run.threads[t]) && w.run.threads[t].p == to.p) || !Converting(w, to.p)
    ensures Inv(H, w.(run := w.run.(threads := w.run.threads[t := to])))
  {
    var threads := w.run.threads[t := to];
    forall u | u in threads ensures ThreadFits(w.(run := w.run.(threads := threads)), threads[u]) {
      if u != t { assert ThreadFits(w, w.run.threads[u]); }
    }
    ThreadsOnly(H, w, threads);
  }

  lemma {:induction false} ThreadOnly(H: Data -> Digest, w: World, a: Action, t: nat)
    requires Inv(H, w) && Enabled(w, a) && Careful(H, w, a)
    requires a == CopyFails(t) || a == Enter(t) || (a.Want? && a.t == t)
    ensures Inv(H, Step(H, w, a))
  {
    if t in w.run.threads { assert ThreadFits(w, w.run.threads[t]); }
    match a
    case Want(_, p) => ThreadTo(H, w, t, Wants(p));
    case CopyFails(_) => ThreadTo(H, w, t, Ready(w.run.threads[t].p));
    case Enter(_) =>
      var p := w.run.threads[t].p;
      if Path(p) in w.disk.names { assert NameFits(w, Path(p)); }
      ThreadTo(H, w, t, if p in w.run.places && w.run.places[p].Linked? then Copying(p) else Ready(p));
  }

  lemma {:induction false} UnseenInv(H: Data -> Digest, w: World, t: nat, p: PathName)
    requires Inv(H, w) && t !in w.run.threads && Private(w, p)
    ensures Inv(H, AfterUnseen(w, t, p))
  {
    var u := w.(run := w.run.(places := if IsPending(w, p) then w.run.places - {p} else w.run.places));
    forall m | m in u.disk.names ensures NameFits(u, m) { assert NameFits(w, m); }
    forall d | d in u.up.puts ensures PutFits(u, d) { assert PutFits(w, d); }
    forall k | k in u.up.collecting ensures CollectFits(H, u, k) { assert CollectFits(H, w, k); }
    forall x | x in u.run.threads ensures ThreadFits(u, u.run.threads[x]) { assert ThreadFits(w, w.run.threads[x]); }
    ThreadTo(H, u, t, Ready(p));
  }

  lemma {:induction false} PlaceOnly(H: Data -> Digest, w: World, a: Action, p: PathName)
    requires Inv(H, w) && Enabled(w, a) && (a == PlaceMark(p) || (a.Register? && a.p == p))
    ensures Inv(H, Step(H, w, a))
  {
    var v := Step(H, w, a);
    forall m | m in v.disk.names ensures NameFits(v, m) { assert NameFits(w, m); }
    forall d | d in v.up.puts ensures PutFits(v, d) { assert PutFits(w, d); }
    forall k | k in v.up.collecting ensures CollectFits(H, v, k) { assert CollectFits(H, w, k); }
    forall u | u in v.run.threads ensures ThreadFits(v, v.run.threads[u]) { assert ThreadFits(w, w.run.threads[u]); }
  }

  function KindFor(n: Name): Kind {
    match n
    case Blob(d) => Committed(d)
    case Upload(d) => Uploading(d)
    case Parallel(d) => Filling(d)
    case Copy(_) => Body
    case Path(_) => Body
  }

  /** The next inode number is referred to by nothing. */
  lemma {:induction false} UnusedInode(H: Data -> Digest, w: World)
    requires Inv(H, w)
    ensures w.disk.unused !in w.disk.kind
    ensures forall m | m in w.disk.names :: w.disk.names[m] != w.disk.unused
    ensures forall h | h in w.run.handles :: w.run.handles[h] != w.disk.unused
    ensures forall k | k in w.up.collecting :: w.up.collecting[k].from != w.disk.unused
  {
    assert w.disk.unused !in w.disk.kind;
    forall m | m in w.disk.names ensures w.disk.names[m] != w.disk.unused { assert NameFits(w, m); }
  }

  lemma {:induction false} NewFileName(w: World, n: Name, bytes: Data, m: Name)
    requires n !in w.disk.names && !n.Blob? && w.disk.unused !in w.disk.kind
    requires forall x | x in w.disk.names :: w.disk.names[x] != w.disk.unused
    requires forall h | h in w.run.handles :: w.run.handles[h] != w.disk.unused
    requires forall k | k in w.up.collecting :: w.up.collecting[k].from != w.disk.unused
    requires m == n || (m in w.disk.names && NameFits(w, m))
    ensures NameFits(Create(w, n, KindFor(n), bytes), m)
  {
  }

  lemma {:induction false} NewFileBeside(H: Data -> Digest, w: World, n: Name, bytes: Data, k: nat)
    requires Inv(H, w) && n !in w.disk.names && (n.Upload? ==> !Collecting(w, n.d)) && k in w.up.collecting
    ensures CollectFits(H, Create(w, n, KindFor(n), bytes), k)
  {
    assert CollectFits(H, w, k);
  }

  /** A new file gets an inode nothing refers to. */
  lemma {:induction false} NewFile(H: Data -> Digest, w: World, n: Name, bytes: Data)
    requires Inv(H, w) && n !in w.disk.names && !n.Blob? && (n.Upload? ==> !Collecting(w, n.d))
    ensures Inv(H, Create(w, n, KindFor(n), bytes)) && Inode(w, n) == w.disk.unused
  {
    var v := Create(w, n, KindFor(n), bytes);
    UnusedInode(H, w);
    forall m | m in v.disk.names ensures NameFits(v, m) { NewFileName(w, n, bytes, m); }
    forall t | t in v.run.threads ensures ThreadFits(v, v.run.threads[t]) { assert ThreadFits(w, w.run.threads[t]); }
    forall d | d in v.up.puts ensures PutFits(v, d) { assert PutFits(w, d); }
    forall k | k in v.up.collecting ensures CollectFits(H, v, k) { NewFileBeside(H, w, n, bytes, k); }
  }

  /** Two upload names never share an inode. */
  lemma {:induction false} UploadsApart(H: Data -> Digest, w: World, d: Digest, n: Name)
    requires Inv(H, w) && Upload(d) in w.disk.names && n in w.disk.names && n != Upload(d)
    ensures w.disk.names[n] != w.disk.names[Upload(d)]
  {
    assert NameFits(w, Upload(d)) && NameFits(w, n);
  }

  lemma {:induction false} PutsOnly(H: Data -> Digest, w: World, puts: map<Digest, Put>)
    requires Inv(H, w) && Checked(H, w.(up := w.up.(puts := puts))) && forall d | d in puts :: PutFits(w.(up := w.up.(puts := puts)), d)
    ensures Inv(H, w.(up := w.up.(puts := puts)))
  {
    var v := w.(up := w.up.(puts := puts));
    forall m | m in v.disk.names ensures NameFits(v, m) { assert NameFits(w, m); }
    forall t | t in v.run.threads ensures ThreadFits(v, v.run.threads[t]) { assert ThreadFits(w, w.run.threads[t]); }
    forall k | k in v.up.collecting ensures CollectFits(H, v, k) { assert CollectFits(H, w, k); }
  }

  /** Hashes and collections change together. */
  lemma {:induction false} CollectOnly(H: Data -> Digest, w: World, hashes: map<nat, Hash>, c: map<nat, Out>)
    requires Inv(H, w) && OpenFits(w.(up := w.up.(collecting := c)))
    requires forall k | k in c :: CollectFits(H, w.(up := w.up.(hashes := hashes, collecting := c)), k)
    requires forall d | d in w.up.puts :: !Collecting(w.(up := w.up.(collecting := c)), d)
    requires forall k, p | k in c && Copy(p) in w.disk.names :: c[k].from != w.disk.names[Copy(p)]
    ensures Inv(H, w.(up := w.up.(hashes := hashes, collecting := c)))
  {
    var v := w.(up := w.up.(hashes := hashes, collecting := c));
    forall m | m in v.disk.names ensures NameFits(v, m) { assert NameFits(w, m); }
    forall t | t in v.run.threads ensures ThreadFits(v, v.run.threads[t]) { assert ThreadFits(w, w.run.threads[t]); }
    forall d | d in v.up.puts ensures PutFits(v, d) { assert PutFits(w, d) && !Collecting(w.(up := w.up.(collecting := c)), d); }
  }

  lemma {:induction false} CopiesUncollected(H: Data -> Digest, w: World)
    requires Inv(H, w)
    ensures forall k, p | k in w.up.collecting && Copy(p) in w.disk.names :: w.up.collecting[k].from != w.disk.names[Copy(p)]
  {
    forall k, p | k in w.up.collecting && Copy(p) in w.disk.names ensures w.up.collecting[k].from != w.disk.names[Copy(p)] {
      assert NameFits(w, Copy(p));
    }
  }

  /** Hashes change that no collection uses any more. */
  lemma {:induction false} HashesOnly(H: Data -> Digest, w: World, hashes: map<nat, Hash>)
    requires Inv(H, w)
    requires forall k | k in w.up.collecting && k in w.up.hashes && w.up.hashes[k].done :: k in hashes && hashes[k] == w.up.hashes[k]
    ensures Inv(H, w.(up := w.up.(hashes := hashes)))
  {
    CopiesUncollected(H, w);
    forall j | j in w.up.collecting ensures CollectFits(H, w.(up := w.up.(hashes := hashes)), j) {
      assert CollectFits(H, w, j);
      forall x | x in w.up.collecting && w.up.collecting[x].d == w.up.collecting[j].d && !w.up.collecting[x].filled
        ensures !w.up.collecting[j].filled ==> x in hashes && hashes[x] == w.up.hashes[x]
      {
        assert CollectFits(H, w, x);
      }
    }
    forall d | d in w.up.puts ensures !Collecting(w, d) { assert PutFits(w, d); }
    CollectOnly(H, w, hashes, w.up.collecting);
  }

  /** Forgetting an upload. */
  lemma {:induction false} DropPut(H: Data -> Digest, w: World, d: Digest)
    requires Inv(H, w)
    ensures Inv(H, w.(up := w.up.(puts := w.up.puts - {d})))
  {
    var puts := w.up.puts - {d};
    forall e | e in puts ensures PutFits(w.(up := w.up.(puts := puts)), e) { assert PutFits(w, e); }
    PutsOnly(H, w, puts);
  }

  /** Entering an upload whose file holds exactly what was hashed. */
  lemma {:induction false} AddPut(H: Data -> Digest, w: World, d: Digest, hashed: Data, checked: bool)
    requires Inv(H, w) && Upload(d) in w.disk.names && w.disk.names[Upload(d)] in w.disk.content
    requires w.disk.content[w.disk.names[Upload(d)]] == hashed && !Collecting(w, d) && (checked ==> H(hashed) == d)
    ensures Inv(H, w.(up := w.up.(puts := w.up.puts[d := Put(w.disk.names[Upload(d)], hashed, checked)])))
  {
    var puts := w.up.puts[d := Put(w.disk.names[Upload(d)], hashed, checked)];
    forall e | e in puts ensures PutFits(w.(up := w.up.(puts := puts)), e) {
      if e != d { assert PutFits(w, e); }
      assert Collecting(w.(up := w.up.(puts := puts)), e) ==> Collecting(w, e);
    }
    PutsOnly(H, w, puts);
  }

  /** Writing an upload file that no upload and no collection relies on. */
  lemma {:induction false} FillUpload(H: Data -> Digest, w: World, d: Digest, bytes: Data)
    requires Inv(H, w) && d !in w.up.puts && !Collecting(w, d)
    ensures Inv(H, Create(w, Upload(d), Uploading(d), bytes))
  {
    if Upload(d) in w.disk.names {
      assert NameFits(w, Upload(d));
      forall e | e in w.up.puts && Upload(e) in w.disk.names ensures w.disk.names[Upload(e)] != w.disk.names[Upload(d)] {
        UploadsApart(H, w, d, Upload(e));
      }
      forall k | k in w.up.collecting ensures w.up.collecting[k].to != w.disk.names[Upload(d)] { BesideKind(H, w, k); }
      ContentOnly(H, w, w.disk.names[Upload(d)], bytes);
    } else {
      NewFile(H, w, Upload(d), bytes);
    }
  }

  lemma {:induction false} PutStartSteps(w: World, d: Digest)
    ensures var v := Create(w.(up := w.up.(puts := w.up.puts - {d})), Upload(d), Uploading(d), []);
            AfterPutStart(w, d) == v.(up := v.up.(puts := v.up.puts[d := Put(v.disk.names[Upload(d)], [], false)]))
  {
    var put := Put(Inode(w, Upload(d)), [], false);
    assert (w.up.puts - {d})[d := put] == w.up.puts[d := put];
  }

  lemma {:induction false} PutStartInv(H: Data -> Digest, w: World, d: Digest)
    requires Inv(H, w) && !Collecting(w, d)
    ensures Inv(H, AfterPutStart(w, d)) && !Collecting(AfterPutStart(w, d), d)
  {
    var u := w.(up := w.up.(puts := w.up.puts - {d}));
    DropPut(H, w, d);
    assert !Collecting(u, d);
    FillUpload(H, u, d, []);
    var v := Create(u, Upload(d), Uploading(d), []);
    assert !Collecting(v, d);
    AddPut(H, v, d, [], false);
    PutStartSteps(w, d);
  }

  lemma {:induction false} OverwriteEnd(bytes: Data, chunk: Data)
    ensures Overwrite(bytes, |bytes|, chunk) == bytes + chunk
  {
  }

  lemma {:induction false} PutChunkInv(H: Data -> Digest, w: World, d: Digest, chunk: Data)
    requires Inv(H, w) && d in w.up.puts
    ensures Inv(H, AfterPutChunk(w, d, chunk))
  {
    var put := w.up.puts[d];
    assert PutFits(w, d) && NameFits(w, Upload(d));
    OverwriteEnd(put.hashed, chunk);
    var u := w.(up := w.up.(puts := w.up.puts - {d}));
    DropPut(H, w, d);
    assert !Collecting(u, d);
    FillUpload(H, u, d, put.hashed + chunk);
    var v := Create(u, Upload(d), Uploading(d), put.hashed + chunk);
    assert !Collecting(v, d);
    AddPut(H, v, d, put.hashed + chunk, false);
    assert AfterPutChunk(w, d, chunk) == v.(up := v.up.(puts := v.up.puts[d := Put(put.inode, put.hashed + chunk, false)])) by {
      var next := Put(put.inode, put.hashed + chunk, false);
      assert u.up.puts[d := next] == w.up.puts[d := next];
    }
  }

  /** An upload name whose digest no upload and no collection relies on can go. */
  lemma {:induction false} UnlinkUpload(H: Data -> Digest, w: World, d: Digest)
    requires Inv(H, w) && d !in w.up.puts && !Collecting(w, d)
    ensures Inv(H, Unlink(w, Upload(d)))
  {
    var v := Unlink(w, Upload(d));
    forall m | m in v.disk.names ensures NameFits(v, m) { assert NameFits(w, m); }
    forall t | t in v.run.threads ensures ThreadFits(v, v.run.threads[t]) { assert ThreadFits(w, w.run.threads[t]); }
    forall e | e in v.up.puts ensures PutFits(v, e) { assert PutFits(w, e); }
    forall k | k in v.up.collecting ensures CollectFits(H, v, k) { assert CollectFits(H, w, k); }
  }

  /** Nobody has the file at `n` open for writing, and its other names are harmless. */
  ghost predicate Sole(w: World, n: Name, d: Digest)
    requires n in w.disk.names
  {
    && OnlyShielded(w, n, d)
    && (forall h | h in w.run.handles :: w.run.handles[h] != w.disk.names[n])
    && (forall k | k in w.up.fills :: w.up.fills[k] != w.disk.names[n])
  }

  /** A file nobody can write any more, that no upload relies on and no collection has still to fill. */
  ghost predicate Commits(w: World, n: Name, d: Digest) {
    && n in w.disk.names && !n.Blob? && !n.Copy? && Sole(w, n, d) && w.disk.names[n] in w.disk.content
    && (n.Upload? ==> n.d == d && d !in w.up.puts && (Collecting(w, d) ==> CopiedBeside(w, d)))
  }

  lemma {:induction false} CommitNames(H: Data -> Digest, w: World, n: Name, d: Digest)
    requires Inv(H, w) && Commits(w, n, d)
    ensures var v := Commit(w, n, d); forall m | m in v.disk.names :: NameFits(v, m)
  {
    var v := Commit(w, n, d);
    forall m | m in v.disk.names ensures NameFits(v, m) {
      if m != Blob(d) { assert NameFits(w, m); }
    }
  }

  lemma {:induction false} CommitThreads(H: Data -> Digest, w: World, n: Name, d: Digest)
    requires Inv(H, w) && Commits(w, n, d)
    ensures var v := Commit(w, n, d); forall t | t in v.run.threads :: ThreadFits(v, v.run.threads[t])
  {
    var v := Commit(w, n, d);
    forall t | t in v.run.threads ensures ThreadFits(v, v.run.threads[t]) {
      assert ThreadFits(w, w.run.threads[t]);
      if Path(w.run.threads[t].p) in w.disk.names { assert NameFits(w, Path(w.run.threads[t].p)); }
    }
  }

  /** Committing it with the digest its bytes have. */
  lemma {:induction false} CommitInv(H: Data -> Digest, w: World, n: Name, d: Digest)
    requires Inv(H, w) && Commits(w, n, d) && H(w.disk.content[w.disk.names[n]]) == d
    ensures Inv(H, Commit(w, n, d))
  {
    var v := Commit(w, n, d);
    CommitNames(H, w, n, d);
    CommitThreads(H, w, n, d);
    forall e | e in v.up.puts ensures PutFits(v, e) { assert PutFits(w, e); }
    forall k | k in v.up.collecting ensures CollectFits(H, v, k) { CommitCollects(H, w, n, d, k); }
  }

  lemma {:induction false} CommitCollects(H: Data -> Digest, w: World, n: Name, d: Digest, k: nat)
    requires Inv(H, w) && Commits(w, n, d) && H(w.disk.content[w.disk.names[n]]) == d && k in w.up.collecting
    ensures CollectFits(H, Commit(w, n, d), k)
  {
    var v, o := Commit(w, n, d), w.up.collecting[k];
    assert CollectFits(H, w, k) && Collecting(w, o.d);
    BesideKind(H, w, k);
    assert NameFits(w, n);
    assert CopiedBeside(v, o.d) == CopiedBeside(w, o.d);
  }

  lemma {:induction false} SoleUpload(H: Data -> Digest, w: World, d: Digest)
    requires Inv(H, w) && Upload(d) in w.disk.names
    ensures Sole(w, Upload(d), d)
  {
    assert NameFits(w, Upload(d));
    forall m | m in w.disk.names && m != Upload(d) ensures w.disk.names[m] != w.disk.names[Upload(d)] { UploadsApart(H, w, d, m); }
  }

  lemma {:induction false} PutCheckInv(H: Data -> Digest, w: World, d: Digest)
    requires Inv(H, w) && d in w.up.puts
    ensures Inv(H, AfterPutCheck(H, w, d))
  {
    assert PutFits(w, d);
    var v := w.(up := w.up.(puts := w.up.puts - {d}));
    DropPut(H, w, d);
    assert !Collecting(v, d);
    if H(w.up.puts[d].hashed) != d {
      UnlinkUpload(H, v, d);
    } else {
      AddPut(H, v, d, w.up.puts[d].hashed, true);
      assert v.up.puts[d := w.up.puts[d].(checked := true)] == w.up.puts[d := w.up.puts[d].(checked := true)];
    }
  }

  lemma {:induction false} PutRenameInv(H: Data -> Digest, w: World, d: Digest)
    requires Inv(H, w) && d in w.up.puts && w.up.puts[d].checked
    ensures Inv(H, AfterPutRename(w, d))
  {
    assert PutFits(w, d);
    var v := w.(up := w.up.(puts := w.up.puts - {d}));
    DropPut(H, w, d);
    assert !Collecting(v, d);
    SoleUpload(H, v, d);
    CommitInv(H, v, Upload(d), d);
  }

  lemma {:induction false} BeginInv(H: Data -> Digest, w: World, d: Digest, size: nat)
    requires Inv(H, w)
    ensures Inv(H, AfterBegin(w, d, size))
  {
    var zeros: Data := seq(size, _ => 0);
    if Parallel(d) in w.disk.names {
      assert NameFits(w, Parallel(d));
      WriteOnly(H, w, w.disk.names[Parallel(d)], zeros);
    } else {
      NewFile(H, w, Parallel(d), zeros);
    }
  }

  lemma {:induction false} FillOpenInv(H: Data -> Digest, w: World, k: nat, d: Digest)
    requires Inv(H, w) && Parallel(d) in w.disk.names
    ensures Inv(H, w.(up := w.up.(fills := w.up.fills[k := w.disk.names[Parallel(d)]])))
  {
    assert NameFits(w, Parallel(d));
    HandlesOnly(H, w, w.run.handles, w.up.fills[k := w.disk.names[Parallel(d)]]);
  }

  lemma {:induction false} HandlesOnly(H: Data -> Digest, w: World, handles: map<nat, nat>, fills: map<nat, nat>)
    requires Inv(H, w) && OpenFits(w.(run := w.run.(handles := handles), up := w.up.(fills := fills)))
    requires forall p, h | Copy(p) in w.disk.names && h in handles :: handles[h] != w.disk.names[Copy(p)]
    ensures Inv(H, w.(run := w.run.(handles := handles), up := w.up.(fills := fills)))
  {
    var v := w.(run := w.run.(handles := handles), up := w.up.(fills := fills));
    forall m | m in v.disk.names ensures NameFits(v, m) { assert NameFits(w, m); }
    forall t | t in v.run.threads ensures ThreadFits(v, v.run.threads[t]) { assert ThreadFits(w, w.run.threads[t]); }
    forall d | d in v.up.puts ensures PutFits(v, d) { assert PutFits(w, d); }
    forall k | k in v.up.collecting ensures CollectFits(H, v, k) { assert CollectFits(H, w, k); }
  }

  lemma {:induction false} CopiesClosed(H: Data -> Digest, w: World)
    requires Inv(H, w)
    ensures forall p, h | Copy(p) in w.disk.names && h in w.run.handles :: w.run.handles[h] != w.disk.names[Copy(p)]
  {
    forall p, h | Copy(p) in w.disk.names && h in w.run.handles ensures w.run.handles[h] != w.disk.names[Copy(p)] {
      assert NameFits(w, Copy(p));
    }
  }

  lemma {:induction false} FillWriteInv(H: Data -> Digest, w: World, k: nat, offset: nat, chunk: Data)
    requires Inv(H, w) && k in w.up.fills
    ensures Inv(H, WriteAt(w, w.up.fills[k], offset, chunk).(up := w.up.(fills := w.up.fills - {k})))
  {
    var i := w.up.fills[k];
    WriteOnly(H, w, i, Overwrite(w.disk.content[i], offset, chunk));
    var v := WriteAt(w, i, offset, chunk);
    CopiesClosed(H, v);
    HandlesOnly(H, v, v.run.handles, v.up.fills - {k});
  }

  lemma {:induction false} HashStartInv(H: Data -> Digest, w: World, k: nat, n: Name)
    requires Inv(H, w) && Enabled(w, HashStart(k, n))
    ensures Inv(H, AfterHashStart(w, k, n))
  {
    HashesOnly(H, w, AfterHashStart(w, k, n).up.hashes);
  }

  lemma {:induction false} HashReadInv(H: Data -> Digest, w: World, k: nat, count: nat)
    requires Inv(H, w) && Enabled(w, HashRead(k, count))
    ensures Inv(H, AfterHashRead(w, k, count))
  {
    HashesOnly(H, w, AfterHashRead(w, k, count).up.hashes);
  }

  lemma {:induction false} DropHash(H: Data -> Digest, w: World, k: nat)
    requires Inv(H, w) && k !in w.up.collecting
    ensures Inv(H, w.(up := w.up.(hashes := w.up.hashes - {k})))
  {
    HashesOnly(H, w, w.up.hashes - {k});
  }

  lemma {:induction false} SealInv(H: Data -> Digest, w: World, k: nat)
    requires Inv(H, w) && Enabled(w, Seal(k)) && Careful(H, w, Seal(k))
    ensures Inv(H, AfterSeal(H, w, k))
  {
    var h := w.up.hashes[k];
    var v := w.(up := w.up.(hashes := w.up.hashes - {k}));
    DropHash(H, w, k);
    if h.n in w.disk.names {
      assert NameFits(w, h.n);
      UnlinkInv(H, v, h.n);
      if H(h.hashed) == h.n.d {
        forall m | m in w.disk.names && m != h.n ensures w.disk.names[m] != w.disk.names[h.n] { assert NameFits(w, m); }
        assert forall j | j in w.up.fills :: w.up.fills[j] in w.up.fills.Values;
        CommitInv(H, v, h.n, h.n.d);
      }
    }
  }

  lemma {:induction false} PlaceLinkInv(H: Data -> Digest, w: World, p: PathName)
    requires Inv(H, w) && IsPending(w, p) && Blob(w.run.places[p].d) in w.disk.names
    ensures Inv(H, AfterPlaceLink(w, p))
  {
    var v := AfterPlaceLink(w, p);
    assert NameFits(w, Blob(w.run.places[p].d));
    forall m | m in v.disk.names ensures NameFits(v, m) {
      if m != Path(p) { assert NameFits(w, m); }
    }
    forall t | t in v.run.threads ensures ThreadFits(v, v.run.threads[t]) { assert ThreadFits(w, w.run.threads[t]); }
    forall d | d in v.up.puts ensures PutFits(v, d) { assert PutFits(w, d); }
    forall k | k in v.up.collecting ensures CollectFits(H, v, k) { assert CollectFits(H, w, k); }
  }

  /** A second name for a file of the call's own, or a shielded one for any file. */
  lemma {:induction false} BodyLinkInv(H: Data -> Digest, w: World, p: PathName, q: PathName)
    requires Inv(H, w) && Path(p) in w.disk.names && (Private(w, p) || Shielded(w, q))
    ensures Inv(H, w.(disk := w.disk.(names := w.disk.names[Path(q) := w.disk.names[Path(p)]])))
  {
    var v := w.(disk := w.disk.(names := w.disk.names[Path(q) := w.disk.names[Path(p)]]));
    assert NameFits(w, Path(p));
    forall m | m in v.disk.names ensures NameFits(v, m) {
      if m != Path(q) { assert NameFits(w, m); }
    }
    forall t | t in v.run.threads ensures ThreadFits(v, v.run.threads[t]) { assert ThreadFits(w, w.run.threads[t]); }
    forall d | d in v.up.puts ensures PutFits(v, d) { assert PutFits(w, d); }
    forall k | k in v.up.collecting ensures CollectFits(H, v, k) { assert CollectFits(H, w, k); }
  }

  lemma {:induction false} PlaceCopyInv(H: Data -> Digest, w: World, p: PathName)
    requires Inv(H, w) && IsPending(w, p) && Blob(w.run.places[p].d) in w.disk.names && w.disk.names[Blob(w.run.places[p].d)] in w.disk.content
    ensures Inv(H, AfterPlaceCopy(w, p))
  {
    var bytes := w.disk.content[w.disk.names[Blob(w.run.places[p].d)]];
    var u := Unlink(w, Path(p));
    UnlinkInv(H, w, Path(p));
    NewFile(H, u, Path(p), bytes);
    var x := Create(u, Path(p), Body, bytes);
    var v := AfterPlaceCopy(w, p);
    assert v == x.(run := x.run.(places := x.run.places[p := Pending(w.run.places[p].d, ByCopy)]));
    forall m | m in v.disk.names ensures NameFits(v, m) { assert NameFits(x, m); }
    forall t | t in v.run.threads ensures ThreadFits(v, v.run.threads[t]) { assert ThreadFits(x, x.run.threads[t]); }
    forall d | d in v.up.puts ensures PutFits(v, d) { assert PutFits(x, d); }
    forall k | k in v.up.collecting ensures CollectFits(H, v, k) { assert CollectFits(H, x, k); }
  }

  lemma {:induction false} CopyBesideInv(H: Data -> Digest, w: World, t: nat)
    requires Inv(H, w) && t in w.run.threads && w.run.threads[t].Copying? && Path(w.run.threads[t].p) in w.disk.names
             && w.disk.names[Path(w.run.threads[t].p)] in w.disk.content
    ensures Inv(H, AfterCopyBeside(w, t))
  {
    var p := w.run.threads[t].p;
    var bytes := w.disk.content[w.disk.names[Path(p)]];
    assert ThreadFits(w, w.run.threads[t]);
    if Copy(p) in w.disk.names {
      assert NameFits(w, Copy(p));
      WriteOnly(H, w, w.disk.names[Copy(p)], bytes);
    } else {
      NewFile(H, w, Copy(p), bytes);
    }
    ThreadTo(H, Create(w, Copy(p), Body, bytes), t, Copied(p));
  }

  lemma {:induction false} RenameCopyInv(H: Data -> Digest, w: World, t: nat)
    requires Inv(H, w) && t in w.run.threads && w.run.threads[t].Copied? && Copy(w.run.threads[t].p) in w.disk.names
    ensures Inv(H, AfterRenameCopy(w, t))
  {
    var p := w.run.threads[t].p;
    var i := w.disk.names[Copy(p)];
    assert NameFits(w, Copy(p)) && ThreadFits(w, w.run.threads[t]);
    var v := AfterRenameCopy(w, t);
    forall m | m in v.disk.names ensures NameFits(v, m) {
      if m != Path(p) { assert NameFits(w, m); }
    }
    forall u | u in v.run.threads ensures ThreadFits(v, v.run.threads[u]) {
      assert ThreadFits(w, w.run.threads[u]);
    }
    forall d | d in v.up.puts ensures PutFits(v, d) { assert PutFits(w, d); }
    forall k | k in v.up.collecting ensures CollectFits(H, v, k) { assert CollectFits(H, w, k); }
  }

  lemma {:induction false} MarkOwnInv(H: Data -> Digest, w: World, t: nat)
    requires Inv(H, w) && t in w.run.threads && w.run.threads[t].Renamed? && w.run.threads[t].p in w.run.places
    ensures Inv(H, AfterMarkOwn(w, t))
  {
    var p := w.run.threads[t].p;
    assert ThreadFits(w, w.run.threads[t]);
    var v := AfterMarkOwn(w, t);
    forall m | m in v.disk.names ensures NameFits(v, m) { assert NameFits(w, m); }
    forall u | u in v.run.threads ensures ThreadFits(v, v.run.threads[u]) { assert ThreadFits(w, w.run.threads[u]); }
    forall d | d in v.up.puts ensures PutFits(v, d) { assert PutFits(w, d); }
    forall k | k in v.up.collecting ensures CollectFits(H, v, k) { assert CollectFits(H, w, k); }
  }

  /** Opening a file of the call's own for writing. */
  lemma {:induction false} AddHandle(H: Data -> Digest, w: World, p: PathName, h: nat)
    requires Inv(H, w) && Path(p) in w.disk.names && Private(w, p)
    ensures Inv(H, w.(run := w.run.(handles := w.run.handles[h := w.disk.names[Path(p)]])))
  {
    var i := w.disk.names[Path(p)];
    CopiesClosed(H, w);
    forall q | Copy(q) in w.disk.names ensures w.disk.names[Copy(q)] != i { assert NameFits(w, Copy(q)); }
    HandlesOnly(H, w, w.run.handles[h := i], w.up.fills);
  }

  lemma {:induction false} DropThread(H: Data -> Digest, w: World, t: nat)
    requires Inv(H, w)
    ensures Inv(H, w.(run := w.run.(threads := w.run.threads - {t})))
  {
    var threads := w.run.threads - {t};
    forall u | u in threads ensures ThreadFits(w.(run := w.run.(threads := threads)), threads[u]) {
      assert ThreadFits(w, w.run.threads[u]);
    }
    ThreadsOnly(H, w, threads);
  }

  lemma {:induction false} OpenInv(H: Data -> Digest, w: World, t: nat, h: nat)
    requires Inv(H, w) && t in w.run.threads && w.run.threads[t].Ready?
    ensures Inv(H, AfterOpen(w, t, h))
  {
    var p := w.run.threads[t].p;
    assert ThreadFits(w, w.run.threads[t]);
    if Path(p) !in w.disk.names { NewFile(H, w, Path(p), []); }
    var v := if Path(p) in w.disk.names then w else Create(w, Path(p), Body, []);
    AddHandle(H, v, p, h);
    DropThread(H, v.(run := v.run.(handles := v.run.handles[h := v.disk.names[Path(p)]])), t);
  }

  lemma {:induction false} WriteInv(H: Data -> Digest, w: World, h: nat, offset: nat, chunk: Data)
    requires Inv(H, w) && h in w.run.handles && Careful(H, w, Write(h, offset, chunk))
    ensures Inv(H, WriteAt(w, w.run.handles[h], offset, chunk))
  {
    WriteOnly(H, w, w.run.handles[h], Overwrite(w.disk.content[w.run.handles[h]], offset, chunk));
  }

  lemma {:induction false} CloseInv(H: Data -> Digest, w: World, h: nat)
    requires Inv(H, w) && h in w.run.handles
    ensures Inv(H, w.(run := w.run.(handles := w.run.handles - {h})))
  {
    CopiesClosed(H, w);
    HandlesOnly(H, w, w.run.handles - {h}, w.up.fills);
  }

  lemma {:induction false} CollectMoveInv(H: Data -> Digest, w: World, k: nat)
    requires Inv(H, w) && Enabled(w, CollectMove(k)) && Careful(H, w, CollectMove(k))
    ensures Inv(H, AfterCollectMove(H, w, k))
  {
    var h := w.up.hashes[k];
    var v := w.(up := w.up.(hashes := w.up.hashes - {k}));
    DropHash(H, w, k);
    if Stores(H, w, h, false) {
      assert NameFits(w, h.n);
      assert forall j | j in w.run.handles :: w.run.handles[j] in w.run.handles.Values;
      CommitInv(H, v, h.n, H(h.hashed));
    }
  }

  lemma {:induction false} CollectOpenInv(H: Data -> Digest, w: World, k: nat, poll: bool)
    requires Inv(H, w) && Enabled(w, CollectOpen(k, poll)) && Careful(H, w, CollectOpen(k, poll))
    ensures Inv(H, AfterCollectOpen(H, w, k, poll))
  {
    var h := w.up.hashes[k];
    if Stores(H, w, h, poll) {
      OpensBeside(H, w, k, w.disk.names[h.n]);
    } else {
      DropHash(H, w, k);
    }
  }

  lemma {:induction false} OpensBeside(H: Data -> Digest, w: World, k: nat, from: nat)
    requires Inv(H, w) && k in w.up.hashes && w.up.hashes[k].done && k !in w.up.collecting
    requires w.up.hashes[k].n.Path? && w.up.hashes[k].n in w.disk.names && w.disk.names[w.up.hashes[k].n] == from
    requires Joins(w, H(w.up.hashes[k].hashed), w.up.hashes[k].hashed)
    requires from in w.disk.content && w.disk.content[from] == w.up.hashes[k].hashed
    ensures var d := H(w.up.hashes[k].hashed);
            Inv(H, Create(w, Upload(d), Uploading(d), [])
                     .(up := w.up.(collecting := w.up.collecting[k := Out(d, from, Inode(w, Upload(d)), false)])))
  {
    var h := w.up.hashes[k];
    var d := H(h.hashed);
    assert NameFits(w, h.n);
    CreateHolds(w, Upload(d), Uploading(d), []);
    OpenedBeside(H, w, d, h.hashed);
    var v := Create(w, Upload(d), Uploading(d), []);
    forall p | Copy(p) in v.disk.names ensures v.disk.names[Copy(p)] != from { assert NameFits(w, Copy(p)); }
    AddCollect(H, v, k, d, from);
  }

  /** The file beside the cache is opened: another that copies the same bytes has it empty as well. */
  lemma {:induction false} OpenedBeside(H: Data -> Digest, w: World, d: Digest, bytes: Data)
    requires Inv(H, w) && Joins(w, d, bytes)
    ensures Inv(H, Create(w, Upload(d), Uploading(d), []))
    ensures forall i | i in w.disk.kind && !w.disk.kind[i].Uploading? ::
              i in Create(w, Upload(d), Uploading(d), []).disk.content
              && Create(w, Upload(d), Uploading(d), []).disk.content[i] == w.disk.content[i]
  {
    if Upload(d) in w.disk.names { assert NameFits(w, Upload(d)); }
    if Collecting(w, d) {
      var j :| j in w.up.collecting && w.up.collecting[j].d == d;
      assert CollectFits(H, w, j);
      assert !CopiedBeside(w, d);
      assert w.disk.content[w.disk.names[Upload(d)] := []] == w.disk.content;
    } else {
      FillUpload(H, w, d, []);
    }
  }

  lemma {:induction false} CreateHolds(w: World, n: Name, k: Kind, bytes: Data)
    ensures var v := Create(w, n, k, bytes);
            n in v.disk.names && v.disk.names[n] == Inode(w, n) && Inode(w, n) in v.disk.content && v.disk.content[Inode(w, n)] == bytes
  {
  }

  lemma {:induction false} SameBeside(w: World, v: World, e: Digest)
    requires Upload(e) in w.disk.names <==> Upload(e) in v.disk.names
    requires forall x | x in w.up.collecting && w.up.collecting[x].d == e :: x in v.up.collecting && v.up.collecting[x] == w.up.collecting[x]
    requires forall x | x in v.up.collecting && v.up.collecting[x].d == e :: x in w.up.collecting && w.up.collecting[x] == v.up.collecting[x]
    ensures CopiedBeside(v, e) == CopiedBeside(w, e)
  {
    if x :| x in w.up.collecting && w.up.collecting[x].d == e && w.up.collecting[x].filled {
      assert x in v.up.collecting;
    }
    if x :| x in v.up.collecting && v.up.collecting[x].d == e && v.up.collecting[x].filled {
      assert x in w.up.collecting && w.up.collecting[x] == v.up.collecting[x];
    }
  }

  /** A collection takes the empty file beside the cache, to copy this one there. */
  lemma {:induction false} AddCollect(H: Data -> Digest, w: World, k: nat, d: Digest, from: nat)
    requires Inv(H, w) && k in w.up.hashes && w.up.hashes[k].done && H(w.up.hashes[k].hashed) == d
    requires Joins(w, d, w.up.hashes[k].hashed) && k !in w.up.collecting
    requires from in w.disk.kind && (w.disk.kind[from].Body? || w.disk.kind[from].Committed?)
    requires from in w.disk.content && w.disk.content[from] == w.up.hashes[k].hashed
    requires forall p | Copy(p) in w.disk.names :: w.disk.names[Copy(p)] != from
    requires Upload(d) in w.disk.names && w.disk.names[Upload(d)] in w.disk.content && w.disk.content[w.disk.names[Upload(d)]] == []
    ensures Inv(H, w.(up := w.up.(collecting := w.up.collecting[k := Out(d, from, w.disk.names[Upload(d)], false)])))
  {
    var c := w.up.collecting[k := Out(d, from, w.disk.names[Upload(d)], false)];
    var v := w.(up := w.up.(collecting := c));
    CopiesUncollected(H, w);
    assert NameFits(w, Upload(d));
    forall j | j in c ensures CollectFits(H, v, j) {
      if j != k { AddedBeside(H, w, k, c[k], j); }
    }
    forall e | e in w.up.puts ensures !Collecting(v, e) { assert PutFits(w, e); }
    CollectOnly(H, w, w.up.hashes, c);
  }

  lemma {:induction false} AddedBeside(H: Data -> Digest, w: World, k: nat, o: Out, j: nat)
    requires Inv(H, w) && k in w.up.hashes && k !in w.up.collecting && !o.filled && Joins(w, o.d, w.up.hashes[k].hashed)
    requires j in w.up.collecting
    ensures CollectFits(H, w.(up := w.up.(collecting := w.up.collecting[k := o])), j)
  {
    var v := w.(up := w.up.(collecting := w.up.collecting[k := o]));
    var e := w.up.collecting[j].d;
    assert CollectFits(H, w, j);
    if e != o.d { SameBeside(w, v, e); }
  }

  lemma {:induction false} CollectFillInv(H: Data -> Digest, w: World, k: nat)
    requires Inv(H, w) && k in w.up.collecting && !w.up.collecting[k].filled
    ensures Inv(H, AfterCollectFill(w, k))
  {
    var v := AfterCollectFill(w, k);
    FilledBeside(H, w, k);
    BesideKind(H, w, k);
    forall n | n in v.disk.names ensures NameFits(v, n) { assert NameFits(w, n); }
    forall t | t in v.run.threads ensures ThreadFits(v, v.run.threads[t]) { assert ThreadFits(w, w.run.threads[t]); }
    forall d | d in v.up.puts ensures PutFits(v, d) { FillsNoPut(H, w, k, d); }
    forall j | j in v.up.collecting ensures CollectFits(H, v, j) {
      if w.up.collecting[j].d == w.up.collecting[k].d { FillsOwn(H, w, k, j); } else { FillsOther(H, w, k, j); }
    }
  }

  /** The copy has the bytes that were hashed, whether or not another made it before. */
  lemma {:induction false} FilledBeside(H: Data -> Digest, w: World, k: nat)
    requires Inv(H, w) && k in w.up.collecting && !w.up.collecting[k].filled
    ensures var o := w.up.collecting[k]; var v := AfterCollectFill(w, k);
            && k in w.up.hashes && o.to in w.disk.content && v.disk.content == w.disk.content[o.to := w.up.hashes[k].hashed]
            && H(w.up.hashes[k].hashed) == o.d
            && (CopiedBeside(w, o.d) ==> v.disk.content == w.disk.content)
  {
    assert CollectFits(H, w, k);
    if CopiedBeside(w, w.up.collecting[k].d) {
      assert w.disk.content[w.up.collecting[k].to := w.up.hashes[k].hashed] == w.disk.content;
    }
    assert Overwrite([], 0, w.up.hashes[k].hashed) == w.up.hashes[k].hashed;
    assert Overwrite(w.up.hashes[k].hashed, 0, w.up.hashes[k].hashed) == w.up.hashes[k].hashed;
  }

  lemma {:induction false} FillsNoPut(H: Data -> Digest, w: World, k: nat, d: Digest)
    requires Inv(H, w) && k in w.up.collecting && !w.up.collecting[k].filled && d in w.up.puts
    ensures PutFits(AfterCollectFill(w, k), d)
  {
    FilledBeside(H, w, k);
    BesideKind(H, w, k);
    assert PutFits(w, d) && NameFits(w, Upload(d));
    CollectorAlone(H, w, k);
  }

  lemma {:induction false} FillsOwn(H: Data -> Digest, w: World, k: nat, j: nat)
    requires Inv(H, w) && k in w.up.collecting && !w.up.collecting[k].filled
    requires j in w.up.collecting && w.up.collecting[j].d == w.up.collecting[k].d
    ensures CollectFits(H, AfterCollectFill(w, k), j)
  {
    var v, o := AfterCollectFill(w, k), w.up.collecting[k];
    FilledBeside(H, w, k);
    assert CollectFits(H, w, k) && CollectFits(H, w, j);
    assert k in v.up.collecting && v.up.collecting[k].filled && CopiedBeside(v, o.d);
    if Upload(o.d) in w.disk.names { assert NameFits(w, Upload(o.d)); }
  }

  lemma {:induction false} FillsOther(H: Data -> Digest, w: World, k: nat, j: nat)
    requires Inv(H, w) && k in w.up.collecting && !w.up.collecting[k].filled
    requires j in w.up.collecting && w.up.collecting[j].d != w.up.collecting[k].d
    ensures CollectFits(H, AfterCollectFill(w, k), j)
  {
    var v, e := AfterCollectFill(w, k), w.up.collecting[j].d;
    FilledBeside(H, w, k);
    BesideKind(H, w, k);
    BesideKind(H, w, j);
    assert CollectFits(H, w, j) && CollectFits(H, w, k);
    SameBeside(w, v, e);
  }

  lemma {:induction false} CollectorAlone(H: Data -> Digest, w: World, k: nat)
    requires Inv(H, w) && k in w.up.collecting
    ensures w.up.collecting[k].d !in w.up.puts
  {
    forall e | e in w.up.puts ensures e != w.up.collecting[k].d { assert PutFits(w, e); }
  }

  lemma {:induction false} DropCollect(H: Data -> Digest, w: World, k: nat)
    requires Inv(H, w) && k in w.up.collecting && Upload(w.up.collecting[k].d) !in w.disk.names
    ensures Inv(H, w.(up := w.up.(collecting := w.up.collecting - {k})))
  {
    var c := w.up.collecting - {k};
    var v := w.(up := w.up.(collecting := c));
    CopiesUncollected(H, w);
    forall j | j in c ensures CollectFits(H, v, j) {
      assert CollectFits(H, w, j);
      if c[j].d != w.up.collecting[k].d { SameBeside(w, v, c[j].d); }
    }
    forall d | d in w.up.puts ensures !Collecting(v, d) { assert PutFits(w, d); }
    CollectOnly(H, w, w.up.hashes, c);
  }

  /** The first rename takes the file, and for others of that digest it is in the cache. */
  lemma {:induction false} CollectRenameInv(H: Data -> Digest, w: World, k: nat)
    requires Inv(H, w) && k in w.up.collecting && w.up.collecting[k].filled
    ensures Inv(H, AfterCollectRename(w, k))
  {
    var d := w.up.collecting[k].d;
    assert CollectFits(H, w, k);
    if Upload(d) in w.disk.names {
      CollectorAlone(H, w, k);
      SoleUpload(H, w, d);
      CommitInv(H, w, Upload(d), d);
      DropCollect(H, Commit(w, Upload(d), d), k);
    } else {
      DropCollect(H, w, k);
    }
  }

  // ---------------------------------------------------------------- what each action writes

  /** The files whose bytes an action changes. */
  ghost function Rewritten(H: Data -> Digest, w: World, a: Action): set<nat> {
    if !Enabled(w, a) then {} else
      match a
      case PutStart(d) => {Inode(w, Upload(d))}
      case PutChunk(d, _) => {w.up.puts[d].inode}
      case Begin(d, _) => {Inode(w, Parallel(d))}
      case FillWrite(k, _, _) => {w.up.fills[k]}
      case PlaceCopy(p) => {w.disk.unused}
      case CopyBeside(t) => {Inode(w, Copy(w.run.threads[t].p))}
      case Open(t, _) => if Path(w.run.threads[t].p) in w.disk.names then {} else {w.disk.unused}
      case Write(h, _, _) => {w.run.handles[h]}
      case CollectOpen(k, poll) => if Stores(H, w, w.up.hashes[k], poll) then {Inode(w, Upload(H(w.up.hashes[k].hashed)))} else {}
      case CollectFill(k) => if AfterCollectFill(w, k).disk.content == w.disk.content then {} else {w.up.collecting[k].to}
      case _ => {}
  }

  /** Files keep their bytes but for these, and none is forgotten. */
  ghost predicate SameBut(w: World, v: World, rewritten: set<nat>) {
    forall i | i in w.disk.content ::
      i in v.disk.content && (i !in rewritten ==> v.disk.content[i] == w.disk.content[i])
  }

  lemma {:induction false} RewritesOnly(H: Data -> Digest, w: World, a: Action)
    ensures SameBut(w, Step(H, w, a), Rewritten(H, w, a))
  {
  }

  /** No action changes a file that was ever committed, whatever the guards say; most write upload files only. */
  lemma {:induction false} CommittedSafe(H: Data -> Digest, w: World, a: Action, i: nat)
    requires Inv(H, w) && i in w.disk.kind && i in Rewritten(H, w, a)
    ensures !w.disk.kind[i].Committed?
    ensures w.disk.kind[i].Uploading? || a.Begin? || a.FillWrite? || a.Write? || a.CopyBeside?
  {
    match a
    case PutStart(d) => assert NameFits(w, Upload(d));
    case PutChunk(d, _) => assert PutFits(w, d) && NameFits(w, Upload(d));
    case Begin(d, _) => assert NameFits(w, Parallel(d));
    case CopyBeside(t) => assert NameFits(w, Copy(w.run.threads[t].p));
    case CollectOpen(k, _) => assert NameFits(w, Upload(H(w.up.hashes[k].hashed)));
    case CollectFill(k) =>
      FilledBeside(H, w, k);
      assert CollectFits(H, w, k) && NameFits(w, Upload(w.up.collecting[k].d));
    case _ =>
  }

  // ---------------------------------------------------------------- every run

  lemma {:induction false} KeepsInv(H: Data -> Digest, w: World, a: Action)
    requires Inv(H, w) && Careful(H, w, a) && Enabled(w, a)
    ensures Inv(H, Step(H, w, a))
  {
    if a.PutStart? || a.PutChunk? || a.PutCheck? || a.PutRename? || a.Begin? || a.FillOpen? || a.FillWrite? {
      UploadStep(H, w, a);
    } else if a.HashStart? || a.HashRead? || a.Seal? {
      HashStep(H, w, a);
    } else if a.Register? || a.PlaceMark? {
      PlaceOnly(H, w, a, a.p);
    } else if a.PlaceLink? || a.PlaceCopy? || a.Remove? || a.Evict? {
      PlaceStep(H, w, a);
    } else if a.BodyLink? || a.BodyRename? {
      NameStep(H, w, a);
    } else if a.Open? || a.Write? || a.Close? {
      WriteStep(H, w, a);
    } else if a.CollectMove? || a.CollectOpen? {
      CollectStep(H, w, a);
    } else if a.CollectFill? || a.CollectRename? {
      CopyStep(H, w, a);
    } else {
      BodyStep(H, w, a);
    }
  }

  /** Each single action keeps the invariant, whatever the others are in the middle of. */
  lemma {:induction false} StepInv(H: Data -> Digest, w: World, a: Action)
    requires Inv(H, w) && Careful(H, w, a)
    ensures Inv(H, Step(H, w, a))
  {
    if Enabled(w, a) { KeepsInv(H, w, a); }
  }

  lemma {:induction false} RunInv(H: Data -> Digest, w: World, acts: seq<Action>)
    requires Inv(H, w) && CarefulRun(H, w, acts)
    ensures Inv(H, Run(H, w, acts))
    decreases |acts|
  {
    if acts != [] {
      StepInv(H, w, acts[0]);
      RunInv(H, Step(H, w, acts[0]), acts[1..]);
    }
  }

  /**
    After any interleaving of uploads, seals, placements, conversions, writes, collections and
    evictions, every file of the cache named d holds bytes whose digest is d, and so does every
    file that was ever one, under whatever names running calls still have it.
  */
  lemma {:induction false} CacheStaysCorrect(H: Data -> Digest, acts: seq<Action>)
    requires CarefulRun(H, EMPTY, acts)
    ensures CacheCorrect(H, Run(H, EMPTY, acts)) && LinksCorrect(H, Run(H, EMPTY, acts))
  {
    RunInv(H, EMPTY, acts);
    InvCorrect(H, Run(H, EMPTY, acts));
  }

  // ---------------------------------------------------------------- what became of the cache

  /** Every committed file is where it was, with the bytes it had. */
  ghost predicate Untouched(w: World, v: World) {
    forall d | Blob(d) in w.disk.names && w.disk.names[Blob(d)] in w.disk.content ::
      Blob(d) in v.disk.names && v.disk.names[Blob(d)] == w.disk.names[Blob(d)] && w.disk.names[Blob(d)] in v.disk.content
      && v.disk.content[w.disk.names[Blob(d)]] == w.disk.content[w.disk.names[Blob(d)]]
  }

  /** The file at the path is a committed cache file. */
  ghost predicate Aliased(w: World, p: PathName) {
    Path(p) in w.disk.names && exists d :: Blob(d) in w.disk.names && w.disk.names[Blob(d)] == w.disk.names[Path(p)]
  }

  // ---------------------------------------------------------------- the operations

  /** The worker's answer: done, a KeyError or OSError, or a ValueError for the digest or the size. */
  datatype Outcome = Done | Missing | WrongDigest | Short

  /** `_op_data_put`: offset zero starts the upload over, the piece is appended and hashed, the last one commits. */
  function AfterPut(H: Data -> Digest, w: World, d: Digest, offset: nat, chunk: Data, last: bool): World {
    var v := if offset == 0 then AfterPutStart(w, d) else w;
    if d !in v.up.puts then v
    else if last then AfterPutLast(H, AfterPutChunk(v, d, chunk), d)
    else AfterPutChunk(v, d, chunk)
  }

  function PutOutcome(H: Data -> Digest, w: World, d: Digest, offset: nat, chunk: Data, last: bool): Outcome {
    if offset != 0 && d !in w.up.puts then Missing
    else if last && H((if offset == 0 then [] else w.up.puts[d].hashed) + chunk) != d then WrongDigest
    else Done
  }

  /** Pieces sent one after the other, the first at offset zero, each at the end of those before. */
  function AfterPieces(H: Data -> Digest, w: World, d: Digest, pieces: seq<Data>): World {
    if pieces == [] then w
    else AfterPut(H, AfterPieces(H, w, d, pieces[..|pieces| - 1]), d,
                  |Flatten(pieces[..|pieces| - 1])|, pieces[|pieces| - 1], false)
  }

  /** `_data_place_now` for a blob that is here: a link, or a copy when the link fails. */
  function AfterPlace(w: World, p: PathName, linkable: bool): World
    requires IsPending(w, p)
  {
    var b := Blob(w.run.places[p].d);
    if b !in w.disk.names || w.disk.names[b] !in w.disk.content then w
    else AfterPlaceMark(if linkable then AfterPlaceLink(w, p) else AfterPlaceCopy(w, p), p)
  }

  /** `_data_private` with nobody else converting: whatever is not a link stays. */
  function AfterPrivate(w: World, p: PathName): World {
    if p !in w.run.places || !w.run.places[p].Linked? || Path(p) !in w.disk.names || w.disk.names[Path(p)] !in w.disk.content then w
    else
      var v := Create(w, Copy(p), Body, w.disk.content[w.disk.names[Path(p)]]);
      Replace(v, Copy(p), Path(p)).(run := v.run.(places := w.run.places[p := Own(w.run.places[p].d)]))
  }

  /** `_op_data_put_at`. */
  function AfterPutAt(w: World, d: Digest, offset: nat, chunk: Data): World {
    if Parallel(d) in w.disk.names then WriteAt(w, w.disk.names[Parallel(d)], offset, chunk) else w
  }

  /** `_op_data_seal` with nothing else going on. */
  function AfterSealing(H: Data -> Digest, w: World, d: Digest, size: nat): World {
    var n := Parallel(d);
    if n !in w.disk.names || w.disk.names[n] !in w.disk.content || |w.disk.content[w.disk.names[n]]| != size then w
    else if H(w.disk.content[w.disk.names[n]]) != d then Unlink(w, n)
    else Commit(w, n, d)
  }

  function SealOutcome(H: Data -> Digest, w: World, d: Digest, size: nat): Outcome {
    if Parallel(d) !in w.disk.names || w.disk.names[Parallel(d)] !in w.disk.content then Missing
    else if |w.disk.content[w.disk.names[Parallel(d)]]| != size then Short
    else if H(w.disk.content[w.disk.names[Parallel(d)]]) != d then WrongDigest
    else Done
  }

  /** The worker's operations, each run alone. */
  class Worker {
    var w: World

    constructor ()
      ensures w == EMPTY
    {
      w := EMPTY;
    }

    method Put(H: Data -> Digest, d: Digest, offset: nat, chunk: Data, last: bool) returns (r: Outcome)
      modifies this
      ensures w == AfterPut(H, old(w), d, offset, chunk, last)
      ensures r == PutOutcome(H, old(w), d, offset, chunk, last)
    {
      if offset == 0 {
        w := AfterPutStart(w, d);
      }
      if d !in w.up.puts { return Missing; }
      w := AfterPutChunk(w, d, chunk);
      if last {
        r := if H(w.up.puts[d].hashed) == d then Done else WrongDigest;
        w := AfterPutLast(H, w, d);
      } else {
        r := Done;
      }
    }

    method PutAt(d: Digest, offset: nat, chunk: Data) returns (r: Outcome)
      modifies this
      ensures w == AfterPutAt(old(w), d, offset, chunk)
      ensures r == if Parallel(d) in old(w).disk.names then Done else Missing
    {
      if Parallel(d) !in w.disk.names { return Missing; }
      w := WriteAt(w, w.disk.names[Parallel(d)], offset, chunk);
      r := Done;
    }

    method Sealing(H: Data -> Digest, d: Digest, size: nat) returns (r: Outcome)
      modifies this
      ensures w == AfterSealing(H, old(w), d, size)
      ensures r == SealOutcome(H, old(w), d, size)
    {
      var partial := Parallel(d);
      if partial !in w.disk.names || w.disk.names[partial] !in w.disk.content { return Missing; }
      var bytes := w.disk.content[w.disk.names[partial]];
      if |bytes| != size { return Short; }
      if H(bytes) != d {
        w := Unlink(w, partial);
        return WrongDigest;
      }
      w := Commit(w, partial, d);
      r := Done;
    }

    method Place(p: PathName, linkable: bool) returns (placed: bool)
      requires IsPending(w, p)
      modifies this
      ensures w == AfterPlace(old(w), p, linkable)
      ensures placed == !IsPending(w, p)
    {
      var b := Blob(w.run.places[p].d);
      if b !in w.disk.names || w.disk.names[b] !in w.disk.content { return false; }
      if linkable {
        w := AfterPlaceLink(w, p);
      } else {
        w := AfterPlaceCopy(w, p);
      }
      w := AfterPlaceMark(w, p);
      placed := true;
    }

    method PrivateCopy(p: PathName)
      modifies this
      ensures w == AfterPrivate(old(w), p)
    {
      if p !in w.run.places || !w.run.places[p].Linked? { return; }
      if Path(p) !in w.disk.names || w.disk.names[Path(p)] !in w.disk.content { return; }
      var place := w.run.places[p];
      w := Create(w, Copy(p), Body, w.disk.content[w.disk.names[Path(p)]]);
      w := Replace(w, Copy(p), Path(p));
      w := w.(run := w.run.(places := w.run.places[p := Own(place.d)]));
    }
  }

  // ---------------------------------------------------------------- what the operations promise

  /** What an upload has hashed so far, if it has begun. */
  function Hashed(w: World, d: Digest): Data {
    if d in w.up.puts then w.up.puts[d].hashed else []
  }

  lemma {:induction false} NextPiece(H: Data -> Digest, w: World, d: Digest, chunk: Data)
    ensures var v := AfterPut(H, w, d, |Hashed(w, d)|, chunk, false);
            d in v.up.puts && Hashed(v, d) == Hashed(w, d) + chunk
  {
  }

  /** However a file is cut into pieces, what has been hashed is the pieces put together. */
  lemma {:induction false} PiecesHashed(H: Data -> Digest, w: World, d: Digest, pieces: seq<Data>)
    requires d !in w.up.puts
    ensures var v := AfterPieces(H, w, d, pieces);
            (pieces != [] ==> d in v.up.puts) && Hashed(v, d) == Flatten(pieces)
    decreases |pieces|
  {
    if pieces != [] {
      var n := |pieces| - 1;
      var v := AfterPieces(H, w, d, pieces[..n]);
      PiecesHashed(H, w, d, pieces[..n]);
      NextPiece(H, v, d, pieces[n]);
      LastOf(pieces);
    }
  }

  lemma {:induction false} LastOf(pieces: seq<Data>)
    requires pieces != []
    ensures var n := |pieces| - 1; Flatten(pieces) == Flatten(pieces[..n]) + pieces[n]
  {
    var n := |pieces| - 1;
    assert pieces == pieces[..n] + [pieces[n]];
    FlattenSnoc(pieces[..n], pieces[n]);
  }

  lemma {:induction false} PieceInv(H: Data -> Digest, w: World, d: Digest, offset: nat, chunk: Data)
    requires Inv(H, w) && !Collecting(w, d)
    ensures Inv(H, AfterPut(H, w, d, offset, chunk, false)) && !Collecting(AfterPut(H, w, d, offset, chunk, false), d)
  {
    var v := if offset == 0 then AfterPutStart(w, d) else w;
    if offset == 0 { PutStartInv(H, w, d); }
    if d in v.up.puts { PutChunkInv(H, v, d, chunk); }
  }

  lemma {:induction false} PiecesInv(H: Data -> Digest, w: World, d: Digest, pieces: seq<Data>)
    requires Inv(H, w) && !Collecting(w, d)
    ensures Inv(H, AfterPieces(H, w, d, pieces)) && !Collecting(AfterPieces(H, w, d, pieces), d)
    decreases |pieces|
  {
    if pieces != [] {
      var n := |pieces| - 1;
      PiecesInv(H, w, d, pieces[..n]);
      PieceInv(H, AfterPieces(H, w, d, pieces[..n]), d, |Flatten(pieces[..n])|, pieces[n]);
    }
  }

  /**
    The last piece commits the file exactly when the pieces together have the digest, and then
    the cache file holds them; otherwise the upload is removed and the cache is as it was.
  */
  lemma {:induction false} LastPiece(H: Data -> Digest, w: World, d: Digest, chunk: Data)
    requires Inv(H, w) && d in w.up.puts
    ensures var v := AfterPutLast(H, AfterPutChunk(w, d, chunk), d);
            if H(w.up.puts[d].hashed + chunk) == d
            then Blob(d) in v.disk.names && v.disk.names[Blob(d)] in v.disk.content
                 && v.disk.content[v.disk.names[Blob(d)]] == w.up.puts[d].hashed + chunk
            else v.disk.names == w.disk.names - {Upload(d)} && Untouched(w, v)
  {
    var x := AfterPutChunk(w, d, chunk);
    PutChunkInv(H, w, d, chunk);
    assert PutFits(x, d) && PutFits(w, d);
    if H(w.up.puts[d].hashed + chunk) != d {
      forall e | Blob(e) in w.disk.names ensures w.disk.names[Blob(e)] != w.up.puts[d].inode {
        assert NameFits(w, Blob(e)) && NameFits(w, Upload(d));
      }
    }
  }

  /** What was read into a hash is still how the file begins, and at the end all of it. */
  ghost predicate HashFits(w: World, k: nat)
    requires k in w.up.hashes
  {
    var h := w.up.hashes[k];
    && h.inode in w.disk.content && h.hashed <= w.disk.content[h.inode]
    && (h.done ==> h.hashed == w.disk.content[h.inode])
  }

  lemma {:induction false} ReadFits(w: World, k: nat, count: nat)
    requires Enabled(w, HashRead(k, count)) && HashFits(w, k)
    ensures HashFits(AfterHashRead(w, k, count), k)
  {
    var h := w.up.hashes[k];
    var bytes := w.disk.content[h.inode];
    var piece := Slice(bytes, |h.hashed|, |h.hashed| + count);
    assert h.hashed == bytes[..|h.hashed|];
    assert h.hashed + piece == bytes[..|h.hashed + piece|];
  }

  /** A file read by pieces of these sizes. */
  ghost function Reads(H: Data -> Digest, w: World, k: nat, counts: seq<nat>): World
    decreases |counts|
  {
    if counts == [] then w else Reads(H, Step(H, w, HashRead(k, counts[0])), k, counts[1..])
  }

  /** Reading alone changes one hash and nothing else. */
  lemma {:induction false} ReadsAlone(H: Data -> Digest, w: World, k: nat, counts: seq<nat>)
    requires k in w.up.hashes && HashFits(w, k)
    ensures var v := Reads(H, w, k, counts);
            && k in v.up.hashes && HashFits(v, k) && v.up.hashes[k].n == w.up.hashes[k].n
            && v.up.hashes[k].inode == w.up.hashes[k].inode && v == w.(up := w.up.(hashes := w.up.hashes[k := v.up.hashes[k]]))
    decreases |counts|
  {
    if counts != [] {
      var v := Step(H, w, HashRead(k, counts[0]));
      if Enabled(w, HashRead(k, counts[0])) { ReadFits(w, k, counts[0]); }
      assert v.up.hashes == w.up.hashes[k := v.up.hashes[k]];
      ReadsAlone(H, v, k, counts[1..]);
      var x := Reads(H, v, k, counts[1..]);
      assert v.up.hashes[k := x.up.hashes[k]] == w.up.hashes[k := x.up.hashes[k]];
    } else {
      assert w.up.hashes[k := w.up.hashes[k]] == w.up.hashes;
    }
  }

  /** However it reads the file, a seal with nothing else going on does what the operation does. */
  lemma {:induction false} SealAlone(H: Data -> Digest, w: World, k: nat, d: Digest, counts: seq<nat>)
    requires Enabled(w, HashStart(k, Parallel(d)))
    ensures var v := Reads(H, AfterHashStart(w, k, Parallel(d)), k, counts);
            k in v.up.hashes && v.up.hashes[k].n == Parallel(d) && (v.up.hashes[k].done ==>
              AfterSeal(H, v, k) == AfterSealing(H, w, d, |w.disk.content[w.disk.names[Parallel(d)]]|))
  {
    var u := AfterHashStart(w, k, Parallel(d));
    ReadsAlone(H, u, k, counts);
    var v := Reads(H, u, k, counts);
    assert v.up.hashes - {k} == w.up.hashes;
  }

  /** An upload that starts over leaves the cache as it is. */
  lemma {:induction false} StartsApart(H: Data -> Digest, w: World, d: Digest)
    requires Inv(H, w)
    ensures Untouched(w, AfterPutStart(w, d))
  {
    forall e | Blob(e) in w.disk.names ensures w.disk.names[Blob(e)] in w.disk.content && w.disk.names[Blob(e)] != Inode(w, Upload(d)) {
      assert NameFits(w, Blob(e));
      if Upload(d) in w.disk.names { assert NameFits(w, Upload(d)); }
    }
  }

  /**
    A file sent in pieces, the last one marked as such, is in the cache afterwards exactly when its digest
    is the one it was sent as.
  */
  lemma {:induction false} SequentialUpload(H: Data -> Digest, w: World, d: Digest, pieces: seq<Data>, last: Data)
    requires Inv(H, w) && !Collecting(w, d) && d !in w.up.puts && pieces != []
    ensures d in AfterPieces(H, w, d, pieces).up.puts
    ensures var u := AfterPieces(H, w, d, pieces); var v := AfterPut(H, u, d, |Flatten(pieces)|, last, true);
            if H(Flatten(pieces) + last) == d
            then Blob(d) in v.disk.names && v.disk.names[Blob(d)] in v.disk.content
                 && v.disk.content[v.disk.names[Blob(d)]] == Flatten(pieces) + last
            else Upload(d) !in v.disk.names && Untouched(u, v)
  {
    PiecesInv(H, w, d, pieces);
    PiecesHashed(H, w, d, pieces);
    LastOfUpload(H, AfterPieces(H, w, d, pieces), d, last);
  }

  lemma {:induction false} LastOfUpload(H: Data -> Digest, w: World, d: Digest, last: Data)
    requires Inv(H, w) && !Collecting(w, d) && d in w.up.puts
    ensures var v := AfterPut(H, w, d, |Hashed(w, d)|, last, true);
            if H(Hashed(w, d) + last) == d
            then Blob(d) in v.disk.names && v.disk.names[Blob(d)] in v.disk.content
                 && v.disk.content[v.disk.names[Blob(d)]] == Hashed(w, d) + last
            else Upload(d) !in v.disk.names && Untouched(w, v)
  {
    if Hashed(w, d) == [] {
      StartsApart(H, w, d);
      PutStartInv(H, w, d);
      LastPiece(H, AfterPutStart(w, d), d, last);
      assert [] + last == last;
    } else {
      LastPiece(H, w, d, last);
    }
  }

  lemma {:induction false} OverwriteInside(bytes: Data, offset: nat, chunk: Data)
    requires offset + |chunk| <= |bytes|
    ensures var r := Overwrite(bytes, offset, chunk);
            |r| == |bytes|
            && forall i | 0 <= i < |r| :: r[i] == if offset <= i < offset + |chunk| then chunk[i - offset] else bytes[i]
  {
  }

  datatype Range = Range(from: nat, to: nat)

  ghost predicate Covers(ranges: seq<Range>, i: nat) {
    exists r | r in ranges :: r.from <= i < r.to
  }

  /** The ranges of `data`, written one after the other. */
  function Ranged(bytes: Data, ranges: seq<Range>, data: Data): Data
    requires forall r | r in ranges :: r.from <= r.to <= |data|
    decreases |ranges|
  {
    if ranges == [] then bytes
    else
      var last := ranges[|ranges| - 1];
      Overwrite(Ranged(bytes, ranges[..|ranges| - 1], data), last.from, data[last.from..last.to])
  }

  /** Ranges that arrive in any order, overlapping or not, leave the file's bytes wherever one covers. */
  lemma {:induction false} RangesFill(bytes: Data, ranges: seq<Range>, data: Data)
    requires |bytes| == |data| && forall r | r in ranges :: r.from <= r.to <= |data|
    ensures var f := Ranged(bytes, ranges, data);
            |f| == |data|
            && forall i | 0 <= i < |data| :: f[i] == if Covers(ranges, i) then data[i] else bytes[i]
    decreases |ranges|
  {
    if ranges != [] {
      var n := |ranges| - 1;
      var last := ranges[n];
      RangesFill(bytes, ranges[..n], data);
      OverwriteInside(Ranged(bytes, ranges[..n], data), last.from, data[last.from..last.to]);
      forall i | 0 <= i < |data|
        ensures Covers(ranges, i) <==> Covers(ranges[..n], i) || last.from <= i < last.to
      {
        assert ranges == ranges[..n] + [last];
      }
    }
  }

  /** `data_put_at` for each range of `data`, in the order they arrive. */
  function AfterRanges(w: World, d: Digest, ranges: seq<Range>, data: Data): World
    requires forall r | r in ranges :: r.from <= r.to <= |data|
    decreases |ranges|
  {
    if ranges == [] then w
    else
      var last := ranges[|ranges| - 1];
      AfterPutAt(AfterRanges(w, d, ranges[..|ranges| - 1], data), d, last.from, data[last.from..last.to])
  }

  lemma {:induction false} RangesWritten(w: World, d: Digest, ranges: seq<Range>, data: Data)
    requires Parallel(d) in w.disk.names && w.disk.names[Parallel(d)] in w.disk.content
    requires forall r | r in ranges :: r.from <= r.to <= |data|
    ensures var v := AfterRanges(w, d, ranges, data); var i := w.disk.names[Parallel(d)];
            v.disk.names == w.disk.names && i in v.disk.content
            && v.disk.content[i] == Ranged(w.disk.content[i], ranges, data)
    decreases |ranges|
  {
    if ranges != [] { RangesWritten(w, d, ranges[..|ranges| - 1], data); }
  }

  /**
    An upload over several connections: once ranges covering the file have arrived, in any
    order and however they overlap, the seal succeeds and the cache file is the data.
  */
  lemma {:induction false} ParallelUpload(H: Data -> Digest, w: World, ranges: seq<Range>, data: Data)
    requires forall r | r in ranges :: r.from <= r.to <= |data|
    requires forall i | 0 <= i < |data| :: Covers(ranges, i)
    ensures var d := H(data); var v := AfterRanges(AfterBegin(w, d, |data|), d, ranges, data);
            SealOutcome(H, v, d, |data|) == Done
            && var x := AfterSealing(H, v, d, |data|);
               Blob(d) in x.disk.names && x.disk.names[Blob(d)] in x.disk.content && x.disk.content[x.disk.names[Blob(d)]] == data
  {
    var d := H(data);
    var zeros: Data := seq(|data|, _ => 0);
    CreateHolds(w, Parallel(d), Filling(d), zeros);
    RangesWritten(AfterBegin(w, d, |data|), d, ranges, data);
    RangesFill(zeros, ranges, data);
    assert Ranged(zeros, ranges, data) == data;
  }

  /** Placing a file whose blob is here puts the blob's bytes at the path, by link or by copy. */
  lemma {:induction false} PlaceGivesBytes(H: Data -> Digest, w: World, p: PathName, linkable: bool)
    requires Inv(H, w) && IsPending(w, p) && Blob(w.run.places[p].d) in w.disk.names
    ensures var v := AfterPlace(w, p, linkable);
            && Path(p) in v.disk.names && v.disk.names[Path(p)] in v.disk.content
            && H(v.disk.content[v.disk.names[Path(p)]]) == w.run.places[p].d
            && v.run.places[p] == (if linkable then Linked(w.run.places[p].d) else Own(w.run.places[p].d))
            && (Aliased(v, p) <==> linkable)
  {
    var b := Blob(w.run.places[p].d);
    assert NameFits(w, b);
    if linkable {
      assert AfterPlace(w, p, linkable).disk.names[b] == w.disk.names[b];
    } else {
      forall d | Blob(d) in w.disk.names ensures w.disk.names[Blob(d)] != w.disk.unused { assert NameFits(w, Blob(d)); }
    }
  }

  lemma {:induction false} PrivateIs(w: World, p: PathName, bytes: Data)
    requires p in w.run.places && w.run.places[p].Linked? && Path(p) in w.disk.names && w.disk.names[Path(p)] in w.disk.content
    requires bytes == w.disk.content[w.disk.names[Path(p)]]
    ensures var v := AfterPrivate(w, p); var i := Inode(w, Copy(p));
            && v.disk.names == w.disk.names[Path(p) := i] - {Copy(p)} && v.disk.content == w.disk.content[i := bytes]
            && v.run.places[p] == Own(w.run.places[p].d)
  {
    var v := Create(w, Copy(p), Body, bytes);
    assert v.disk.names[Copy(p)] == Inode(w, Copy(p));
    assert v.disk.names[Path(p) := Inode(w, Copy(p))] - {Copy(p)} == w.disk.names[Path(p) := Inode(w, Copy(p))] - {Copy(p)};
  }

  /** After a conversion the path has the same bytes in a file of its own, and the cache is as it was. */
  lemma {:induction false} PrivateIsolates(H: Data -> Digest, w: World, p: PathName)
    requires Inv(H, w) && p in w.run.places && w.run.places[p].Linked? && Path(p) in w.disk.names
    ensures var v := AfterPrivate(w, p);
            && Untouched(w, v) && !Aliased(v, p) && v.run.places[p].Own?
            && Path(p) in v.disk.names && v.disk.names[Path(p)] in v.disk.content
            && v.disk.content[v.disk.names[Path(p)]] == w.disk.content[w.disk.names[Path(p)]]
  {
    assert NameFits(w, Path(p));
    PrivateIs(w, p, w.disk.content[w.disk.names[Path(p)]]);
    if Copy(p) in w.disk.names { assert NameFits(w, Copy(p)); }
    forall d | Blob(d) in w.disk.names
      ensures w.disk.names[Blob(d)] in w.disk.content && w.disk.names[Blob(d)] != Inode(w, Copy(p))
    {
      assert NameFits(w, Blob(d));
    }
  }
}
