/**
  What a call's body sees of a directory while its files arrive: the patched `listdir`,
  `scandir` and `stat`, read while the data thread places files and conversions replace them.

  Names are those of one directory. A placement holds the lock from staging to clearing the
  pending entry, but a reader's real file operations take no lock, so they see every state in
  between, and a real listing goes on while names come and go.
*/
module Listings {
  type Name = string

  const MARK := ".letify-placing."

  predicate MarkedAt(n: Name, i: nat) {
    i + |MARK| <= |n| && n[i..i + |MARK|] == MARK
  }

  ghost predicate Marked(n: Name) {
    exists i :: MarkedAt(n, i)
  }

  /** The name of a copy being put in place. */
  function Staged(n: Name, who: string): Name {
    n + MARK + who
  }

  lemma {:induction false} StagedMarked(n: Name, who: string)
    ensures Marked(Staged(n, who))
  {
    assert Staged(n, who) == n + (MARK + who);
    assert MarkedAt(Staged(n, who), |n|);
  }

  ghost predicate NoDup(s: seq<Name>) {
    forall i, j :: 0 <= i < j < |s| ==> s[i] != s[j]
  }

  // ---------------------------------------------------------------- one listing

  /** The real names without those being put in place. */
  ghost function Unmarked(found: seq<Name>): (r: seq<Name>)
    ensures forall n :: n in r <==> n in found && !Marked(n)
    ensures NoDup(found) ==> NoDup(r)
  {
    if found == [] then []
    else if Marked(found[0]) then Unmarked(found[1..])
    else [found[0]] + Unmarked(found[1..])
  }

  /** `listed`: pending names not listed yet follow the real ones. */
  function WithPending(entries: seq<Name>, pending: seq<Name>): (r: seq<Name>)
    ensures forall n :: n in r <==> n in entries || n in pending
    ensures entries <= r
    ensures NoDup(entries) ==> NoDup(r)
    decreases |pending|
  {
    if pending == [] then entries
    else
      assert pending == pending[..|pending| - 1] + [pending[|pending| - 1]];
      var before := WithPending(entries, pending[..|pending| - 1]);
      var last := pending[|pending| - 1];
      if last in before then before else before + [last]
  }

  /** `scanned` tests against the real names only. */
  function WithNew(entries: seq<Name>, pending: seq<Name>): seq<Name>
    decreases |pending|
  {
    if pending == [] then entries
    else
      var before := WithNew(entries, pending[..|pending| - 1]);
      var last := pending[|pending| - 1];
      if last in entries then before else before + [last]
  }

  /** Both give one answer, for a dictionary has no key twice. */
  lemma {:induction false} ScannedAsListed(entries: seq<Name>, pending: seq<Name>)
    requires NoDup(pending)
    ensures WithNew(entries, pending) == WithPending(entries, pending)
    decreases |pending|
  {
    if pending != [] {
      var n := |pending| - 1;
      ScannedAsListed(entries, pending[..n]);
      assert pending[n] !in pending[..n];
    }
  }

  method Listed(entries: seq<Name>, pending: seq<Name>) returns (r: seq<Name>)
    ensures r == WithPending(entries, pending)
  {
    r := entries;
    for k := 0 to |pending|
      invariant r == WithPending(entries, pending[..k])
    {
      assert pending[..k + 1][..k] == pending[..k];
      if pending[k] !in r { r := r + [pending[k]]; }
    }
    assert pending[..|pending|] == pending;
  }

  method Scanned(entries: seq<Name>, pending: seq<Name>) returns (r: seq<Name>)
    requires NoDup(pending)
    ensures r == WithPending(entries, pending)
  {
    var held := set n | n in entries;
    r := entries;
    for k := 0 to |pending|
      invariant r == WithNew(entries, pending[..k])
    {
      assert pending[..k + 1][..k] == pending[..k];
      if pending[k] !in held { r := r + [pending[k]]; }
    }
    assert pending[..|pending|] == pending;
    ScannedAsListed(entries, pending);
  }

  /** The names of one list that the other does not have, in their order. */
  function Lacking(entries: seq<Name>, pending: seq<Name>): seq<Name> {
    if pending == [] then []
    else (if pending[0] in entries then [] else [pending[0]]) + Lacking(entries, pending[1..])
  }

  lemma {:induction false} LackingLast(entries: seq<Name>, pending: seq<Name>)
    requires pending != []
    ensures var n := |pending| - 1;
            Lacking(entries, pending) == Lacking(entries, pending[..n]) + if pending[n] in entries then [] else [pending[n]]
    decreases |pending|
  {
    var n := |pending| - 1;
    if n == 0 {
      assert pending[1..] == [] && pending[..0] == [];
    } else {
      LackingLast(entries, pending[1..]);
      assert pending[1..][..n - 1] == pending[..n][1..];
    }
  }

  /** A listing is the real names in their order, then in theirs the pending ones that are not among them. */
  lemma {:induction false} ListedInOrder(entries: seq<Name>, pending: seq<Name>)
    requires NoDup(pending)
    ensures WithPending(entries, pending) == entries + Lacking(entries, pending)
    decreases |pending|
  {
    if pending == [] {
      assert entries + [] == entries;
    } else {
      var n := |pending| - 1;
      ListedInOrder(entries, pending[..n]);
      LackingLast(entries, pending);
      assert pending[n] !in pending[..n];
      var (before, last) := (WithPending(entries, pending[..n]), if pending[n] in entries then [] else [pending[n]]);
      assert before + last == entries + (Lacking(entries, pending[..n]) + last);
    }
  }

  /** The marker may stand anywhere in a name. */
  lemma {:induction false} MarkedExact(n: Name)
    ensures Marked(n) <==> exists a: string, b: string :: n == a + ".letify-placing." + b
  {
    if Marked(n) {
      var i: nat :| MarkedAt(n, i);
      assert n == n[..i] + ".letify-placing." + n[i + 16..];
    }
    if a: string, b: string :| n == a + ".letify-placing." + b {
      StagedMarked(a, b);
    }
  }

  /** The names with the marker are left out one by one, and the others keep their order. */
  lemma {:induction false} UnmarkedFirst(n: Name, rest: seq<Name>)
    ensures Unmarked([n] + rest) == (if Marked(n) then [] else [n]) + Unmarked(rest)
  {
    assert ([n] + rest)[0] == n && ([n] + rest)[1..] == rest;
  }

  // ---------------------------------------------------------------- the machine

  datatype Outcome = Real | Fake | Absent

  datatype Reader =
    | Resting
    | Snapped(pending: seq<Name>)
    // The real listing is going on: `must` was there all along, `may` was there at some time.
    | Reading(pending: seq<Name>, must: set<Name>, may: set<Name>)
    | Answered(pending: seq<Name>, found: seq<Name>, must: set<Name>, may: set<Name>)
    | NotFound(n: Name)      // the first real stat found nothing
    | NotPending(n: Name)    // and the manifest had it no longer
    | Stated(n: Name, outcome: Outcome)

  datatype World = World(
    manifest: set<Name>, disk: set<Name>, pending: set<Name>,
    placing: bool,                   // the lock is held by a placement
    readers: map<nat, Reader>)

  datatype Action =
    | Lock | Stage(n: Name, who: string) | Land(n: Name, who: string) | Clear(n: Name) | Fail(n: Name, who: string)
    | Convert(n: Name, who: string) | Converted(n: Name, who: string)
    | Make(n: Name) | Drop(n: Name)
    | Snapshot(r: nat, order: seq<Name>) | Open(r: nat) | Listing(r: nat, found: seq<Name>)
    | Stat(r: nat, n: Name) | Ask(r: nat) | Again(r: nat) | Rest(r: nat)

  function At(w: World, r: nat): Reader {
    if r in w.readers then w.readers[r] else Resting
  }

  function To(w: World, r: nat, to: Reader): World {
    w.(readers := w.readers[r := to])
  }

  ghost predicate Lists(order: seq<Name>, s: set<Name>) {
    NoDup(order) && forall n :: n in order <==> n in s
  }

  ghost predicate Enabled(w: World, a: Action) {
    match a
    case Lock => !w.placing
    case Stage(n, _) => w.placing && n in w.pending
    case Land(n, who) => w.placing && n in w.pending && Staged(n, who) in w.disk
    // Cleared only once a real stat of the path succeeded.
    case Clear(n) => w.placing && n in w.pending && n in w.disk
    case Fail(n, _) => w.placing
    case Convert(n, _) => n in w.manifest && n in w.disk
    case Converted(n, who) => n in w.manifest && Staged(n, who) in w.disk
    // The body makes files, and removes files that are not the manifest's.
    case Make(_) => true
    case Drop(n) => n !in w.manifest
    case Snapshot(r, order) => At(w, r).Resting? && !w.placing && Lists(order, w.pending)
    case Open(r) => At(w, r).Snapped?
    case Listing(r, found) =>
      At(w, r).Reading? && NoDup(found) && (forall n | n in At(w, r).must :: n in found) && (forall n | n in found :: n in At(w, r).may)
    case Stat(r, _) => At(w, r).Resting?
    case Ask(r) => At(w, r).NotFound?
    case Again(r) => At(w, r).NotPending?
    case Rest(r) => At(w, r).Answered? || At(w, r).Stated?
  }

  /** A listing that is going on notices what appears and what goes. */
  function Noticed(reader: Reader, disk: set<Name>): Reader {
    if reader.Reading? then Reading(reader.pending, reader.must * disk, reader.may + disk) else reader
  }

  function Disk(w: World, disk: set<Name>): World {
    w.(disk := disk, readers := map r | r in w.readers :: Noticed(w.readers[r], disk))
  }

  ghost function Step(w: World, a: Action): World {
    if !Enabled(w, a) then w else
      match a
      case Lock => w.(placing := true)
      case Stage(n, who) => Disk(w, w.disk + {Staged(n, who)})
      case Land(n, who) => Disk(w, w.disk - {Staged(n, who)} + {n})
      case Clear(n) => w.(pending := w.pending - {n}, placing := false)
      case Fail(n, who) => Disk(w, w.disk - (if Staged(n, who) in w.manifest then {} else {Staged(n, who)})).(placing := false)
      case Convert(n, who) => Disk(w, w.disk + {Staged(n, who)})
      case Converted(n, who) => Disk(w, w.disk - {Staged(n, who)} + {n})
      case Make(n) => Disk(w, w.disk + {n})
      case Drop(n) => Disk(w, w.disk - {n})
      case Snapshot(r, order) => To(w, r, Snapped(order))
      case Open(r) => To(w, r, Reading(At(w, r).pending, w.disk, w.disk))
      case Listing(r, found) => To(w, r, Answered(At(w, r).pending, found, At(w, r).must, At(w, r).may))
      case Stat(r, n) => To(w, r, if n in w.disk then Stated(n, Real) else NotFound(n))
      case Ask(r) => To(w, r, if At(w, r).n in w.pending then Stated(At(w, r).n, Fake) else NotPending(At(w, r).n))
      case Again(r) => To(w, r, Stated(At(w, r).n, if At(w, r).n in w.disk then Real else Absent))
      case Rest(r) => To(w, r, Resting)
  }

  ghost function Run(w: World, acts: seq<Action>): World
    decreases |acts|
  {
    if acts == [] then w else Run(Step(w, acts[0]), acts[1..])
  }

  /** A call that has just registered: the whole manifest is pending. */
  ghost predicate Registered(w: World) {
    w.pending == w.manifest && w.readers == map[] && forall n | n in w.manifest :: !Marked(n)
  }

  /** What a finished listing answers. */
  ghost function Answer(reader: Reader): seq<Name>
    requires reader.Answered?
  {
    WithPending(Unmarked(reader.found), reader.pending)
  }

  // ---------------------------------------------------------------- invariant

  /** Every manifest name is pending or on disk. */
  ghost predicate Present(w: World) {
    && w.pending <= w.manifest
    && (forall n | n in w.manifest :: !Marked(n) && (n in w.pending || n in w.disk))
  }

  ghost predicate Pending(w: World, p: seq<Name>) {
    NoDup(p) && forall n | n in p :: n in w.manifest
  }

  ghost predicate ReaderFits(w: World, reader: Reader) {
    match reader
    case Resting => true
    case Snapped(p) => Pending(w, p) && forall n | n in w.manifest :: n in p || n in w.disk
    case Reading(p, must, may) =>
      Pending(w, p) && must <= w.disk <= may && forall n | n in w.manifest :: n in p || n in must
    case Answered(p, found, must, may) =>
      Pending(w, p) && NoDup(found) && (forall n | n in must :: n in found) && (forall n | n in found :: n in may)
      && forall n | n in w.manifest :: n in p || n in must
    case NotFound(n) => true
    case NotPending(n) => n in w.manifest ==> n in w.disk
    case Stated(n, outcome) => n in w.manifest ==> !outcome.Absent?
  }

  ghost predicate Inv(w: World) {
    Present(w) && forall r | r in w.readers :: ReaderFits(w, w.readers[r])
  }

  /** A manifest name stays on disk once it is there. */
  lemma {:induction false} DiskInv(w: World, disk: set<Name>)
    requires Inv(w) && forall n | n in w.manifest && n in w.disk :: n in disk
    ensures Inv(Disk(w, disk))
  {
    var v := Disk(w, disk);
    forall r | r in v.readers ensures ReaderFits(v, v.readers[r]) { assert ReaderFits(w, w.readers[r]); }
  }

  lemma {:induction false} ReaderInv(w: World, r: nat, to: Reader)
    requires Inv(w) && ReaderFits(w, to)
    ensures Inv(To(w, r, to))
  {
    var v := To(w, r, to);
    forall q | q in v.readers ensures ReaderFits(v, v.readers[q]) {
      if q != r { assert ReaderFits(w, w.readers[q]); } else { assert ReaderFits(w, to); }
    }
  }

  lemma {:induction false} LockInv(w: World, pending: set<Name>, placing: bool)
    requires Inv(w) && pending <= w.pending && forall n | n in w.pending && n !in pending :: n in w.disk
    ensures Inv(w.(pending := pending, placing := placing))
  {
    var v := w.(pending := pending, placing := placing);
    forall r | r in v.readers ensures ReaderFits(v, v.readers[r]) { assert ReaderFits(w, w.readers[r]); }
  }

  lemma {:induction false} FileStep(w: World, a: Action)
    requires Inv(w) && Enabled(w, a)
    requires a.Lock? || a.Stage? || a.Land? || a.Clear? || a.Fail? || a.Convert? || a.Converted? || a.Make? || a.Drop?
    ensures Inv(Step(w, a))
  {
    match a
    case Lock => LockInv(w, w.pending, true);
    case Stage(n, who) => DiskInv(w, w.disk + {Staged(n, who)});
    case Land(n, who) =>
      StagedMarked(n, who);
      DiskInv(w, w.disk - {Staged(n, who)} + {n});
    case Clear(n) => LockInv(w, w.pending - {n}, false);
    case Fail(n, who) =>
      var v := Disk(w, w.disk - (if Staged(n, who) in w.manifest then {} else {Staged(n, who)}));
      DiskInv(w, v.disk);
      LockInv(v, v.pending, false);
    case Convert(n, who) => DiskInv(w, w.disk + {Staged(n, who)});
    case Converted(n, who) =>
      StagedMarked(n, who);
      DiskInv(w, w.disk - {Staged(n, who)} + {n});
    case Make(n) => DiskInv(w, w.disk + {n});
    case Drop(n) => DiskInv(w, w.disk - {n});
  }

  lemma {:induction false} ReadStep(w: World, a: Action)
    requires Inv(w) && Enabled(w, a)
    requires a.Snapshot? || a.Open? || a.Listing? || a.Stat? || a.Ask? || a.Again? || a.Rest?
    ensures Inv(Step(w, a))
  {
    var v := Step(w, a);
    assert a.r in w.readers ==> ReaderFits(w, w.readers[a.r]);
    assert ReaderFits(w, v.readers[a.r]);
    ReaderInv(w, a.r, v.readers[a.r]);
  }

  lemma {:induction false} RunInv(w: World, acts: seq<Action>)
    requires Inv(w)
    ensures Inv(Run(w, acts)) && Run(w, acts).manifest == w.manifest
    decreases |acts|
  {
    if acts != [] {
      var v := Step(w, acts[0]);
      if Enabled(w, acts[0]) {
        if acts[0].Snapshot? || acts[0].Open? || acts[0].Listing? || acts[0].Stat? || acts[0].Ask? || acts[0].Again? || acts[0].Rest? {
          ReadStep(w, acts[0]);
        } else {
          FileStep(w, acts[0]);
        }
      }
      assert v.manifest == w.manifest;
      RunInv(v, acts[1..]);
    }
  }

  // ---------------------------------------------------------------- what the body sees

  /** Every manifest name is listed once, and nothing in the middle of being put in place is. */
  lemma {:induction false} AnswerComplete(w: World, reader: Reader)
    requires Inv(w) && reader.Answered? && ReaderFits(w, reader)
    ensures var answer := Answer(reader);
            && NoDup(answer)
            && (forall n | n in w.manifest :: n in answer)
            && (forall n | n in answer :: !Marked(n) && (n in w.manifest || n in reader.may))
            && (forall n | n in reader.must && !Marked(n) :: n in answer)
  {
  }

  /**
    Whenever the data thread places files and bodies write, every listing names each manifest
    file once, no copy being put in place, and nothing that was never there.
  */
  lemma {:induction false} ListingsComplete(w0: World, acts: seq<Action>, r: nat)
    requires Registered(w0) && At(Run(w0, acts), r).Answered?
    ensures var answer := Answer(At(Run(w0, acts), r));
            && NoDup(answer)
            && (forall n | n in w0.manifest :: n in answer)
            && (forall n | n in answer :: !Marked(n) && (n in w0.manifest || n in At(Run(w0, acts), r).may))
  {
    RunInv(w0, acts);
    AnswerComplete(Run(w0, acts), At(Run(w0, acts), r));
  }

  /** No stat of a manifest file fails. */
  lemma {:induction false} StatsSucceed(w0: World, acts: seq<Action>, r: nat)
    requires Registered(w0) && At(Run(w0, acts), r).Stated? && At(Run(w0, acts), r).n in w0.manifest
    ensures !At(Run(w0, acts), r).outcome.Absent?
  {
    RunInv(w0, acts);
    var w := Run(w0, acts);
    assert ReaderFits(w, w.readers[r]);
  }

  /** A file whose own name has the marker is listed just while it is pending: the body loses it on arrival. */
  lemma {:induction false} MarkedNameExact(reader: Reader, n: Name)
    requires reader.Answered? && Marked(n)
    ensures n in Answer(reader) <==> n in reader.pending
  {
  }

  // ---------------------------------------------------------------- alone

  /** A stat with nothing in between: what is on disk, else the manifest's answer, else nothing. */
  lemma {:induction false} StatAlone(w: World, r: nat, n: Name)
    requires At(w, r).Resting?
    ensures var v := Run(w, [Stat(r, n), Ask(r), Again(r)]);
            && v == w.(readers := w.readers[r := At(v, r)])
            && At(v, r) == Stated(n, if n in w.disk then Real else if n in w.pending then Fake else Absent)
            && At(Step(v, Rest(r)), r).Resting?
  {
    var a := Step(w, Stat(r, n));
    var b := Step(a, Ask(r));
    var v := Step(b, Again(r));
    RunThree(w, Stat(r, n), Ask(r), Again(r));
    assert v.readers == w.readers[r := At(v, r)];
  }

  lemma {:induction false} RunThree(w: World, a: Action, b: Action, c: Action)
    ensures Run(w, [a, b, c]) == Step(Step(Step(w, a), b), c)
  {
    assert [a, b, c][1..] == [b, c] && [b, c][1..] == [c];
    assert Run(Step(Step(w, a), b), [c]) == Step(Step(Step(w, a), b), c);
  }

  /** A listing with nothing in between: the names that are there and unmarked, and the pending ones. */
  lemma {:induction false} ListingAlone(w: World, r: nat, order: seq<Name>, found: seq<Name>)
    requires At(w, r).Resting? && !w.placing && Lists(order, w.pending) && Lists(found, w.disk)
    ensures var v := Run(w, [Snapshot(r, order), Open(r), Listing(r, found)]);
            && v == w.(readers := w.readers[r := At(v, r)]) && At(v, r).Answered?
            && NoDup(Answer(At(v, r)))
            && forall n :: n in Answer(At(v, r)) <==> n in w.pending || (n in w.disk && !Marked(n))
  {
    var a := Step(w, Snapshot(r, order));
    var b := Step(a, Open(r));
    var v := Step(b, Listing(r, found));
    RunThree(w, Snapshot(r, order), Open(r), Listing(r, found));
    assert v.readers == w.readers[r := At(v, r)];
  }

  /** A placement with nothing in between puts the name on disk and out of the pending ones, and leaves no copy beside it. */
  lemma {:induction false} PlacedAlone(w: World, n: Name, who: string)
    requires !w.placing && n in w.pending
    ensures var v := Step(Step(Step(Step(w, Lock), Stage(n, who)), Land(n, who)), Clear(n));
            && v.disk == w.disk - {n + ".letify-placing." + who} + {n} && v.pending == w.pending - {n} && !v.placing
            && v.manifest == w.manifest && v.readers.Keys == w.readers.Keys
  {
    var s := Staged(n, who);
    var c := Step(Step(w, Lock), Stage(n, who));
    assert c.disk == w.disk + {s} && c.placing;
    assert Step(c, Land(n, who)).disk == w.disk + {s} - {s} + {n} == w.disk - {s} + {n};
  }

  /** One that fails leaves the name pending and no copy; a conversion leaves the name there and no copy. */
  lemma {:induction false} FailedAlone(w: World, n: Name, who: string)
    requires Staged(n, who) !in w.manifest
    ensures !w.placing && n in w.pending ==>
              var v := Step(Step(Step(w, Lock), Stage(n, who)), Fail(n, who));
              v.disk == w.disk - {n + ".letify-placing." + who} && v.pending == w.pending && !v.placing
    ensures n in w.manifest && n in w.disk ==>
              var v := Step(Step(w, Convert(n, who)), Converted(n, who));
              v.disk == w.disk - {n + ".letify-placing." + who} + {n} && v.pending == w.pending && v.placing == w.placing
  {
    var s := Staged(n, who);
    assert w.disk + {s} - {s} == w.disk - {s};
  }

  /** A body makes any file, and removes just those that are not the manifest's. */
  lemma {:induction false} BodyExact(w: World, n: Name)
    ensures Step(w, Make(n)).disk == w.disk + {n} && Step(w, Drop(n)).disk == w.disk - if n in w.manifest then {} else {n}
    ensures forall a | a == Make(n) || a == Drop(n) :: Step(w, a).pending == w.pending && Step(w, a).manifest == w.manifest
  {
  }

  // ---------------------------------------------------------------- at some time of the run

  lemma {:induction false} RunLast(w: World, acts: seq<Action>)
    requires acts != []
    ensures var k := |acts| - 1; Run(w, acts) == Step(Run(w, acts[..k]), acts[k])
    decreases |acts|
  {
    var k := |acts| - 1;
    if k > 0 {
      RunLast(Step(w, acts[0]), acts[1..]);
      assert acts[1..][..k - 1] == acts[..k][1..];
    }
  }

  /** The world after the first steps of a run. */
  ghost function After(w0: World, acts: seq<Action>, k: nat): World
    requires k <= |acts|
  {
    Run(w0, acts[..k])
  }

  /** The name was on disk at some time of the run. */
  ghost predicate WasThere(w0: World, acts: seq<Action>, n: Name) {
    exists k :: 0 <= k <= |acts| && n in After(w0, acts, k).disk
  }

  /** The name was pending at some time of the run. */
  ghost predicate WasPending(w0: World, acts: seq<Action>, n: Name) {
    exists k :: 0 <= k <= |acts| && n in After(w0, acts, k).pending
  }

  /** The name was missing on disk at some time of the run. */
  ghost predicate WasMissing(w0: World, acts: seq<Action>, n: Name) {
    exists k :: 0 <= k <= |acts| && n !in After(w0, acts, k).disk
  }

  ghost predicate Truthful(w0: World, acts: seq<Action>, reader: Reader) {
    match reader
    case Stated(n, outcome) =>
      (match outcome case Real => WasThere(w0, acts, n) case Fake => WasPending(w0, acts, n) case Absent => WasMissing(w0, acts, n))
    case Snapped(p) => AllPending(w0, acts, p)
    case Reading(p, _, may) => AllPending(w0, acts, p) && AllThere(w0, acts, may)
    case Answered(p, found, _, _) => AllPending(w0, acts, p) && AllThere(w0, acts, set n | n in found)
    case _ => true
  }

  ghost predicate AllPending(w0: World, acts: seq<Action>, p: seq<Name>) {
    forall n | n in p :: WasPending(w0, acts, n)
  }

  ghost predicate AllThere(w0: World, acts: seq<Action>, s: set<Name>) {
    forall n | n in s :: WasThere(w0, acts, n)
  }

  /** What was so before the last step still was so. */
  lemma {:induction false} WasBefore(w0: World, acts: seq<Action>, n: Name)
    requires acts != []
    ensures WasThere(w0, acts[..|acts| - 1], n) ==> WasThere(w0, acts, n)
    ensures WasPending(w0, acts[..|acts| - 1], n) ==> WasPending(w0, acts, n)
    ensures WasMissing(w0, acts[..|acts| - 1], n) ==> WasMissing(w0, acts, n)
  {
    var before := acts[..|acts| - 1];
    forall k | 0 <= k < |acts| ensures After(w0, before, k) == After(w0, acts, k) {
      assert before[..k] == acts[..k];
    }
  }

  /** And what is so now is so at some time. */
  lemma {:induction false} IsNow(w0: World, acts: seq<Action>, n: Name)
    ensures n in Run(w0, acts).disk ==> WasThere(w0, acts, n)
    ensures n in Run(w0, acts).pending ==> WasPending(w0, acts, n)
    ensures n !in Run(w0, acts).disk ==> WasMissing(w0, acts, n)
  {
    assert acts[..|acts|] == acts;
    assert After(w0, acts, |acts|) == Run(w0, acts);
  }

  lemma {:induction false} TruthfulBefore(w0: World, acts: seq<Action>, reader: Reader)
    requires acts != [] && Truthful(w0, acts[..|acts| - 1], reader)
    ensures Truthful(w0, acts, reader)
  {
    var before := acts[..|acts| - 1];
    forall n ensures (WasThere(w0, before, n) ==> WasThere(w0, acts, n)) && (WasPending(w0, before, n) ==> WasPending(w0, acts, n))
                     && (WasMissing(w0, before, n) ==> WasMissing(w0, acts, n))
    {
      WasBefore(w0, acts, n);
    }
  }

  /** A reader that takes no step notices at most what is on disk. */
  lemma {:induction false} TruthfulOnlooker(w0: World, acts: seq<Action>, disk: set<Name>, reader: Reader)
    requires Truthful(w0, acts, reader) && AllThere(w0, acts, disk)
    ensures Truthful(w0, acts, Noticed(reader, disk))
  {
  }

  lemma {:induction false} TruthfulStep(w0: World, acts: seq<Action>, u: World, a: Action, r: nat)
    requires Truthful(w0, acts, At(u, r)) && Enabled(u, a)
    requires AllThere(w0, acts, u.disk) && AllThere(w0, acts, Step(u, a).disk)
    requires forall n | n in u.pending :: WasPending(w0, acts, n)
    requires forall n | n !in u.disk :: WasMissing(w0, acts, n)
    ensures Truthful(w0, acts, At(Step(u, a), r))
  {
    var v := Step(u, a);
    if a.Stage? || a.Land? || a.Fail? || a.Convert? || a.Converted? || a.Make? || a.Drop? {
      TruthfulOnlooker(w0, acts, v.disk, At(u, r));
      assert At(v, r) == Noticed(At(u, r), v.disk);
    }
  }

  /**
    Every answer a body gets was true at some time: a stat finds a file that was on disk or pending, or
    says of one that was missing that it is, and every listed name was on disk or pending.
  */
  lemma {:induction false} AnswersTruthful(w0: World, acts: seq<Action>, r: nat)
    requires w0.readers == map[]
    ensures Truthful(w0, acts, At(Run(w0, acts), r))
    decreases |acts|
  {
    if acts != [] {
      var k := |acts| - 1;
      var u := Run(w0, acts[..k]);
      RunLast(w0, acts);
      AnswersTruthful(w0, acts[..k], r);
      TruthfulBefore(w0, acts, At(u, r));
      forall n ensures (n in u.disk ==> WasThere(w0, acts, n)) && (n in u.pending ==> WasPending(w0, acts, n))
                       && (n !in u.disk ==> WasMissing(w0, acts, n)) && (n in Step(u, acts[k]).disk ==> WasThere(w0, acts, n))
      {
        IsNow(w0, acts, n);
        IsNow(w0, acts[..k], n);
        WasBefore(w0, acts, n);
      }
      if Enabled(u, acts[k]) { TruthfulStep(w0, acts, u, acts[k], r); }
    }
  }

  /** A name without the marker that is on disk all the time is in every listing. */
  lemma {:induction false} StaysListed(w0: World, acts: seq<Action>, r: nat, n: Name)
    requires w0.readers == map[] && forall k | 0 <= k <= |acts| :: n in After(w0, acts, k).disk
    ensures var reader := At(Run(w0, acts), r);
            && (reader.Reading? ==> n in reader.must)
            && (reader.Answered? ==> n in reader.found && (!Marked(n) ==> n in Answer(reader)))
    decreases |acts|
  {
    assert acts[..|acts|] == acts;
    assert n in After(w0, acts, |acts|).disk;
    if acts != [] {
      var k := |acts| - 1;
      RunLast(w0, acts);
      forall j | 0 <= j <= k ensures n in After(w0, acts[..k], j).disk {
        assert acts[..k][..j] == acts[..j];
        assert n in After(w0, acts, j).disk;
      }
      StaysListed(w0, acts[..k], r, n);
    }
  }
}
