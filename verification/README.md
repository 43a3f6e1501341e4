# letify: a verified model of its protocols and allocators

letify ships Python calls to rented machines. This project models the parts of it whose
correctness does not show in any one function, and proves what they promise for every input,
every run and every interleaving.

- **The wire** (`Frames`, `Lanes`, `Striped`, `TextFrames`). Messages become a head frame and the
  frames of their buffers, the frames of many streams interleave on one byte stream, and the
  receiver reassembles each stream. A striped stream splits one byte stream over several lanes by
  offset and puts it back in order with back-pressure. Over a text-only transport a frame travels
  as lines of base64 (section 4 of RFC 4648).
- **The worker's data layer** (`DataCache`, `CacheLimits`, `CacheCommits`, `CacheBreaks`, `CacheOps`,
  `Listings`, `Eviction`, `OutputDrain`). Names, inodes and bytes are separate, so a cache file linked into a running
  call is one inode with two names and a write through either changes both. Uploads, seals, placements, conversions, body writes,
  collections and evictions interleave. Listings are taken while files arrive. The drain token is
  stripped from output that is read in arbitrary pieces.
- **The runtime pool and devices** (`Pool`, `RuntimePool`, `Devices`, `Calls`). Each critical
  section is one action and each gap between two sections is a place where any other activity may
  run. `RuntimePool` is the same pool as an object with shared session objects.
- **Two lock protocols** (`TlsPump`, `SessionCache`).
- **Text forms** (`ConfigWriter`, `ConfigEdits`, `Indices`, `OneShot`), with `Strings` and `Bytes` below them.
- **Elice machines** (`Machines`): how many runtimes each rented machine carries, and when it ends.

Where the code changes state step by step, a class has the same fields and its methods are proved
equal to functions on values; the protocol as a whole is a state machine (`Step`, `Run`) over those
functions in which every action that is not enabled changes nothing, so a theorem about
`Run(..., acts)` is about every sequence of actions.

## What the proofs found

Each of these is a lemma that says exactly when the behaviour is right; concrete states or inputs
show the other case.

The first group are ways the file cache can end up holding bytes whose digest is not its name. For
each, `CacheBreaks` gives a run from the empty cache, and `DataCache.Careful` has a guard that can be
checked before the step. `CacheLimits.GuardExact` says that the guards are exact: from a state reached by
guarded steps, a step leaves the cache right whatever guarded steps follow, of whatever kind, exactly when
it meets its own guard. So, the copy of an empty file apart, no guard can be dropped or weakened while
the others are kept, and together they are enough (`DataCache.CacheStaysCorrect`). The runs take a worker that may write files of mode
0444, as one running as root may. `_data_check_cache` drops a cache file it finds changed through its
link, but only those the call itself placed, and only when the call ends; until then another call can
be given it.

- A file is hashed at its name, and what is at that name some time later is renamed or copied into the
  cache. The cache is right after that exactly when the file there still has the bytes that were hashed
  (`CacheCommits.CommitExact`); what each step in between must meet for that is `CacheCommits.SteadyExact`.
  It fails when an output is replaced by a rename while it is polled or collected
  (`CacheBreaks.ReplacedPollBreaks`, `CacheBreaks.ReplacedMoveBreaks`), is written on
  (`CacheBreaks.LateOutputBreaks`, `CacheBreaks.CopyWriteBreaks`), or when a parallel upload begins over
  again after another seal renamed it (`CacheBreaks.TwoSealsBreak`).
- A ranged write that has the file open at any moment between the end of its hash and its rename can
  change what is committed, even one that begins after the hash and ends before the rename
  (`CacheCommits.SealWindowExact`, `CacheBreaks.LateWriteBreaks`, `CacheBreaks.OpenAcrossBreaks`); so can a
  write to a file part of which was hashed already (`CacheCommits.FillWriteExact`,
  `CacheCommits.WriteExact`), or an upload begun over again (`CacheCommits.BeginExact`).
- The body may rename or link a linked file to a path that will not be converted, and then writes
  into the cache through a patched open (`CacheLimits.BodyRenameExact`, `CacheLimits.BodyLinkExact`,
  `CacheBreaks.RenameBreaks`, `CacheBreaks.LinkBreaks`).
- An output that the body left open, or that has another name, is moved into the cache as it is, and
  can still be written (`CacheLimits.CollectMoveExact`, `CacheBreaks.OpenOutputBreaks`,
  `CacheBreaks.OtherNameBreaks`).
- When the copy of a conversion fails, the body's open goes through the link (`CacheLimits.FailedCopyExact`,
  `CacheBreaks.FailedCopyBreaks`); so does an open by a thread that outlives its call, which the
  patched functions no longer answer (`CacheLimits.UnseenExact`, `CacheBreaks.UnseenBreaks`).
- Uploads and collections of one digest in one process share a file name: an upload started over a
  collection's copy, or a copy opened over an upload or over another collection's finished copy, can
  commit an empty file (`CacheLimits.StartUploadExact`, `CacheLimits.CollectOpenExact`,
  `CacheBreaks.SharedUploadBreaks`, `CacheBreaks.SharedCopyBreaks`, `CacheBreaks.TwoCollectionsBreak`).
  Two collections that have still to copy do no harm.

The others:

- A call that registers while an eviction runs protects its digests from it only by their age or
  their links (`Eviction.LateListingExact`).
- A digest is reported held even when its file could not be touched, and then the report protects
  nothing (`Eviction.UntouchedGoes`).
- The file parallel senders fill lacks the marker the cache scan skips, so it counts as a cache
  file and only its age protects it (`Eviction.ParallelIsScanned`).
- A manifest file whose own name has the placing marker is listed only until it arrives
  (`Listings.MarkedNameExact`).
- The TLS reader leaves its bytes to the writer that holds the socket; they go with that write only
  if the writer has not drained the buffer yet, otherwise with a later one
  (`TlsPump.LeftBehindExact`). The comment at letify/providers/modal.py:564-565 promises the former.
- When a TLS send fails with bytes in hand, a writer's or the flush of a reader, they are lost, and the
  code lets the next send follow the gap (`TlsPump.FailedSendExact`).
- Starts of one Elice account share `_pending_machine`. A start is handed its own machine exactly when
  no other began or was counted since it was counted, or the last that did is on the same machine
  (`Machines.FinishExact`); otherwise it forgets its machine, which then is never ended
  (`Machines.OverlapLeaks`), or gets another's, which its stop then ends (`Machines.WrongMachine`). A
  start that fails while another is under way can end that one's machine (`Machines.FailSpares`,
  `Machines.OthersMachineEnds`, `Machines.LaunchingMachineEnds`). Two starts that share one machine
  are both right (`Machines.SharedMachine`).
- A list of indices with a repetition can print as a range with more cards
  (`Indices.RoundTripExact`, `Indices.RepetitionMisread`).
- A comment on a line of its own survives a rewrite, one after a setting's value does not
  (`ConfigWriter.SettingLineExact`, `ConfigWriter.InlineCommentLost`).
- `_digest_of` is documented as joining a shard directory and a name; the code answers the name
  alone, which is the digest, and the model follows the code.

## Model

| member | source | states |
|---|---|---|
| Bytes.UnpackPack | letify/protocol/wire.py:28 | the fixed-width integers of a header read back as the numbers written, for every number that fits |
| Frames.ParseEncode | letify/protocol/wire.py:250-258 | a frame followed by anything parses as that frame and leaves exactly what followed |
| Frames.ParseAllPrefix | letify/protocol/wire.py:347-379 | a byte stream of frames cut anywhere parses as a prefix of the frames, all of them when nothing is cut |
| Frames.FrameLayout | letify/protocol/wire.py:20-58 | byte for byte, a frame is the two letters, its type, a zero, its stream and its length as little-endian numbers, and the payload |
| Frames.ParseExact | letify/protocol/wire.py:347-365 | bytes hold a frame exactly when they begin so and are as long as they say, and it is the one they describe |
| Frames.ChunkAt | letify/protocol/wire.py:270-278 | buffer data is cut every 8 MiB and nowhere else, each part in a DATA frame of its stream |
| Frames.HeadLayout | letify/protocol/wire.py:260-278 | a head is the number of buffers, the length of each with the top bit set where it is to be `bytes`, and its own bytes |
| Frames.Demultiplexes | letify/protocol/wire.py:381-413 | if every stream's own frames are received without error, so is every interleaving of them |
| Frames.SameMessages | letify/protocol/wire.py:381-413 | the messages of a stream come out of an interleaving exactly as they come out of its own frames |
| Frames.OneMessage | letify/protocol/wire.py:270-278 | the frames of one message, with any number of buffers of any size, empty ones and marked lengths included, give that message and leave nothing open |
| Frames.EveryMessage | letify/protocol/wire.py:260-278 | messages sent one after another on a stream arrive whole and in order |
| Frames.PartOfStream | letify/protocol/wire.py:356-413 | frames of a stream that stop part-way give a prefix of its messages and no error |
| Frames.MultiplexRoundTrip | letify/protocol/wire.py:233-278 | for every interleaving of the streams' frames and every place the bytes stop, the receiver raises no error and each stream's messages are a prefix of those sent, all of them when its frames are complete |
| Frames.PlainRoundTrip | letify/protocol/wire.py:366-390 | whatever the interleaving and wherever the bytes stop, STDOUT, STDERR and HELLO frames are reported in order, each as its own kind with its payload, and SHUTDOWN with none |
| Frames.RefusedExact | letify/protocol/wire.py:366-413 | a frame is refused exactly when it is data for a stream without an open message or more than was declared, a head shorter than the lengths it declares, a hello that is not ASCII, or of an unknown type |
| Frames.ArrivesAsSent | letify/protocol/wire.py:381-413 | a message handed over has the kind, head and buffer data that were sent, and `bytes` just where they were marked and not empty |
| Frames.Outgoing.All | letify/protocol/wire.py:240-243 | however few bytes each write takes, all of the data is written, in order |
| Frames.Outgoing.SendFrame | letify/protocol/wire.py:250-258 | header and payload are written as the frame's encoding, in one write or two |
| Frames.Outgoing.Parts | letify/protocol/wire.py:270-278 | a message is written as the encodings of its head frame and of its buffers' chunks, in order |
| Frames.Receiver.Exact | letify/protocol/wire.py:347-354 | reads exactly the bytes asked however few each read gives, and fails exactly when the stream ends first |
| Frames.Receiver.NextEvent | letify/protocol/wire.py:356-390 | succeeds exactly when a whole frame is there and is acceptable, then has the state and event of `OnFrame`, which the round trips above and `RefusedExact` pin, and stands at the next frame |
| Frames.Receiver.ReadData | letify/protocol/wire.py:392-413 | data read straight into several buffers has the effect of the whole payload at once, and too much data is an error |
| Lanes.LaneCut | letify/protocol/wire.py:529-559 | a lane whose bytes stop anywhere gives the segments that arrived whole, in order, and is never taken for malformed |
| Lanes.SegmentLayout | letify/protocol/wire.py:488-495 | byte for byte, a segment is a header with type 8, its lane and its length, then its offset, then its bytes |
| Lanes.SegmentExact | letify/protocol/wire.py:529-559 | a lane reads on exactly with the segment its next bytes describe, ends malformed at another beginning, and ends otherwise at a short rest |
| Striped.SplitTiles | letify/protocol/wire.py:488-511 | one write becomes segments that cover exactly its bytes of the stream, without gap or overlap, on lanes that exist |
| Striped.SplitExact | letify/protocol/wire.py:497-511 | a write below 1 MiB or on one lane is one segment on lane 0; of any other the k-th segment is on lane k and each but the last has ceil(length / lanes) bytes |
| Striped.Striped.Send | letify/protocol/wire.py:488-519 | one segment on lane 0 below 0x100000 bytes or with one lane, else the k-th on lane k with ceil(length / lanes) bytes each but the last; the counter advances by the length |
| Striped.Striped.AdmitSection | letify/protocol/wire.py:541-545 | when a lane waits, gives up or reads on |
| Striped.Striped.StoreSection | letify/protocol/wire.py:549-555 | a piece is handed over unless its offset was seen, and the held count stays the sum of the pieces |
| Striped.Striped.End | letify/protocol/wire.py:521-527 | the stream ends at a malformed segment or with the last lane |
| Striped.Striped.RecvInto | letify/protocol/wire.py:561-579 | a read gives the next bytes in offset order, or waits, or reports the end, and takes exactly what it gave |
| Striped.FifoPrefix | letify/protocol/wire.py:488-579 | for every lane count, run and place where lanes end, what was read is a prefix of what was sent, and the stream never ends for a malformed segment while a lane reads |
| Striped.CleanEnd | letify/protocol/wire.py:561-579 | once every segment was handed over, the end is reported only after all bytes were read, and until then a read delivers more |
| Striped.AllOfIt | letify/protocol/wire.py:488-579 | after every run that left every segment handed over, reading on delivers exactly the bytes sent |
| Striped.Progress | letify/protocol/wire.py:529-579 | while a sent byte is undelivered, the consumer can read or the lane of the next offset can step, unless that lane's transport ended |
| Striped.LaneOfNext | letify/protocol/wire.py:541-545 | the lane that carries the next offset never waits |
| Striped.NeverStuck | letify/protocol/wire.py:488-579 | after every run that left every lane open, reader and consumer steps alone can deliver every byte sent |
| Striped.HeldBounded | letify/protocol/wire.py:418-419 | in every run the held bytes are at most STRIPE_HOLD plus (lanes + 1) times the largest segment |
| TextFrames.DecodeBase64 | letify/protocol/wire.py:292-298 | strict decoding undoes the encoding of every byte string |
| TextFrames.AlphabetExact | letify/protocol/wire.py:292-298 | the 64 symbols in their order, and nothing else reads as one |
| TextFrames.GroupBits | letify/protocol/wire.py:292-298 | the symbols of one to three bytes hold their bits from the highest on, with zeros and pads at the end |
| TextFrames.GroupAt | letify/protocol/wire.py:292-298 | each three bytes of the data are four symbols in their place |
| TextFrames.DecodeExact | letify/providers/modal.py:789-804 | a line is decoded exactly when it is whole groups of the alphabet, the last with up to two pads |
| TextFrames.StripExact | letify/providers/modal.py:789-804 | the whitespace at both ends of a line is taken off and nothing else |
| TextFrames.LinesExact | letify/providers/modal.py:789-804 | the lines put back with their ends are the text |
| TextFrames.SameStream | letify/protocol/wire.py:281-298 | decoded line by line, the text of any frames is the byte stream a Sender writes for them |
| TextFrames.TextCarriesFrames | letify/providers/modal.py:789-804 | so it is with any lines that are not base64 put in between |
| TextFrames.LinesAreShort | letify/protocol/wire.py:281-298 | no line is longer than 48 KiB |
| TextFrames.LineAt | letify/protocol/wire.py:292-298 | a frame is written as one line for each 36864 of its bytes and what is left, in their order |
| TextFrames.TextOutgoing.SendFrame | letify/protocol/wire.py:292-298 | the frame is written as its lines |
| TextFrames.ChunkReader.ReadInto | letify/protocol/wire.py:582-601 | reads of any size give the chunks' bytes in order, and nothing only at their end |
| OutputDrain.ChunkingIndependent | letify/protocol/worker.py:106-131 | what was sent before each token, after the last one, and what is withheld depend on the input alone, not on how reads split it |
| OutputDrain.NothingElseLost | letify/protocol/worker.py:114-124 | putting a token between the groups sent gives the input back: only tokens are removed |
| OutputDrain.ResidueFree | letify/protocol/worker.py:114-124 | no token is left in what follows the last removed one |
| OutputDrain.LeftmostFirst | letify/protocol/worker.py:114-124 | the token removed is always the first there is, also where two overlap |
| OutputDrain.HeldBack | letify/protocol/worker.py:73-79 | the longest end of the data that starts a token, and shorter than one |
| OutputDrain.Pump.Feed | letify/protocol/worker.py:112-131 | after any further read the groups sent, the bytes sent since and the withheld tail are those of the whole input |
| OutputDrain.Pump.Run | letify/protocol/worker.py:106-131 | so they are after any sequence of reads |
| DataCache.CacheStaysCorrect | letify/protocol/worker.py:401-454 | after every careful run of uploads, seals, placements, conversions, writes, collections and evictions, hashing and renaming being separate steps, every cache file named d holds bytes whose digest is d, and so does every file that was one, wherever it is still linked |
| DataCache.StepInv | letify/protocol/worker.py:1056-1181 | each single action keeps the invariant behind that, whatever the others are in the middle of |
| DataCache.CommittedSafe | letify/protocol/worker.py:653-664 | no action at all changes a file that was ever committed while the invariant holds |
| DataCache.SealAlone | letify/protocol/worker.py:867-900 | however the file is read, a seal with nothing else going on does what the operation does |
| CacheLimits.GuardExact | letify/protocol/worker.py:401-454 | from a state in order, a step of any kind leaves the cache right after whatever guarded steps follow just when it meets its guard |
| CacheLimits.FailedCopyExact | letify/protocol/worker.py:1150-1168 | after a failed conversion it stays right just when the cache's file is not at the path |
| CacheLimits.UnseenExact | letify/protocol/worker.py:1360-1368 | so it is with an open the patch does not answer, since the call is unregistered, pending or not |
| CacheLimits.BodyRenameExact | letify/protocol/worker.py:1134-1147 | after a rename by the body it stays right, whatever is opened, collected or sealed next, just when the file is not the cache's or goes to a path every opener of which has still to convert it |
| CacheLimits.BodyLinkExact | letify/protocol/worker.py:1134-1147 | so it is with a link by the body |
| CacheLimits.SealExact | letify/protocol/worker.py:867-900 | after a seal's rename it stays right just when the file at the name had the bytes that were hashed and no ranged write has it open |
| CacheLimits.CollectMoveExact | letify/protocol/worker.py:401-454 | after an output is moved into the cache it stays right just when the file at the name had the bytes that were hashed, none has it open for writing and its other names will be converted |
| CacheLimits.StartUploadExact | letify/protocol/worker.py:805-817 | when an upload starts it stays right just when no collection is copying that digest |
| CacheLimits.CollectOpenExact | letify/protocol/worker.py:438-451 | when a collection opens its copy it stays right just when the file at the name has the bytes that were hashed, that digest is not being uploaded, and no other collection of it has copied or lost its file to a rename |
| CacheLimits.CopyWriteExact | letify/protocol/worker.py:597-613 | when the body writes it stays right just when it changes no file that a collection has still to copy |
| CacheCommits.CommitExact | letify/protocol/worker.py:867-900 | a seal, a move or a copy leaves the cache right just when it takes nothing or the file at the name by then has the bytes that were hashed |
| CacheCommits.CommitAfterExact | letify/protocol/worker.py:520-545 | so it does after every guarded run from the empty cache |
| CacheCommits.SteadyExact | letify/protocol/worker.py:401-454 | whatever a write brings and however large a file begins, a step leaves the file at a name with its bytes just when it does not write it or begin it over, and what comes to the name has the same bytes |
| CacheCommits.SteadyCommits | letify/protocol/worker.py:401-454 | after any run of guarded steps that leave the file at the name so, the file goes into the cache rightly |
| CacheCommits.ReadsOn | letify/protocol/worker.py:372-385 | in whatever pieces a file is read on to its end, the hash has the same bytes |
| CacheCommits.FillWriteExact | letify/protocol/worker.py:849-893 | whatever a ranged write writes, reading on and sealing leaves the cache right just when it writes another file, or nothing was read yet, or what was read begins no file of that digest |
| CacheCommits.BeginExact | letify/protocol/worker.py:835-893 | so it is when an upload begins over again and is written, of whatever size |
| CacheCommits.WriteExact | letify/protocol/worker.py:372-454 | whatever a body writes, reading on and collecting leaves the cache right just when it writes another file, or nothing was read yet, or the hash is over and the output is not taken, by other than a poll |
| CacheCommits.SealWindowExact | letify/protocol/worker.py:835-900 | whatever other senders bring before and after the rename, the cache file is what was hashed just when at no moment from the end of the hash to the rename it is open or begun over again |
| CacheBreaks.RenameBreaks | letify/protocol/worker.py:1134-1147 | a run with a rename by the body and a patched open that makes a cache file wrong |
| CacheBreaks.LinkBreaks | letify/protocol/worker.py:1134-1147 | a run with a link by the body and a patched open that does so |
| CacheBreaks.FailedCopyBreaks | letify/protocol/worker.py:1150-1168 | a run with a failed copy that does so |
| CacheBreaks.UnseenBreaks | letify/protocol/worker.py:331-338 | a run with a thread that outlives its call that does so |
| CacheBreaks.OpenOutputBreaks | letify/protocol/worker.py:440-451 | a run with an output left open that does so |
| CacheBreaks.LateOutputBreaks | letify/protocol/worker.py:431-451 | a run with an output written between its hash and its move that does so |
| CacheBreaks.OtherNameBreaks | letify/protocol/worker.py:431-451 | a run with an output linked between its hash and its move that does so |
| CacheBreaks.ReplacedMoveBreaks | letify/protocol/worker.py:431-451 | a run with an output replaced between its hash and its move that does so |
| CacheBreaks.ReplacedPollBreaks | letify/protocol/worker.py:537-541 | a run with an output replaced between a poll's hash and its copy that does so |
| CacheBreaks.CopyWriteBreaks | letify/protocol/worker.py:597-613 | a run with an output written while it is copied that does so |
| CacheBreaks.SharedUploadBreaks | letify/protocol/worker.py:443-451 | a run with an upload started over a collection's copy that commits an empty file |
| CacheBreaks.SharedCopyBreaks | letify/protocol/worker.py:443-451 | a run with a copy opened over a checked upload that commits an empty file |
| CacheBreaks.TwoCollectionsBreak | letify/protocol/worker.py:443-451 | a run with a copy opened over another collection's that commits an empty file |
| CacheBreaks.LateWriteBreaks | letify/protocol/worker.py:849-900 | a run with a write that begins after the hash and ends before the rename, and leaves a wrong cache file |
| CacheBreaks.OpenAcrossBreaks | letify/protocol/worker.py:849-900 | a run with a write open across the rename that does so |
| CacheBreaks.TwoSealsBreak | letify/protocol/worker.py:835-900 | a run with two seals of one file that begins over again between their renames that commits zeros |
| DataCache.SequentialUpload | letify/protocol/worker.py:805-827 | a file sent in any pieces, the last one marked so, is in the cache afterwards with exactly those bytes, or, with a wrong digest, the upload is gone and the cache as it was |
| CacheOps.PieceExact | letify/protocol/worker.py:805-821 | a piece at offset zero starts the upload over, any other is appended, and without a start it is refused |
| CacheOps.LastPieceExact | letify/protocol/worker.py:805-827 | the last piece, which may be the only one, puts what was sent into the cache and answers that it is done exactly when it has the digest; else nothing is left of the upload and the cache is as it was |
| CacheOps.UnstartedPiece | letify/protocol/worker.py:812-819 | a piece of an upload that was never started is refused, the last one too, and nothing changes |
| CacheOps.SentInPieces | letify/protocol/worker.py:805-827 | so a file sent in any pieces, none or more before the last, is in the cache with exactly those bytes, or the digest is refused, no upload is left and every cache file is as it was |
| CacheOps.RangeExact | letify/protocol/worker.py:849-864 | a ranged write reaches the file parallel senders fill and nothing else, and without that file nothing happens |
| CacheOps.OverwriteAt | letify/protocol/worker.py:849-864 | after a write each byte is the new one where it writes, the old one elsewhere and zero in a gap |
| CacheOps.BeginExact | letify/protocol/worker.py:835-846 | an upload begins as zeros of its size, whatever was there |
| CacheOps.SealingExact | letify/protocol/worker.py:867-900 | a seal answers missing, short, wrong or done, and removes, commits or leaves the file accordingly, no other cache file changing |
| DataCache.RangesFill | letify/protocol/worker.py:849-864 | ranges written in any order, overlapping or not, leave the file's bytes wherever one covers and the rest untouched |
| DataCache.ParallelUpload | letify/protocol/worker.py:835-900 | once ranges covering the file have arrived, the seal succeeds and the cache file is the data |
| DataCache.PlaceGivesBytes | letify/protocol/worker.py:1068-1131 | placing puts bytes of the manifest's digest at the path, aliasing the cache file exactly when a link was made |
| CacheOps.PlaceExact | letify/protocol/worker.py:1068-1131 | no other name changes and no file, and the path is the cache file itself exactly when it was linked |
| CacheOps.PlaceAlone | letify/protocol/worker.py:1068-1131 | the steps of a placement with nothing in between are the operation |
| DataCache.PrivateIsolates | letify/protocol/worker.py:1134-1168 | a conversion leaves the same bytes at the path in a file of its own and every cache file as it was |
| CacheOps.ConvertExact | letify/protocol/worker.py:1134-1168 | after the steps of a conversion the path is a file no other name has, with the bytes it had; its copy is gone, the cache is as it was and the thread may open it |
| CacheOps.ConvertAlone | letify/protocol/worker.py:1134-1168 | with nothing in between they are the operation |
| CacheOps.OpenExact | letify/protocol/worker.py:1377-1394 | an open for writing keeps the file at the path or makes an empty one, and opens that |
| CacheOps.WritesExact | letify/protocol/worker.py:1377-1394 | what a body writes is in the file it has open and in no other |
| CacheOps.HashBegins | letify/protocol/worker.py:420-431 | a collection begins with the size the file has and whether it has another name |
| CacheOps.MoveExact | letify/protocol/worker.py:431-454 | an output of one name whose digest is not held with its size, and that the call did not place there itself, is moved into the cache; any other stays |
| CacheOps.CopyOutExact | letify/protocol/worker.py:438-451 | one of several names, or of a running call, is copied into the cache and stays at its path |
| CacheOps.NamesExact | letify/protocol/worker.py:743-776 | an eviction and what a body removes, links or renames change just those names, and no file |
| DataCache.Worker.Put | letify/protocol/worker.py:805-827 | what one piece does to the files and which answer it gets, as the functions of `PieceExact` and `LastPieceExact` |
| DataCache.Worker.PutAt | letify/protocol/worker.py:849-864 | what one ranged write does |
| DataCache.Worker.Sealing | letify/protocol/worker.py:867-900 | what a seal does for a missing, short, wrong or right file |
| DataCache.Worker.Place | letify/protocol/worker.py:1068-1131 | what a placement does, and that it answers whether the path is no longer pending |
| DataCache.Worker.PrivateCopy | letify/protocol/worker.py:1134-1168 | what an undisturbed conversion does |
| Listings.ListingsComplete | letify/protocol/worker.py:1396-1444 | whatever is placed, converted or written meanwhile, a listing has each manifest name once, no name being put in place and nothing that was never there |
| Listings.StatsSucceed | letify/protocol/worker.py:1446-1471 | no stat of a manifest file fails, at whatever moment the file is placed |
| Listings.MarkedNameExact | letify/protocol/worker.py:1426 | a file whose own name has the marker is listed just while it is pending |
| Listings.ScannedAsListed | letify/protocol/worker.py:1432-1444 | testing only against the real names gives the same answer as testing against the growing list |
| Listings.ListedInOrder | letify/protocol/worker.py:1419-1431 | the real names come first in their order, then in theirs the pending ones that are not among them |
| Listings.AnswersTruthful | letify/protocol/worker.py:1419-1464 | in every run a stat or a listing answers only what was so at some time: a file on disk, a pending one, or one that was missing |
| Listings.StaysListed | letify/protocol/worker.py:1419-1431 | a file on disk all along is in every listing |
| Listings.StatAlone | letify/protocol/worker.py:1446-1464 | a stat answers the file, else the manifest for a pending name, else that there is none |
| Listings.ListingAlone | letify/protocol/worker.py:1419-1444 | a listing has just the pending names and the real ones without the marker |
| Listings.PlacedAlone | letify/protocol/worker.py:1088-1131 | a placement puts the name on disk and out of the pending ones and leaves no copy |
| Listings.Listed | letify/protocol/worker.py:1419-1430 | the loop appends exactly the pending names that are not listed |
| Listings.Scanned | letify/protocol/worker.py:1432-1444 | so does the loop over entries |
| Eviction.Sweep | letify/protocol/worker.py:743-776 | what it removes of the scanned files is fair as `SweepExact` says, on the fields of each, and its total is what is left |
| Eviction.SweepExact | letify/protocol/worker.py:743-776 | no removed file has a second link, was used within the recent window, is listed by a call or is the name to keep; each other removable file is removed, or the total ended within the budget and no older one was spared; the last removal was needed |
| Eviction.SweptAlone | letify/protocol/worker.py:743-776 | the sweep step by step with nothing in between is that sweep |
| Eviction.SweptAreUnprotected | letify/protocol/worker.py:764-770 | no protected or unremovable file goes |
| Eviction.SweptIsPrefix | letify/protocol/worker.py:760-773 | what goes is all that may go up to some point of the oldest-first order, and stopping before its end means being within the budget |
| Eviction.OldestFirst | letify/protocol/worker.py:760-770 | a file that may go is removed before any used later |
| Eviction.SweptIsMinimal | letify/protocol/worker.py:762-763 | every removal was made while the total was over the budget |
| Eviction.WithinOrStuck | letify/protocol/worker.py:1905-1928 | afterwards the total is within the budget or nothing is left that may go |
| Eviction.SortSorted | letify/protocol/worker.py:760 | the order is oldest first and a permutation of the scan |
| Eviction.Have | letify/protocol/worker.py:667-679 | reports exactly the digests held with the size asked, touching those it may |
| Eviction.ListedSurvives | letify/protocol/worker.py:730-740 | one sweep never evicts a digest that was listed when it read what is in flight |
| Eviction.ListedStays | letify/protocol/worker.py:730-773 | however calls, arrivals and sweeps interleave, a digest listed before a sweep reads what is in flight stays for as long as it is listed |
| Eviction.LateListingExact | letify/protocol/worker.py:730-773 | one listed while a sweep runs is safe from it just when the sweep is over anyway or protects the rest of it for another reason |
| Eviction.ReportedSurvives | letify/protocol/worker.py:667-679 | a digest reported held and touched is not evicted within the recent window |
| Eviction.UntouchedGoes | letify/protocol/worker.py:673-678 | one that could not be touched goes, with no budget, just when it would have gone without the report |
| Eviction.ParallelIsScanned | letify/protocol/worker.py:830-832 | the file parallel senders fill is scanned as a cache file and protected just by its age |
| Devices.ReserveKeeps | letify/providers/base.py:191-214 | a reservation takes exactly what was asked of what was free, or nothing, and the tables stay what is out |
| Devices.RefusedExactly | letify/providers/base.py:201-212 | it is refused, changing nothing, just when fewer are free than asked |
| Devices.GrantsFirstFree | letify/providers/base.py:200-208 | the indices granted are the first free ones of the registered list, in its order |
| Devices.UnreserveKeeps | letify/providers/base.py:216-234 | giving any grant back undoes it, whatever was granted or given back in between |
| Devices.Provider.Reserve | letify/providers/base.py:191-214 | the answer and the new tables |
| Devices.Provider.Unreserve | letify/providers/base.py:216-234 | the new tables |
| Pool.Conservation | letify/runtime/pool.py:87-297 | in every run, shutdowns included, the devices counted as taken are exactly those of the grants that are out, none twice, within the inventory, each with one registered session or one activity |
| Pool.GivenBackOnce | letify/runtime/pool.py:226-290 | every step that gives devices back finds the grant out, and it is never out again |
| Pool.Exclusive | letify/runtime/pool.py:107-111 | no two callers ever have one session |
| Pool.Lifetime | letify/runtime/pool.py:68-83 | in every run, whenever no hold is open, each idle session has an activity on its way to discarding it |
| Pool.Quiescent | letify/runtime/pool.py:197-276 | once every activity is over and no hold is open, no session is registered and no device is taken |
| Pool.DepthCounts | letify/runtime/pool.py:68-83 | without shutdown the hold depth is the number of holds open |
| Pool.WaitsForSomeone | letify/runtime/pool.py:145-195 | the test that decides a wait holds just when what is asked can exist and another activity is starting or using a session on that accelerator |
| Pool.StarvedCall | letify/runtime/pool.py:126-143 | in every run a call that could reserve nothing looks on when an idle session of its key is registered, waits exactly when none is, what it asks can exist and another activity is starting or using a session there, and is refused otherwise |
| Pool.AcquireEnds | letify/runtime/pool.py:87-143 | in every run a call leaves acquire only with an idle session it took, one it started, an error of its start, or that refusal |
| Pool.VerdictExact | letify/runtime/pool.py:145-195 | whether it is told that the slot never has as many, to wait, that idle sessions keep the devices, or that others have them |
| Pool.ReserveGoes | letify/runtime/pool.py:112-131 | in every run it gets devices exactly when the accelerator is known and as many are free |
| Pool.StartGoes | letify/runtime/pool.py:119-131 | a start that succeeds registers its session in use, one that fails gives its devices back and raises |
| Pool.ReleaseGoes | letify/runtime/pool.py:197-207 | a call that is over leaves its session idle, and goes on to discard it when no hold is open |
| Pool.DiscardGoes | letify/runtime/pool.py:209-236 | a discard takes the session out unless it is used, held or gone, then gives its devices back and then ends it |
| Pool.UnholdGoes | letify/runtime/pool.py:77-83 | the last hold that closes sweeps the sessions that are idle then, an earlier one none |
| Pool.ShutdownGoes | letify/runtime/pool.py:278-297 | in every run a shutdown empties the pool at once and gives the devices of every session back |
| RuntimePool.Pool.TakeIdle | letify/runtime/pool.py:107-111 | hands out the first idle session of the key, marked busy, or nothing when all are busy, touching no other |
| RuntimePool.Pool.Register | letify/runtime/pool.py:252-256 | the session joins its bucket at the end, busy |
| RuntimePool.Pool.TakeOut | letify/runtime/pool.py:217-225 | which sessions a discard leaves alone, and that it removes just the one |
| RuntimePool.Pool.Release | letify/runtime/pool.py:197-207 | the session is idle, and leaves the pool exactly when no hold is open |
| RuntimePool.Pool.ListIdle | letify/runtime/pool.py:265-271 | lists just the idle registered sessions |
| RuntimePool.Pool.Unhold | letify/runtime/pool.py:77-83 | when the last hold closes every idle session leaves and no busy one does |
| RuntimePool.Pool.Clear | letify/runtime/pool.py:283-286 | everything leaves, whatever it is doing |
| Calls.RunOne | letify/declare/function.py:151-208 | every session acquired is given back once before the next, lost ones are discarded, and the answer is that of the first attempt that was not lost |
| TlsPump.BytesInOrder | letify/providers/modal.py:472-575 | until a send fails with bytes in hand, bytes on the socket, then those drained by the holder of the wire lock, then those buffered are what the TLS object produced, in order |
| TlsPump.FailedSendExact | letify/providers/modal.py:522-575 | after a failed send, a writer's or a reader's flush, the next one keeps the socket in order just when everything drained had been taken |
| TlsPump.QuietSocket | letify/providers/modal.py:522-533 | until somebody sends again the socket has the beginning of what was produced |
| TlsPump.OneSender | letify/providers/modal.py:524-533 | at most one thread has the wire lock at a time |
| TlsPump.ReaderNeverWaits | letify/providers/modal.py:535-575 | whatever writers do meanwhile, a reading thread between two visits to the socket has a step it can take, and is through in at most four |
| TlsPump.SendCarries | letify/providers/modal.py:527-532 | a send that had still to drain leaves nothing buffered behind it |
| TlsPump.SendsEnd | letify/providers/modal.py:522-575 | however a send ends the wire lock is free again, and a read that has enough answers, any other goes on to the socket |
| TlsPump.ReadAlone | letify/providers/modal.py:535-575 | a read with nobody sending puts everything produced so far on the socket |
| TlsPump.LeftBehindExact | letify/providers/modal.py:561-575 | bytes the reader could not flush go with the holder's send just when it had not drained yet |
| TlsPump.LeftBehind | letify/providers/modal.py:561-575 | a run after which nobody sends and the reader's bytes are still buffered |
| TlsPump.TlsObject.ReadInto | letify/providers/modal.py:541-552 | the view gets the next decrypted bytes as far as there are any, and the end only when it is the end |
| SessionCache.FactoriesApart | letify/declare/cache.py:26-46 | two threads never run a factory for one key at the same time |
| SessionCache.BuiltOnce | letify/declare/cache.py:26-46 | however many ask and however many factories fail, at most one succeeds per key |
| SessionCache.OneValue | letify/declare/cache.py:26-46 | every caller that returns has the stored value |
| SessionCache.FoundIsReturned | letify/declare/cache.py:33-41 | in every run a caller that finds a value gets it, before the lock and again inside it, and otherwise runs the factory |
| SessionCache.BuiltIsReturned | letify/declare/cache.py:37-46 | in every run what a factory returns is what its caller gets and what is stored, and one that raises makes its caller raise and stores nothing |
| SessionCache.ValueStays | letify/declare/cache.py:43-44 | a stored value is never replaced |
| SessionCache.StillBuildable | letify/declare/cache.py:29-32 | a key that failed can be built by the next caller |
| ConfigWriter.OwnTable | letify/config/writer.py:83-130 | after a write the alias's settings are exactly those given a value, as rendered |
| ConfigEdits.RestUnchanged | letify/config/writer.py:83-93 | every character outside the table stays as it was; a new table comes after all of them |
| ConfigEdits.StartExact | letify/config/writer.py:62-67 | the table begins at the first line that is the alias in brackets and nothing but whitespace after it |
| ConfigEdits.TableEnds | letify/config/writer.py:68-80 | it ends with the file, or above the comments and empty lines before the next header |
| ConfigEdits.SeparatorExact | letify/config/writer.py:87-91 | a new table is set off by one empty line, with no more line feeds than that needs |
| ConfigEdits.BlockChars | letify/config/writer.py:52-59 | a new table is its header and a line for each setting given a value, in order |
| ConfigEdits.OrderedByKey | letify/config/writer.py:52-59 | kind is first and the others are by key, none more and none less |
| ConfigEdits.NewSettingsGo | letify/config/writer.py:119-130 | settings the table did not have come after the last one that stays, or after the header, and the line above them is ended |
| ConfigEdits.LineRewritten | letify/config/writer.py:105-118 | each line by itself: no setting stays, a setting gets its value, one without a value goes |
| ConfigEdits.SettingIs | letify/config/writer.py:108-113 | a line is a setting just when it is not empty, no comment and has an equals sign |
| ConfigEdits.NameExact | letify/config/writer.py:113-114 | its name is what stands before the first equals sign, without the whitespace around it |
| ConfigEdits.RemovedExact | letify/config/writer.py:133-139 | a removal takes the characters of the table, and the line feeds the file would begin with |
| ConfigWriter.EachOnce | letify/config/writer.py:96-130 | and each stands once, if each did before |
| ConfigWriter.OtherTables | letify/config/writer.py:83-93 | no setting of any other table changes, nor their order |
| ConfigWriter.CommentsSurvive | letify/config/writer.py:108-112 | within the table every line that is not a setting stays, in order, empty lines included |
| ConfigWriter.SettingLineExact | letify/config/writer.py:113-118 | a setting's line stays as the user wrote it just when that is how it is rendered |
| ConfigWriter.InlineCommentLost | letify/config/writer.py:113-118 | a comment after a value is lost when the setting is written |
| ConfigWriter.NotesSurvive | letify/config/writer.py:62-93 | every comment and header of the file survives a write, in order; a new table adds its header |
| ConfigWriter.WriteTwice | letify/config/writer.py:83-130 | writing the same settings twice is writing them once, to the character |
| ConfigWriter.SpanJoins | letify/config/writer.py:62-80 | the table and what follows it put together are the file from the header on |
| ConfigWriter.SpanKeys | letify/config/writer.py:68-80 | the table found has the settings of the first table the alias opens, up to the next header |
| ConfigWriter.MergeLines | letify/config/writer.py:96-130 | the pass over the lines computes the specified rewrite |
| ConfigWriter.RemoveLeavesOthers | letify/config/writer.py:133-139 | removing a table changes no setting of any other |
| ConfigWriter.RenderIsKey | letify/config/writer.py:118 | a written setting reads back as a setting of its own name |
| ConfigWriter.QuoteReadsBack | letify/config/writer.py:46-49 | a quoted string reads back as its text and ends where it ended |
| Indices.RoundTripExact | letify/config/login.py:360-365 | what is printed reads back as the indices sorted, each once, just when a list with a repetition was not taken for a range |
| Indices.SetRoundTrip | letify/config/login.py:360-365 | for distinct indices it always does |
| Indices.RepetitionMisread | letify/config/login.py:362-365 | the list 0, 0, 2 reads back as three cards |
| Indices.ReadsWhatItNames | letify/config/inventory.py:42-62 | every accepted text reads as the strictly increasing list of exactly the numbers its entries name |
| Indices.ReadIndices | letify/config/inventory.py:42-62 | the loop over entries accepts and refuses as specified |
| Indices.RefusedExactly | letify/config/inventory.py:42-62 | a text is refused just when one of its entries is |
| Indices.NumberEntry | letify/config/inventory.py:58-59 | digits with whitespace around them are their number |
| Indices.RangeEntry | letify/config/inventory.py:51-57 | two of them around a dash are every number between, and refused when they run backwards |
| Indices.EntryForms | letify/config/inventory.py:46-62 | no other entry is accepted |
| Indices.CompactExact | letify/config/login.py:360-365 | more than one index that span their number minus one print as first, dash and last, all others one by one with commas |
| Indices.SortedSetExact | letify/config/inventory.py:65-70 | the checked indices are strictly increasing and just those found |
| OneShot.OutcomeFound | letify/protocol/codec.py:241-251 | whatever the user printed, markers and parts of them included, the outcome found is the one emitted and the rest is the user's output with only the marked span gone |
| OneShot.MarkersStart | letify/protocol/codec.py:32-33 | inside what the driver wrote, a marker starts only where one was written |
| OneShot.NoMarker | letify/protocol/codec.py:243-245 | without a begin marker there is no outcome and the output is unchanged |
| OneShot.SplitExact | letify/protocol/codec.py:241-251 | of any output, from the last begin marker to the end of the first end marker after it is taken out, and the text between them is the outcome without the whitespace around it |
| OneShot.NoEnd | letify/protocol/codec.py:246-248 | without an end marker after it there is no outcome and the output is unchanged |
| Machines.StepExact | letify/providers/elice.py:710-767 | every step, whatever starts overlap, keeps all counts and each runtime's machine right just when its guard holds |
| Machines.GuardedCounts | letify/providers/elice.py:926-1012 | over every run in which finishing and failing starts find their own machine, overlapping ones included, each count is the runtimes and counted starts on its machine |
| Machines.CountsAreRuntimes | letify/providers/elice.py:710-767 | in particular over every run of starts one at a time, failed starts, stops and preemptions |
| Machines.StopEndsLast | letify/providers/elice.py:995-1012 | stopping a runtime ends its machine just when it is the last there and the machine was not taken back |
| Machines.FailedStartEnds | letify/providers/elice.py:979-993 | a failed start ends the machine it counted on, launched or started just when no runtime is left there |
| Machines.CountedExact | letify/providers/elice.py:763-767 | what a counted session changes: one more on its machine, which runs and was not taken back |
| Machines.StoppedExact | letify/providers/elice.py:995-1012 | what a stop changes: one fewer, and the machine ends with its last unless it was taken back |
| Machines.FailedExact | letify/providers/elice.py:979-993 | what a failed start changes: one fewer where it counted, and the machine ends when none is left; one it only launched ends when nobody is counted there |
| Machines.OverlapLeaks | letify/providers/elice.py:926-943 | two overlapping starts after which a machine counts as held though nothing runs on it |
| Machines.FinishExact | letify/providers/elice.py:926-943 | whatever other starts do between a start's count and its end, it is handed its own machine just when none began or was counted since, or the last that did was counted on the same machine |
| Machines.FailSpares | letify/providers/elice.py:979-993 | a failing start leaves another's machine alone and its count right just when it finds that machine pending exactly if it is counted on it too |
| Machines.FailEnds | letify/providers/elice.py:979-993 | it ends it just when it finds it pending and nobody else is counted on it |
| Machines.FailEndsLaunching | letify/providers/elice.py:979-993 | a machine another start has launched, nobody counted on it, is ended just when it was noted last |
| Machines.WrongMachine | letify/providers/elice.py:926-943 | a run in which nobody began after a start was counted, yet it is handed another's machine and its stop ends that one |
| Machines.WrongMachineEnds | letify/providers/elice.py:979-993 | the same with a failure instead, which ends the other's machine and leaks its own |
| Machines.OthersMachineEnds | letify/providers/elice.py:979-993 | a failing start that was counted nowhere ends the machine another is on |
| Machines.LaunchingMachineEnds | letify/providers/elice.py:979-993 | one that touched nothing ends the machine another is launching |
| Machines.SharedMachine | letify/providers/elice.py:725-741 | two overlapping starts that share one machine are both handed it |
| Machines.Provider.Counted | letify/providers/elice.py:763-767 | what the end of a successful session start records |
| Machines.Provider.ReleaseFailedStart | letify/providers/elice.py:979-993 | what a failed start gives up, and which machine it ends |
| Machines.Provider.Stop | letify/providers/elice.py:995-1012 | what a stop gives up, and which machine it ends |
| Machines.Provider.Diagnose | letify/providers/elice.py:1034-1070 | which failures are preemptions, and what is remembered |

## Left out

- Striped.Striped.Send: writes after a failed lane write, where the code keeps an error for later sends, are not modelled; an empty write is excluded, because `Sender` never makes one and it would use an offset twice.
- Striped.NeverStuck: says that a schedule exists, not that a scheduler takes it; timeouts of `recv_into` are not modelled.
- Frames.MultiplexRoundTrip: at most one message is open on a stream at a time, and an empty marked buffer arrives as a `bytearray`, as in the code.
- Frames.Receiver.NextEvent: after an error the receiver's state is not specified, since the connection is given up.
- OutputDrain.Pump.Run: ends with a withheld tail, which the code drops at the end of its input; a failing send ends the thread and is not modelled.
- DataCache.CacheStaysCorrect: assumes a hasher is present and the guards of `DataCache.Careful`; the body writes only by opening paths; the upload names are those of one process, for another's have its number in them; `_op_data_pull`, whose names have the thread in them too, is an upload without collections. A copy reads its source in one step, which loses nothing, for until then the guard lets nobody change it. `_op_data_output_poll` is the collection that copies whatever names the file has; the timing by which it decides that a file is complete is left out. `_data_check_cache` removes a file as `Evict` does.
- CacheLimits.GuardExact: for a digest that tells any two files apart; of a collection's copy, for a file that is not empty: of an empty one the guard asks more than it must, for a finished copy or a checked upload of it is empty as well.
- CacheLimits.CollectOpenExact: likewise for a file that is not empty.
- CacheCommits.FillWriteExact: like `CacheCommits.BeginExact` and `CacheCommits.WriteExact` while the hashed file is at its name; `CacheCommits.CommitExact` has the other cases.
- DataCache.StepInv: staged names inside one placement are one step, for no reader of names takes part here; `Listings` has them apart.
- Listings.ListingsComplete: one directory, whose manifest names do not contain the marker and are not removed by the body.
- Eviction.ReportedSurvives: the report comes before the eviction's scan; a touch after the scan is not seen by it, because the sweep decides on scanned values.
- Eviction.Sweep: links made between scan and removal are not modelled.
- Pool.Lifetime: which idle session a caller gets, and whether a start or a shutdown succeeds, are free choices of the run; the refusal texts are not modelled.
- Pool.Conservation: devices are given back before the session is shut down, as in the code, so it is about reservations and not about processes.
- Calls.RunOne: attempts are given as their outcomes; which outcomes the pool can give is in `Pool`, whose activities acquire, retry and give back by themselves; diagnosis, log output and `_run_replicas` are not modelled.
- TlsPump.BytesInOrder: the TLS object is arbitrary bytes appended to its output; the handshake's exchange is not modelled.
- TlsPump.FailedSendExact: a failed send may have been a timeout, so the socket may take bytes afterwards; whether it does is a free choice of the run.
- SessionCache.StillBuildable: a factory that asks for its own key in the same thread waits for itself, as in the code.
- ConfigWriter.OwnTable: bare keys and values on one line; only the line feed ends a line.
- ConfigWriter.QuoteReadsBack: numbers, lists and inline tables of `format_value` are taken as rendered texts.
- Indices.Read: ASCII digits and whitespace only; the list form of `read_indices` and the rest of a device table are left out.
- OneShot.OutcomeFound: nothing is printed after the driver's outcome.
- Machines.GuardedCounts: Elice's own answers are free choices of the run.
- Pickling, tensors, ctypes allocation and pipe sizes: byte strings at the boundary.
- Hashes and TLS cryptography: an arbitrary digest function, and arbitrary bytes.
- Provider command lines, HTTP, SSH, logins, environments and installers: plumbing.
- `DigestCache`, `group_devices`, telemetry, rendering, usage tables and the spawned-process patch: easier members of their files.
