# Bus services over DCP2: a verified model

The repository is firmware for a board that exposes its buses to a host: MDIO, I2C, an SD card and a file system
behind one framed protocol, DCP2, with Python clients on the other end. This project models the parts of it that are
state machines or codecs and proves what they are for. `dafny verify dfyconfig.toml` checks all of it.

**CACHE replication** (`cache_*.dfy`, `framing.dfy`). A registry of devices keeps one catalog of values per device and a
ring of the last 512 changes. A session serves frozen snapshots page by page and then streams the changes behind them;
a client rebuilds its own copy. Registry, session and client are one step system with a first-in-first-out channel and a
ghost record of every state each catalog ever went through. The main theorems hold for every run, whatever is defined,
changed, requested, polled, received or dropped in between: a replica the client calls synchronized is exactly a past
state of its device, at the generation and revision it names (`CacheRuns.SynchronizedIsPastState`); it is the present
state once the server has nothing more to say (`CacheRuns.CaughtUpIsCurrent`); the client never meets a frame it cannot
decode or a page that contradicts an earlier one (`CacheRuns.NeverRejected`). Against a peer that sends anything at all,
each subscription shows its observer contiguous pages, then contiguous revisions, then at most one RESYNC
(`CacheShape.ShapeFromTheStart`). Registry, session, decoders and receive buffer are also written as the classes and
loops they are, over arrays, and proved against the functions these theorems speak of.

**FS streaming** (`fs_*.dfy`). A resumable generator walks a tree and emits a file, a listing or a tar archive into
blocks of any size. Whatever the block sizes and however short the backend's reads, the blocks put together are the
stream of a recursive preorder walk, every block but the last is full, the end is marked exactly at the end, an error is
the one the walk must meet, and no handle is left open. Over it, two slots serve blocks with retries: a block asked for
twice is answered with the same bytes. Independent readers close the circle: the client's own loop over the listing, and
a ustar/pax reader written from IEEE Std 1003.1, recover exactly the walk.

**Events and SD card** (`journal.dfy`, `sd_service.dfy`). Cursors over bounded rings account for every event; the SD
service is judged by the trace of driver calls it makes, against an observer that says when a command is permitted.

**MDIO** (`mdio_*.dfy`). The service keeps three copies of every register: its cache, the bank a host reads, and the
registry. They agree after every operation, whatever the bus does, as long as publication has not failed
(`MdioService.Service.Step`). The third copy is what the registry of the CACHE theorems shows, through any run of the
bridge's callbacks and without one of them failing (`MdioBridge.MirrorAlways`).

**Device profiles** (`profile_*.dfy`, `json_*.dfy`, `schema_probe.dfy`, `mdio_file.dfy`, `mdio_accepted.dfy`). A device's
configuration is a JSON text, of version 2 for both buses or, for MDIO, of the older format. Each format has a strict reader and a printer,
written as functions and as the scanner, the section readers and the buffer writer they are. Every profile that is read
from any text at all can be printed, if it fits, and read again without any loss (`ProfileRoundTrip.Reprinted`). Every
valid profile that is printed reads back as its canonical form exactly when its texts are UTF-8
(`ProfileRoundTrip.ReadsBack`), and canonical form changes nothing a bus can see. A gate looks for the version ahead of
the readers: everything printed in either format passes it and reaches the right reader (`MdioFile.OlderReadsBack`,
`MdioFile.NewerReadsBack`), so a file read in the older format can be kept in the newer one (`MdioFile.KeptReadsBack`).
Which texts of the older format are accepted behind the gate is known exactly (`MdioAccepted.AcceptanceCarriesOver`).

**I2C** (`i2c_*.dfy`). Policy lists that refine sets of pairs, and the pointer machine a bus master talks to, with an
audit of every byte.

**Line editor** (`line_editor.dfy`, `terminal.dfy`). Every edit prints only what changed; the terminal shows what a full
redraw would have shown.

## How to read it

State that the source updates in place is a class; its methods are proved against functions on values, and the theorems
are lemmas about those functions. `Valid()` ties the fields to the abstract value. A failing driver, bus, disk or clock
is an unconstrained oracle indexed by a tick, so every statement holds for every pattern of failures. `Faultless()` on
the storage backend means that no call fails of its own accord; it never limits how short a read may be.

## What the model brought to light

These are properties of the code as written, kept in the model and visible in the contracts.

- The version 2 printer prints whatever bytes a model, vendor or label holds; the reader takes UTF-8 only. A valid
  configuration with other bytes is printed with success into a text that is refused as malformed
  (`ProfileExample.ExampleRefused`; the exact condition for all inputs is `ProfileRoundTrip.ReadsBack`).
- The older MDIO reader accepts texts that are refused as files: it skips vertical tabs and form feeds between tokens,
  the version gate does not, and the gate is bounded by 65536 bytes, the reader is not. Exactly these texts are lost
  (`MdioAccepted.AcceptanceCarriesOver`; `MdioAccepted.TabRefused`, `MdioAccepted.FeedRefused` and
  `MdioAccepted.LengthRefused` show one of each kind for every configuration).
- A TREE stream whose last record fills a block exactly needs one more, empty block to carry the end mark, while FILE
  and TAR streams mark the end on the full block (`FsSession.ExactFill`, with the disk of `FsSession.OneRecord`; in
  general `FsReader.Reader.Read`).
- With the last of the 2^32 - 1 handle numbers an OPEN succeeds and the same OPEN repeated is answered BUSY, although
  the handle is there (`FsService.Session.RepeatAfterTheLast`). Before that a repetition is answered with the live handle
  and without any I/O (`FsService.Session.Open`).
- An I2C write frame that runs past the last register reports success; the bytes beyond it are audited as faults
  (`I2cSlave.Overrun`). A frame that succeeds lost bytes exactly when its last byte has no register
  (`I2cSlave.LostBeyondTheEnd`).
- An armed I2C read with no room for a byte succeeds with nothing and moves the register pointer to 0 (`I2cSlave.NoRoom`).

## Model

| member | source | states |
|---|---|---|
| CacheRuns.SynchronizedIsPastState | src/protocols/dcp2/bvstk_dcp2_cache.c:81-179 | In every run of the whole system, a replica marked synchronized is exactly what its device was at some earlier or present moment: same generation, revision, names, presence and resources |
| CacheRuns.CaughtUpIsCurrent | src/protocols/dcp2/bvstk_dcp2_cache.c:147-179 | In every run, when the server has nothing to send for an active subscription and the client has taken what was sent, the synchronized replica is the device as it is now |
| CacheRuns.CaughtUp | src/services/cache/bvstk_cache.c:137-151 | The same for any state that satisfies the invariant: silence of the ring for a cursor means that its revision is the current one |
| CacheRuns.NeverRejected | scripts/dcp2/dcp2_cache.py:153-180 | In every run the client never fails on a frame it cannot decode, a page out of place or a header that changed between pages |
| CacheRuns.RunInv | src/protocols/dcp2/bvstk_dcp2_cache.c:81-179 | The system invariant holds after every action of every run that starts from empty state |
| CacheRuns.StepInv | src/protocols/dcp2/bvstk_dcp2_cache.c:81-179 | Every single action (define, put, presence, serve, notify, call, receive, take, drop) keeps the system invariant |
| CacheRuns.RecordedWas | src/services/cache/bvstk_cache.c:28-36 | Every state in the ghost history was really held by a device of the registry at some moment of the run |
| CacheReplication.RegistryStepInv | src/services/cache/bvstk_cache.c:87-120 | A change of the registry keeps every promise made to the client: replicas stay true and the events in flight still lead from them to where the subscription stands |
| CacheServerSteps.NotifyInv | src/protocols/dcp2/bvstk_dcp2_cache.c:147-179 | Sending an event keeps the invariant: the event joins the chain behind the right replica and nobody else's |
| CacheServerSteps.ServeInv | src/protocols/dcp2/bvstk_dcp2_cache.c:81-146 | Answering any request keeps the invariant, whatever the request contains and whether or not the client still waits |
| CacheServerSteps.ReplyToStart | src/protocols/dcp2/bvstk_dcp2_cache.c:106-145 | The answer to GET or SUBSCRIBE without a token carries the first page of a recorded state under the names asked for, or leaves the client's bookkeeping intact |
| CacheServerSteps.ReplyToContinue | src/protocols/dcp2/bvstk_dcp2_cache.c:111-117 | The answer to a GET with a token continues the same recorded state at the resource asked for, or refuses |
| CacheServerSteps.ReplyToDrop | src/protocols/dcp2/bvstk_dcp2_cache.c:97-104 | After a successful UNSUBSCRIBE no slot carries the id and no event behind the answer names it |
| CacheClientSteps.BeginInv | scripts/dcp2/dcp2_cache.py:153-166 | Starting a snapshot or a subscription keeps the invariant |
| CacheClientSteps.PageContinues | scripts/dcp2/dcp2_cache.py:163-178 | Every check the client makes on a further page succeeds: the page is the next stretch of the same recorded state |
| CacheClientSteps.FinishedTrue | scripts/dcp2/dcp2_cache.py:176-180 | The table assembled from the pages of a completed snapshot is the recorded state the last page names |
| CacheClientSteps.DroppedLink | scripts/dcp2/dcp2_cache.py:186-191 | Unsubscribing forgets the queued events of that id and leaves the event chain of every other replica as it was |
| CacheClientSteps.AppliedLeads | scripts/dcp2/dcp2_cache.py:192-206 | Applying the next event turns a true replica into the next recorded state and leaves the remaining events leading on from there |
| CacheClientSteps.TakeInv | scripts/dcp2/dcp2_cache.py:181-185 | Taking the next event, queued or fresh from the channel, keeps the invariant |
| CacheShape.ShapeFromTheStart | src/protocols/dcp2/bvstk_dcp2_cache.c:41-179 | From empty state, against any sequence of requests, polls and registry changes, the observer of any one subscription id never sees a page or event out of place: contiguous pages, then revisions without a gap, then at most one RESYNC and silence until the id is resubscribed |
| CacheShape.ShapeOfRun | src/protocols/dcp2/bvstk_dcp2_cache.c:41-179 | The same from any state the server can be in that agrees with what the observer has seen |
| CacheShape.MoveObserved | src/protocols/dcp2/bvstk_dcp2_cache.c:81-179 | One move of the server takes the observer to a state that again agrees with the session |
| CacheDelivery.NextIsContiguous | src/protocols/dcp2/bvstk_dcp2_cache.c:160-162 | For an active subscription the next change of its device is always the next revision, so the test for a revision gap never fires; a resynchronization has the reason lost or reconfigured |
| CacheDelivery.ScanSettled | src/protocols/dcp2/bvstk_dcp2_cache.c:153-177 | Polling the slots keeps the session consistent with the registry and its history, announces one true step of one device, and moves nobody else's subscription |
| CacheDelivery.PollNormal | src/protocols/dcp2/bvstk_dcp2_cache.c:163-174 | Every event a subscription can send passes all of the client's own checks |
| CacheDelivery.StartAnswered | src/protocols/dcp2/bvstk_dcp2_cache.c:106-145 | A successful new snapshot leaves a consistent session and a first page of a true recorded state; a refused one leaves a consistent session |
| CacheDelivery.ContinueAnswered | src/protocols/dcp2/bvstk_dcp2_cache.c:111-117 | A page under a live token is the stretch asked for, of the frozen snapshot, and progress moves exactly when the page is contiguous |
| CacheDelivery.ServeActivates | src/protocols/dcp2/bvstk_dcp2_cache.c:75-77 | Serving a page activates at most the owner of the snapshot, and only once pages have been served contiguously to the end |
| CacheDelivery.RegistryStepSettled | src/services/cache/bvstk_cache.c:28-36 | Redefining or changing a device keeps every subscription and the frozen snapshot consistent with the history |
| CacheDelivery.ExpireSettled | src/protocols/dcp2/bvstk_dcp2_cache.c:41-49 | Expiry keeps the session consistent and pauses at most the subscription that owns the snapshot |
| CacheDelivery.DropForgets | src/protocols/dcp2/bvstk_dcp2_cache.c:97-104 | A successful UNSUBSCRIBE leaves no subscription with that id |
| CacheProgress.WalkGathersAll | src/protocols/dcp2/bvstk_dcp2_cache.c:54-117 | Sending the client's own requests for next from any position on, with any requests, events and registry changes in between, yields every remaining resource of the frozen snapshot exactly once and in order, in at most max(1, count) pages of at least 88 bytes, all under the same token, generation and revision, as long as the token lives |
| CacheProgress.PageAdvances | src/protocols/dcp2/bvstk_dcp2_cache.c:54-80 | One page with room for the largest resource is a non-empty next stretch of the frozen snapshot and leaves the token and the snapshot as they were |
| CacheProgress.HeardWithinOneRound | src/protocols/dcp2/bvstk_dcp2_cache.c:147-178 | A subscription that stays ready is heard within eight calls, by the distance of its slot from the round-robin position, whatever the registry does in between |
| CacheProgress.EmitReaches | src/protocols/dcp2/bvstk_dcp2_cache.c:151-177 | One call with room either serves a given ready slot or moves strictly nearer to it |
| CacheHistory.DefineIsFaithful | src/services/cache/bvstk_cache.c:42-86 | A definition that succeeds begins a new recorded past and leaves all others as they were; one that fails changes nothing |
| CacheHistory.PutIsFaithful | src/services/cache/bvstk_cache.c:87-107 | A put appends exactly one state to the record of one device, or changes nothing |
| CacheHistory.SetPresenceIsFaithful | src/services/cache/bvstk_cache.c:108-120 | A change of presence appends exactly one state to the record of one device, or changes nothing |
| CacheHistory.NextTakesFirstUnseen | src/services/cache/bvstk_cache.c:137-151 | Reading the journal at a cursor takes the first unseen change of the device and skips none |
| CacheRegistry.Registry.Define | src/services/cache/bvstk_cache.c:42-86 | In place over the slot array: refuses malformed names, duplicate ids, values wider than declared, unknown handles, clashing names and a full registry, and publishes the whole normalized catalog at once, exactly as the abstract definition says |
| CacheRegistry.Registry.Put | src/services/cache/bvstk_cache.c:87-107 | In place: a changed entry is normalized, stored and appended to the ring under the next revision; an unchanged one is not; errors change nothing |
| CacheRegistry.Registry.SetPresence | src/services/cache/bvstk_cache.c:108-120 | In place: a changed presence is stored and appended under the next revision |
| CacheRegistry.Registry.Snapshot | src/services/cache/bvstk_cache.c:121-136 | The capture of a device by name is a copy of its catalog with the cursor at the head of the journal |
| CacheRegistry.Registry.Next | src/services/cache/bvstk_cache.c:137-151 | Scanning the ring of 512 slots gives exactly the first change of the handle in the unbounded history, or reports it lost once the cursor is more than a ring behind; the cursor moves past what was scanned even when nothing is returned |
| CacheRegistry.Registry.Append | src/services/cache/bvstk_cache.c:28-36 | Writing the next ring slot adds exactly one change to the history, and the ring still holds its last 512 |
| CacheRegistry.Registry.Stage | src/services/cache/bvstk_cache.c:64-76 | The staged catalog is accepted exactly when every name, width, source and value is valid and ids are distinct, and then holds the normalized entries |
| CacheRegistry.RingSlots | src/services/cache/bvstk_cache.c:31-31 | No two of the last 512 positions of the journal share a ring slot |
| CacheModel.NormalizedIsNormal | src/services/cache/bvstk_cache.c:18-22 | An entry that passes the checks is normal once normalized: an invalid one carries no value, source or time |
| CacheModel.DefineKeepsWellFormed | src/services/cache/bvstk_cache.c:42-86 | Definitions keep the registry well formed: normal catalogs, distinct targets, revisions within the history |
| CacheModel.PutKeepsWellFormed | src/services/cache/bvstk_cache.c:87-107 | Puts keep the registry well formed, for any index, value, validity and source |
| CacheModel.SetPresenceKeepsWellFormed | src/services/cache/bvstk_cache.c:108-120 | Changes of presence keep the registry well formed |
| CacheEndpoint.Endpoint.Request | src/protocols/dcp2/bvstk_dcp2_cache.c:81-146 | In place, with the answer written into the caller's buffer: for any opcode, body and capacity the status, the new session and the bytes are those of the abstract request |
| CacheEndpoint.Endpoint.Event | src/protocols/dcp2/bvstk_dcp2_cache.c:147-179 | In place: at most one event is written, from the first ready slot after the last one served, with the session the abstract poll leaves |
| CacheEndpoint.Endpoint.Expire | src/protocols/dcp2/bvstk_dcp2_cache.c:41-49 | In place: a token idle for its time is withdrawn, and its owner is paused with the reason expired if it was still waiting for pages |
| CacheEndpoint.Endpoint.Page | src/protocols/dcp2/bvstk_dcp2_cache.c:54-80 | In place: as many resources as fit are written behind the header, and progress and the pending mark move only for a contiguous page |
| CacheEndpoint.Endpoint.Begin | src/protocols/dcp2/bvstk_dcp2_cache.c:118-145 | In place: a new snapshot is refused while another subscription still pages, and otherwise captures, enlists and serves the first page |
| CacheEndpoint.Endpoint.Enlist | src/protocols/dcp2/bvstk_dcp2_cache.c:134-142 | In place: the subscription of the same device is renewed under its id, or a free slot takes an id never used before; ids run out rather than repeat |
| CacheEndpoint.Endpoint.Resume | src/protocols/dcp2/bvstk_dcp2_cache.c:111-117 | In place: a stale token or other names are refused without a trace; otherwise the page asked for is served and the idle timer restarts |
| CacheEndpoint.Endpoint.Unsubscribe | src/protocols/dcp2/bvstk_dcp2_cache.c:97-104 | In place: the slot is freed and a snapshot it owned is withdrawn |
| CacheEndpoint.Endpoint.PollSlot | src/protocols/dcp2/bvstk_dcp2_cache.c:154-176 | In place: a resynchronization is announced once and silences the slot; a change is announced and remembered |
| CacheEndpoint.ReadName | src/protocols/dcp2/bvstk_dcp2_cache.c:11-24 | The cursor-moving name reader accepts exactly the length-prefixed names of 1 to 31 letters, digits, underscores, hyphens and dots, and stops behind them |
| CacheEndpoint.ReadRequest | src/protocols/dcp2/bvstk_dcp2_cache.c:92-110 | The request reader classifies every opcode and body as the abstract parser does |
| CacheEndpoint.PutEntries | src/protocols/dcp2/bvstk_dcp2_cache.c:63-67 | The page loop writes the longest prefix of the resources that fits, encoded back to back |
| CacheEndpoint.PutHeader | src/protocols/dcp2/bvstk_dcp2_cache.c:69-74 | The header over those resources completes the encoding of the page |
| CacheEndpoint.PutEvent | src/protocols/dcp2/bvstk_dcp2_cache.c:163-174 | The bytes written for an event are its encoding and fit the announced bound |
| CacheWire.ParsePageExact | scripts/dcp2/dcp2_cache.py:69-82 | The client's page decoder accepts exactly the encodings of normal pages, and recovers the page that was encoded |
| CacheWire.ParseEventExact | scripts/dcp2/dcp2_cache.py:83-94 | The client's event decoder accepts exactly the encodings of normal events, and recovers the event that was encoded |
| CacheWire.ParseEntriesExact | scripts/dcp2/dcp2_cache.py:44-68 | The resource decoder accepts exactly the encodings of lists of normal resources |
| CacheWire.AcceptedIsNormal | scripts/dcp2/dcp2_cache.py:50-63 | The client's checks on a resource are the registry's normal form, no more and no less |
| CacheClient.StartUnderstood | scripts/dcp2/dcp2_cache.py:153-162 | The first request the client builds for a target is parsed by the server as just that target |
| CacheClient.GetUnderstood | scripts/dcp2/dcp2_cache.py:153-166 | The further requests are parsed as the same target, token and position |
| CacheClient.DropUnderstood | scripts/dcp2/dcp2_cache.py:186-191 | The unsubscribe request is parsed as that id |
| CacheReceiver.DecodePage | scripts/dcp2/dcp2_cache.py:69-82 | The decoding loop computes exactly the page parser, for any bytes |
| CacheReceiver.DecodeEvent | scripts/dcp2/dcp2_cache.py:83-94 | The decoding code computes exactly the event parser, for any bytes |
| CacheReceiver.DecodeEntries | scripts/dcp2/dcp2_cache.py:44-68 | The dictionary-filling loop returns the parsed resources exactly when all are acceptable and no id repeats |
| CacheReceiver.DecodeEntry | scripts/dcp2/dcp2_cache.py:46-65 | One turn of that loop takes one acceptable resource and stands behind it, or fails |
| CacheReceiver.Watched.ApplyEvent | scripts/dcp2/dcp2_cache.py:192-206 | Mutating the local copy gives the next revision of it for a contiguous change of the same generation, and an unusable copy otherwise; an event of another subscription is refused and leaves the copy alone |
| CacheReceiver.EventQueue.Forget | scripts/dcp2/dcp2_cache.py:186-191 | Filtering the queue in place removes the events of one id and keeps the others in order |
| CacheReceiver.EventQueue.Keep | scripts/dcp2/dcp2_cache.py:109-128 | The bounded queue takes an event at its end or reports that it is full |
| Framing.TakenAsSent | scripts/dcp2/dcp2_cache.py:109-128 | However the byte stream was cut into pieces, the frames taken out of the buffer are those sent, in order, none lost and none invented, and nothing is rejected |
| Framing.DrainOfStream | scripts/dcp2/dcp2_client.py:206-226 | Of any prefix of a stream of frames, the complete frames are taken and the rest is waited for |
| Framing.TakeBuilt | scripts/dcp2/dcp2_client.py:221-226 | A built frame followed by anything is taken back exactly |
| Framing.TakeCut | scripts/dcp2/dcp2_client.py:206-219 | A frame cut short anywhere is waited for, never misread |
| Framing.DrainMore | scripts/dcp2/dcp2_cache.py:109-128 | Bytes that arrive later never change what was already taken |
| Framing.Receiver.Take | scripts/dcp2/dcp2_cache.py:109-128 | Taking one frame removes exactly its bytes from the receive buffer |
| FsUntar.ArchiveRoundTrip | src/services/fs/bvstk_fs_reader.c:212-320 | For every tree that can be walked to its end, a reader of the ustar interchange format with pax extended headers (IEEE Std 1003.1) recovers from the TAR stream exactly the preorder list of names, types, sizes and contents; the archive is a multiple of 512 bytes |
| FsUntar.ReadTarOf | src/services/fs/bvstk_fs_reader.c:212-244 | The same for any list of acceptable visits, member by member |
| FsUntar.ReadHeadOf | src/services/fs/bvstk_fs_reader.c:212-244 | A member's header, extended or not, is read back as its name, type and size, and the reader stands at its contents |
| FsUntar.ReadHeaderOf | src/services/fs/bvstk_fs_reader.c:178-196 | Every written header has a correct checksum and is read back as the name, type and size it was written for |
| FsUntar.ReadPaxOf | src/services/fs/bvstk_fs_reader.c:198-232 | The extended header is read back as the full path and, for a size beyond eleven octal digits, the size |
| FsUntar.ChecksumFits | src/services/fs/bvstk_fs_reader.c:191-195 | The checksum of any header fits its six octal digits |
| FsUntar.TarInBlocks | src/services/fs/bvstk_fs_reader.c:289-320 | The archive is always a whole number of 512-byte blocks |
| FsTar.PaxRecordCountsItself | src/services/fs/bvstk_fs_reader.c:198-210 | Every pax record begins with its own length in decimal, and it is the least length for which that is true |
| FsTar.PaxLengthFrom | src/services/fs/bvstk_fs_reader.c:201-205 | The search for the record length stops, at a length that counts its own digits |
| FsStage.WritePaxRecord | src/services/fs/bvstk_fs_reader.c:198-210 | In place: the loop writes the record behind what is there if it and a terminator fit, and reports nothing written otherwise |
| FsStage.WriteHeader | src/services/fs/bvstk_fs_reader.c:178-196 | In place: exactly one block is overwritten, with the header of that name, type and size |
| FsStage.WritePaxBody | src/services/fs/bvstk_fs_reader.c:219-229 | In place: the extended records always fit the area they are given, for any accepted path and any 64-bit size |
| FsStage.PaxBodyFits | src/services/fs/bvstk_fs_reader.c:216-229 | The length bound behind that: at most 600 bytes for a path and 40 for a size |
| FsStage.StageMember | src/services/fs/bvstk_fs_reader.c:212-244 | In place: everything ahead of a member's contents is staged, and always fits the staging buffer |
| FsReader.Reader.Read | src/services/fs/bvstk_fs_reader.c:264-330 | A block is exactly full unless it is the last; block after block, what was sent plus what lies ahead is the stream; the end is marked exactly at the end (for TREE one block later when the last one is full), with everything closed; an error closes everything and, over a backend without failures, is the one the walk must meet |
| FsReader.Reader.Fill | src/services/fs/bvstk_fs_reader.c:270-325 | The loop fills the block or reaches the end, for any capacity and any pattern of short reads |
| FsReader.Reader.Step | src/services/fs/bvstk_fs_reader.c:272-322 | One turn of the loop sends bytes or makes strict progress towards sending some, and moves nothing but this reader's own handles |
| FsReader.Reader.Open | src/services/fs/bvstk_fs_reader.c:104-134 | Opening succeeds exactly when the verdict on path, kind and flags is good, with the whole stream ahead; a failed one leaves nothing open |
| FsReader.Reader.NextEntry | src/services/fs/bvstk_fs_reader.c:136-176 | One advance takes exactly the next entry of the recursive preorder, closing the directories it leaves, or fails with the verdict on that entry |
| FsReader.Reader.Enter | src/services/fs/bvstk_fs_reader.c:148-175 | A child is accepted exactly when its name, its depth, its path length and its type allow, and a directory is entered when the walk goes deep |
| FsReader.Reader.StageTar | src/services/fs/bvstk_fs_reader.c:212-320 | Staging a tar member keeps the stream ahead exactly the same |
| FsReader.Reader.StageTree | src/services/fs/bvstk_fs_reader.c:303-312 | The staged record is the listing record of the entry |
| FsReader.Reader.FinishFile | src/services/fs/bvstk_fs_reader.c:246-262 | A finished file must still have the size and the time stamp it was opened with; over an unchanging tree it has, and the stream ahead is unchanged |
| FsReader.Reader.Pull | src/services/fs/bvstk_fs_reader.c:276-287 | One backend read of any positive length moves exactly that many bytes from the stream ahead to the block |
| FsReader.Reader.Pad | src/services/fs/bvstk_fs_reader.c:288-296 | Padding moves zeros from the stream ahead to the block until the next boundary |
| FsReader.Reader.Close | src/services/fs/bvstk_fs_reader.c:81-92 | Closing releases exactly the reader's own file and directories and nothing else |
| FsTree.PendingNext | src/services/fs/bvstk_fs_reader.c:136-176 | The directory stack stands for the rest of the recursive preorder: reading one child and descending into it yields the next visit and the rest |
| FsTree.PendingPop | src/services/fs/bvstk_fs_reader.c:139-147 | Leaving an exhausted directory changes nothing about what is still to be visited |
| Utf8.Utf8Decode | src/services/fs/bvstk_fs_reader.c:19-37 | The decoder accepts exactly the characters of the grammar in section 4 of RFC 3629 and yields their code points |
| Utf8.GrammarIs | src/services/fs/bvstk_fs_reader.c:19-37 | Checking the decoded value for overlong forms, surrogates and the upper limit draws the same line as the grammar |
| FsNames.CheckComponent | src/services/fs/bvstk_fs_reader.c:39-52 | A name is accepted exactly when it is a component: non-empty, well-formed text, not a dot name, free of separators and control bytes |
| FsNames.CheckPath | src/services/fs/bvstk_fs_reader.c:54-79 | The in-place path check accepts exactly the paths whose pieces are all components and returns the normal form |
| FsNames.CheckPieces | src/services/fs/bvstk_fs_reader.c:64-77 | The scan for separators judges exactly the pieces between them |
| FsSession.BlocksAreStream | src/protocols/dcp2/bvstk_dcp2_fs.c:142-173 | The first n blocks and what is left after them are the stream, with nothing lost or repeated |
| FsSession.EndIsWhole | src/protocols/dcp2/bvstk_dcp2_fs.c:142-173 | Reading up to the block marked as the last gives the whole stream |
| FsSession.EarlierBlocksFull | src/protocols/dcp2/bvstk_dcp2_fs.c:142-173 | Every block that is not marked as the last is exactly full |
| FsSession.EndComes | src/protocols/dcp2/bvstk_dcp2_fs.c:142-173 | The end is marked after finitely many blocks |
| FsSession.Slot.ReadBlock | src/protocols/dcp2/bvstk_dcp2_fs.c:150-172 | A block is served again from the cache without I/O, the next one is read once, anything else is refused as out of range, and an error is final |
| FsSession.Slot.Fetch | src/protocols/dcp2/bvstk_dcp2_fs.c:156-168 | A read block becomes the cached one, the next in order; over a backend without failures it cannot fail unless the walk must |
| FsService.Session.Read | src/protocols/dcp2/bvstk_dcp2_fs.c:142-173 | Every successful READ of block k of a handle returns the same bytes and end mark: those of block k of the stream the handle was opened for; the status is determined by the slot unless the disk fails, and a repeated block costs no I/O |
| FsService.Session.Open | src/protocols/dcp2/bvstk_dcp2_fs.c:97-140 | An OPEN with a live id answers with the live handle and no I/O, or refuses different parameters; with both slots taken it is busy; otherwise, unless the disk fails, the status is the verdict on path, kind and flags; success answers with a handle on record for exactly these parameters |
| FsService.Session.Issue | src/protocols/dcp2/bvstk_dcp2_fs.c:118-138 | A new handle is a number never issued before, and a failed open leaves no trace |
| FsService.Session.Search | src/protocols/dcp2/bvstk_dcp2_fs.c:104-117 | The search finds the live slot of the id, a conflict of parameters, or a free slot |
| FsService.Session.Close | src/protocols/dcp2/bvstk_dcp2_fs.c:196-203 | After CLOSE no slot has the handle; closing what is not open succeeds |
| FsService.Session.Expire | src/protocols/dcp2/bvstk_dcp2_fs.c:50-57 | Exactly the handles idle for the limit are closed, and the others are untouched |
| FsService.Session.Destroy | src/protocols/dcp2/bvstk_dcp2_fs.c:44-48 | Afterwards the backend has no open file and no open directory |
| FsService.Session.Request | src/protocols/dcp2/bvstk_dcp2_fs.c:175-213 | Any OPEN, READ or CLOSE on any body keeps the session valid: open backend handles are exactly those of the live slots; when no handle has gone idle, or for a READ when its own has not, the status is the one the request and the slots call for, except where the disk may fail; successful answers are those of the recorded streams |
| FsService.Session.CachedAt | src/protocols/dcp2/bvstk_dcp2_fs.c:156-172 | What a slot has cached is the block of the recorded stream it claims to be |
| FsClient.DecodeOfReadBody | scripts/dcp2/dcp2_client.py:980-989 | Every READ answer passes the client's checks and decodes to the block and the end mark; a smaller announced limit can only refuse it |
| FsClient.Reread | scripts/dcp2/dcp2_client.py:980-1016 | Two successful reads of one block, with any requests at all in between, return the same bytes |
| FsClient.FetchBlock | scripts/dcp2/dcp2_client.py:980-989 | What the client accepts as block n is block n of the recorded stream; it is accepted whenever the block is due, the disk and the walk do not fail, and the handle has not gone idle |
| FsClient.Download | scripts/dcp2/dcp2_client.py:990-1016 | The client's loop, with its check of the announced size, returns exactly the stream, or nothing; it returns the stream whenever the backend and the walk have no fault, the buffers are large enough, the handle never goes idle, the total is the announced one and the block numbers suffice |
| FsListing.ListingRoundTrip | scripts/dcp2/dcp2_client.py:1017-1042 | For every tree that can be walked to its end, however its TREE stream is cut, the client lists exactly the walked entries in order and rejects nothing |
| FsListing.ListedAsWalked | scripts/dcp2/dcp2_client.py:1017-1042 | At any moment the entries listed are the first ones of the walk, and all of them once the stream is complete |
| FsListing.DrainOfTree | src/services/fs/bvstk_fs_reader.c:303-312 | The client's record loop over the whole stream yields one entry per visit and leaves no bytes over |
| FsListing.WalkAccepted | src/services/fs/bvstk_fs_reader.c:39-52 | Every relative path of an accepted walk passes the client's path rules |
| FsListing.WalkListable | src/services/fs/bvstk_fs_reader.c:148-175 | A walk that can be completed meets only entries a client can be told about |
| FsListing.TakeOfRecord | src/services/fs/bvstk_fs_reader.c:303-312 | One listing record, followed by anything, is read back as its path, type and size |
| FsListing.DrainMore | scripts/dcp2/dcp2_client.py:1022-1041 | Bytes that arrive later only add to what has been listed |
| FsListing.Lister.Feed | scripts/dcp2/dcp2_client.py:1017-1042 | One piece of the stream adds exactly the entries it completes; the loop stops at the first bad record |
| Journal.ChainConserves | src/shared/events/bvstk_journal.c:24-49 | Through any interleaving of publishing and chained reads, every event between the first and the last cursor is returned exactly once, skipped by the address filter or counted as lost, and nothing else is returned |
| Journal.ReadAccounts | src/shared/events/bvstk_journal.c:24-49 | One read: next minus the cursor is the number lost plus the number scanned, and the records are exactly the matching ones among the scanned |
| Journal.EventJournal.Publish | src/shared/events/bvstk_journal.c:8-18 | An accepted event is appended to the ring of its bus and class and to no other; a refused one changes nothing |
| Journal.Ring.Append | src/shared/events/bvstk_journal.c:12-17 | Writing the next slot in place appends one event to the history, of which the ring holds the last part |
| Journal.Ring.Read | src/shared/events/bvstk_journal.c:24-49 | In place: the batch read from the ring is the one the unbounded history gives |
| Journal.Ring.Collect | src/shared/events/bvstk_journal.c:38-48 | The scanning loop collects the matching records until the batch is full or the head is reached |
| Journal.RingSlots | src/shared/events/bvstk_journal.c:14-14 | No two positions within one ring length share a slot |
| SdService.CommandsAreIsolated | src/services/sd/bvstk_sd_service.c:53-69 | In the isolated profile there is a successful initialization between any two card commands, in every trace the service can produce |
| SdService.NoCommandAfterAbort | src/services/sd/bvstk_sd_service.c:32-43 | After an operation ended in an I/O, timeout or internal failure no command is issued until somebody initializes the card on purpose and succeeds |
| SdService.SameCard | src/services/sd/bvstk_sd_service.c:60-67 | An initialization slipped in ahead of a command was successful and returned the same OCR as the last one asked for |
| SdService.PatternsDiffer | src/services/sd/bvstk_sd_service.c:239-254 | Test blocks of different sectors differ for every seed, so a sector read under another's name is noticed |
| SdService.Service.PrepareCommand | src/services/sd/bvstk_sd_service.c:53-69 | Success means that a command is permitted; in the isolated profile a spent card has been initialized anew and is the same card |
| SdService.Service.Transfer | src/services/sd/bvstk_sd_service.c:71-83 | Success means that the last driver call was the command asked for, at the address of that sector, and succeeded |
| SdService.Service.Initialize | src/services/sd/bvstk_sd_service.c:154-159 | While the file system owns the card it is refused without touching it; otherwise exactly one initialization is tried and the card is ready exactly when the whole sequence succeeded |
| SdService.Service.InitializeLocked | src/services/sd/bvstk_sd_service.c:126-152 | The driver sees one initialization and, for a byte-addressed card outside the isolated profile, one block-length command; OCR and addressing are those of the reply; a byte-addressed card is unsupported in the isolated profile; an excessive time limit is refused without touching the card |
| SdService.Service.DiskClaim | src/services/sd/bvstk_sd_service.c:161-168 | Ownership by the file system is taken before the card is tried and never given back; a second claim is refused |
| SdService.Service.Read | src/services/sd/bvstk_sd_service.c:170-196 | A successful read returns the bytes of a successful read command at that sector's address, issued during this call |
| SdService.Service.WriteVerified | src/services/sd/bvstk_sd_service.c:179-202 | A successful write implies that a write command of these 512 bytes and after it a read of the same sector returning the same 512 bytes both succeeded during this call |
| SdService.Service.Compare | src/services/sd/bvstk_sd_service.c:85-97 | The first differing byte is found, or the blocks are equal |
| SdService.Service.SimpleCommand | src/services/sd/bvstk_sd_service.c:216-237 | A successful status or block-length command was issued during this call with the right argument |
| SdService.Service.Finish | src/services/sd/bvstk_sd_service.c:32-43 | Exactly the failures of I/O, time and logic make the card unusable |
| SdService.Service.Test | src/services/sd/bvstk_sd_service.c:256-281 | A successful test wrote the pattern of every sector of the range before reading any of them, and every sector came back as its own pattern |
| MdioCodec.ParseUndoesFormat | src/shared/config/bvstk_mdio_config_codec.c:139-275 | Behind the version gate, reading back the printed text of any valid configuration gives exactly that configuration: name, address, register count, policy, lists, timing, rules and settings |
| MdioCodec.AcceptedIsValid | src/shared/config/bvstk_mdio_config_codec.c:139-231 | Whatever text is accepted yields a valid configuration |
| MdioCodec.FormatIsStable | src/shared/config/bvstk_mdio_config_codec.c:139-275 | Behind the version gate, a configuration once accepted survives being printed and read again, for any accepted text |
| MdioCodec.ValueRead | src/shared/config/bvstk_mdio_config_codec.c:146-222 | Every printed member value is read back into its place and nothing else changes |
| MdioGrammar.ReadListOf | src/shared/config/bvstk_mdio_config_codec.c:104-138 | A printed list of rules, settings or registers within its capacity is read back in order |
| MdioGrammar.ReadFieldsStep | src/shared/config/bvstk_mdio_config_codec.c:110-135 | One printed field of a rule is read back into the rule, and the reader goes on behind it |
| MdioGrammar.ReadNumberOf | src/shared/config/bvstk_mdio_config_codec.c:83-95 | A number printed in decimal is read back exactly when it is within the limit given |
| MdioGrammar.ReadStringOf | src/shared/config/bvstk_mdio_config_codec.c:70-82 | A plain string shorter than the buffer is read back |
| MdioReader.Parse | src/shared/config/bvstk_mdio_config_codec.c:155-231 | Behind the version gate, the cursor-moving parser computes exactly the grammar, for any bytes: the configuration, or nothing |
| MdioReader.Cursor.Str | src/shared/config/bvstk_mdio_config_codec.c:70-82 | The string scanner accepts exactly the strings of the grammar and stops behind them |
| MdioReader.Cursor.Number | src/shared/config/bvstk_mdio_config_codec.c:83-95 | The digit loop accepts exactly the numbers of the grammar within the limit, without leading zeros |
| MdioReader.Cursor.Fields | src/shared/config/bvstk_mdio_config_codec.c:110-135 | The field loop accepts each field at most once, in any order, and requires the mandatory ones |
| MdioReader.Cursor.List | src/shared/config/bvstk_mdio_config_codec.c:104-138 | The list loop accepts exactly the lists of the grammar that fit |
| MdioReader.Cursor.Members | src/shared/config/bvstk_mdio_config_codec.c:146-222 | The member loop accepts exactly the members of the grammar and remembers which were there |
| MdioReader.Format | src/shared/config/bvstk_mdio_config_codec.c:244-275 | The printer appends exactly the canonical text if it fits with its terminator, refuses an invalid configuration and reports one that does not fit |
| MdioConfig.ValidateIs | src/shared/config/bvstk_mdio_config_codec.c:17-43 | The validation in the order the code checks it succeeds exactly for valid configurations |
| MdioConfig.CheckRegisters | src/shared/config/bvstk_mdio_config_codec.c:30-41 | The nested loops find the first register out of range or repeated, as the recursive verdict does |
| MdioConfig.VerdictIs | src/shared/config/bvstk_mdio_config_codec.c:30-41 | That verdict is good exactly when all registers are in range and distinct |
| MdioConfig.PolicyAllows | src/shared/config/bvstk_mdio_config_codec.c:44-61 | The loops over the rules decide exactly the policy: in range, and covered or not covered as the mode demands |
| MdioConfig.AddedCovers | src/services/mdio/bvstk_mdio_service.c:348-372 | After a successful addition the list covers exactly what it covered before or the new rule covers |
| MdioConfig.RemoveUndoesAdd | src/services/mdio/bvstk_mdio_service.c:374-397 | Removing a rule that has just been added restores the list |
| MdioConfig.SameCoverage | src/services/mdio/bvstk_mdio_service.c:341-346 | Rules compared under their masks cover the same writes |
| MdioService.Service.Step | src/services/mdio/bvstk_mdio_service.c:452-525 | After any turn of the worker, over any bus, cache, published bank and registry agree on every register of every device unless publication has failed; at most four host writes are taken, in scanning order, and every hardware write among them was allowed by the policy of the PHY it names |
| MdioService.Service.Collect | src/services/mdio/bvstk_mdio_service.c:457-482 | The scan takes exactly the first four pending mailbox writes from its position on, unless the bus fails; everything sent is policed |
| MdioService.Service.Judge | src/services/mdio/bvstk_mdio_service.c:468-480 | A host write reaches the hardware exactly when a configured PHY has its address and that PHY's policy allows it |
| MdioService.Service.WritePhy | src/services/mdio/bvstk_mdio_service.c:109-149 | A refused write changes nothing; an allowed one is sent exactly once, what it may change is forgotten first, everything in case of a reset, and what is then cached was read back from the hardware |
| MdioService.Service.Distrust | src/services/mdio/bvstk_mdio_service.c:121-127 | Before a write its register is dropped from all three copies, before a reset the whole device |
| MdioService.Service.ReadPhy | src/services/mdio/bvstk_mdio_service.c:76-108 | A successful read caches and publishes what the hardware returned; a failed read or publication leaves the entry invalid in every copy; a probe does not tell the registry |
| MdioService.Service.Refresh | src/services/mdio/bvstk_mdio_service.c:240-254 | The same for an ordinary read, with all three copies in agreement afterwards |
| MdioService.Service.Invalidate | src/services/mdio/bvstk_mdio_service.c:63-75 | All 32 registers of a device are withdrawn from all three copies and the device is marked gone |
| MdioService.Service.Seed | src/services/mdio/bvstk_mdio_service.c:150-162 | Exactly the configured settings are put in front, marked as seeded; if publication fails the copies still agree |
| MdioService.Service.SetConfig | src/services/mdio/bvstk_mdio_service.c:415-443 | An invalid configuration, an unknown device, a changed name or a taken address is refused with the status the code gives and no effect at all; a new address, size or setting starts the device afresh with its seeds; otherwise the cache is kept; no other device is touched |
| MdioService.Service.Redefine | src/services/cache/bvstk_cache_bridges.c:79-94 | The registry's new catalog shows the cached registers of the new configuration, so the copies agree across changes of address and size |
| MdioService.Service.CacheChanged | src/services/cache/bvstk_cache_bridges.c:95-100 | One registry entry becomes the normalized cache entry |
| MdioService.Service.Probe | src/services/mdio/bvstk_mdio_service.c:484-503 | A PHY whose identity registers make sense is online and its identity told; any other is forgotten in all copies and marked gone; the next probe is due one period later either way |
| MdioService.Service.PollOne | src/services/mdio/bvstk_mdio_service.c:506-523 | Exactly the next register of the polling list is refreshed; a failure forgets the device; the list is walked round |
| MdioService.Service.Poll | src/services/mdio/bvstk_mdio_service.c:486-525 | One polling item a turn: the first due device in cyclic order from the last one, and nothing changes when none is due |
| MdioService.WaitsAtMost256 | src/services/mdio/bvstk_mdio_service.c:457-460 | A write waiting in a mailbox is taken within 256 steps without bus errors, whatever else the host posts meanwhile |
| MdioService.SweepNears | src/services/mdio/bvstk_mdio_service.c:457-460 | One scan takes a pending write or comes nearer to it by as many mailboxes as it could take |
| I2cSlave.Slave.HandleWrite | src/services/i2c/bvstk_i2c_slave_service.c:132-255 | For any frame and any hardware outcomes every data byte is audited as one attempt and exactly one result, in order, and the result is the one range, policy and hardware call for; the hardware sees a prefix of the bytes, each within limits and permitted; only a pointer-only frame arms a read; status and pointer follow; of a frame that succeeds every byte was taken exactly when the last one has a register |
| I2cSlave.Slave.ForwardData | src/services/i2c/bvstk_i2c_slave_service.c:196-247 | The bytes go to consecutive registers until one fails or the last register is passed; the rest is audited as faults |
| I2cSlave.Slave.FaultRest | src/services/i2c/bvstk_i2c_slave_service.c:205-245 | Bytes that are not forwarded are each audited as an attempt and a fault |
| I2cSlave.Slave.WriteRegister | src/services/i2c/bvstk_i2c_master_service.c:339-414 | One write: audited, judged by range and policy, sent only if it passes, cached only if the hardware took it, and the entry dropped if the hardware failed |
| I2cSlave.Slave.LoadWindow | src/services/i2c/bvstk_i2c_slave_service.c:16-71 | The window is the run of cached registers from the pointer on that fits; an unknown first register is fetched, alone; what is served is what is cached |
| I2cSlave.Slave.HandleRead | src/services/i2c/bvstk_i2c_slave_service.c:150-190 | A read is served only if armed, from consecutive registers at the pointer, which moves past them and wraps to 0; an unarmed one returns nothing |
| I2cSlave.Slave.EndTransaction | src/services/i2c/bvstk_i2c_slave_service.c:124-130 | Afterwards a read has to set the pointer again |
| I2cPolicy.RuleList.Add | src/services/i2c/bvstk_i2c_policy.c:41-52 | In place: the list as a set gains the rule; adding what is there changes nothing; a full list refuses |
| I2cPolicy.RuleList.Remove | src/services/i2c/bvstk_i2c_policy.c:54-68 | In place: the list as a set loses exactly the rule and keeps its order |
| I2cPolicy.RuleList.Contains | src/services/i2c/bvstk_i2c_policy.c:14-26 | The scan decides membership in the set |
| I2cPolicy.Policy.PermitsWrite | src/services/i2c/bvstk_i2c_policy.c:263-286 | A write is permitted exactly when register and value are in range and the set of the active mode says so |
| I2cPolicy.WithoutIs | src/services/i2c/bvstk_i2c_policy.c:54-68 | Shifting the remaining rules down removes one element of the set and creates no duplicates |
| LineEditor.Editor.HandleAll | src/shared/cli/bvstk_line_editor.c:713-772 | Whatever bytes arrive, line, cursor, history and cut buffer are those of the terminal-free editing function, and the terminal shows prompt and line with the column at the cursor, as a full redraw would, until the session ends or its owner holds the prompt back |
| LineEditor.Editor.HandleByte | src/shared/cli/bvstk_line_editor.c:713-772 | The same for one byte, with what it means for the session |
| LineEditor.RedrawShows | src/shared/cli/bvstk_line_editor.c:154-173 | From any state of the row a full redraw shows exactly the prompt, the line and the cursor |
| LineEditor.EchoInsert | src/shared/cli/bvstk_line_editor.c:286-298 | Printing only the typed character and what follows it, and stepping back, leaves the row as a full redraw would |
| LineEditor.Editor.Insert | src/shared/cli/bvstk_line_editor.c:273-299 | A character goes in at the cursor unless the line is full; the screen stays in step |
| LineEditor.Editor.Backspace | src/shared/cli/bvstk_line_editor.c:301-318 | The character before the cursor is removed; the screen stays in step |
| LineEditor.Editor.Delete | src/shared/cli/bvstk_line_editor.c:320-336 | The character under the cursor is removed; the screen stays in step |
| LineEditor.Editor.MoveLeft | src/shared/cli/bvstk_line_editor.c:175-199 | The cursor moves by one or to the start of the word before it, and the terminal's with it |
| LineEditor.Editor.MoveRight | src/shared/cli/bvstk_line_editor.c:201-225 | The cursor moves by one or past the word and the blanks after it, and the terminal's with it |
| LineEditor.BackwardIs | src/shared/cli/bvstk_line_editor.c:186-193 | The word scan stops exactly where blanks and text alternate |
| LineEditor.Editor.CutRange | src/shared/cli/bvstk_line_editor.c:338-361 | A stretch is taken out and kept for pasting; an empty one changes nothing |
| LineEditor.Editor.DeletePreviousWord | src/shared/cli/bvstk_line_editor.c:363-378 | Exactly the word before the cursor and the blanks behind it are cut |
| LineEditor.Editor.DeleteNextWord | src/shared/cli/bvstk_line_editor.c:380-397 | Exactly the next word and the blanks ahead of it are cut |
| LineEditor.Editor.Paste | src/shared/cli/bvstk_line_editor.c:399-420 | What was cut goes in at the cursor if it fits |
| LineEditor.Editor.Replace | src/shared/cli/bvstk_line_editor.c:422-467 | The token under the cursor is replaced if the result fits, with a blank behind it unless it names a directory |
| LineEditor.Editor.Complete | src/shared/cli/bvstk_line_editor.c:496-555 | One match is taken over; several extend the token as far as they agree; anything malformed changes nothing; the screen is redrawn below the listing |
| LineEditor.CommonPrefix | src/shared/cli/bvstk_line_editor.c:469-494 | The loop finds the greatest length up to which all candidates agree, letter case aside |
| LineEditor.Editor.HistoryUp | src/shared/cli/bvstk_line_editor.c:227-250 | An older entry replaces the line, which is kept the first time |
| LineEditor.Editor.HistoryDown | src/shared/cli/bvstk_line_editor.c:252-271 | A newer entry replaces the line, or the kept line comes back |
| LineEditor.Editor.Submit | src/shared/cli/bvstk_line_editor.c:693-711 | The line goes to its owner and into the history, and the next prompt follows unless held back |
| LineEditor.Editor.AddHistory | src/shared/cli/bvstk_line_editor.c:130-152 | The history keeps the last entries without empty lines or immediate repetitions |
| LineEditor.CutThenPaste | src/shared/cli/bvstk_line_editor.c:338-420 | Cutting to the end of the line and pasting restores the line |
| LineEditor.UpThenDown | src/shared/cli/bvstk_line_editor.c:227-271 | Looking at the history and coming back restores the line being typed |
| LineEditor.TypeThenRub | src/shared/cli/bvstk_line_editor.c:273-318 | Typing a character and rubbing it out restores line and cursor |
| Terminal.FeedText | src/shared/cli/bvstk_line_editor.c:286-298 | Printable text overwrites the row from the column on and moves the column past it |
| FsService.Session.Execute | src/protocols/dcp2/bvstk_dcp2_fs.c:200-212 | Once idle handles are closed, every OPEN, READ and CLOSE gets the status its parameters and the live slots call for, except where the disk may fail; success is answered out of the record of handles |
| MdioFile.OlderReadsBack | src/shared/config/bvstk_mdio_config_codec.c:139-275 | Every valid configuration printed in the older format passes the version gate, reaches the older reader and comes back as it was |
| MdioFile.NewerReadsBack | src/shared/config/bvstk_mdio_config_codec.c:149-154 | Every valid MDIO profile printed in version 2 passes the gate, reaches the version 2 reader and comes back in canonical form if its texts are UTF-8; otherwise the file is refused as malformed |
| MdioFile.KeptReadsBack | src/shared/config/bvstk_mdio_config_codec.c:139-231 | A file accepted in either format and printed in version 2 is accepted again, as the canonical form, and the bus sees the same configuration |
| MdioFile.PrintedIsOlder | src/shared/config/bvstk_device_profile.c:291-318 | The gate takes every text the older printer produces for one without a version |
| MdioFile.FileShown | src/shared/config/bvstk_mdio_config_codec.c:244-275 | The older printer's text is, byte for byte, a document of the version 2 grammar |
| MdioFile.Read | src/shared/config/bvstk_mdio_config_codec.c:149-154 | Gate and reader as code compute the two grammars behind the version, for any bytes |
| SchemaProbe.AcceptedIsModern | src/shared/config/bvstk_device_profile.c:291-318 | Any text the version 2 reader accepts, whoever wrote it, is declared by the gate to be of version 2 |
| SchemaProbe.OlderText | src/shared/config/bvstk_device_profile.c:291-318 | Any printed object without the key of a version and without the keys of version 2 is declared to be older |
| ProfileRoundTrip.Reprinted | src/shared/config/bvstk_device_profile.c:473-757 | Whatever was read, from any text and for either bus, can be printed unless it does not fit, and what is printed is read as exactly the same profile |
| ProfileRoundTrip.ReadsBack | src/shared/config/bvstk_device_profile.c:473-757 | Whenever printing a valid profile succeeds, reading gives its canonical form if model, vendor and label are UTF-8, and refuses the text as malformed if one of them is not |
| ProfileRoundTrip.LegibleReadsBack | src/shared/config/bvstk_device_profile.c:473-757 | What is printed of a valid profile with UTF-8 texts is read back as its canonical form |
| ProfileRoundTrip.IllegibleRefused | src/shared/config/bvstk_device_profile.c:92-106 | A text that is not UTF-8 is printed all the same, and no scanner takes the document: the reader refuses it |
| ProfileExample.ExampleRefused | src/shared/config/bvstk_device_profile.c:665-676 | One concrete valid configuration that is printed with success and refused when read |
| ProfileRoundTrip.ParsedIsSound | src/shared/config/bvstk_device_profile.c:473-632 | Whatever is accepted is within every limit: addresses, counts, distinct and valid ids, rules and settings of existing registers, texts that fit and are UTF-8 |
| ProfileRoundTrip.SpelledValid | src/shared/config/bvstk_device_profile.c:202-209 | Every text read is UTF-8, shorter than its buffer and free of control characters, escapes and surrogate pairs included |
| ProfileRoundTrip.CanonIsSound | src/shared/config/bvstk_device_profile.c:682-757 | The canonical form of a valid profile with UTF-8 texts is within every limit of the reader |
| ProfileRoundTrip.SoundIsCanon | src/shared/config/bvstk_device_profile.c:682-757 | What is within the limits of the reader is valid and its own canonical form, so nothing is lost by printing it |
| ProfileRoundTrip.EffectiveKept | src/shared/config/bvstk_device_profile.c:742-753 | Leaving away the settings that a later one overwrites changes the value of no register |
| ProfileRoundTrip.LastOnlyIs | src/shared/config/bvstk_device_profile.c:742-753 | What is left names the same registers, each once, and adds nothing |
| ProfileCodec.TextTaken | src/shared/config/bvstk_device_profile.c:473-757 | The printed text of any profile within the limits is read back as that profile |
| ProfileCodec.DocumentTaken | src/shared/config/bvstk_device_profile.c:161-201 | The printed text is taken as one document whose members are found, each under its own key |
| ProfileCodec.HeadTaken | src/shared/config/bvstk_device_profile.c:499-504 | Version, name, register map and view are read back |
| ProfileCodec.DeviceTaken | src/shared/config/bvstk_device_profile.c:505-510 | Model, vendor, class and label are read back, those left away as empty |
| ProfileCodec.TransportTaken | src/shared/config/bvstk_device_profile.c:511-517 | The address is read back, for either bus |
| ProfileCodec.OptionsRead | src/shared/config/bvstk_device_profile.c:519-531 | Polling switch and delays, or the highest value that may be written, are read back |
| ProfileCodec.DefaultsTaken | src/shared/config/bvstk_device_profile.c:532-535 | The defaults printed for all registers are found |
| ProfileCodec.ResourcesTaken | src/shared/config/bvstk_device_profile.c:536-557 | From any item on, the printed resources are read back in order, each completed by the defaults and within the room for ids |
| ProfileCodec.LookupOf | src/shared/config/bvstk_device_profile.c:439-446 | A printed reference leads back to the register it was printed for |
| ProfileCodec.OrderTaken | src/shared/config/bvstk_device_profile.c:561-568 | The polling order is read back |
| ProfileCodec.PolicyTaken | src/shared/config/bvstk_device_profile.c:569-581 | The policy's mode is read back and both rule lists are found, active and inactive in their places |
| ProfileCodec.RulesTaken | src/shared/config/bvstk_device_profile.c:582-608 | From any item on, the printed rules are read back in order with value and mask |
| ProfileCodec.SeedsTaken | src/shared/config/bvstk_device_profile.c:612-622 | From any item on, the printed settings are read back in order |
| ProfileCodec.ObserveTaken | src/shared/config/bvstk_device_profile.c:625-629 | The observability printed is accepted |
| JsonDocs.StrOf | src/shared/config/bvstk_device_profile.c:64-113 | A quoted text is read back exactly, whatever follows it |
| JsonDocs.ValueOf | src/shared/config/bvstk_device_profile.c:114-160 | A printed value is stepped over to the byte behind it, whatever follows and however deep it is nested up to the limit |
| JsonDocs.ValueBroken | src/shared/config/bvstk_device_profile.c:114-160 | A printed value with a text in it that is not UTF-8 is never stepped over, wherever that text is |
| JsonDocs.FieldsOf | src/shared/config/bvstk_device_profile.c:176-201 | The members of a printed object with known, different keys are found as they were printed |
| JsonDocs.NextOf | src/shared/config/bvstk_device_profile.c:251-269 | From one item of a printed list the next one is found, and behind the last the end |
| JsonDocs.CountedOf | src/shared/config/bvstk_device_profile.c:215-228 | A printed decimal within the limit is read back exactly |
| JsonDocs.HexedOf | src/shared/config/bvstk_device_profile.c:229-241 | A hexadecimal number printed with up to sixteen digits and within the limit is read back exactly |
| JsonTables.FieldsOfRows | src/shared/config/bvstk_device_profile.c:176-201 | Of an object laid out over a key list with some members left away, each member is found in the place of its key and the others are absent |
| JsonScanner.Scanner.Str | src/shared/config/bvstk_device_profile.c:64-113 | The string loop with its escapes, surrogate pairs, octets and buffer limit accepts exactly the strings of the grammar and stands behind them |
| JsonScanner.Scanner.Value | src/shared/config/bvstk_device_profile.c:114-160 | The recursive scanner, moving one cursor, accepts exactly the values of the grammar |
| JsonScanner.Scanner.Multiple | src/shared/config/bvstk_device_profile.c:92-107 | Composing a code point from its octets and checking it afterwards accepts exactly the UTF-8 sequences |
| JsonScanner.Scanner.Number | src/shared/config/bvstk_device_profile.c:143-159 | The digit loops accept exactly the numbers of the grammar |
| ProfileReader.Fields | src/shared/config/bvstk_device_profile.c:176-201 | The member loop finds exactly the members of the grammar and refuses unknown and repeated keys |
| ProfileReader.Next | src/shared/config/bvstk_device_profile.c:251-269 | The item step finds exactly the next item, the end, or that the list is broken |
| ProfileReader.Tally | src/shared/config/bvstk_device_profile.c:219-227 | The digit loop with its overflow test computes exactly the number when it is within the limit |
| ProfileReader.Parse | src/shared/config/bvstk_device_profile.c:473-652 | The reader as code computes exactly the version 2 grammar with its statuses, for any bytes and either bus |
| ProfileReader.Resources | src/shared/config/bvstk_device_profile.c:536-558 | The resource loop with its table of registers seen gives the resources of the grammar or its first refusal |
| ProfileReader.Rules | src/shared/config/bvstk_device_profile.c:582-608 | The rule loop gives the rules of the grammar or its first refusal |
| ProfileReader.Version | src/shared/config/bvstk_device_profile.c:291-318 | The member loop of the gate computes exactly the version, for any bytes |
| JsonWriter.Writer.Append | src/shared/config/bvstk_device_profile.c:654-664 | The buffer holds exactly what was meant as long as all of it fits with a terminator, and has failed otherwise |
| JsonWriter.Writer.Quote | src/shared/config/bvstk_device_profile.c:665-676 | Piece by piece the quoted text is added; a control character makes the printing fail |
| ProfileWriter.Overwritten | src/shared/config/bvstk_device_profile.c:747-750 | The inner loop decides exactly whether a later setting names the same register |
| ProfileWriter.Seeds | src/shared/config/bvstk_device_profile.c:741-753 | The nested loops print exactly the settings of the canonical form |
| ProfileWriter.Format | src/shared/config/bvstk_device_profile.c:682-770 | The printer as code, section by section into the buffer, gives exactly the canonical text, or the status the code gives when the profile is invalid, cannot be printed or does not fit |
| MdioBridge.BeliefHolds | src/services/cache/bvstk_cache_bridges.c:79-105 | Through every callback of the bridge, what the MDIO service takes to be shown of each device is what the CACHE registry holds of it; putting an entry and changing presence never fail, and a definition that fails changes nothing |
| MdioBridge.PutShows | src/services/cache/bvstk_cache_bridges.c:95-100 | The put made for a register shows exactly the normalized cache entry, whether or not it is news to the registry |
| MdioBridge.DefineShows | src/services/cache/bvstk_cache_bridges.c:79-94 | The catalog made of the cached registers shows exactly them |
| MdioBridge.PresenceShows | src/services/cache/bvstk_cache_bridges.c:101-105 | A change of presence leaves the entries shown as they were |
| FsSession.ExactFill | src/protocols/dcp2/bvstk_dcp2_fs.c:142-173 | A listing of exactly one block ends with a second, empty one; any other stream of exactly one block ends with it |
| FsService.Session.RepeatAfterTheLast | src/protocols/dcp2/bvstk_dcp2_fs.c:104-117 | With the last handle number an OPEN is granted and the same OPEN again is answered BUSY |
| I2cSlave.Overrun | src/services/i2c/bvstk_i2c_slave_service.c:196-247 | A frame of one byte for the last register and one too many succeeds; the hardware sees the first byte only and the second is audited as a fault |
| I2cSlave.NoRoom | src/services/i2c/bvstk_i2c_slave_service.c:150-190 | An armed read with no room succeeds, returns nothing and loses the register pointer |
| MdioAccepted.AcceptanceCarriesOver | src/shared/config/bvstk_mdio_config_codec.c:139-231 | For every text the older reader takes: the file is accepted with the same configuration exactly when the text is no longer than 65536 bytes and holds neither a vertical tab nor a form feed anywhere; otherwise it is refused as malformed |
| MdioAccepted.OlderFiles | src/shared/config/bvstk_mdio_config_codec.c:139-231 | The files accepted in the older format are exactly the texts the older reader takes that are short enough and hold neither of the two bytes |
| MdioAccepted.AcceptedIsOlder | src/shared/config/bvstk_device_profile.c:291-318 | The gate takes every such text, whoever wrote it and however it is laid out, for one without a version |
| MdioAccepted.MembersCut | src/shared/config/bvstk_mdio_config_codec.c:155-222 | Member by member, what the older reader steps over the strict scanner steps over to the same place, also in the text cut off behind the object |
| MdioAccepted.TabRefused | src/shared/config/bvstk_device_profile.c:15-18 | For every valid configuration: with a vertical tab in front of its text the older reader still reads it, and the file is refused |
| MdioAccepted.FeedRefused | src/shared/config/bvstk_device_profile.c:15-18 | The same with a form feed |
| MdioAccepted.LengthRefused | src/shared/config/bvstk_device_profile.c:161-168 | The same with 65537 blanks in front, which only the gate counts |
| JsonClean.DocumentClean | src/shared/config/bvstk_device_profile.c:15-175 | Whatever is accepted as a document is short enough and holds neither a vertical tab nor a form feed, be it between tokens, in a string or in a number |
| MdioBridge.MirrorAlways | src/services/cache/bvstk_cache_bridges.c:79-105 | Through any run of callbacks, changes of configuration included, every call on the registry succeeds and the registry shows exactly what the MDIO service believes |
| MdioBridge.RedefineSucceeds | src/services/cache/bvstk_cache_bridges.c:87-94 | A device shown under its name is defined again without fail, with any registers |
| MdioBridge.DefineVerdict | src/services/cache/bvstk_cache.c:42-86 | The status of every definition the bridge makes: not found for a dead handle, denied for a name taken by another device, busy without a free slot, and otherwise success |
| MdioBridge.BridgeIdsFit | src/services/cache/bvstk_cache_bridges.c:6-11 | The ids taken from a valid profile, or made up without one, are valid and all different |
| MdioBridge.AttachJoins | src/services/cache/bvstk_cache_bridges.c:106-118 | A device attached to the registry joins those it shows and disturbs none |
| I2cSlave.LostBeyondTheEnd | src/services/i2c/bvstk_i2c_slave_service.c:196-247 | Of a write frame that succeeds, all bytes were taken exactly when the last one has a register |
| FsSession.OneRecord | src/protocols/dcp2/bvstk_dcp2_fs.c:142-173 | A coherent disk with one empty file, whose listing can be opened and walked and is exactly one block of 15 bytes, so that the second, empty block is needed |

## Left out

Assumptions:

- Counters that would need 2^64 events, or 2^32 catalog definitions, to wrap are unbounded; runs define fewer catalogs than that. Subscription ids, snapshot tokens, the round-robin index and FS handle numbers wrap or run out as in the code.
- Each section guarded by a lock is one atomic step; failures to take a lock are not modelled.
- A response timeout ends the client's session, as its documentation says; sockets, deadlines and partial sends are not modelled beyond the byte queue.
- A configuration text is the bytes ahead of its terminating zero.
- The tree behind the FS backend does not change while streams are open; calls may fail and reads may be short at any time.
- Completion, prompt and submit callbacks of the line editor are functions; a submit callback leaves the terminal at the start of an empty row. The terminal does not wrap, and output is never refused.

Behaviour not modelled:

- CACHE: `CacheClient.request` called directly with opcodes of the caller's own, JSON output, several clients on one connection.
- FS: the INFO and STAT requests, directory attributes, printing and the `verify_repeats` option in the Python client (two reads of one block agree by `FsClient.Reread`).
- The frame codec on the firmware side and the dispatch between services; frames are modelled as the client builds and takes them.
- Device profiles: where the resource ids lie in the packed `ids` buffer. They are a list by register, laid one behind the other with their total size bounded as in the code; two ids that share their last bytes in the buffer are not represented. Unused tail entries of the fixed arrays count as equal.
- Device profiles: file names and their rules (`bvstk_device_profile_path_valid`, `bvstk_device_profile_same_file`), null arguments, and the permissive older I2C reader, which is chosen by the same gate.
- MDIO: events, statistics, the acknowledge line of the hardware mailbox, mailbox writes that race with the scan, the file name of a configuration.
- I2C: presence and observation events, configuration changes between frames, several devices on one master.
- SD: result details other than status, data and first mismatch; attaching a driver.
- Line editor: the tab hook that replaces completion, a prompt printed later by its owner.

Contracts weaker than the code:

- CacheShape.ShapeFromTheStart: an observer is told which subscription a page belongs to but not the bytes; the bytes are covered by CacheWire.ParsePageExact and CacheEndpoint.Endpoint.Request.
- FsService.Session.Request: says nothing of the status of an OPEN or CLOSE when some handle has gone idle at that moment, or of a READ when its own has; FsService.Session.Expire and FsService.Session.Execute, which it consists of, together do.
- MdioService.Service.Step: which device is polled is stated by MdioService.Service.Poll, not again here; the status returned and the acknowledge line are not stated.
- SdService.Service.WriteVerified: when it fails, the state of the sector is not described.
