# Connexia: a model of its protocols, with proofs

Connexia is an SSH and RDP client with a small self-hosted server: a Rust core that
speaks RDP, a Dart front end, a browser dashboard, and a Go server that stores encrypted
data. This project models the parts of it that keep state over many steps and proves what
they promise for every input, every run or every interleaving.

Code that changes things in place is a class or an array method here, proved against a
function of its old state; what is promised is then proved about that function and about
runs of it.

- **Standard RDP Security** (`Bytes`, `Rc4`, `RdpKeys`, `RdpFraming`, `RdpRuns`,
  `RdpWire`, `RdpSession`, `RdpSecurity`, `ServerKey`). RC4, salted signatures, the key update every 4096 packets,
  PER and TPKT lengths, fast-path and slow-path framing and the loop that splits a buffer
  into PDUs, establishment, and the server certificate (MS-RDPBCGR sections 5.3.5 to 5.3.7,
  2.2.8.1.2, 2.2.9.1.2 and 2.2.1.4.3.1.1; TPKT is section 6 of RFC 1006). A sender and a
  mirrored peer stay in step over runs of any length and across key updates; over whole
  sessions, with both ends sending and reading in any order over two byte streams,
  everything sent is recovered in order.
- **Sync protocol** (`SyncModel`, `SyncHistory`, `SyncCalls`, `SyncRuns`, `SyncLoss`,
  `SyncRepair`, `SyncStore`). Any number of clients clone, edit and post against a server
  that compares revisions. Steps interleave at every `await`: a poll may be answered at one time and assigned at another,
  and a post whose answer is lost may still reach the server later. Nothing is assumed
  of the changes. Updates are never lost unless a refresh is assigned between a clone and
  its post; that this can happen, and is the only way, is proved as well.
- **RDP session loop** (`Frames`, `SessionLoop`, `PointerInput`). Dirty rectangles,
  visibility and frame pacing on one side, the client's framebuffer on the other; button
  masks and the press and release events made of them.
- **SSH sessions** (`ConnectSlots`, `SshSession`, `SshWorld`, `SshQueue`, `SshRetry`).
  Generations, retry timers, late callbacks, retries that are not lost and the hand-off
  semaphore, in every interleaving of sessions, calls, timers and user actions.
- **SSH keys** (`Base64`, `SshWire`, `OpenSshKey`). Base64 (section 4 of RFC 4648), wire
  strings and mpints (section 5 of RFC 4251), the openssh-key-v1 container and its PEM form.
- **Clipboard, limiter, workspaces** (`Crlf`, `FileClipboard`, `RateLimiter`, `Workspaces`).

`Results` holds the option and result types. A byte is an integer from 0 to 255;
exclusive-or is defined on its bits, and masks are written with division and remainder.
Hashes, the MCS codec, the text decoder and the payload type of the sync protocol are
parameters, so each statement holds for all of them.

Where the code does not do what one would expect, the code is followed and the exact
condition is stated:

- A fast-path frame of 2^15 bytes or more states a wrong length and cannot be cut off the
  stream (`RdpRuns.SealedLength`, `RdpWire.StreamIsCutIntoUnits`), and a length below 128
  comes back in two bytes (`RdpRuns.CanonicalIsIdentity`).
- The sender reads the event count with a mask of five bits, one of which is a header flag; it
  always replaces both flags, so a frame that had one is not restored literally (same lemma).
- A client does not always hold the server's payload itself: what `refresh` takes in is
  repaired first (`SyncHistory.PairsAreFromHistory`, with an instance in
  `SyncRepair.RepairIsSeen`). Clients hold exactly the server's payloads in all runs that use
  a change if and only if the change keeps whole payloads whole
  (`SyncRepair.ExactExactlyWhenTidy`, `SyncRepair.DashboardIsExactlyWhole`).
- A refresh of another revision that is assigned between clone and post loses an update
  (`SyncHistory.SerialExactlyWhenPaired`, `SyncLoss.UpdateIsLost`). The guard of the poll
  is looked at only when a poll starts: it keeps polls from starting during a call, not
  from landing in one (`SyncCalls.OvertakingPollIsOlder`).
- A pointer command that changes only unused mask bits emits nothing
  (`PointerInput.EventsCount`).
- The integer zero is written as one zero byte, which RFC 4251 does not allow
  (`SshWire.MpintIsCanonical`).
- Up to `2 * limit - 1` calls get through in one window's length, for every limit and window;
  so `limit` is kept in every such interval if and only if it is one
  (`RateLimiter.AllowedIsBounded`, `RateLimiter.BoundIsReached`,
  `RateLimiter.LimitIsKeptExactlyForOne`).

## Model

| member | source | states |
|---|---|---|
| `Rc4.Cipher.constructor` | rust/src/rdp_security.rs:55-70 | the in-place key schedule leaves exactly the stream state `Init(key)`, for every non-empty key |
| `Rc4.ScheduleIsPermutation` | rust/src/rdp_security.rs:63-67 | after any number of rounds of the key schedule every byte value occurs exactly once in the state |
| `Rc4.InitIsReady` | rust/src/rdp_security.rs:55-70 | a fresh cipher holds a permutation of 0..255 |
| `Rc4.AdvanceKeepsReady` | rust/src/rdp_security.rs:72-81 | any amount of cipher output leaves the state a permutation |
| `Rc4.Cipher.Transform` | rust/src/rdp_security.rs:72-81 | the in-place loop turns the array and the state into what `Apply` says, whatever the array held |
| `Rc4.ApplyConcat` | rust/src/rdp_security.rs:72-81 | enciphering `a + b` is enciphering `a`, then `b` with the state that leaves |
| `Rc4.ApplyTwice` | rust/src/rdp_security.rs:72-81 | two equal states applied one after the other give the data back and end equal |
| `RdpKeys.SelectMethod` | rust/src/rdp_security.rs:357-371 | the chosen method is exactly one of 40, 56 and 128 bits, one the server offers, and the strongest such; none is chosen exactly when the server offers none of them |
| `RdpKeys.SelfEncrypt` | rust/src/rdp_security.rs:153-175 | the new key is the digest's first `key_len` bytes enciphered under themselves, the rest kept |
| `RdpKeys.UpdateKey` | rust/src/rdp_security.rs:153-175 | the array holds the updated key, reduced to the strength of the method |
| `RdpKeys.SaltSurvivesUpdates` | rust/src/rdp_security.rs:153-175 | after any number of key updates a 40-bit key still starts with D1 26 9E and a 56-bit key with D1 |
| `RdpKeys.EstablishedKeysAreWeak` | rust/src/rdp_security.rs:276-337 | establishment leaves both keys and the signing key at the strength of the method that was selected |
| `RdpKeys.PumpTwice` | rust/src/rdp_security.rs:427-459 | a receiver in the sender's state undoes one packet and ends in the sender's new state, key updates included |
| `RdpKeys.ReachedStep` | rust/src/rdp_security.rs:427-442 | one more packet keeps the relation between a direction's state and the packets sent: key, cipher position, use count, checksum count |
| `RdpKeys.StateAfterPackets` | rust/src/rdp_security.rs:427-459 | after n packets the checksum counter is n (in 32 bits), the key has been updated (n-1)/4096 times, and the cipher stands exactly behind the bytes sent since the last update |
| `RdpFraming.PerLengthRoundTrip` | rust/src/rdp_security.rs:179-193 | a written length is read back, in two bytes, if and only if it is below 2^15 |
| `RdpFraming.TpktAtStart` | rust/src/rdp_security.rs:739-750 | a TPKT unit is recognised at its own length whatever follows it |
| `RdpRuns.SealedLength` | rust/src/rdp_security.rs:676-715 | a sealed frame is 11 bytes longer than its body and states its own length if and only if that is below 2^15 |
| `RdpRuns.CanonicalIsIdentity` | rust/src/rdp_security.rs:623-715 | the way through both ends changes nothing exactly for a frame without header flags that already carries its length in the two-byte form |
| `RdpRuns.FastRoundTrip` | rust/src/rdp_security.rs:623-715 | a mirrored peer recovers every fast-path frame up to the form of its length, its signature matches, and the peer follows the sender's state |
| `RdpRuns.SlowRoundTrip` | rust/src/rdp_security.rs:494-620 | a mirrored peer recovers the user data of every request PDU under the header it is meant to see, the signature matches, and the peer follows |
| `RdpRuns.SlowStep` | rust/src/rdp_security.rs:467-493 | one turn of the splitting loop takes exactly the TPKT unit at the front |
| `RdpRuns.SlowPathIsEach` | rust/src/rdp_security.rs:467-493 | on whole PDUs followed by a tail that starts none, the loop encrypts each PDU once, in order, with the state threaded through, and passes the tail on |
| `RdpRuns.SlowPathDistributes` | rust/src/rdp_security.rs:467-493 | hence it distributes over concatenation at a PDU boundary, errors included |
| `RdpWire.SplitOfFlatten` | rust/src/rdp_security.rs:739-750 | a buffer of whole units and a tail splits back into these units and this tail, and into nothing else |
| `RdpWire.SplitIsFlatten` | rust/src/rdp_security.rs:739-750 | every buffer is its whole units followed by a tail that starts no unit |
| `RdpRuns.SlowPathIsPackets` | rust/src/rdp_security.rs:427-543 | the whole effect of one call on the state, successful or not: the sending half makes one packet transition for each request PDU up to and including the first that cannot be encrypted, and nothing else changes |
| `RdpRuns.SlowPathCounts` | rust/src/rdp_security.rs:467-543 | one call moves the checksum counter by the number of request PDUs up to and including the one that fails, which are all of them when it succeeds |
| `RdpRuns.UnitRoundTrip` | rust/src/rdp_security.rs:717-737 | through `encrypt_frame` and `decrypt_frame` a single frame of either kind arrives, and the peer stays in step |
| `RdpRuns.RunRoundTrip` | rust/src/rdp_security.rs:427-714 | any number of frames of both kinds, all sent before the first is read: each is recovered, no signature fails, and both ends finish with equal keys, ciphers and counters |
| `RdpWire.SealedFastIsDelimited` | rust/src/rdp_security.rs:676-715 | a sealed fast-path frame can be cut off a stream by its own length if and only if it is below 2^15 bytes |
| `RdpWire.StreamIsCutIntoUnits` | rust/src/rdp_security.rs:467-750 | the bytes of a run of both kinds of frames, written one behind the other, are cut back into exactly its units if and only if every sealed fast-path frame is below 2^15 bytes |
| `RdpWire.FrameIsUnits` | rust/src/rdp_security.rs:717-722 | encrypting a buffer in one call is encrypting its units one by one and writing them one behind the other; the receiver cuts them apart again exactly when a fast-path frame is short enough |
| `RdpWire.FrameRoundTrip` | rust/src/rdp_security.rs:717-737 | one call of `encrypt_frame` with any number of PDUs, cut from the stream and read by the peer |
| `RdpSession.EstablishedEndsAreMirrored` | rust/src/rdp_security.rs:276-337 | the client's keys and those the server takes from the same key blob make each end decrypt with what the other encrypts with |
| `RdpSession.ReceiveKeepsWay` | rust/src/rdp_security.rs:728-737 | reading the next unit of the stream recovers the oldest one not yet read, however many are under way behind it |
| `RdpSession.StepKeepsLink` | rust/src/rdp_security.rs:717-737 | every send and every read, at either end, keeps both streams in step |
| `RdpSession.SessionDelivers` | rust/src/rdp_security.rs:276-737 | every session from establishment on, both ends sending and reading in any order with frames crossing in the two streams (fast-path frames sealed below 2^15 bytes): what has been read is what was sent, in order and recovered; a whole unit is waiting exactly when not all has been read; and when nothing is under way the ends are mirrored again |
| `RdpRuns.RunIsPackets` | rust/src/rdp_security.rs:427-442 | every frame passes through the cipher as exactly one packet |
| `RdpRuns.SessionCounters` | rust/src/rdp_security.rs:276-459 | from establishment on, n frames give a checksum counter of n (in 32 bits) and (n-1)/4096 key updates |
| `RdpSecurity.Stream.constructor` | rust/src/rdp_security.rs:276-337 | the object starts as `Establish` says |
| `RdpSecurity.Stream.EncryptRc4` | rust/src/rdp_security.rs:427-442 | key update, cipher, counters and data together make the transition `Pump` of the sending half; the receiving half is untouched |
| `RdpSecurity.Stream.DecryptRc4` | rust/src/rdp_security.rs:444-459 | the same for the receiving half |
| `RdpSecurity.Stream.EncryptFastPath` | rust/src/rdp_security.rs:676-715 | result and new state are those of `SealFastPath` |
| `RdpSecurity.Stream.DecryptFastPath` | rust/src/rdp_security.rs:623-674 | result, signature verdict and new state are those of `OpenFastPath` |
| `RdpSecurity.Stream.EncryptOneSlowPath` | rust/src/rdp_security.rs:494-543 | result and new state are those of `SealOne`; other PDUs pass unchanged |
| `RdpSecurity.Stream.EncryptSlowPath` | rust/src/rdp_security.rs:467-493 | the splitting loop terminates on every buffer and computes `SealSlowPath` |
| `RdpSecurity.Stream.DecryptSlowPath` | rust/src/rdp_security.rs:551-620 | result, signature verdict and new state are those of `OpenSlowPath` |
| `RdpSecurity.Stream.EncryptFrame` | rust/src/rdp_security.rs:717-726 | chooses the path by the first byte, state as the chosen path leaves it |
| `RdpSecurity.Stream.DecryptFrame` | rust/src/rdp_security.rs:728-737 | chooses the path by the first byte, state as the chosen path leaves it |
| `ServerKey.ParseBuilt` | rust/src/rdp_security.rs:205-260 | a certificate with the right magics and lengths is accepted, and gives modulus, exponent and modulus length back |
| `ServerKey.AcceptedIsBuilt` | rust/src/rdp_security.rs:205-260 | and only such certificates are: every accepted byte string is one that was built, byte for byte; so no index is out of range on any input |
| `ServerKey.LeResized` | rust/src/rdp_security.rs:262-270 | a number below 256^k gets exactly k little-endian bytes with its value, so the resize pads and never truncates |
| `ServerKey.Encrypt` | rust/src/rdp_security.rs:262-270 | the output has the length of the modulus and its little-endian value is m^e mod n |
| `SyncHistory.StepKeepsSound` | server/internal/web/static/js/dashboard/store.js:85-141 | every step of every client and of the server keeps: states and edits are of revisions of the history as the client may read them, posts carry the change of what was cloned |
| `SyncHistory.PairsAreFromHistory` | server/internal/web/static/js/dashboard/store.js:85-141 | in every run, with no condition on changes or refreshes, each client's payload is the server's payload at the client's revision as `normalize` repairs it, or as it is when the client wrote that revision |
| `SyncHistory.HistoryIsStable` | server/internal/syncapi/sync.go:48-64 | revisions are never rewritten: the history only grows at its end |
| `SyncHistory.CommitReplaces` | server/internal/web/static/js/dashboard/store.js:107-119 | in every run, revision k+1 is the committed change of what its client may read at some earlier revision, which is revision k unless a refresh of another revision was assigned between clone and post |
| `SyncHistory.NoLostUpdate` | server/internal/web/static/js/dashboard/store.js:101-141 | in every interleaving of any number of clients in which no commit was overtaken by a refresh, and whatever the changes do, the payload at revision n is the n changes applied in revision order to the empty payload, with a repair before each except perhaps between commits of the same client |
| `SyncHistory.SerialIsFold` | server/internal/web/static/js/dashboard/store.js:101-141 | a history in which each revision is the change of the one before, repaired or not, is the fold of its changes with these repairs |
| `SyncHistory.SerialExactlyWhenPaired` | server/internal/web/static/js/dashboard/store.js:109-114 | in every run, for changes that each add something and repairs that add nothing, the history is serial if and only if every commit's revision is that of the payload it had cloned: the window is the only way to lose an update |
| `SyncRepair.ExactExactlyWhenTidy` | server/internal/web/static/js/dashboard/store.js:50-99 | the clients of all runs that use a change hold exactly the payloads of the server if and only if the empty payload needs no repair and the change never makes one necessary |
| `SyncRepair.DashboardIsExactlyWhole` | server/internal/web/static/js/dashboard/store.js:44-59 | on the payloads of the dashboard: if and only if the change keeps whole payloads whole |
| `SyncRepair.RepairIsSeen` | server/internal/web/static/js/dashboard/store.js:50-99 | a run in which a client saves a payload without its table of hosts and the next client holds another payload than the server at the same revision |
| `SyncHistory.TidyNoLostUpdate` | server/internal/web/static/js/dashboard/store.js:101-141 | under the same condition the payload at revision n is exactly the n changes applied in order to the empty payload |
| `SyncLoss.UpdateIsLost` | server/internal/web/static/js/dashboard/store.js:78-114 | a run of two clients in which a poll lands in that window: both commits succeed and the first one's row is gone |
| `SyncCalls.OvertakingPollIsOlder` | server/internal/web/static/js/dashboard/store.js:78-82 | while a call of a client runs, none of its unforced polls starts: one that overtakes the call was already under way when the call began |
| `SyncCalls.CommitsOnceInCallOrder` | server/internal/web/static/js/dashboard/store.js:101-141 | the commits of one client have strictly increasing call numbers: each `mutate` call commits at most once and they take effect in call order |
| `SyncCalls.AtMostFourPosts` | server/internal/web/static/js/dashboard/store.js:108-127 | no `mutate` call ever sends more than four posts |
| `SyncCalls.PendingWritesIsZeroOrOne` | server/internal/web/static/js/dashboard/store.js:101-141 | `pendingWrites` is one while a call of the client is running and zero otherwise, so calls run one at a time |
| `SyncCalls.StepKeepsOrderly` | server/internal/web/static/js/dashboard/store.js:101-141 | every step keeps the order of queue, running call, late posts and commits |
| `SyncStore.SyncServer.HandlePost` | server/internal/syncapi/sync.go:29-65 | status 400, 413, 409 or 200 by the first check that fails; the blob is replaced with the next revision exactly on 200 |
| `SyncStore.AcceptedRevisionsAreConsecutive` | server/internal/syncapi/sync.go:48-64 | over any sequence of posts by any users, a user's accepted requests named consecutive revisions, the stored revision counts them and the stored blob is the last of them |
| `SyncStore.NormalizeRepairs` | server/internal/web/static/js/dashboard/store.js:50-59 | after `normalize` every table is a list and the settings are an object, whatever was missing or of another type; everything in order is kept, and exactly the whole payloads are left alone |
| `SyncStore.WholeChangesAreTidy` | server/internal/web/static/js/dashboard/store.js:44-59 | on the payloads of the dashboard, nothing ever needs repair if and only if every change keeps whole payloads whole |
| `SyncStore.Store.Mutate` | server/internal/web/static/js/dashboard/store.js:101-141 | a call joins the end of the write queue |
| `SyncStore.Store.RunNext` | server/internal/web/static/js/dashboard/store.js:101-109 | the first queued call starts: one pending write, the payload cloned |
| `SyncStore.Store.SendPost` | server/internal/web/static/js/dashboard/store.js:113-114 | the request takes the revision as it is now |
| `SyncStore.Store.ReceiveReply` | server/internal/web/static/js/dashboard/store.js:115-127 | success, conflict with or without retries left, and failure each lead to the right phase and state |
| `SyncStore.Store.CheckAnswer` | server/internal/web/static/js/dashboard/store.js:86-90 | an unforced refresh is dropped exactly when its revision is the client's own |
| `SyncStore.Store.TakeRefresh` | server/internal/web/static/js/dashboard/store.js:91-98 | payload and revision are replaced together, the payload repaired |
| `SyncStore.Store.StartPoll` | server/internal/web/static/js/dashboard/store.js:75-82 | a poll starts when forced, or when no write is pending and the page is visible, and not otherwise |
| `Frames.PackRectangle` | rust/src/api/rdp.rs:1082-1097 | the loop copies exactly the rows of the rectangle, in order |
| `Frames.PackedRow` | rust/src/api/rdp.rs:1082-1097 | row i of the packed pixels is the part of image row top+i that lies in the rectangle |
| `Frames.Framebuffer.Put` | lib/core/remote/framebuffer.dart:38-53 | the client's rows are overwritten as `Apply` says |
| `Frames.UpdateArrives` | rust/src/api/rdp.rs:1082-1097 | a packed rectangle applied to a framebuffer makes every byte inside the rectangle that of the image and leaves every other byte alone |
| `SessionLoop.StepKeepsGood` | rust/src/api/rdp.rs:604-928 | visibility changes, graphics updates and clock ticks in any order keep: while visible with no full resend owed, every differing byte lies inside `dirty` |
| `SessionLoop.RunMirrors` | rust/src/api/rdp.rs:604-928 | from connecting on, in every run, whatever a tick emits makes the client's framebuffer equal to the image |
| `SessionLoop.EmittedMirrors` | rust/src/api/rdp.rs:887-928 | after any emitted update the mirror equals the image, pixels outside the update included |
| `SessionLoop.VisibleTickSynchronises` | rust/src/api/rdp.rs:911-927 | a visible session is in step after every tick that comes a frame interval after the last frame, emission or not |
| `SessionLoop.HideShowResends` | rust/src/api/rdp.rs:620-629 | hiding and showing within one drain makes the next tick send the whole desktop |
| `SessionLoop.Frame.Visibility` | rust/src/api/rdp.rs:620-629 | the fields follow `SetVisible` |
| `SessionLoop.Frame.GraphicsUpdates` | rust/src/api/rdp.rs:854-860 | `dirty` becomes the union over all reported rectangles |
| `SessionLoop.Frame.EmitFrame` | rust/src/api/rdp.rs:887-928 | the emitted update and the new fields are those of `Emit` |
| `PointerInput.EventsReplay` | rust/src/api/rdp.rs:652-715 | a server that tracks buttons holds the low three bits of the mask after each command |
| `PointerInput.EventsCount` | rust/src/api/rdp.rs:652-715 | a command emits at most four events, all at its position; it emits none exactly for a change of high bits only without wheel motion, so masks below 8 always give one to four |
| `PointerInput.ReplayAll` | rust/src/api/rdp.rs:652-715 | over any sequence of commands the server ends with the last mask's buttons, and the wheel motion adds up |
| `PointerInput.Translator.Handle` | rust/src/api/rdp.rs:652-715 | the statements push exactly `Events` and remember the mask |
| `PointerInput.Translator.Drain` | rust/src/api/rdp.rs:616-715 | a whole drain pushes `AllEvents` and remembers the last mask |
| `PointerInput.Chunks` | rust/src/api/rdp.rs:739-746 | the chunks are non-empty, all but the last of 128 events, and concatenate to the whole list |
| `ConnectSlots.Limit` | server/internal/web/static/js/dashboard/ssh/sessions.js:224-224 | the limit is between 1 and 100, the setting itself when it is in that range, and 4 when it does not parse |
| `ConnectSlots.ServedInOrder` | server/internal/web/static/js/dashboard/ssh/sessions.js:232-236 | releases with nothing in between hand the slots to the waiters one after the other, from the front |
| `SshQueue.StepMovesQueue` | server/internal/web/static/js/dashboard/ssh/sessions.js:223-303 | a turn drops the head of the queue, which is granted the slot, exactly when a call ends in it; otherwise the queue stays or a new call joins its end |
| `SshQueue.ServedInTurn` | server/internal/web/static/js/dashboard/ssh/sessions.js:223-303 | in every interleaving, the call at place k of the queue moves up one place with every release, waits for k of them, and is granted the slot by the next one |
| `ConnectSlots.ConnectSlots.AcquireSlot` | server/internal/web/static/js/dashboard/ssh/sessions.js:223-230 | counter and queue as `Acquire` says; granted exactly below the limit |
| `ConnectSlots.ConnectSlots.ReleaseSlot` | server/internal/web/static/js/dashboard/ssh/sessions.js:232-236 | counter and queue as `Release` says: a waiter gets the slot before the counter falls |
| `SshSession.SessionObject.Connected` | server/internal/web/static/js/dashboard/ssh/sessions.js:271-293 | installation, a stale call and a connection that closed early each leave the fields as `Install` says |
| `SshSession.SessionObject.Failed` | server/internal/web/static/js/dashboard/ssh/sessions.js:294-299 | the error path schedules a retry exactly for the current call of an open session in auto-retry |
| `SshSession.SessionObject.OnClose` | server/internal/web/static/js/dashboard/ssh/sessions.js:305-315 | `handleClosed` as `HandleClosed` says: stale reports change nothing, the log row is closed with the handle |
| `SshSession.SessionObject.Schedule` | server/internal/web/static/js/dashboard/ssh/sessions.js:323-337 | at most one timer, none for a closed session |
| `SshSession.SessionObject.CloseSession` | server/internal/web/static/js/dashboard/ssh/sessions.js:434-452 | closing is final and happens once: timer cleared, handle closed, log row closed |
| `SshSession.SessionObject.Reconnect` | server/internal/web/static/js/dashboard/ssh/sessions.js:454-460 | the old handle and log row are closed before a new generation starts |
| `SshWorld.StepKeepsSafe` | server/internal/web/static/js/dashboard/ssh/sessions.js:223-343 | every turn of every session, call, callback, timer and user action keeps the invariant of slots, handles, timers and log |
| `SshWorld.RunIsSafe` | server/internal/web/static/js/dashboard/ssh/sessions.js:223-460 | hence every interleaving does |
| `SshWorld.HandlesAreOwned` | server/internal/web/static/js/dashboard/ssh/sessions.js:271-315 | a returned handle is installed if and only if we have not closed it and its end has not been reported, also when the report came before the call had ended; only returned handles are installed, in a live session under the current generation, after their call has ended |
| `SshWorld.TimersAreIdle` | server/internal/web/static/js/dashboard/ssh/sessions.js:317-343 | a retry timer runs only while the session is open, nothing is installed and no current call is in flight |
| `SshRetry.NoRetryIsLost` | server/internal/web/static/js/dashboard/ssh/sessions.js:294-343 | in every interleaving, an open session with nothing installed, no current call and no timer is not in auto-retry: its last attempt failed, or the user stopped it while it was waiting; a running timer means auto-retry |
| `SshRetry.LossIsRetried` | server/internal/web/static/js/dashboard/ssh/sessions.js:305-337 | the report that ends an installed connection leaves the session with a retry five seconds later |
| `SshRetry.RetriesUntilInstalled` | server/internal/web/static/js/dashboard/ssh/sessions.js:238-337 | a retrying session goes on, attempt after attempt, until one is installed, unless the user stops, closes or reconnects it |
| `SshWorld.LogRowsPair` | server/internal/web/static/js/dashboard/ssh/sessions.js:521-543 | at turn boundaries a session holds a log row exactly when it holds a handle; no row is shared; each row is opened once and closed once unless still held |
| `SshWorld.SlotsAreHandedOn` | server/internal/web/static/js/dashboard/ssh/sessions.js:223-248 | `connecting` is the number of calls holding a slot, each waiting call is queued once, and a non-empty queue means that some call holds a slot to hand on |
| `SshWorld.LimitIsKept` | server/internal/web/static/js/dashboard/ssh/sessions.js:223-236 | under a constant limit `connecting` never exceeds it, and equals it while anyone waits |
| `Base64.RoundTrip` | server/internal/web/static/js/dashboard/crypto.js:4-19 | decoding undoes encoding, wherever white space was put into the text |
| `Base64.EncodeIsInjective` | server/internal/web/static/js/dashboard/crypto.js:13-19 | two byte strings have the same encoding if and only if they are equal |
| `Base64.EncodedLength` | server/internal/web/static/js/dashboard/crypto.js:13-19 | four characters for every three bytes begun |
| `Base64.UrlRoundTrip` | server/internal/web/static/js/dashboard/crypto.js:21-24 | the unpadded URL form of a JSON web key is decoded to the bytes it was made of |
| `Base64.ToBinary` | server/internal/web/static/js/dashboard/crypto.js:13-19 | the chunked loop builds the binary string of the whole input |
| `Base64.FromBinary` | server/internal/web/static/js/dashboard/crypto.js:4-11 | the loop takes the character codes back |
| `SshWire.MpintIsCanonical` | server/internal/web/static/js/dashboard/crypto.js:78-86 | `mpint` keeps the number, the top bit is clear, and the form is that of section 5 of RFC 4251 if and only if the number is not a zero written in one or more bytes (which becomes one zero byte) |
| `SshWire.CanonicalIsUnique` | server/internal/web/static/js/dashboard/crypto.js:78-86 | two canonical forms are equal if and only if their numbers are, so `mpint` depends on the number alone |
| `SshWire.FieldsRoundTrip` | server/internal/web/static/js/dashboard/crypto.js:59-118 | any sequence of strings and words written is read back field by field, ending exactly at the end, if and only if every word and every length fits in 32 bits |
| `SshWire.ReadWireString` | server/internal/web/static/js/dashboard/crypto.js:98-118 | a string that was written is read back from its place and the reader stands behind it |
| `SshWire.Concat` | server/internal/web/static/js/dashboard/crypto.js:120-128 | the copying loop puts the parts one behind the other |
| `SshWire.SshWriter.String` | server/internal/web/static/js/dashboard/crypto.js:71-76 | appends the length word and the bytes |
| `SshWire.SshWriter.MpInt` | server/internal/web/static/js/dashboard/crypto.js:78-86 | the stripping loop appends exactly the string of `Mpint` |
| `SshWire.SshReader.Uint32` | server/internal/web/static/js/dashboard/crypto.js:105-109 | the word at the offset, or an error that leaves the offset |
| `SshWire.SshReader.String` | server/internal/web/static/js/dashboard/crypto.js:111-117 | the bytes behind the length word, or an error when the key is truncated |
| `OpenSshKey.Pad` | server/internal/web/static/js/dashboard/crypto.js:182-187 | the padding loop stops within seven bytes, appends 1, 2, 3 and so on, and reaches the next multiple of 8 |
| `OpenSshKey.PrintPrivateKey` | server/internal/web/static/js/dashboard/crypto.js:179-198 | the two writers together produce `PrivateKeyPem` |
| `OpenSshKey.WrapShape` | server/internal/web/static/js/dashboard/crypto.js:173-177 | the wrapped text has a line break at every 71st character and nowhere else |
| `OpenSshKey.WrapUnwraps` | server/internal/web/static/js/dashboard/crypto.js:173-177 | taking out the white space gives the unwrapped text back |
| `OpenSshKey.PemBodyOfPem` | server/internal/web/static/js/dashboard/crypto.js:132-134 | the pattern finds exactly the text between the markers that were printed |
| `OpenSshKey.OpenBodyOfPem` | server/internal/web/static/js/dashboard/crypto.js:132-142 | opening a printed container gives the bytes behind the magic |
| `OpenSshKey.ReadPublicKey` | server/internal/web/static/js/dashboard/crypto.js:157-171 | the reader object and its early returns compute `PublicKey` |
| `OpenSshKey.PublicKeyRoundTrip` | server/internal/web/static/js/dashboard/crypto.js:157-198 | for every type, fields, private part, comment and check bytes, the public key line read from a printed key is that of the generated key if and only if the blob's length fits its length word |
| `OpenSshKey.PrintedIsNotEncrypted` | server/internal/web/static/js/dashboard/crypto.js:144-155 | a printed key is never reported as encrypted |
| `Crlf.NormalizeJoinsLines` | rust/src/rdp_clipboard.rs:296-303 | the three passes equal the one-pass specification: split at CR LF, CR or LF and join with CR LF |
| `Crlf.NormalizeKeepsLines` | rust/src/rdp_clipboard.rs:296-303 | normalising changes no line, and doing it twice changes nothing more |
| `Crlf.NormalizePairs` | rust/src/rdp_clipboard.rs:296-303 | in the result every CR is followed by LF and every LF preceded by CR; exactly the texts of that form are left as they are |
| `Crlf.NormalizeKeepsOthers` | rust/src/rdp_clipboard.rs:296-303 | all other characters stay, in their order |
| `FileClipboard.ReadRange` | rust/src/rdp_clipboard.rs:847-868 | despite short reads the chunk is the file from the position on, up to the requested size and 4 MiB |
| `FileClipboard.TransferRebuilds` | rust/src/rdp_clipboard.rs:787-880 | range requests that each start where the last ended get chunks of at most 4 MiB that put together are the file up to the position reached |
| `FileClipboard.TransferAdvances` | rust/src/rdp_clipboard.rs:787-880 | the position reached is the sum of the requested sizes, each cut to 4 MiB, or the end of the file |
| `FileClipboard.EmptyMeansDone` | rust/src/rdp_clipboard.rs:787-880 | an empty answer to a request for at least one byte means that the whole file has been received |
| `FileClipboard.ServedListStays` | rust/src/rdp_clipboard.rs:449-473 | once data id d has been served from a non-empty list, every request for d until its unlock is served from that list, whatever the clipboard and other ids do |
| `FileClipboard.SnapshotWasRead` | rust/src/rdp_clipboard.rs:449-473 | a snapshot is a non-empty list that the clipboard held at some request for its id since the last unlock |
| `FileClipboard.TransferSurvives` | rust/src/rdp_clipboard.rs:433-521 | a transfer rebuilds the file it started with, wherever its requests stand among those of other transfers and whatever the clipboard holds by then |
| `FileClipboard.CancelHolds` | rust/src/rdp_clipboard.rs:449-485 | requests are refused if and only if the user has cancelled after the last request that started a transfer |
| `FileClipboard.LoggingBackend.OnFileContentsRequest` | rust/src/rdp_clipboard.rs:433-521 | snapshots, cancelled flag and response as `Step` and `Serve` say |
| `FileClipboard.LoggingBackend.CancelTransfer` | rust/src/rdp_clipboard.rs:233-236 | the flag is set and nothing else |
| `FileClipboard.LoggingBackend.OnUnlock` | rust/src/rdp_clipboard.rs:537-541 | only the snapshot of that id is forgotten |
| `RateLimiter.Limiter.AllowRequest` | server/internal/ratelimit/ratelimit.go:28-49 | buckets and answer as `Allow` says, sweep included |
| `RateLimiter.Limiter.RemoveExpired` | server/internal/ratelimit/ratelimit.go:32-38 | the sweep removes exactly the expired buckets |
| `RateLimiter.SweepingIsInvisible` | server/internal/ratelimit/ratelimit.go:28-49 | while the clock does not go back, no answer depends on sweeping, whatever the threshold |
| `RateLimiter.AllowedIsBounded` | server/internal/ratelimit/ratelimit.go:28-49 | for a key with a fixed limit and window, no closed interval as long as the window holds more than 2*limit-1 allowed calls (one, when the limit is below one) |
| `RateLimiter.BoundIsReached` | server/internal/ratelimit/ratelimit.go:28-49 | for every limit and window of at least one, a run in which a window-long interval holds 2*limit-1 allowed calls |
| `RateLimiter.LimitIsKeptExactlyForOne` | server/internal/ratelimit/ratelimit.go:28-49 | no window-long interval of any run holds more than limit allowed calls if and only if the limit is one |
| `Workspaces.HistoryIsConsecutive` | server/internal/teams/teams.go:240-279 | in every history the server's sync rows of a workspace carry 1..n in order with n the blob's revision while it exists, rotations carry 2..v with v the key version, and each client row carries the latest sync revision before it |
| `Workspaces.SyncKeepsHistory` | server/internal/teams/teams.go:753-824 | an accepted sync post with its client rows keeps that |
| `Workspaces.RotateKeepsHistory` | server/internal/teams/teams.go:646-726 | an accepted key rotation keeps that |
| `Workspaces.RotationRewraps` | server/internal/teams/teams.go:682-722 | an accepted rotation keeps the caller a member, gives every listed user the new wrapped key and a valid role, and keeps the joining date of those who stay |
| `Workspaces.Handlers.HandleCreateTeam` | server/internal/teams/teams.go:240-279 | status and new state: one owner, key version 1, revision 0, one audit row |
| `Workspaces.Handlers.HandleDeleteTeam` | server/internal/teams/teams.go:381-414 | status and new state; only an owner gets through |
| `Workspaces.Handlers.HandleKeyRotate` | server/internal/teams/teams.go:646-726 | the status is that of the first check that fails, and on any error nothing has changed |
| `Workspaces.Handlers.HandleTeamSyncPost` | server/internal/teams/teams.go:753-824 | the status is that of the first check that fails; on 200 the next revision, one server row and the rows of the named actions, cut to 64 and 128 |
| `Workspaces.FindMember` | server/internal/teams/teams.go:40-47 | the first member with that user id, if any |

## Left out

- Packet counters: the source's `u32` additions wrap in release builds and panic in debug builds; the wrapping form is modelled.
- A signature that does not match is logged by the source and decryption goes on; the model returns the verdict beside the data.
- SHA-1, MD5 and the other hash internals: functions with results of the right length. Sixteen- and twenty-byte results are all that is used of them.
- The MCS and X.224 codec of IronRDP: functions with the one assumption that what an encoder puts into an envelope the other side's decoder takes out, inside one TPKT unit (`RdpFraming.Mirrors`).
- RdpSession.SessionDelivers: the server's end is the standard's, with the source's own functions in the other direction; a unit that the sender cannot encrypt ends the session. A read takes one whole unit; partial arrival only delays it.
- RdpRuns.RunRoundTrip: covers frames that the sending codec accepts as requests or fast-path frames; PDUs that pass through unencrypted are covered on the sending side only (`SlowPathIsEach`).
- ServerKey.Encrypt: modular exponentiation is the mathematical function; the big-integer library is not modelled. A zero modulus is outside its domain.
- Random numbers, traces, the Security Exchange PDU around the encrypted random, TLS, CredSSP, sockets and the writer thread.
- The active stage of IronRDP: assumed to change only pixels inside the rectangles it reports, and to report rectangles that lie on the desktop. The framebuffers of both sides start blank, and the desktop is at least one pixel wide and high.
- Keyboard commands, audio, resolution changes and the reconnection around `run_session_once`.
- The encryption of sync payloads: transparent, a blob is the payload it decrypts to. JSON and `modifiedAt` are part of the payload.
- SyncHistory.NoLostUpdate: the change of a `mutate` call is one function, the same on every attempt; changes that read outside state between attempts are not modelled.
- A refresh without a blob is assigned in the turn in which it is checked; the model lets other turns come in between there too. Payload data that is a number or a string, on which `normalize` throws, is not modelled.
- Aliasing of `state.payload`: screens that edit the shared object outside `mutate` are not modelled. The cached vault key, listeners, `saving` and error texts carry no protocol state.
- SSH dialogs (host keys, credentials, the "verifying" status), terminals and `resize`: assumed not to throw after the handle is installed. A status or error text plays no part in the invariants beyond its field.
- SshWorld.HandlesAreOwned: the source does not call `close` on a handle whose connection reported its end; neither does the model.
- Log rows are counted when the session opens and closes them; that the sync queue then stores them is the subject of the sync modules.
- `TextDecoder` and `TextEncoder`: only their behaviour on ASCII is fixed; comments are taken as encoded bytes. The key generation calls of WebCrypto are not modelled.
- OpenSshKey.PublicKeyRoundTrip: the key type is ASCII, as all types the source prints are.
- `build_file_descriptor` and the clipboard formats around it: a fixed layout without state, which would only add easy members.
- Files are taken as unchanged during a transfer; progress reports are not modelled.
- Rate limiter keys and addresses: how a request's key is made from its headers. Durations are integers; the clock is a parameter of each call.
- Workspaces.HistoryIsConsecutive: renaming and the three member handlers are modelled together as any change of name and members with one of their own audit rows, which allows more than they do. Identifiers of new workspaces are assumed unused. Storage errors, rate limits and malformed JSON change nothing and are left out.
- Invitations, user keys, the audit listing, accounts, mail, metrics, the relay and all pages and widgets.
