# Verified models of the Ceph client, its Kerberos crypto and the RBD storage driver

This project models the hardest parts of an in-kernel Ceph client (the messenger, the
striper, the OSD client's bookkeeping, base64 armor), of the simplified Kerberos crypto
profile that comes with it (n-fold), and of the Python storage-repository driver with its
background garbage collector, and proves what they are for: ordered and reliable delivery
across faults, frames that are read back as they were written, revocation that never breaks
the framing, striping that is a bijection, and a garbage collector that never changes what a
disk shows. `dafny verify dfyconfig.toml` checks everything.

Code that changes state in place is a class whose methods are tied to functions on values,
and loops are methods with invariants; the theorems are lemmas about those functions, about
step relations over them, and about whole runs.

| file | models |
|---|---|
| NFold.dfy | n-fold of section 5.1 of RFC 3961, byte by byte with carries |
| Striper.dfy, ObjectExtents.dfy | file striping, its inverse, the sorted extent list |
| Delivery.dfy | queues, sequence numbers, acks, faults and reconnects of a session |
| Wire.dfy, Frames.dfy | checksums, integers, preambles, plain and secure frames |
| PlainWriter.dfy, SecureWriter.dfy | the writers, and revoking the message being written |
| Reader.dfy, FrameReading.dfy, TailPages.dfy | the reader, reading back what a peer wrote, and the pages of encrypted tails |
| Handshake.dfy | the msgr2 connection state machine |
| DataCursor.dfy, ScatterLists.dfy, PageLists.dfy | message data |
| Backoff.dfy, OsdLinks.dfy | object order, backoffs, sessions and their items |
| Armor.dfy | base64 into caller-sized buffers |
| RbdStore.dfy, Driver.dfy, FlattenGc.dfy, GcWorkers.dfy, GcTargets.dfy, GcRuns.dfy, GcRerun.dfy, GcJob.dfy, Scan.dfy | the copy-on-write store, the driver's operations, flatten-on-delete and its workers, scanning |
| Arithmetic.dfy | facts about products and quotients |

Several promises turned out to hold only under a condition, which is then proved to be exact,
with a run or an input on which they fail: the second byte swap of a checksum on big-endian
hosts (`PlainWriter.RevokedFrameExactly`, `PlainWriter.SwapMatters`), the msgr2 rule of
counting skipped messages (`Delivery.V2ResumeExact`, `Delivery.V2LosesAMessage`), page vectors
that are lost when encrypted incoming messages are revoked (`TailPages.NothingLostExactly`,
`TailPages.PagesCanBeLost`), connect_seq and global_seq wrapping around
(`Handshake.RetryExactly`, `Handshake.ConnectExactly`, `Handshake.GlobalSeqExactly`), reopening
a lossy connection without closing it (`Handshake.OpenExactly`,
`Handshake.ReopenWithoutClose`), page lists sent in part (`DataCursor.PageListInFull`), nested
backoffs (`Backoff.LookupExactly`, `Backoff.NestedIsMissed`), a clone that is trashed while a
collector is about to look at it (`GcTargets.RefusedExactly`, `GcRuns.MissedRunEnds`), and a
disk that is trashed while the job on its snapshot runs (`GcTargets.RemovalMisses`,
`GcRuns.HiddenRunEnds`).

## Model

| member | source | states |
|---|---|---|
| `NFold.Fold` | kernel-modules/src/krb5/rfc3961_simplified.c:187-250 | for every input and output length the buffer ends up holding the n-fold of section 5.1 of RFC 3961: the one's-complement sum of the output-sized blocks of the input repeated with a further 13-bit right rotation each time |
| `NFold.SumBlocks` | kernel-modules/src/krb5/rfc3961_simplified.c:209-237 | the descending main loop leaves digits and a carry of at most one that together are the one's-complement sum of all blocks, below 256^n |
| `NFold.AddCarry` | kernel-modules/src/krb5/rfc3961_simplified.c:239-249 | the last pass adds the carry and never loses one |
| `NFold.PulledByteIsStreamByte` | kernel-modules/src/krb5/rfc3961_simplified.c:211-229 | the two-byte shift and mask picks byte i of the repeated, rotated input |
| `NFold.NFoldClosedForm` | kernel-modules/src/krb5/rfc3961_simplified.c:187-250 | the n-fold is the sum of the blocks modulo 256^n - 1, with the multiple of the modulus represented as all ones unless every block is zero |
| `NFold.OnesSumClosedForm` | kernel-modules/src/krb5/rfc3961_simplified.c:187-250 | a one's-complement sum of any list of n-byte numbers, in closed form |
| `NFold.LcmIsLeastCommonMultiple` | kernel-modules/src/krb5/rfc3961_simplified.c:199-200 | the length the input is repeated to is the least common multiple of the two lengths |
| `NFold.BigEndianInjective` | kernel-modules/src/krb5/rfc3961_simplified.c:187-250 | an n-byte result is determined by the number it stands for |
| `StripeMap.FileByteOfLocate` | kernel-modules/src/libceph/striper.c:24-44 | the forward map loses nothing: the inverse formula gives back every file byte |
| `StripeMap.LocateOfFileByte` | kernel-modules/src/libceph/striper.c:24-44 | a byte of an object maps back to itself exactly when it lies inside the object |
| `StripeMap.FileByteMonotone` | kernel-modules/src/libceph/striper.c:211-260 | along an object, file offsets only increase |
| `StripeMap.LocateWithinUnit` | kernel-modules/src/libceph/striper.c:24-44 | a run inside one stripe unit stays in one object, in order |
| `StripeMap.ExtentToFile` | kernel-modules/src/libceph/striper.c:211-260 | the file extents of an object extent are increasing and disjoint, add up to its length, list its bytes one for one, and are as many as were allocated |
| `StripeMap.NumObjectsExact` | kernel-modules/src/libceph/striper.c:263-277 | the closed form counts the objects that the bytes of a file live in, and these are numbered from zero without gaps |
| `StripeMap.NumObjectsBegins` | kernel-modules/src/libceph/striper.c:263-277 | object o begins below the file size exactly when it is among the counted ones |
| `ObjectExtents.ExtentList.LookupLast` | kernel-modules/src/libceph/striper.c:53-71 | the last extent of an object, or the place where one belongs |
| `ObjectExtents.ExtentList.AddUnit` | kernel-modules/src/libceph/striper.c:121-147 | one stripe unit is merged into the last extent of its object or inserted in place, and the list then covers exactly the mapped bytes |
| `ObjectExtents.ExtentList.FileToExtents` | kernel-modules/src/libceph/striper.c:110-167 | called on successive increasing ranges it never reports unsorted extents, and the list covers exactly the image of the file bytes, sorted and with gaps between extents; it fails only for lack of memory, after the extents it could allocate |
| `ObjectExtents.OneExtentPerObject` | kernel-modules/src/libceph/striper.c:110-167 | from an empty list a range gives exactly one extent for each object it touches |
| `ObjectExtents.LookupContaining` | kernel-modules/src/libceph/striper.c:74-90 | finds an extent around the given run exactly when the sorted list has one |
| `ObjectExtents.IterateExtents` | kernel-modules/src/libceph/striper.c:174-201 | a walk over a sorted list succeeds exactly when every byte of the range is covered |
| `ObjectExtents.MappedIsCovered` | kernel-modules/src/libceph/striper.c:174-201 | any part of the ranges that were mapped can be walked afterwards |
| `Delivery.Connection.Send` | kernel-modules/src/libceph/messenger.c:1732-1766 | the message joins the end of the queue unnumbered, and a connection on standby wakes up; a closed connection drops it and nothing changes |
| `Delivery.Connection.GetOutMsg` | kernel-modules/src/libceph/messenger.c:2114-2146 | the head of the queue moves to the sent list, numbered only if it never was |
| `Delivery.Connection.DiscardSent` | kernel-modules/src/libceph/messenger.c:673-691 | drops the sent messages up to the acknowledged number |
| `Delivery.Connection.DiscardRequeued` | kernel-modules/src/libceph/messenger.c:698-717 | drops numbered messages at the head of the queue, and stops at the first unnumbered one |
| `Delivery.Connection.Fault` | kernel-modules/src/libceph/messenger.c:1616-1659 | a lossy session closes; on any other, unacknowledged messages go back in front of the queue in order, and the connection waits only if nothing is queued and no keepalive is pending |
| `Delivery.StepKeeps` | kernel-modules/src/libceph/messenger_v1.c:1192-1208 | every send, transmission, arrival, acknowledgement, fault and reconnect keeps the numbers of sent and queued messages consecutive, unnumbered ones last, and the peer at most one step behind the wire |
| `Delivery.DeliveredInOrderOnce` | kernel-modules/src/libceph/messenger.c:29-36 | over every run on a lossless session the messages dispatched are a prefix of the messages queued, in order and once each, and only dispatched messages have been forgotten |
| `Delivery.EverythingCanArrive` | kernel-modules/src/libceph/messenger.c:29-36 | from every reachable state some fault-free continuation delivers everything that was queued |
| `Delivery.V2LosesAMessage` | kernel-modules/src/libceph/messenger_v2.c:2203-2207 | with the msgr2 rule, which counts a skipped old message, a resent message makes the receiver swallow the next new one |
| `Delivery.V2ResumeExact` | kernel-modules/src/libceph/messenger_v2.c:2684-2711 | resuming under the msgr2 rule keeps the guarantee exactly when the sender drops what the peer already has |
| `Wire.CrcAppend` | kernel-modules/src/libceph/messenger_v2.c:3528-3539 | a CRC-32C may be taken in pieces |
| `Wire.CrcZeros` | kernel-modules/src/libceph/messenger_v2.c:3528-3539 | the page-wise loop gives the checksum carried on over that many zeros |
| `Frames.CalcSegmentCount` | kernel-modules/src/libceph/messenger_v2.c:503-513 | trailing empty segments are dropped, but one segment always remains |
| `Frames.PreambleRoundTrip` | kernel-modules/src/libceph/messenger_v2.c:515-614 | a preamble decodes to the descriptor it was made from for all lengths in bounds, and is refused exactly when every segment is empty |
| `Frames.LengthRoundTrip` | kernel-modules/src/libceph/messenger_v2.c:536-552 | a segment length survives its little-endian encoding |
| `Frames.PaddedLen` | kernel-modules/src/libceph/messenger_v2.c:430-433 | the least multiple of the cipher block that holds the length |
| `Frames.FrameLength` | kernel-modules/src/libceph/messenger_v2.c:441-479 | heads and tails have exactly the on-wire lengths the length functions promise, plain and secure |
| `PlainWriter.StartValid` | kernel-modules/src/libceph/messenger_v2.c:1679-1726 | a message frame starts on course for its full length and its own checksums |
| `PlainWriter.PopulateValid` | kernel-modules/src/libceph/messenger_v2.c:3271-3357 | queueing what comes next keeps the frame on course and never queues nothing before its end |
| `PlainWriter.RevokeValid` | kernel-modules/src/libceph/messenger_v2.c:3590-3742 | revoking at any byte: the bytes sent and still to be sent make a frame of the same length, the sent part followed by zeros, with an aborted epilogue whose checksums are those of just these bytes |
| `PlainWriter.FrameComesOut` | kernel-modules/src/libceph/messenger_v2.c:3380-3456 | under any interleaving of partial sends, queueing and revoking, the frame that comes out is the whole message or the zero-filled one with matching checksums |
| `PlainWriter.Conserved` | kernel-modules/src/libceph/messenger_v2.c:3590-3742 | bytes sent, queued and to be queued always add up to the on-wire length of the frame |
| `PlainWriter.SwappedExactly` | kernel-modules/src/libceph/messenger_v2.c:3706-3711 | the front checksum that is encoded a second time while the middle is being sent reads right on a big-endian host only if it is the same in both byte orders |
| `PlainWriter.RevokedFrameExactly` | kernel-modules/src/libceph/messenger_v2.c:3659-3719 | for every revocation, at any byte: the frame it leads to is the message cut off there with the checksums of just those bytes, except exactly when the host is big-endian, the middle of a message without data is going out, and the checksum of the front differs in the two byte orders |
| `PlainWriter.SwapMatters` | kernel-modules/src/libceph/messenger_v2.c:3706-3711 | a front of one zero byte already shows the difference |
| `PlainWriter.PlainConnection.constructor` | kernel-modules/src/libceph/messenger_v2.c:1679-1726 | the message is queued with its checksums as the specification of its start says |
| `PlainWriter.PlainConnection.AddEpilogue` | kernel-modules/src/libceph/messenger_v2.c:1665-1673 | the three checksum fields are converted in place and the epilogue queued behind what is there |
| `PlainWriter.PlainConnection.AddZeros` | kernel-modules/src/libceph/messenger_v2.c:3338-3357 | a page of zeros at most, or the aborted epilogue once none are left |
| `PlainWriter.PlainConnection.PopulateOut` | kernel-modules/src/libceph/messenger_v2.c:3271-3378 | the state machine of one message follows its specification |
| `PlainWriter.PlainConnection.PrepareZeroFront` | kernel-modules/src/libceph/messenger_v2.c:3541-3560 | the checksum of the sent part carried on over zeros, and the queue cut by as much |
| `PlainWriter.PlainConnection.PrepareZeroMiddle` | kernel-modules/src/libceph/messenger_v2.c:3562-3581 | the same for the middle |
| `PlainWriter.PlainConnection.RevokeQueueData` | kernel-modules/src/libceph/messenger_v2.c:3590-3631 | revoking while head, front or middle go out ahead of data, by the number of bytes left |
| `PlainWriter.PlainConnection.RevokeDataCont` | kernel-modules/src/libceph/messenger_v2.c:3633-3657 | revoking inside the data: the current piece and all later ones become zeros |
| `PlainWriter.PlainConnection.RevokeFinish` | kernel-modules/src/libceph/messenger_v2.c:3659-3715 | revoking a message without data, with its epilogue queued already |
| `PlainWriter.TransmitFrame` | kernel-modules/src/libceph/messenger_v2.c:3458-3526 | drives a frame through any schedule: what reaches the socket is always a prefix of the frame of the outcome, and all of it once finished |
| `Reader.PopulateReady` | kernel-modules/src/libceph/messenger_v2.c:3170-3237 | whatever bytes a peer sends, the reader goes on to ask for at least one byte or gives up |
| `Reader.RevokeReady` | kernel-modules/src/libceph/messenger_v2.c:3834-3857 | after a revocation the reader waits for at least one byte of exactly what was left |
| `Reader.InConnection.PopulateIn` | kernel-modules/src/libceph/messenger_v2.c:3170-3237 | the reading state machine in place follows its specification |
| `Reader.InConnection.ActOnControl` | kernel-modules/src/libceph/messenger_v2.c:2995-3033 | control frames are passed on; messages are skipped, refused or begun by their sequence number |
| `Reader.InConnection.HandlePlainControl` | kernel-modules/src/libceph/messenger_v2.c:3071-3095 | a control segment is used only with a matching checksum |
| `Reader.InConnection.HandleSecurePreamble` | kernel-modules/src/libceph/messenger_v2.c:3035-3069 | decrypt, decode, then the inline control part or the remainder |
| `Reader.InConnection.HandleRemainder` | kernel-modules/src/libceph/messenger_v2.c:3097-3112 | the control remainder is decrypted and joined to the inline part |
| `Reader.InConnection.VerifyChecksums` | kernel-modules/src/libceph/messenger_v2.c:709-752 | used empty segments count as all ones, trailing ones as zero |
| `Reader.InConnection.HandlePlainEpilogue` | kernel-modules/src/libceph/messenger_v2.c:3114-3150 | a complete epilogue with three matching checksums dispatches the message |
| `Reader.InConnection.DecryptTail` | kernel-modules/src/libceph/messenger_v2.c:1199-1249 | the decrypted tail is scattered to the segments at their padded places |
| `Reader.InConnection.PrepareReadDataCont` | kernel-modules/src/libceph/messenger_v2.c:1959-1997 | the next piece of data, or the epilogue after the last one |
| `Reader.InConnection.PrepareReadEncPage` | kernel-modules/src/libceph/messenger_v2.c:2150-2177 | one page of ciphertext at a time, the last one ending the tail |
| `Reader.InConnection.FinishSkipping` | kernel-modules/src/libceph/messenger_v2.c:3152-3168 | more of a skip is armed while any is left; then the nonce and the sequence number move on |
| `Reader.InConnection.RevokeMessage` | kernel-modules/src/libceph/messenger_v2.c:3744-3857 | each reading state skips what was asked for and what was not |
| `FrameReading.FeedInFrame` | kernel-modules/src/libceph/messenger_v2.c:83-101 | bytes may arrive in any portions, and the reader never asks for bytes beyond the frame it is in |
| `FrameReading.PopulateIn` | kernel-modules/src/libceph/messenger_v2.c:3170-3237 | every step inside a frame of the peer stays in it or ends it at its last byte, with the right event, nonce and sequence number |
| `FrameReading.EpilogueGood` | kernel-modules/src/libceph/messenger_v2.c:709-752 | the checksum conventions of the writer are those of the reader |
| `FrameReading.RevokeIn` | kernel-modules/src/libceph/messenger_v2.c:3834-3857 | revoking at any byte leaves exactly the rest of the frame to skip |
| `FrameReading.SkipIn` | kernel-modules/src/libceph/messenger_v2.c:3152-3168 | each chunk of a skip is as long as what was asked for; the last one ends the frame, counts the message and uses up its nonce |
| `FrameReading.SkipRefinesDiscard` | kernel-modules/src/libceph/messenger_v2.c:267-296 | draining a skip in page-sized chunks comes to the same reader as one discard of the whole length, with something to wait for at every turn |
| `FrameReading.ReadsWhatWasWritten` | kernel-modules/src/libceph/messenger_v2.c:3239-3269 | for every list of frames, every cut of the stream, every skip and every revocation, plain or secure, frames come out in order and once each, the reader never fails, sender and receiver agree on the nonce of every frame, and a used-up stream ends at a frame boundary |
| `FrameReading.Finishes` | kernel-modules/src/libceph/messenger_v2.c:3239-3269 | reading never gets stuck: some schedule reads every frame |
| `FrameReading.NoncesInOrder` | kernel-modules/src/libceph/messenger_v2.c:856-927 | a sender uses its nonces one after another: one for a small head, two for a big one, one more for a tail, none for an empty message |
| `FrameReading.NoncesDistinct` | kernel-modules/src/libceph/messenger_v2.c:900-906 | no nonce is used twice in a session exactly while it uses no more than 2^64 |
| `FrameReading.WriterSendsFrame` | kernel-modules/src/libceph/messenger_v2.c:1679-1726 | what the plain writer sends for a message is the frame the reader is proved to read |
| `FrameReading.ReadStream` | kernel-modules/src/libceph/messenger_v2.c:3239-3269 | a connection reading any stream on any schedule reports a prefix of its frames, and all of them when the stream is used up |
| `TailPages.PagesCounted` | kernel-modules/src/libceph/messenger_v2.c:2179-2201 | at every point of every run, on any bytes, the vectors lost are the revocations inside an encrypted tail less the last one if no tail was begun since; a step loses one, and only one, exactly if it begins a tail while a revoked one is not replaced yet; there are pages just while a tail is read or after it was revoked |
| `TailPages.NothingLostExactly` | kernel-modules/src/libceph/messenger_v2.c:3788-3832 | over every run of the reader, on any bytes at all, no page vector is lost exactly if no encrypted tail is begun after one that was revoked |
| `TailPages.NoneWithoutRevoking` | kernel-modules/src/libceph/messenger_v2.c:1199-1249 | no page vector is lost in plain mode, nor in any run without a revocation |
| `TailPages.RevokedTailIsLost` | kernel-modules/src/libceph/messenger_v2.c:3788-3802 | for any two messages with tails there is a run that revokes the first in its tail and reads on to the second, and loses exactly one vector |
| `TailPages.PagesCanBeLost` | kernel-modules/src/libceph/messenger_v2.c:2179-2201 | a concrete run of a secure connection from its start, on two one-byte messages, at the end of which one vector is lost |
| `SecureWriter.OutConnection.PrepareHead` | kernel-modules/src/libceph/messenger_v2.c:1320-1391 | the sealed head, with one nonce for a small and two for a big control segment |
| `SecureWriter.OutConnection.PrepareTail` | kernel-modules/src/libceph/messenger_v2.c:1735-1797 | the padded segments and the epilogue sealed at once, with one nonce if there is a tail |
| `SecureWriter.OutConnection.Send` | kernel-modules/src/libceph/messenger_v2.c:1799-1835 | everything sent, queued or sealed is the stream of the frames begun, and the nonce is the one the reader expects next |
| `SecureWriter.OutConnection.PopulateOut` | kernel-modules/src/libceph/messenger_v2.c:3309-3378 | the sealed tail goes out a page at a time, nothing lost |
| `SecureWriter.OutConnection.Revoke` | kernel-modules/src/libceph/messenger_v2.c:3717-3726 | revoking in secure mode changes neither bytes nor nonces |
| `SecureWriter.EncodeAllMore` | kernel-modules/src/libceph/messenger_v2.c:1799-1835 | a frame more at the end of a stream starts from the nonce after the others |
| `Handshake.OpenIsEarned` | kernel-modules/src/libceph/messenger_v2.c:2227-2711 | whatever callers and peers do, an open connection has passed banner, hello, authentication and a matching signature since it was last about to open |
| `Handshake.SessionFramesAreRight` | kernel-modules/src/libceph/messenger_v2.c:1547-1632 | over every run in which no lossy connection is opened again while it still is lossy, with callers acting while the mutex is dropped, client_ident is only built without session state and session_reconnect only with all four session fields non-zero |
| `Handshake.NextCoherent` | kernel-modules/src/libceph/messenger_v2.c:3466-3482 | each step keeps the session fields where the state says they are |
| `Handshake.RetryExactly` | kernel-modules/src/libceph/messenger_v2.c:2713-2744 | the answer to session_retry is right exactly when the requested number does not wrap to zero |
| `Handshake.ConnectExactly` | kernel-modules/src/libceph/messenger_v2.c:3466-3477 | coming back to a session is coherent exactly when connect_seq does not wrap |
| `Handshake.IdentExactly` | kernel-modules/src/libceph/messenger_v2.c:2578-2660 | what a peer must send in server_ident, lossy or not |
| `Handshake.ReopenWithoutClose` | kernel-modules/src/libceph/messenger.c:599-616 | a lossy connection that faults and is opened again without being closed builds client_ident from leftover session state |
| `Handshake.OpenExactly` | kernel-modules/src/libceph/messenger.c:599-616 | opening keeps the session fields coherent exactly if the connection is not lossy |
| `Handshake.ReopenExactly` | kernel-modules/src/libceph/messenger.c:599-616 | opening a connection without a cookie and authenticating builds the right client_ident exactly if no session state is left, which closing makes sure of |
| `Handshake.GlobalSeqExactly` | kernel-modules/src/libceph/messenger.c:658-668 | the new global_seq exceeds both the last one and the one asked for exactly while 32 bits are enough |
| `Handshake.Connection.Handle` | kernel-modules/src/libceph/messenger_v2.c:2227-2825 | the handlers in place follow the step function |
| `Handshake.Connection.ProcessAuthSignature` | kernel-modules/src/libceph/messenger_v2.c:2528-2576 | a signature that does not match goes no further; one that does starts or resumes the session |
| `Handshake.Connection.FaultCon` | kernel-modules/src/libceph/messenger.c:1616-1659 | a lossy connection closes, an idle one waits, any other tries again |
| `DataCursor.DataIter.constructor` | kernel-modules/src/libceph/messenger.c:1068-1080 | the cursor starts with the requested prefix of the items' bytes to hand out |
| `DataCursor.DataIter.Next` | kernel-modules/src/libceph/messenger.c:1087-1122 | the piece at the cursor is what comes next, lies in one page, is not empty and meets no bug check |
| `DataCursor.DataIter.PagesAdvance` | kernel-modules/src/libceph/messenger.c:869-891 | page index and offset move on by the bytes taken |
| `DataCursor.DataIter.ListAdvance` | kernel-modules/src/libceph/messenger.c:942-972 | the same for a page list and its running offset |
| `DataCursor.DataIter.VecsAdvance` | kernel-modules/src/libceph/messenger.c:807-827 | the same for bio vectors |
| `DataCursor.DataIter.Advance` | kernel-modules/src/libceph/messenger.c:1128-1164 | after any part of a piece exactly the bytes behind it remain, across items |
| `DataCursor.DataIter.GetPiece` | kernel-modules/src/libceph/messenger_v2.c:929-947 | items without bytes are passed over and the next piece returned |
| `DataCursor.TakeInPortions` | kernel-modules/src/libceph/messenger.c:1068-1164 | for any items and any sequence of partial advances the pieces taken concatenate to exactly a prefix of the items' bytes |
| `DataCursor.PageListInFull` | kernel-modules/src/libceph/messenger.c:922-940 | a page list meets its bug check exactly when it is asked for in part |
| `ScatterLists.CountData` | kernel-modules/src/libceph/messenger_v2.c:967-985 | the counting pass counts one entry for each piece, and one for padding |
| `ScatterLists.FillData` | kernel-modules/src/libceph/messenger_v2.c:1018-1039 | the filling pass makes just these entries, which hold the padded data |
| `ScatterLists.FillBuffer` | kernel-modules/src/libceph/messenger_v2.c:949-1016 | a plain or virtually mapped buffer gives as many entries as were counted, holding it padded |
| `ScatterLists.FillPages` | kernel-modules/src/libceph/messenger_v2.c:1041-1073 | a page array from any position gives as many entries as were counted |
| `ScatterLists.SetupMessage` | kernel-modules/src/libceph/messenger_v2.c:1075-1131 | exactly one counted entry is left for the epilogue, and the others hold front, middle and data padded |
| `PageLists.PageBuffer.Append` | kernel-modules/src/libceph/pagelist.c:74-95 | what was appended is added to the content, or a prefix of it if memory runs out; it cannot run out after a reservation |
| `PageLists.PageBuffer.AddPage` | kernel-modules/src/libceph/pagelist.c:54-72 | a page from the reserve first, the content untouched |
| `PageLists.PageBuffer.Reserve` | kernel-modules/src/libceph/pagelist.c:102-117 | room and reserve together hold the space asked for |
| `PageLists.SentAsAppended` | kernel-modules/src/libceph/messenger.c:898-972 | a page list as a data item shows exactly what was appended to it |
| `Backoff.CompareTransitive` | kernel-modules/src/libceph/osd_client.c:1795-1839 | the object order is transitive for less, equal and mixtures of both |
| `Backoff.CompareTurn` | kernel-modules/src/libceph/osd_client.c:1795-1839 | it is total, and two objects are equal exactly when everything compared is |
| `Backoff.NamesAreDictionary` | kernel-modules/src/libceph/osd_client.c:1780-1793 | comparing a common prefix and then lengths is dictionary order |
| `Backoff.LookupIsScan` | kernel-modules/src/libceph/osd_client.c:1957-1981 | the tree search only finds backoffs that contain the object; it finds one exactly when a scan with the containment test would, if the last range that begins at or below the object contains it |
| `Backoff.LookupExactly` | kernel-modules/src/libceph/osd_client.c:1957-1981 | every search tree of the same ranges finds what a scan finds if and only if the last range that begins at or below the object contains it whenever any range does |
| `Backoff.SeparateReaches` | kernel-modules/src/libceph/osd_client.c:1957-1981 | ranges that do not reach past later ones meet that condition for every object |
| `Backoff.DisjointSeparate` | kernel-modules/src/libceph/osd_client.c:1957-1981 | pairwise disjoint ranges are such ranges |
| `Backoff.NestedIsMissed` | kernel-modules/src/libceph/osd_client.c:1957-1981 | with nested ranges the search can miss what a scan finds |
| `Backoff.LookupContaining` | kernel-modules/src/libceph/osd_client.c:1957-1981 | the descent in place is the search |
| `Backoff.InsertKeeps` | kernel-modules/src/libceph/osd_client.c:1951-1955 | insertion keeps the search tree and adds one range, and meets its bug check exactly on an equal begin |
| `Backoff.EraseKeeps` | kernel-modules/src/libceph/osd_client.c:1951-1955 | erasing keeps the search tree and removes just that range |
| `Backoff.Session.ShouldPlug` | kernel-modules/src/libceph/osd_client.c:2033-2053 | a request is held back only if some backoff of its placement group contains its target, and exactly then where the last range that begins at or below the target contains it whenever any does |
| `Backoff.Session.Block` | kernel-modules/src/libceph/osd_client.c:4415-4460 | the backoff joins both indexes; a second one with the same begin or id is a bug, nothing else is |
| `Backoff.Session.Unblock` | kernel-modules/src/libceph/osd_client.c:4474-4530 | the backoff leaves both indexes and nothing else does; where every target in the range meets the condition of LookupExactly, exactly the requests of the unblocked range that no other backoff holds back are sent again, in order |
| `Backoff.Session.Clear` | kernel-modules/src/libceph/osd_client.c:1988-2007 | both indexes end up empty |
| `OsdLinks.OsdClient.LinkRequest` | kernel-modules/src/libceph/osd_client.c:1472-1489 | the request is in the tree of one session and points back to it; the session leaves the idle list or the homeless count goes up |
| `OsdLinks.OsdClient.UnlinkRequest` | kernel-modules/src/libceph/osd_client.c:1491-1508 | the reverse; a session that empties joins the idle list, on which it was not, and still has a reference |
| `OsdLinks.OsdClient.LinkLinger` | kernel-modules/src/libceph/osd_client.c:2855-2871 | the same for lingering requests |
| `OsdLinks.OsdClient.UnlinkLinger` | kernel-modules/src/libceph/osd_client.c:2873-2889 | the same for lingering requests |
| `OsdLinks.OsdClient.MoveToLru` | kernel-modules/src/libceph/osd_client.c:1325-1337 | an idle session is listed once |
| `OsdLinks.OsdClient.FinishRequest` | kernel-modules/src/libceph/osd_client.c:2510-2533 | the request is linked nowhere afterwards |
| `OsdLinks.OsdClient.CloseOsd` | kernel-modules/src/libceph/osd_client.c:1362-1398 | every item of the session becomes homeless and is counted, no other moves, and the session goes off the list with its last reference |
| `OsdLinks.WithoutKeeps` | kernel-modules/src/libceph/osd_client.c:1346-1356 | taking a session off the list keeps the others, each once |
| `Armor.RoundTrip` | kernel-modules/src/libceph/armor.c:37-106 | every byte string comes back from its text, wherever lines break |
| `Armor.EncodeLength` | kernel-modules/src/libceph/armor.c:37-73 | four characters for every three bytes begun, and a newline for every sixteen groups |
| `Armor.CephArmor` | kernel-modules/src/libceph/armor.c:37-73 | the buffer holds the text and is not touched beyond it |
| `Armor.CephUnarmor` | kernel-modules/src/libceph/armor.c:75-106 | for every text, valid or not, three quarters of its length are enough room; it succeeds exactly on the texts that stand for something |
| `Armor.NeverTooLong` | kernel-modules/src/libceph/crypto.c:161-180 | what a text stands for is never longer than three quarters of it |
| `Armor.DecodeEncode` | kernel-modules/src/libceph/armor.c:15-35 | each six-bit number has its own character, which is neither padding nor a newline |
| `RbdStore.CallKeeps` | rbdsr/src/RBDSR.py:504-707 | no management call changes what a remaining image or snapshot shows, a write to a head excepted |
| `RbdStore.SameView` | rbdsr/src/rbd_gc.py:62-106 | what is seen through a layer depends only on what is seen through the snapshots behind it |
| `FlattenGc.HiddenNames` | rbdsr/src/RBDSR.py:91-92 | trash and clone-base names are never taken for a VDI |
| `FlattenGc.StoreInvKept` | rbdsr/src/RBDSR.py:556-621 | every call the driver or a collector makes keeps the store well-formed, and keeps images with a flat head free of snapshots that still have a parent |
| `GcWorkers.NextSafe` | rbdsr/src/rbd_gc.py:62-158 | each step of the driver or of any of several concurrent workers, dying included, keeps what is seen through the store, and removes a job file only when nothing bears the name of its object |
| `GcWorkers.RunKeeps` | rbdsr/src/rbd_gc.py:121-158 | over any run, what is seen through every remaining snapshot, and every remaining image that nobody writes to, stays the same |
| `GcWorkers.PurgeGoesThrough` | rbdsr/src/rbd_gc.py:109-118 | a worker that has missed none of the children it listed purges only what nothing reads through, and is not refused |
| `GcWorkers.RemoveGoesThrough` | rbdsr/src/rbd_gc.py:152-156 | when its snapshots are purged the trashed image itself is not refused |
| `GcWorkers.RenamedChildIsMissed` | rbdsr/src/rbd_gc.py:75-89 | a child that is trashed between being listed and being looked at is recorded as missed and counts as gone, so the purge is begun although the child still reads through the target |
| `GcWorkers.TrashedBaseHidesSnapshot` | rbdsr/src/rbd_gc.py:65-70 | a snapshot job whose image has been trashed counts as finished although the snapshot is still there, in an image of the trash name |
| `GcWorkers.NoNewChildren` | rbdsr/src/RBDSR.py:838-860 | nothing new ever reads through a trashed snapshot or a snapshot of a trashed image |
| `GcTargets.RunAimed` | rbdsr/src/rbd_gc.py:62-158 | over every run each worker keeps to the image and snapshots it started from: they keep the job names or the image is trashed, and what it missed is trashed |
| `GcTargets.FinishedTargets` | rbdsr/src/rbd_gc.py:161-185 | when a job file is about to go, in any reachable state: for a trashed image, the very image the worker started from is gone with all its snapshots; for a trashed snapshot, any that is still there, by its numbers, lies under its job name in an image that was trashed meanwhile |
| `GcTargets.RemovalMisses` | rbdsr/src/rbd_gc.py:109-118 | the removal of a trashed snapshot leaves the snapshot the job was for in the store exactly if its image bears another name by then |
| `GcTargets.RefusedExactly` | rbdsr/src/rbd_gc.py:75-118 | when no call fails of itself, the purge of a snapshot is refused exactly if an image that was trashed while the worker had it still to look at reads through the snapshot; then store and spool are as before and the worker stops, else no snapshot of that name is left on that image |
| `GcRuns.AboutToMissReached` | rbdsr/src/rbd_gc.py:62-89 | a run from an empty pool, for any names, that ends with a worker about to miss a clone |
| `GcRuns.MissedRunEnds` | rbdsr/src/rbd_gc.py:75-118 | the run that follows: the purge is refused, the worker stops, the job stays in the spool, and the clone still reads through the snapshot |
| `GcRuns.HiddenRunEnds` | rbdsr/src/rbd_gc.py:161-185 | a run from an empty pool, for any names: the disk is trashed while the job on its snapshot runs; the worker ends, the job file goes, and the snapshot is still in the store |
| `GcRerun.SameEnd` | rbdsr/src/rbd_gc.py:161-185 | however far the workers of a job got before they died, when one finishes the store is the one the job led to from the start |
| `GcRerun.CallGoal` | rbdsr/src/rbd_gc.py:47-158 | every call of a worker leads to the same end |
| `GcJob.FlattenOne` | rbdsr/src/rbd_gc.py:47-59 | up to four tries, each of which flattens the child or changes nothing; a child that can be flattened is, if no call fails of itself |
| `GcJob.ResolveChild` | rbdsr/src/rbd_gc.py:75-105 | a child that is gone or flat already counts as resolved, one that flattening would not free is deferred, and any other is flattened now or left as it was; only calls that fail of themselves make it otherwise |
| `GcJob.ResolveAll` | rbdsr/src/rbd_gc.py:62-106 | with no failing call, all children count as resolved exactly if each of them can be flattened free |
| `GcJob.PurgeSnap` | rbdsr/src/rbd_gc.py:109-118 | failing to unprotect is passed over; if it succeeds no snapshot of the name is left on the image, else at most the protection is off; with no failing call it succeeds exactly if nothing reads through the snapshot |
| `GcJob.RunJob` | rbdsr/src/rbd_gc.py:121-158 | when the run finishes, the object is gone and the store is where the job led to; when it gives up, the job still leads there; either way nothing seen through the store changes; with no failing call it finishes exactly if every clone can be flattened free |
| `Driver.Snapshot` | rbdsr/src/RBDSR.py:663-675 | afterwards the snapshot is there, protected, and shows what the disk shows; on failure a half-made one is gone, unless the backend refused to remove it; every other image and snapshot is as before, and with no failing call it fails only for a missing disk |
| `Driver.CloneDisk` | rbdsr/src/RBDSR.py:838-865 | afterwards the new disk shows what the disk showed; a failed clone takes its own snapshot back, unless the backend refused that; apart from these two names every image and snapshot is as before; with no failing call it fails only for a missing disk |
| `Driver.CloneSnapshot` | rbdsr/src/RBDSR.py:838-865 | afterwards there is one image more, which shows what the snapshot shows; on failure the store is as before |
| `Driver.DeleteSnapshot` | rbdsr/src/RBDSR.py:561-574 | the snapshot is no longer a VDI: dropped, or exactly if something reads through it renamed to trash with a job; a failure takes at most its protection; the rest of the store is the same, and with no failing call it succeeds |
| `Driver.DeleteDisk` | rbdsr/src/RBDSR.py:575-609 | refused exactly while the disk has snapshots that are VDIs; otherwise removed, or exactly if something reads through one of its own snapshots trashed with a job; a failure takes at most some of those snapshots and their protection; every other image is the same, and with no failing call it succeeds |
| `Driver.PurgeSnap` | rbdsr/src/RBDSR.py:531-540 | unprotect, whatever comes of it, then remove: afterwards the snapshot is dropped, or the refused call is told and at most its protection is off; every other image, snapshot and name is as before |
| `Driver.TakeSnapshot` | rbdsr/src/RBDSR.py:663-675 | the two calls and their rollback: a protected snapshot and nothing else new, or none, or exactly a half-made one whose removal was refused |
| `Driver.NothingElse` | rbdsr/src/RBDSR.py:531-675 | dropping, protecting or renaming a snapshot changes nothing else: every image, under its number, and every snapshot of another name keeps name, layer and protection, and none is added |
| `Scan.ScanAll` | rbdsr/src/RBDSR.py:282-328 | afterwards every trashed image and every trashed snapshot of a live image has a job, none is queued twice or without need, and the VDIs are exactly the live images and their live snapshots |
| `Scan.SweepJobs` | rbdsr/src/RBDSR.py:407-438 | the jobs in the spool, and each stale readable file relaunched once |
| `Scan.EveryTrashHasJob` | rbdsr/src/RBDSR.py:282-328 | the same said of the store the listing was made from |

## Left out

- NFold.Fold: models machine integers as unbounded; the source's 32-bit index arithmetic for lengths near 2^31 is not modelled.
- StripeMap.ExtentToFile: file and object offsets are unbounded; 64-bit overflow of offsets and 32-bit truncation of lengths are not modelled, and layouts are those whose object size is a multiple of the stripe unit, as the caller checks.
- Delivery.DeliveredInOrderOnce: sequence numbers are unbounded, revoking, session reset and lossy sessions are excluded (the code drops messages there on purpose); of keepalives only the flag that a fault looks at is modelled.
- Delivery.V2ResumeExact: covers the reconnect step of msgr2; the rest of a msgr2 session follows the same rule as msgr1.
- PlainWriter.RevokeValid: the data cursor is taken as a list of non-empty pieces; the cursor itself is DataCursor.
- Frames.PreambleRoundTrip: a length of 2^31 or more, negative in the source's type, is refused as too long.
- FrameReading.ReadsWhatWasWritten: the AEAD is any pair of functions with decryption undoing encryption under the same nonce; the peer is assumed to send well-formed frames with consecutive message numbers below 2^63, allocation does not fail, and control frames are passed on undecoded.
- Reader.InConnection.ActOnControl: the acknowledgement in a message header, which discards sent messages, belongs to the sending half and is Delivery.Connection.DiscardSent there; a message header shorter than eight bytes is read as far as it goes, where the source reads stale buffer content.
- TailPages.PagesCounted: a run is one connection; resetting it releases the vector it still holds.
- Handshake.SessionFramesAreRight: decoding of handshake payloads, key setup and feature bits are outcomes of events, not modelled byte by byte.
- Handshake.Connection.Handle: a rejected authentication method (auth_bad_method), whose handler also drops the mutex, is not an event.
- DataCursor.TakeInPortions: of the kinds of data items, bio and iov_iter are not modelled.
- ScatterLists.SetupMessage: for data in a page array, as sparse reads use it, only the entries themselves are modelled (ScatterLists.FillPages), not the setup of the whole list.
- DataCursor.DataIter.Next: bio and iov_iter items are not modelled, and a bio vector lies in one page.
- Backoff.Session.Block: the balancing of red-black trees is not modelled; trees are any search trees, erased without rebalancing.
- OsdLinks.OsdClient.CloseOsd: closing the connection and the backoffs of the session are not part of this member.
- GcWorkers.NextSafe: checking a child and flattening it is one step; names given by the driver are assumed never to repeat, and image sizes, resizing and rollback are not modelled.
- GcTargets.RefusedExactly: without calls that fail of themselves; a failed unprotect leaves the snapshot protected, and its removal is then refused too.
- GcTargets.FinishedTargets: says nothing of whether a job for the trashed image is in the spool, which depends on the driver surviving from the rename to the spawn; a later scan spools one (Scan.EveryTrashHasJob).
- GcRerun.SameEnd: for workers of one job alone with the store.
- Driver.DeleteDisk: one operation at a time, with calls that fail without effect; XAPI records and attached disks are not modelled.
- Scan.ScanAll: XAPI records and sizes of VDIs are not modelled.
- Sparse reads: receiving and revoking them is not modelled.
- msgr1: only its receive rule, acknowledgements and reconnect are modelled, as part of Delivery.
- Secure-mode revocation of outgoing messages: SecureWriter shows that it changes nothing; there is no more to it.
- `ceph_pagelist_truncate`: it restores the room but not the length, so the content of a list is not defined after it.
- The key derivation loop of `rfc3961_calc_DK`, the padding of `ceph_aes_crypt` and the changed-block bitmap: they would only add easy members.
- CRUSH placement, OSD map decoding, `calc_target`, monitors, watch and notify, debugfs, option parsing: not modelled.
- The dashboard REST client, kernel mapping of images, and the SMAPIv3 plugin: thin I/O, replaced by a store whose calls take effect or fail.
- Sockets, iov_iter, workqueues, page and slab allocation, AES, HMAC and SHA: environment.
