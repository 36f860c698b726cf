# A verified model of the ADB host engine

This project models the host side of the Android Debug Bridge as `adb_shell_wifi` implements it, and
proves what the layers of that engine promise each other. `dafny verify dfyconfig.toml` checks all of it.

**The demultiplexer.** Any number of threads share one transport. Whoever holds the transport lock reads
packets for everybody; a packet of another stream goes into a nested dictionary of FIFO queues, and every
reader drains its own queues before it touches the wire. `Demux` is the transition system: each thread has
a program counter, a step is one lock acquisition, one operation on the store or one transport call.
`Ledgers` numbers the packets in order of arrival and gives each a fate; its invariant is what every
operation keeps. `DemuxSafety` and `DemuxTheorems` prove conservation, order per key, no overtaking, frame
atomicity, connection epochs and freedom from deadlock for every reachable state, that is, for any threads
and any interleaving; `DemuxInbound` says where in the device's bytes readers start, `DemuxFates` what runs
do to fates, and `DemuxCloses` what becomes of a CLSE that another thread reads, with examples in
`DemuxRuns`. `DemuxCalls` says what one call of `read` consumes. `DemuxStreams` follows one stream from its
OKAY on, and `DemuxReplay` shows that its reads are the calls that the code above `read` makes of one
stream by itself. `IOManager` is the same code a second time, as a class over the packet store and the
bytes of a transport; each of its lines that counts as a step takes that step of `Demux` on ghost state, so
what holds of reachable states holds of it.

**The wire.** `AdbMessage` and `Wire` give the packet codec and the reading loops over a transport that
cuts the bytes up as it likes, fails when it likes and lets time run out when it likes. A transport is a
finite list of answers; every loop terminates on every such list.

**FileSync.** `Streams` is one ADB stream seen from above; `FileSync` has the FileSync packets, the way
they are cut into WRTE packets, and independent readers for what a device receives; `SyncClient` is the
code with its send buffer, overwritten in place up to a running index, and its receive buffer. Push, pull,
list and stat are determined completely: the result is a function of what the device sends, in which only
the concatenation of the WRTE payloads matters, not where they were cut.

**Commands, handshake, pairing, keys.** `Services` opens streams and runs commands; `Handshake` is the
CNXN / AUTH / STLS exchange as a machine with its language, and the code over a byte transport that follows
it; `Pairing` is the Wi-Fi pairing exchange of two parties over ideal cryptography; `Keygen` shows that the
two precomputed numbers in an Android public key do what Montgomery multiplication needs.

Properties that are false of the code, with the condition under which they hold:

- *Every CLSE is delivered.* A CLSE that another thread reads is lost at once exactly if the store has no
  entry for its stream, and later exactly if an earlier CLSE of the stream was waiting there and is consumed;
  otherwise it waits, or is consumed, or goes with the whole store: `DemuxCloses.CloseFate`,
  `CloseLostForGood`. Consumed is returned if the reads are those of `_read_until_close` (`CloseOfStream`); a
  read that does not expect CLSE drops it (`CloseConsumed`). `DemuxRuns` has a run for each:
  `CloseCanBeLost` and `CloseCanBeDropped`, both for a stream that is open and being read.
- *A stream returns its own packets and nothing else.* Of its own, always exactly its WRTE packets; of all,
  exactly if nothing with a zero for an id is returned to it: `DemuxStreams.StreamIsolation`. It is enough
  that the device sends nothing such, and that nothing such is left from before: `NoZeroIds`.
- *The store is empty when `close` or `connect` lets go of the transport lock.* Unless it does because
  closing the transport failed: `DemuxTheorems.EmptyOnRelease`.
- *All data the device sends is read.* A WRTE that comes while FileSync waits for an OKAY is dropped
  without an acknowledgement: `SyncClient.DataCanBeLost`, and exactly when in `NothingSkipped`.
- *A FAIL answer is reported with its message.* Where headers have two words, so in push and pull, always; in
  list and stat exactly if the message is sent once more where the longer header ends, so never when FAIL
  ends the answer: `FileSync.FailureReported`, `SyncClient.PushFailureReported`.
- *A WRTE is shorter than the maximum.* Exactly if every packet by itself is: `FileSync.SendBufferBound`; in a
  push, exactly if the path leaves room: `PushWriteSizes`.
- *No WRTE is empty.* Exactly if no packet that comes when the buffer is empty is too long for it, its header
  counted with the words of the transaction: `FileSync.EmptyWrite`.
- *Packing a PeerInfo loses nothing.* Exactly when its data does not end in a zero: `Pairing.InfoRoundTrip`.
- *The index of the store agrees with `args_match`.* Exactly for transactions that have a local id:
  `Stores.IndexAgreesWithPredicate`.

The asynchronous classes run the same state machines, with tasks for threads and awaits at the lock and
transport operations; one model serves both.

## Model

| member | source | states |
|---|---|---|
| `AdbMessage.CommandRoundTrip` | adb_shell_wifi/constants.py:88-94 | every command is read back from its word |
| `AdbMessage.CommandInverse` | adb_shell_wifi/constants.py:88-94 | no other word is read as a command |
| `AdbMessage.HeaderRoundTrip` | adb_shell_wifi/adb_message.py:92-171 | unpacking a packed header gives the command word, both arguments, the length and the checksum of the data |
| `AdbMessage.ChecksumIsSum` | adb_shell_wifi/adb_message.py:42-72 | the checksum is the sum of all bytes modulo 2^32 |
| `AdbMessage.EncodedBytes` | adb_shell_wifi/adb_message.py:155-171 | byte by byte: four ASCII letters, the arguments, length, checksum, a word that with the first makes 2^32 - 1, the data |
| `Bytes.WordIs` | adb_shell_wifi/constants.py:105-118 | a field of the formats is its number with the least significant byte first |
| `Wire.BulkReadContent` | adb_shell_wifi/adb_device.py:501-507 | a read of at most n bytes takes a prefix of what the device delivers and leaves the rest |
| `Wire.ReadBytesContent` | adb_shell_wifi/adb_device.py:497-516 | whatever the fragmentation, a read that succeeds gives the next bytes of the stream, and it succeeds if they come without failure or timeout |
| `Wire.PacketRoundTrip` | adb_shell_wifi/adb_device.py:545-560 | a packet sent is read back, or reading fails for want of bytes or time, never for what the bytes say |
| `Wire.ReadBytesEnds` | adb_shell_wifi/adb_device.py:500-514 | on every list of answers: chunks are collected while they leave time, the first failure ends the read, and so does the first chunk after which time is up with bytes still missing |
| `Wire.PacketJudged` | adb_shell_wifi/adb_device.py:545-560 | whatever header and data come, the packet is returned exactly if its letters are a command and its checksum is the byte sum or it has no data; else its command or its checksum is refused |
| `Wire.FragmentedRoundTrip` | adb_shell_wifi/adb_device.py:497-583 | any list of messages written by `_send` is read back as that list, for every fragmentation, also when the stream ends early |
| `Wire.Transport.ReadBytesFromDevice` | adb_shell_wifi/adb_device.py:497-516 | the loop gives exactly the bytes asked for, or the failure or timeout, on every finite list of answers |
| `Wire.Transport.ReadPacketFromDevice` | adb_shell_wifi/adb_device.py:545-560 | one packet, or the error of its header, command, data or checksum |
| `Wire.PacketLength` | adb_shell_wifi/adb_device.py:545-560 | whatever the bytes say, a packet read takes as many as sending it would |
| `Wire.Transport.Send` | adb_shell_wifi/adb_device.py:577-583 | the header and the data go out, and nothing else; if a write fails, a first part of them |
| `Stores.IndexAgreesWithPredicate` | adb_shell_wifi/hidden_helpers.py:164-186 | what `find` and `find_allow_zeros` look for is what `args_match` accepts, with `None` as wildcard, exactly when there is a local id |
| `Stores.ArgsMatchIs` | adb_shell_wifi/hidden_helpers.py:182-186 | each argument has to be the id, or zero where that is allowed; the remote one may be anything while its id is not known |
| `Stores.PacketStore.Find` | adb_shell_wifi/hidden_helpers.py:313-350 | a key is found if and only if a non-empty queue matches, and it is the key of one |
| `Stores.PacketStore.FindAllowZeros` | adb_shell_wifi/hidden_helpers.py:352-373 | the same with zero allowed for either argument; the key hits the first of the four patterns that has a hit |
| `Stores.PacketStore.Get` | adb_shell_wifi/hidden_helpers.py:375-409 | takes the oldest entry of a matching queue; a CLSE deletes its key with all that is queued behind, any other leaves the key there |
| `Stores.PacketStore.Put` | adb_shell_wifi/hidden_helpers.py:411-443 | appends to the queue of the key; a CLSE makes no new key; the nested dictionary keeps representing the flat map, with no empty row |
| `Stores.PacketStore.Clear` | adb_shell_wifi/hidden_helpers.py:291-307 | exactly that key goes, and its row if it was the last |
| `Stores.PacketStore.ClearAll` | adb_shell_wifi/hidden_helpers.py:309-311 | nothing is left |
| `Ledgers.ArriveKeeps` | adb_shell_wifi/adb_device.py:397-398 | a packet off the wire keeps the accounts of all packets |
| `Ledgers.JudgeKeeps` | adb_shell_wifi/adb_device.py:405-414 | so does handing it straight to a reader, as no packet of its key is queued: order per key, one fate each |
| `Ledgers.PutKeeps` | adb_shell_wifi/adb_device.py:400-403 | so does putting it away, with the CLSE that is dropped |
| `Ledgers.TakeKeeps` | adb_shell_wifi/adb_device.py:390-395 | so does taking the oldest packet of a key, kept or discarded, with all that goes behind a CLSE |
| `Ledgers.ClearKeeps` | adb_shell_wifi/adb_device.py:407-410 | so does the `clear` for a CLSE, when only an empty queue is there |
| `Ledgers.ClearAllKeeps` | adb_shell_wifi/adb_device.py:264-266 | so does clearing the store |
| `Ledgers.DialKeeps` | adb_shell_wifi/adb_device.py:268-269 | so does a new connection, if the store is empty |
| `Ledgers.GreetKeeps` | adb_shell_wifi/adb_device.py:275-278 | so does a packet that `connect` reads itself |
| `DemuxSafety.StepKeeps` | adb_shell_wifi/adb_device.py:160-435 | every step of every thread keeps the locks, the accounts and the state of the line |
| `DemuxSafety.ReachableSafe` | adb_shell_wifi/adb_device.py:160-435 | so they hold in every state that any threads can reach in any interleaving |
| `DemuxTheorems.Conservation` | adb_shell_wifi/adb_device.py:370-414 | each packet off the wire has one fate, and it is in the store, in a thread's hands or in a reader's log exactly when its fate says so; the fate `Cleared` never occurs |
| `DemuxTheorems.NoDuplicates` | adb_shell_wifi/adb_device.py:370-414 | no packet is consumed twice, queued twice or queued under a key not its own, nor held by two threads |
| `DemuxTheorems.PerKeyFifo` | adb_shell_wifi/adb_device.py:370-414 | packets of a key are consumed in order of arrival, and those still queued are newer than those consumed |
| `DemuxTheorems.NothingOlderLeft` | adb_shell_wifi/adb_device.py:370-414 | when a packet has been consumed, every older one of its key was consumed or deleted |
| `DemuxTheorems.NoOvertaking` | adb_shell_wifi/adb_device.py:385-410 | while a match goes from the wire to its reader, no match for that call waits in the store |
| `DemuxTheorems.ClearDeletesNothing` | adb_shell_wifi/adb_device.py:407-410 | the `clear` for a CLSE off the wire removes no packet |
| `DemuxTheorems.CloseKept` | adb_shell_wifi/hidden_helpers.py:428-443 | a CLSE put away is queued exactly when its key has an entry, and dropped otherwise |
| `DemuxFates.RunGrows` | adb_shell_wifi/adb_device.py:370-414 | in every run the log only grows, and once a packet is no longer queued or in hand, its fate never changes |
| `DemuxCloses.CloseFate` | adb_shell_wifi/hidden_helpers.py:405-443 | after any run, a CLSE that a foreign reader put away was dropped exactly if its key had no entry, was deleted exactly if a CLSE then queued there has been consumed, and otherwise waits, was consumed, or was wiped by `clear_all` |
| `DemuxCloses.CloseLostForGood` | adb_shell_wifi/hidden_helpers.py:405-443 | so without `clear_all`, it is still waiting or consumed exactly if its key had an entry and no CLSE that was queued there has been consumed |
| `DemuxCloses.CloseConsumed` | adb_shell_wifi/adb_device.py:390-395 | a CLSE of a stream that is consumed went to a read of that stream, which returned it exactly if it expected CLSE, and so always if the reads are those of `_read_until_close` |
| `DemuxCloses.CloseOfStream` | adb_shell_wifi/adb_device.py:1299-1313 | for such a stream, a CLSE that a foreign reader put away is waiting or returned exactly under that condition |
| `DemuxRuns.CloseCanBeLost` | adb_shell_wifi/hidden_helpers.py:428-443 | a run in which a stream is open, its thread is inside `read`, and another thread has read its CLSE and lost it |
| `DemuxRuns.CloseCanBeDropped` | adb_shell_wifi/adb_device.py:1367-1375 | a run in which the CLSE of an open stream is stored, the stream's read for an OKAY drops it, and a second CLSE behind it is deleted |
| `DemuxTheorems.StoreIsOfThisConnection` | adb_shell_wifi/adb_device.py:260-269 | every packet in the store came on the current connection |
| `DemuxTheorems.EmptyOnRelease` | adb_shell_wifi/adb_device.py:160-168 | when `close` or `connect` lets go of the transport lock, the store is empty; if it does because closing the transport failed, it is as it was |
| `DemuxTheorems.FrameAtomicity` | adb_shell_wifi/adb_device.py:434-435 | whenever the transport lock is free, the bytes out are whole messages in the order of the sends, unless a write failed |
| `DemuxTheorems.PeerReadsWhatWasSent` | adb_shell_wifi/adb_device.py:577-583 | a peer that reads those bytes, however cut, gets those messages |
| `DemuxInbound.ReceivedAreRecorded` | adb_shell_wifi/adb_device.py:397-398 | the packets read to their end on this connection are those recorded on it, in order |
| `DemuxInbound.Boundary` | adb_shell_wifi/adb_device.py:545-560 | in the bytes of a list of messages, a place after whole messages is a place between those of the list |
| `DemuxInbound.ReadersStartOnBoundaries` | adb_shell_wifi/adb_device.py:397-398 | when a reader starts, the bytes read on this connection are those of whole packets, unless reading one has failed; in the bytes of any messages the next is the first of a message |
| `DemuxTheorems.WaitsAreShallow` | adb_shell_wifi/adb_device.py:130-133 | waiting never goes more than two threads deep |
| `DemuxTheorems.NoCyclicWait` | adb_shell_wifi/adb_device.py:130-133 | no ring of threads waits for each other |
| `DemuxTheorems.DeadlockFree` | adb_shell_wifi/adb_device.py:130-133 | in every reachable state, if some thread has not finished, one of those can take a step |
| `DemuxStreams.RunStream` | adb_shell_wifi/adb_device.py:370-414 | any run of any threads, without `connect` or `close`, leaves the packets of a stream to the reads of that stream |
| `DemuxStreams.ReadsWant` | adb_shell_wifi/adb_device.py:1245-1272 | the read of `_open` is for an OKAY with the local id; the other reads are for both ids, zero allowed for each |
| `DemuxStreams.OwnFirst` | adb_shell_wifi/hidden_helpers.py:368-371 | a read of a stream takes a packet with a zero for an id from the store only when none of the stream's own waits there |
| `DemuxStreams.StreamExact` | adb_shell_wifi/adb_device.py:1299-1313 | up to any packet that the stream's reads have come to, what they returned of the stream is its WRTE packets that arrived since its OKAY, in order; up to that packet if it is the stream's own, and at least up to it if it has a zero for an id |
| `DemuxStreams.ZeroIds` | adb_shell_wifi/adb_device.py:1299-1313 | that is all they returned exactly if nothing with a zero for an id was returned to them |
| `DemuxStreams.StreamIsolation` | adb_shell_wifi/adb_device.py:1280-1313 | both of these for a stream from the OKAY of its OPEN on, whatever the other threads do and whatever happened before, if nobody connects or closes meanwhile |
| `DemuxStreams.NoZeroIds` | adb_shell_wifi/adb_device.py:1280-1313 | if nothing with a zero for an id of the stream is waiting when it starts or comes later, all that its reads return is its WRTE packets up to its CLSE |
| `DemuxStreams.ConsumedInOrder` | adb_shell_wifi/adb_device.py:370-414 | what readers consume of a key, in the order they do, is exactly the consumed packets of that key in order of arrival |
| `DemuxReplay.RunReplays` | adb_shell_wifi/adb_device.py:370-421 | in every run with one reader for a local id, the calls of `read` with that id, in the order in which they begin and with what they expect, do with what they hear what calls of `Streams.Stream.Read` do |
| `DemuxReplay.StreamReplay` | adb_shell_wifi/adb_device.py:370-421 | so from the OKAY of a stream on, whatever its reads expect and whatever the other threads do; of what they hear, the stream's packets come in the order of arrival, and the others have a zero for an id |
| `DemuxReplay.StreamComplete` | adb_shell_wifi/adb_device.py:370-421 | before a packet that the stream consumed none is missing but what the store deleted or never took in |
| `IOManager.TakeStep` | adb_shell_wifi/hidden_helpers.py:402-409 | `get` on the store is the ledger's taking of a packet, and the backlog of the store shrinks |
| `IOManager.IOManager.Look` | adb_shell_wifi/adb_device.py:372-373 | finds a packet for this call if there is one, and only such, in the order of the patterns |
| `IOManager.IOManager.Drain` | adb_shell_wifi/adb_device.py:371-379 | ends with an expected packet of this transaction, or with none left in the store; it terminates |
| `IOManager.IOManager.Handle` | adb_shell_wifi/adb_device.py:400-414 | a packet of another stream is put into the store and a CLSE clears its key, nothing else changing there; a packet is the result exactly if it matches and its command is expected |
| `IOManager.HandledWithin` | adb_shell_wifi/adb_device.py:400-410 | putting a foreign packet away, or clearing for a CLSE, brings nothing into the store that this call could take |
| `IOManager.HeardMore` | adb_shell_wifi/adb_device.py:397-398 | the packets heard, and one more or the failure to read one, are what reading the wire that often gives |
| `IOManager.IOManager.Read` | adb_shell_wifi/adb_device.py:370-421 | one call of `read`: all it consumed it dropped, but the result, which is the last; the packets that arrive meanwhile are those on the wire, in order; the result is one that was in the store before any arrived, or the first of them that matches and is expected; otherwise the call ends with the first failure to read, or when the clock says so after a packet, with no match left in the store; it terminates on every finite list of answers |
| `DemuxCalls.OneCall` | adb_shell_wifi/adb_device.py:370-421 | in every run of one call by the only thread, the packets consumed were dropped by it, but for the last, if the call did not give up |
| `IOManager.IOManager.Fetch` | adb_shell_wifi/adb_device.py:397-398 | one packet comes off the wire, is recorded, and moves the place in the device's bytes by its length |
| `IOManager.IOManager.Send` | adb_shell_wifi/adb_device.py:434-435 | one call, which writes one whole message, or fails after a first part of it, and touches neither the store nor the accounts |
| `IOManager.IOManager.Close` | adb_shell_wifi/adb_device.py:160-168 | leaves an empty store, or, if closing the transport fails, the store it found |
| `Streams.SeekWrite` | adb_shell_wifi/adb_device.py:1457-1460 | each WRTE read takes its payload off the front of what WRTE packets will bring |
| `Streams.SeekFirst` | adb_shell_wifi/adb_device.py:397-414 | `read` on one stream gives the first expected packet with no failure before it, unchanged, and drops those before it |
| `Streams.CutsDoNotMatter` | adb_shell_wifi/adb_device.py:1457-1464 | what WRTE packets bring is the same however they are cut, and with empty ones among them |
| `Streams.StopAndWait` | adb_shell_wifi/adb_device.py:1367-1375 | between any two WRTEs sent on a polite stream an OKAY was read |
| `Streams.Acknowledged` | adb_shell_wifi/adb_device.py:1272-1278 | every WRTE read is followed at once by the OKAY sent for it, there are no other OKAYs, and so as many of one as of the other |
| `Streams.Stream.ReadUntil` | adb_shell_wifi/adb_device.py:1272-1278 | keeps a stream polite: it acknowledges WRTEs and nothing else |
| `FileSync.FrameRoundTrip` | adb_shell_wifi/adb_device.py:1409-1437 | a packet sent with the header the transaction expects is read back, with what follows it left; FAIL and unexpected ids give their errors |
| `FileSync.AnswerRoundTrip` | adb_shell_wifi/adb_device.py:1489-1497 | any number of packets up to a finishing one are read back |
| `FileSync.AnswerFails` | adb_shell_wifi/adb_device.py:1489-1497 | packets are read up to where one fails, and that is the failure |
| `FileSync.ParseFails` | adb_shell_wifi/adb_device.py:1409-1421 | too few bytes for the header or for the data, and an id that is none, give their errors |
| `FileSync.StatRoundTrip` | adb_shell_wifi/adb_device.py:1409-1437 | the letters of STAT, the mode, the size and the time on the wire are read as these |
| `FileSync.FailureReported` | adb_shell_wifi/adb_device.py:1409-1430 | whatever follows it, each message of a FAIL with a two-word header gets through exactly if the transaction reads two-word headers, or reads longer ones and finds the message again behind where they end |
| `FileSync.PullRoundTrip` | adb_shell_wifi/adb_device.py:1027-1032 | a file sent in DATA packets of any sizes is read back |
| `FileSync.ListRoundTrip` | adb_shell_wifi/adb_device.py:961-969 | a directory sent in DENT packets is read back, whatever the words of DONE |
| `FileSync.EntryBytes` | adb_shell_wifi/adb_device.py:964-969 | an entry on the wire: DENT, the mode, the size, the time, the length of the name, the name |
| `FileSync.NothingLost` | adb_shell_wifi/adb_device.py:1521-1529 | WRTE payloads and what is left in the buffer are the packets one after the other |
| `FileSync.RequestBytes` | adb_shell_wifi/adb_device.py:1527 | the requests of pull, list and stat on the wire: four letters, the length of the path, the path |
| `FileSync.CutExactly` | adb_shell_wifi/hidden_helpers.py:239-240 | the buffer goes out before a packet exactly if both, the header counted with the words of the transaction, would reach the maximum |
| `FileSync.SendBufferBound` | adb_shell_wifi/hidden_helpers.py:225-240 | for every header format, all payloads and the buffer stay below the maximum exactly if every packet with its eight bytes of header does |
| `FileSync.EmptyWrite` | adb_shell_wifi/adb_device.py:1524-1525 | of any packets and flushes, an empty WRTE is sent exactly if some packet comes when the buffer is empty and does not fit it |
| `FileSync.ChunksAre` | adb_shell_wifi/adb_device.py:1111-1122 | the chunks are the file, in full pieces but for the last |
| `FileSync.ChunkFits` | adb_shell_wifi/adb_device.py:667 | a DATA packet with a full chunk is below the maximum exactly from 17 on |
| `FileSync.MaxChunkIs` | adb_shell_wifi/adb_device.py:667 | the lesser of 64 KiB and half the maximum, or 2 KiB |
| `FileSync.PushRoundTrip` | adb_shell_wifi/adb_device.py:1104-1128 | the device reads back the file information, the chunks and the time, which is in the size field of DONE |
| `FileSync.PushBytes` | adb_shell_wifi/adb_device.py:1104-1128 | byte by byte: SEND, the length of the file information, that, the DATA packets, DONE, the time |
| `FileSync.PushedBytes` | adb_shell_wifi/adb_device.py:1104-1128 | for every file and maximum, the WRTE payloads of a push concatenate to a request whose non-empty chunks are the file |
| `FileSync.PushWriteSizes` | adb_shell_wifi/adb_device.py:1104-1128 | with a maximum of at least 17, all WRTEs of a push are below it exactly if the path leaves room, and otherwise one is empty |
| `FileSync.FileInfoRoundTrip` | adb_shell_wifi/adb_device.py:1104 | the path, with or without commas, and the mode are read back at the last comma |
| `FileSync.FileInfoIs` | adb_shell_wifi/adb_device.py:1104 | the path, a comma, the digits of the mode |
| `FileSync.DigitsAre` | adb_shell_wifi/adb_device.py:1104 | decimal digits, none of them a leading zero |
| `SyncClient.NothingSkipped` | adb_shell_wifi/adb_device.py:1371-1372 | waiting for an OKAY loses data exactly if a WRTE with data comes before it |
| `SyncClient.DataCanBeLost` | adb_shell_wifi/adb_device.py:1371-1372 | an example in which it does |
| `SyncClient.SliceAssigned` | adb_shell_wifi/adb_device.py:1528 | assigning a slice replaces the bytes from the index on, and makes the buffer longer only past its end |
| `SyncClient.Transaction.Flush` | adb_shell_wifi/adb_device.py:1367-1375 | sends the buffer up to the index as one WRTE and waits for the OKAY; only then is the index reset |
| `SyncClient.Transaction.FilesyncSend` | adb_shell_wifi/adb_device.py:1519-1529 | the packet joins the buffer, after a flush exactly if it does not fit; after any failure nothing is out that was not given, in order |
| `SyncClient.Transaction.ReadBuffered` | adb_shell_wifi/adb_device.py:1457-1464 | the next bytes of all that WRTE packets bring, however cut, or an error exactly if there are too few |
| `SyncClient.Transaction.FilesyncRead` | adb_shell_wifi/adb_device.py:1406-1437 | after the flush that is due, the packet a simple parser reads off the concatenated payloads, or its error |
| `SyncClient.Transaction.FilesyncReadUntil` | adb_shell_wifi/adb_device.py:1489-1497 | the packets the simple parser reads up to a finishing one, and the error where it stops |
| `SyncClient.Transaction.Pull` | adb_shell_wifi/adb_device.py:1027-1032 | the WRTEs carry RECV, the length of the path and the path, or up to a failure a first part of that; the local file and the exception are functions of the payloads after the OKAYs, whatever their cuts |
| `SyncClient.Transaction.List` | adb_shell_wifi/adb_device.py:958-969 | the WRTEs carry LIST, the length and the path; the entries are functions of the payloads in the same way |
| `SyncClient.Transaction.Stat` | adb_shell_wifi/adb_device.py:1162-1166 | the WRTEs carry STAT, the length and the path; and so are the mode, size and time of a file |
| `SyncClient.Transaction.Push` | adb_shell_wifi/adb_device.py:1104-1133 | succeeds exactly if the device has an OKAY for every WRTE and its answer then starts with an OKAY packet with any message; the WRTEs sent then are the request byte by byte and parse to the file, and up to any failure they are a prefix; nothing else is sent but empty OKAYs |
| `SyncClient.PushFailureReported` | adb_shell_wifi/adb_device.py:1129-1133 | a FAIL that answers a push fails it with its message, whatever follows it |
| `SyncClient.VerdictIs` | adb_shell_wifi/adb_device.py:1129-1133 | an answer that starts with OKAY succeeds, one that starts with FAIL fails with its message, and only those |
| `SyncClient.Begin` | adb_shell_wifi/adb_device.py:958-959 | opens the stream and gives a new transaction on it, exactly if an OKAY comes |
| `SyncClient.WriteData` | adb_shell_wifi/adb_device.py:1028-1032 | what is written is the data of the DATA packets in order |
| `SyncClient.CollectFiles` | adb_shell_wifi/adb_device.py:964-969 | what is collected is the entries of the DENT packets in order |
| `Services.IdsRepeat` | adb_shell_wifi/adb_device.py:1236-1241 | local ids are from 1 to 2^32 - 1, and two opens get the same one exactly if they are a multiple of 2^32 - 1 apart |
| `Services.LocalIds.New` | adb_shell_wifi/adb_device.py:1236-1241 | the counter follows that sequence |
| `Services.Open` | adb_shell_wifi/adb_device.py:1243-1245 | sends OPEN and nothing else, moves no data, and learns the remote id from the first OKAY, failing exactly if none comes |
| `Services.ReadUntilClose` | adb_shell_wifi/adb_device.py:1299-1313 | yields the WRTE payloads up to the first CLSE, sends one OKAY for each, and a CLSE exactly if it got one; with a timeout it ends after the first chunk at which the clock says so |
| `Services.Service` | adb_shell_wifi/adb_device.py:770-773 | a command that completes has sent exactly OPEN, an OKAY for each chunk, and CLSE; its result is all of its output; one that fails has sent OPEN and OKAYs |
| `Handshake.RunShaped` | adb_shell_wifi/adb_device.py:271-330 | at every moment what has been sent has the form that belongs to where the handshake is, failures included |
| `Handshake.Language` | adb_shell_wifi/adb_device.py:271-330 | a handshake that succeeds has sent CNXN, or CNXN STLS, or CNXN and the signatures of the first keys over the last tokens, or those of all keys and the public key; it returns arg1 of the last CNXN |
| `Handshake.LanguageExchanged` | adb_shell_wifi/adb_device.py:271-330 | the same field by field: CNXN with version, maximum and banner; signature i by key i over the token of packet i; the public key; the STLS reply |
| `Handshake.PassedOver` | adb_shell_wifi/adb_device.py:466-470 | a packet that is not waited for changes nothing |
| `Handshake.Refusals` | adb_shell_wifi/adb_device.py:178-190 | exactly when the host refuses, and why; it then says nothing more |
| `Handshake.Completes` | adb_shell_wifi/adb_device.py:271-330 | conversely every answer of one of those forms succeeds with that said |
| `Handshake.Client.Hear` | adb_shell_wifi/adb_device.py:464-474 | gives the next packet with an expected command, passing over the others; or the failure to read it, or a timeout after the first other one at which the clock says so |
| `Handshake.Client.UpgradeFirst` | adb_shell_wifi/adb_device.py:170-211 | after STLS, what is sent and returned is what the machine says: our STLS only with a key and a transport that can upgrade, and success only after a CNXN |
| `Handshake.Client.SignAll` | adb_shell_wifi/adb_device.py:298-330 | what is sent and returned is what the machine says: key after key signs the last token, and the public key goes out only after every key was answered by AUTH |
| `Handshake.Client.Connect` | adb_shell_wifi/adb_device.py:271-330 | the bytes written and the result are those of the machine on the packets heard, also when it fails, and on success the packets sent are the fields named above; only if sending fails is the last message not whole |
| `Pairing.BlobRoundTrip` | adb_shell_wifi/pairing/connection.py:60-76 | packing what was unpacked gives the blob back, for every blob of the right size |
| `Pairing.InfoRoundTrip` | adb_shell_wifi/pairing/connection.py:60-76 | unpacking what was packed strips trailing zeros, and gives the info back exactly if there are none |
| `Pairing.PackedInfo` | adb_shell_wifi/pairing/connection.py:60-63 | the kind, the data, and zeros up to 8192 bytes |
| `Pairing.HeaderRoundTrip` | adb_shell_wifi/pairing/connection.py:79-102 | headers are read back exactly for sizes from 1 to the maximum |
| `Pairing.HeaderInverse` | adb_shell_wifi/pairing/connection.py:89-102 | every header that is accepted is the one that would be sent |
| `Pairing.HeaderBytes` | adb_shell_wifi/pairing/connection.py:79-102 | version 1, the kind, the size with the most significant byte first |
| `Pairing.HeaderJudged` | adb_shell_wifi/pairing/connection.py:79-102 | another version is refused, and a size of zero or above 16384 |
| `Pairing.NoncesDiffer` | adb_shell_wifi/pairing/auth.py:36-43 | below 2^64 no two sequence numbers give the same nonce, as section 3.1 of RFC 5116 asks |
| `Pairing.NonceBytes` | adb_shell_wifi/pairing/auth.py:36-43 | the number in eight bytes, the least significant first, and four zeros |
| `Pairing.AuthCtx.InitCipher` | adb_shell_wifi/pairing/auth.py:89-121 | sets a key at most once, and none on failure |
| `Pairing.AuthCtx.Encrypt` | adb_shell_wifi/pairing/auth.py:123-130 | no nonce is ever used twice by one context: when the numbers run out it fails |
| `Pairing.AuthCtx.Decrypt` | adb_shell_wifi/pairing/auth.py:132-139 | the incoming counter moves only on success |
| `Pairing.IdealExists` | adb_shell_wifi/pairing/auth.py:46-56 | the laws asked of the cryptography can be met |
| `Pairing.ReceiveFails` | adb_shell_wifi/pairing/connection.py:161-168 | a header that is refused, a packet of the wrong kind and one that is cut short give their errors |
| `Pairing.SessionRuns` | adb_shell_wifi/pairing/connection.py:150-202 | byte by byte: what a party sends, and what it ends with, given the two packets that come in |
| `Pairing.Lockstep` | adb_shell_wifi/pairing/connection.py:150-202 | run against each other, two parties send all they have to, and each ends with the other's peer info exactly if they derived the same key; otherwise both fail to decrypt |
| `Pairing.OnlyExchange` | adb_shell_wifi/pairing/connection.py:150-202 | there is no other exchange in which each receives what the other sends |
| `Pairing.Channel.Run` | adb_shell_wifi/pairing/connection.py:127-202 | what the client sends and returns is that session, for all that can come in |
| `Keygen.N0InvWorks` | adb_shell_wifi/auth/keygen.py:162-170 | n0inv fits 32 bits, and 2^32 divides n * n0inv + 1 |
| `Keygen.LowestWordCleared` | adb_shell_wifi/auth/keygen.py:162-170 | 2^32 divides t + (t * n0inv mod 2^32) * n for every t |
| `Keygen.ReduceDivides` | adb_shell_wifi/auth/keygen.py:162-170 | k rounds of reduction divide by 2^(32k) modulo n |
| `Keygen.RRIs` | adb_shell_wifi/auth/keygen.py:172-176 | rr is 2^(2 * bits) mod n for a modulus of that many bits, so 2^4096 mod n for 2048 |
| `Keygen.IntoMontgomeryForm` | adb_shell_wifi/auth/keygen.py:162-176 | multiplying by rr and reducing brings any number into Montgomery form, for every odd n |
| `Keygen.PubkeyBytes` | adb_shell_wifi/auth/keygen.py:178-185 | 64, n0inv, the modulus, rr and the exponent, each with the least significant byte first |
| `Keygen.PubkeyRoundTrip` | adb_shell_wifi/auth/keygen.py:178-185 | a key is encoded exactly if its numbers fit their fields, and the struct then decodes to the same numbers |

## Left out

- IOManager.IOManager.Read: one thread at a time, while `Demux` has any number of them; and only with a local id, which every caller in `AdbDevice` passes.
- DemuxReplay.StreamReplay: one thread at a time reads a stream; what several would read of it is in `DemuxStreams` alone.
- Stores.PacketStore.Find: which of several matching keys comes first in the dictionary is left open.
- Streams.Stream.ReadUntil: sending the acknowledgement does not fail, nor does any other `send` of a stream; where it does, the exception ends the operation, and what holds is what holds up to that call.
- Streams.Stream.Read: what the other streams do is not in it; that it gets its packets as it would alone is `DemuxReplay.StreamReplay`.
- Handshake.Client.Connect: `auth_callback`, which is user code, is left out, and so is closing the transport on the way out of a refusal; `tls_upgrade` either works or raises.
- SyncClient.Transaction.Pull: the frames are read before the data is written to the local file, where the generator takes turns.
- Pairing.Lockstep: that different passwords give different keys is not assumed; the result is stated for the keys the two sides derived.
- Short writes: `_send` ignores the number of bytes written, so a write is taken to be complete, or failed with some of it on the wire.
- Clocks: what the clock says wherever the code looks at it is an input; how that relates to time is not modelled.
- Signing, SPAKE2, AES-GCM, HKDF and TLS are parameters; key files and certificates are not part of this model.
- Reconnecting in the middle of a FileSync transaction, and using one again after an exception.
- The checks for an empty path and for an established connection, and `_clse` after FileSync transactions.
- The transports themselves, mDNS discovery, progress callbacks, the banner, decoding of output, walking directories for push, and `int_to_cmd`, `__len__` and `__contains__`, which would add only easy members.
