# ZeroFeed in Dafny

ZeroFeed streams messages from one publisher, through a relay that sees only ciphertext, to any number of subscribers.
The publisher numbers and seals every message, keeps the last 100 in a ring, ratchets its key in mid-stream and replays
on request. The relay fans frames out through bounded queues. A subscriber ratchets in step, drops stale numbers, and
after a reconnect asks for what it missed.

This project models that behaviour and proves what holds of it. `dafny verify dfyconfig.toml` checks all of it.

## Reading order

| files | what they hold |
|---|---|
| `Wrappers`, `ByteStrings`, `Sequences`, `Chains`, `Primitives` | results, big-endian integers, subsequences, runs step by step, and the cryptographic primitives as functions with laws |
| `Hkdf`, `Envelope`, `SealedFrames`, `WebSocket`, `Handshake`, `HandshakeKeys` | key derivation, the wire formats, the handshake bytes and what its keys are made of |
| `ReplayLog`, `RingBuffer` | the replay ring on values, and the ring with its pooled buffers on the heap |
| `Endpoints`, `PublisherEngine`, `SubscriberEngine`, `FileTransfer`, `FileDelivery`, `FileRuns`, `TextDelivery`, `Sanitizer` | what one call of either end does, on values, and the classes proved to do exactly that |
| `StreamSystem`, `StreamSafety`, `StreamTheorems`, `CatchUp`, `CatchUpExact`, `CatchUpRuns`, `KeyChain`, `KeyVolume` | publisher, relay and subscribers as a step system, its invariant, and the theorems over every run |
| `FanOut`, `StreamQueues`, `SubscriberKeys`, `Sessions`, `RelayServer`, `RateLimiter` | the relay: its queues, which are those of the stream system, and its objects |
| `RelayRuns`, `RelaySafety`, `RelayDelivery`, `Reaper`, `RelayWitness` | the relay's connection handlers as a step system, its invariant, theorems over every run, and two runs that show what does not hold |

## Main results

* Key agreement. In every reachable state, for every subscriber that finished its handshake and lost no frame on its
  connection, ratcheting through the rekey frames in flight turns its key into the publisher's, and every frame in
  flight opens when it is reached. The publisher's key after any run is the first one, taken through two HMACs for each
  rekey frame that was written.
* Handshake. Both ends compute one key from passphrase, Diffie-Hellman secret and encapsulated secret, and each of the
  three matters: for different passphrases, and for any change of share or ciphertext, some lawful primitives make the
  subscriber refuse.
* Nonce discipline. Over a whole run with any number of rekeys and replays, a stream nonce determines plaintext and
  associated data.
* Delivery safety. Delivered numbers strictly increase, and the delivered log is a subsequence of the published one.
* Catch-up, exactly. A subscriber that asks from position L ends up with everything due after L if and only if no data
  frame it reads while its request is on the way, or that is ahead of the replay when the request is served, jumps over a
  due message. Due are the messages reported as sent or, as the reader chooses, also those numbered before the service
  whose own write failed. Both sides occur: one complete run catches up, another one loses a message although no overflow
  is reported.
* Files and text end to end. After any run, a subscriber that has delivered a transfer's messages has saved the file
  exactly once and acknowledged it; each text message it has delivered was printed once, in order, sanitized.
* The relay. Over every interleaving of connection handlers, frames stay within the session they were sent in, a session
  has at most one open publisher, and a removal lets go of one connection, its own. Each connection gets exactly what is
  handed to it, and a broadcast is offered to everybody who was there.
* The reaper, exactly. It disconnects those connections, and no others, that register in a session between its test and
  its close; it is certain to disconnect nobody if and only if no handler holds the session without having registered when
  it is tested. One complete run shows a subscriber being disconnected.
* The broadcast, exactly. Of each publisher's frames a subscriber gets an in-order subsequence, unbroken up to its first
  refused send; an open subscriber whose queue was never full has been refused nothing. The same holds of all frames together as long as no two publishers owe it a frame at once, and fails as
  soon as two do; that happens only in a session that has been closed, and one complete run shows it.
* The ring on the heap behaves as "the last 100 pushes since the last wipe", and the pool, the ring and outstanding
  reads never share a buffer.
* Every printer and parser of the wire stack undo each other over whole streams, with the exact sizes at which they
  stop doing so.

## Assumptions

* PublishPayload, TriggerRekey, replaySyncForSubscriber and the answer to a subscriber's handshake are one step each.
  The code holds no single lock across them (pkg/feed/publisher.go:753-764, pkg/feed/publisher.go:439-463), and with
  finer steps key agreement fails: an answer could copy the master key before a rekey and be written after it.
* A connection is a reliable FIFO until it is dropped. Writes may fail, queues may refuse, requests may be lost,
  connections may be dropped at any time.
* AES-GCM, HMAC-SHA256, X25519, ML-KEM-768 and Argon2id are arbitrary functions that obey their usual laws: opening
  undoes sealing and the tag adds 16 bytes; Diffie-Hellman commutes; decapsulation undoes encapsulation. The laws are
  those of a non-empty type, so no axiom is used, and no secrecy is claimed.
* A subscriber whose connection did lose frames may hold an outdated key. For it alone a step assumes that a frame
  which opens at all opens to the message its number names.
* In the step system the counter stays below 2^64, and a payload is not one whose frame Encode would write cut short.
  That excludes only payloads of more than 4 GiB whose length, cut to 32 bits, slips below the 32 MiB limit, and it is
  exactly the condition under which every suite delivers what was reported as sent (`Endpoints.FitsIff`).
* In the relay's step system a step is one critical section, one send or one goroutine; the reaper's test and close of a
  session are two, and so are the two halves of RemoveSubscriber. Between two sessions the reaper and CloseAll give the
  table's lock back, which the code does not do: the runs of the code are among those considered.
* The clock, random bytes and the outcomes of writes are parameters. JSON is a pair of functions that undo each other
  on the header being sent. Session identifiers in the relay are compared for equality only.

The changelog speaks of wire version 0x02; the code writes and requires 0x03, and the model follows the code.

## Model

| member | source | states |
|---|---|---|
| `StreamTheorems.KeyAgreement` | pkg/feed/publisher.go:703-785 | In every reachable state cipher key and master key are equal; for every handshaken subscriber with no lost frame, folding the two HMACs of RatchetKey over the rekey frames in flight gives the publisher's key, every frame in flight opens under the key held when it is reached, and the next frame does not take an authentication-failure exit. |
| `KeyChain.KeyOverRun` | pkg/feed/publisher.go:703-806 | After any run the publisher's key is the first key taken through HMAC(HMAC(salt, key), label, 1) for the salt of each rekey frame that was written, in order, and nothing else: those asked for, and those a publication brings about because the byte or the time limit is reached. |
| `KeyChain.RekeyAtBothEnds` | pkg/feed/publisher.go:703-785 | A rekey succeeds if and only if its frame is written; then both keys of the publisher, and the key of a subscriber that held the old one and reads the frame, are the same two HMACs of the old key and the salt; otherwise no key changes. |
| `KeyChain.PublishKey` | pkg/feed/publisher.go:788-839 | A publication goes out under the new key if the bytes with this payload reach the byte limit or the time since the last rekey reaches the time limit and the rekey frame is written, and under the old one otherwise; its frame opens to the payload under that key. |
| `KeyChain.KeyNeverStale` | pkg/feed/publisher.go:793-798 | With a time limit and succeeding rekeys, no payload goes out under a key that is as old as the limit: one that would be is preceded by a rekey. |
| `KeyChain.CloseOverRun` | pkg/feed/publisher.go:547-572 | In every reachable state with a connected publisher, Close puts one frame at the end of the path of every connected subscriber, and a subscriber that reads it stops for good and keeps what it has delivered. |
| `KeyChain.CloseStops` | pkg/feed/subscriber.go:358-361 | The frame that Close writes stops every subscriber, whatever key it holds; without a connection nothing is written; keys and replay buffer are gone either way. |
| `StreamTheorems.NonceDiscipline` | pkg/feed/publisher.go:511-544 | Over any run, two uses of the AEAD with the same nonce have the same plaintext and the same associated data, across live sends, rekey frames and replays. |
| `StreamTheorems.DeliverySafety` | pkg/feed/subscriber.go:413-447 | In every reachable state a subscriber's delivered numbers strictly increase and its log is a subsequence of the published messages, payloads included. |
| `StreamTheorems.DeliveredOnlyGrows` | pkg/feed/subscriber.go:437-447 | Any run extends a subscriber's delivered log and never rewrites it. |
| `StreamTheorems.StaleFrameIgnored` | pkg/feed/subscriber.go:437-443 | A correctly sealed frame whose number is not newer than the position changes nothing. |
| `StreamTheorems.UpToDateUnchanged` | pkg/feed/subscriber.go:437-443 | From any reachable state, over any run on which nothing is published beyond a subscriber's position, its log and position do not change, whatever requests are served, keys ratcheted, replays lost or repeated and connections dropped. |
| `StreamSafety.StepInv` | pkg/feed/publisher.go:703-839 | Every step (publish, rekey, close, serve, join, sync, forward, write, receive, drop) keeps the invariant that looks through the in-flight queues. |
| `StreamSafety.RunInv` | pkg/feed/publisher.go:407-545 | The invariant holds after every run. |
| `StreamSafety.PublishInv` | pkg/feed/publisher.go:788-839 | Publishing, with or without the rekey it triggers and whether or not either write succeeds, keeps the invariant, for every payload whose frame is either refused or written whole. |
| `Endpoints.FitsIff` | pkg/protocol/envelope.go:35-63 | A payload is admitted to the step system if and only if, under every lawful suite, a frame reported as sent opens to it; what is shut out is a length that wraps around 32 bits to a value below the limit. |
| `StreamSafety.ServeInv` | pkg/feed/publisher.go:439-545 | Answering a handshake or serving a SYNC_REQ keeps the invariant for every subscriber on the session, not only the one that asked. |
| `StreamSafety.ReceiveNodeOk` | pkg/feed/subscriber.go:358-447 | Reading the next frame keeps a subscriber consistent with the log and in step with the rest of its path. |
| `StreamSafety.FlowReplay` | pkg/feed/publisher.go:511-544 | Replayed frames, sealed under the key of the moment, open under it and name messages of the log, so they do not disturb the key. |
| `CatchUpExact.CatchUpIff` | pkg/feed/publisher.go:493-545 | Over whole runs: a subscriber asks from a position L above 0, loses no frame, no overflow is reported for L when its request is served, and its path drains; then it has delivered everything due after L, before or after its request, if and only if no data frame it read while waiting or that was ahead of the replay jumped over a message due by then. Due is what was reported as sent, or also what was numbered up to any chosen point before the service and is short enough to be sent. |
| `CatchUpExact.MissingWasOvertaken` | pkg/feed/subscriber.go:437-443 | On such a run, a message due after L that is still missing at the end was overtaken by a frame read before the replay. |
| `CatchUpExact.RunTook` | pkg/feed/subscriber.go:437-447 | Over any run of an intact connection, the numbers delivered are exactly those the deduplication rule accepts from the frames read, and the position is their top. |
| `CatchUpExact.RunLost` | pkg/feed/subscriber.go:437-443 | A number that is neither delivered nor going to be accepted, and is overtaken by what is in flight, stays so over any run of an intact connection, whatever is appended behind. |
| `CatchUp.ServedIff` | pkg/feed/publisher.go:493-545 | When a request is served, everything due after any position between the requested and the current one is delivered or in flight to be accepted, if and only if nothing was missed up to the current position and nothing in flight jumps over a due message; otherwise some due message is lost. |
| `CatchUp.CatchUpCompleteness` | pkg/feed/subscriber.go:273-295 | Over any run before and any lossless run after the request is served with no newer data frame ahead of it: when the path has drained, every message numbered after the position has been delivered: those numbered before the service if they can be sent at all, even if their own write had failed, and those published since if they were sent, whatever rekeys happened meanwhile. |
| `CatchUp.SkippedStaysLost` | pkg/feed/subscriber.go:437-443 | A number at or below the position that was not delivered is never delivered in any later run. |
| `CatchUpRuns.OvertakenRun` | pkg/feed/subscriber.go:437-443 | A complete run, for every suite and all payloads, that meets every premise of the exact theorem and violates its condition: a subscriber at position 1 misses message 2, asks, and reads message 3 before its request is served; it ends with 1 and 3 and without 2. |
| `CatchUpRuns.CatchUpHappens` | pkg/feed/publisher.go:493-545 | The same run with the request served first meets the premises of both catch-up theorems and the condition, and ends with 1 and 2 delivered. |
| `CatchUp.NoSkipIffAllAccepted` | pkg/feed/subscriber.go:437-443 | The deduplication rule accepts every due number in its range if and only if, frame by frame, no accepted number jumps over a due one. |
| `CatchUp.ServedHasAllAfter` | pkg/feed/ringbuffer.go:89-107 | Without overflow, every due message after the position is among those a request replays, whether or not it was written when it was published. |
| `CatchUp.RunCaughtUp` | pkg/feed/subscriber.go:358-447 | Once caught up, no further step of a connection that loses nothing undoes it. |
| `KeyVolume.VolumeBound` | pkg/feed/publisher.go:788-806 | Over any run of calls with a positive byte limit and succeeding rekeys, the payload bytes published under the current key stay below the limit plus the length of that key's first payload, as long as limit and payload length fit the 64-bit counter. |
| `KeyVolume.VolumeBoundIff` | pkg/feed/publisher.go:788-806 | With payloads up to a given length, the bound holds over every run of calls if and only if limit plus length is at most 2^64; beyond that a payload carries the counter around unnoticed. |
| `KeyVolume.BoundIsTight` | pkg/feed/publisher.go:780-806 | The bound is attained: two payloads reach limit - 1 plus the first payload under one key. |
| `KeyVolume.NextCounterOk` | pkg/feed/publisher.go:788-806 | The byte counter misses at most the first payload of its key, and every call keeps it so. |
| `ReplayLog.RingHoldsLast` | pkg/feed/ringbuffer.go:63-86 | After any run of pushes and wipes the ring holds exactly the last min(n, capacity) pushes since the last wipe. |
| `ReplayLog.AfterIsSuffix` | pkg/feed/ringbuffer.go:89-107 | On increasing numbers the messages after a position are a suffix of the ring, and everything before that suffix is not newer. |
| `ReplayLog.AfterMembers` | pkg/feed/ringbuffer.go:89-107 | The result holds a message if and only if the ring holds it and it is newer than the position. |
| `ReplayLog.NoOverflowNothingLost` | pkg/feed/ringbuffer.go:143-152 | If no overflow is reported for a position above 0, nothing newer than it was evicted. |
| `ReplayLog.OverflowExact` | pkg/feed/ringbuffer.go:143-152 | On consecutive numbers an overflow is reported if and only if something newer was evicted. |
| `ReplayLog.OverflowExactIff` | pkg/feed/ringbuffer.go:143-152 | On increasing numbers the report is right for every position if and only if the oldest kept number directly follows the newest evicted one, or is at most 2. |
| `RingBuffers.BufferPool.Get` | pkg/feed/ringbuffer.go:16-24 | The buffer is large enough, all zero, and was with nobody else. |
| `RingBuffers.BufferPool.Put` | pkg/feed/ringbuffer.go:26-33 | The buffer is wiped over its whole capacity before anyone can get it again. |
| `RingBuffers.RingBuffer.constructor` | pkg/feed/ringbuffer.go:52-60 | An empty ring; a capacity of 0 or less becomes 100. |
| `RingBuffers.RingBuffer.Push` | pkg/feed/ringbuffer.go:63-86 | The contents become the last `capacity` of the old ones and the new message; pooled, stored and lent buffers stay disjoint, and a buffer lent to a reader keeps its bytes. |
| `RingBuffers.RingBuffer.GetAfter` | pkg/feed/ringbuffer.go:89-107 | Private copies of exactly the newer messages, oldest first, in buffers nobody else holds; nothing stored or lent changes. |
| `RingBuffers.RingBuffer.GetAll` | pkg/feed/ringbuffer.go:110-122 | Private copies of all stored messages, oldest first, with the same ownership. |
| `RingBuffers.RingBuffer.Len` | pkg/feed/ringbuffer.go:125-129 | The number of stored messages, never above the capacity. |
| `RingBuffers.RingBuffer.OldestSeqNum` | pkg/feed/ringbuffer.go:132-140 | The number of the oldest message, 0 for an empty ring. |
| `RingBuffers.RingBuffer.IsOverflow` | pkg/feed/ringbuffer.go:143-152 | The report whose meaning `ReplayLog.OverflowExactIff` settles, computed from the heap ring. |
| `RingBuffers.RingBuffer.Wipe` | pkg/feed/ringbuffer.go:155-169 | The ring is empty, every buffer it held is back in the pool and zero, and no other buffer is touched. |
| `RingBuffers.RingBuffer.Release` | pkg/feed/publisher.go:505-509 | Returning the results of a read restores the set of lent buffers to what it was before the read. |
| `PublisherEngines.PublisherEngine.constructor` | pkg/feed/publisher.go:83-214 | Once connected: master key and cipher key agree, the counter is 0, the ring is empty, and the limits are 1 GiB and one hour. |
| `PublisherEngines.PublisherEngine.SendFrame` | pkg/feed/publisher.go:383-393 | A frame reaches the connection if and only if there is one, the frame encodes and the write succeeds. |
| `PublisherEngines.PublisherEngine.TriggerRekey` | pkg/feed/publisher.go:703-785 | The object does what `Endpoints.Rekey` says: the number is used up even when the write fails, and only a written frame changes the keys, both to the two HMACs of the old key and the salt. |
| `PublisherEngines.PublisherEngine.PublishPayload` | pkg/feed/publisher.go:788-839 | The object does what `Endpoints.Publish` says: count, rekey if due and ignore its failure, number, store, seal, send. |
| `PublisherEngines.PublisherEngine.ReplaySync` | pkg/feed/publisher.go:493-545 | The object does what `Endpoints.Replay` says, and every copy it took from the ring is back in the pool. |
| `PublisherEngines.PublisherEngine.Close` | pkg/feed/publisher.go:548-594 | A close frame goes out if possible, both keys and the ring are gone, and nothing more is sealed. |
| `SubscriberEngines.SubscriberEngine.HandleEnvelope` | pkg/feed/subscriber.go:356-546 | One loop turn equals `Endpoints.HandleFrame`; the ring holds the last 100 deliveries, and files, text and acknowledgements are what the deliveries amount to. |
| `SubscriberEngines.SubscriberEngine.SubscribeStream` | pkg/feed/subscriber.go:298-550 | The loop over a connection's frames equals `Endpoints.HandleAll`, error exits included. |
| `SubscriberEngines.SubscriberEngine.Accept` | pkg/feed/subscriber.go:437-447 | A number is delivered, stored and dispatched if and only if it is newer than the position. |
| `SubscriberEngines.SubscriberEngine.DispatchPlaintext` | pkg/feed/subscriber.go:449-544 | The switch on the payload tag, updating open files, saved files, text and acknowledgements as the fold about which `FileTransfer.FileArrives` and `TextDelivery.TextPrinted` speak. |
| `SubscriberEngines.SubscriberEngine.InstallKey` | pkg/feed/subscriber.go:244-253 | A completed handshake replaces the key and keeps position and deliveries. |
| `FileTransfer.SendFile` | pkg/feed/publisher.go:597-700 | However the file is read, the chunks are non-empty, within the chunk size and concatenate to the file; the end tag goes out only after all of it; on every failure exit what went out is a prefix; the unacknowledged count is below 16 at each loop head. The call fails only if a publication, a read or a wait in it did. |
| `FileTransfer.Throttle` | pkg/feed/publisher.go:672-684 | A window that is not full never waits; a full one goes on with 15 after an acknowledgement, with 0 after a timeout, and gives up only when the context is cancelled. |
| `FileDelivery.FileArrivesOverRun` | pkg/feed/subscriber.go:437-533 | After any run of publisher, relay and subscribers, with any drops, reconnects, rekeys, replays, duplicates and other traffic: if the messages published about a transfer are those of SendFile for a file and the subscriber has delivered them, its dispatch has saved the file exactly once, byte for byte, the transfer's entry is gone, and it has acknowledged every 16th chunk and the end. |
| `FileRuns.FileDelivered` | pkg/feed/publisher.go:597-700 | A complete run, for every suite and every chunk that fits a frame, that meets the premises of the end-to-end theorem and ends with the file saved. |
| `FileDelivery.AboutOfSubsequence` | pkg/feed/subscriber.go:463-533 | Leaving out messages that do not concern a transfer leaves the same payloads about it in the same order. |
| `TextDelivery.TextOverRun` | pkg/feed/subscriber.go:449-461 | After any run, with any drops, reconnects, rekeys, replays, duplicates and files in between: a subscriber has printed one output for each text message it has delivered, in the order of publication; with the text tag it is free of control bytes, a subsequence of the data, and exactly the text if the data consists of text and escape sequences; if all text published was delivered, all of it was printed. |
| `TextDelivery.TextPrinted` | pkg/feed/subscriber.go:449-544 | Over any deliveries on any desk, each text payload adds one output, in order, and no file payload adds any; tagged text is sanitized, an untagged payload is printed as it is. |
| `FileTransfer.FileArrives` | pkg/feed/subscriber.go:463-533 | For any file, any chunking and any interleaving of dispatched payloads with text and other transfers, the bytes saved for the transfer are the file, once and in order, its entry is gone, and one acknowledgement went out for every 16 chunks and one for the end. |
| `FileTransfer.OnlyOwnPayloadsMatter` | pkg/feed/subscriber.go:463-533 | A transfer's open entry and saved files depend only on the payloads that name it. |
| `FileTransfer.TransferAlone` | pkg/feed/subscriber.go:463-533 | Start, chunks and end tag on an arbitrary desk save the concatenated chunks exactly once and acknowledge every 16th chunk and the end. |
| `Sanitizer.SanitizeSubsequence` | pkg/feed/subscriber.go:672-688 | The output is a subsequence of the input. |
| `Sanitizer.SanitizeClean` | pkg/feed/subscriber.go:672-688 | The output holds no control byte other than tab, line feed and carriage return. |
| `Sanitizer.SanitizeIdentity` | pkg/feed/subscriber.go:672-688 | Control-free text is unchanged. |
| `Sanitizer.SanitizeIdempotent` | pkg/feed/subscriber.go:672-688 | A second pass changes nothing. |
| `Sanitizer.SanitizeKeepsText` | pkg/feed/subscriber.go:672-688 | Clean text in front is kept whatever follows. |
| `Sanitizer.SequenceStripped` | pkg/feed/subscriber.go:660-680 | A complete escape sequence or control byte in front is deleted and nothing more. |
| `Sanitizer.StripsExactlyTheSequences` | pkg/feed/subscriber.go:660-688 | For every list of text, CSI, OSC, escaped characters and control bytes, exactly the text remains. |
| `Hkdf.HkdfSha256` | pkg/crypto/cipher.go:35-75 | The loop that wipes its previous block and its output in place returns HKDF of its inputs; an empty secret is an error. |
| `Hkdf.MatchesRfc` | pkg/crypto/cipher.go:35-75 | Up to 255 blocks the output is a prefix of T(1), T(2), ... of section 2.3 of RFC 5869, from the HMAC of the secret keyed with the salt, or with a fixed salt when it is empty. |
| `Hkdf.DeriveIsTwoMacs` | pkg/crypto/cipher.go:35-75 | A 32-byte output is HMAC(HMAC(salt, secret), info followed by 1), with the fixed salt in place of an empty one. |
| `Hkdf.AsciiReadsBack` | pkg/crypto/cipher.go:40-40 | The bytes of a label, read as characters, are the label. |
| `Hkdf.RatchetIsTwoMacs` | pkg/crypto/cipher.go:147-150 | RatchetKey is that, of the current key and the salt, with its own label. |
| `Hkdf.RatchetSeparatesIff` | pkg/crypto/cipher.go:147-150 | For any key and two salts, some lawful suite gives two different next keys, neither the old one, if and only if the salts differ once an empty one is replaced. |
| `Hkdf.ShorterIsPrefix` | pkg/crypto/cipher.go:35-75 | A shorter output is a prefix of a longer one, at any lengths. |
| `Hkdf.ZeroBytes` | pkg/crypto/memzero.go:22-41 | Every byte is zero afterwards. |
| `EnvelopeCodec.SerializeHeader` | pkg/protocol/messages.go:55-63 | The first 38 bytes become the header fields in order; the rest of the caller's buffer is untouched. |
| `EnvelopeCodec.HeaderFields` | pkg/protocol/messages.go:55-63 | Each field of a printed header is found again at its offset. |
| `ByteStrings.PutUintBytes` | pkg/protocol/messages.go:55-63 | Integers go out most significant byte first: byte i of a width-w integer counts multiples of 256^(w-1-i). |
| `EnvelopeCodec.EncodeFrame` | pkg/protocol/envelope.go:35-63 | Whatever a pooled buffer held before, the bytes written depend on the envelope alone. |
| `EnvelopeCodec.DecodeEncode` | pkg/protocol/envelope.go:78-121 | Decoding an encoded frame yields the frame and leaves the rest of the stream, for any receiver limit it fits. |
| `EnvelopeCodec.SurvivesWireIff` | pkg/protocol/envelope.go:35-121 | A frame survives the wire if and only if its payload is at most 32 MiB, even though the length is cut to 32 bits before it is checked. |
| `EnvelopeCodec.EncodeDecode` | pkg/protocol/envelope.go:78-121 | Whatever decodes is byte for byte the encoding of what it decoded to, followed by the rest. |
| `EnvelopeCodec.StrictPrefixFails` | pkg/protocol/envelope.go:78-121 | A strict prefix of a frame yields no envelope but an end-of-input error. |
| `EnvelopeCodec.StreamRoundTrip` | pkg/protocol/envelope.go:35-121 | Any list of frames written back to back decodes to that list. |
| `EnvelopeCodec.CutStreamDecodesPrefix` | pkg/protocol/envelope.go:78-121 | Wherever such a stream is cut, what decodes is a prefix of the list. |
| `EnvelopeCodec.PadPayload` | pkg/protocol/envelope.go:133-145 | The filled buffer is length prefix, data and zeros, as the padding laws below use it. |
| `EnvelopeCodec.PadLayout` | pkg/protocol/envelope.go:133-145 | Octet by octet: 4 octets of length, most significant first and cut to 32 bits, the data, zeros up to the target size. |
| `EnvelopeCodec.UnpadPadIff` | pkg/protocol/envelope.go:133-158 | Stripping undoes padding if and only if the length fits 32 bits; beyond that the data comes back cut to its length modulo 2^32. |
| `SealedFrames.StreamNonceInjective` | pkg/crypto/cipher.go:94-99 | Within a session the nonce of section 3.2 of RFC 5116 names one sequence number below 2^64. |
| `SealedFrames.NonceLayout` | pkg/crypto/cipher.go:94-99 | Octet by octet: 4 octets of the session id, then the sequence number, most significant octet first. |
| `SealedFrames.FrameLayout` | pkg/feed/publisher.go:809-836 | A sealed frame carries its number in 8 octets, then the plaintext sealed under the given key, with the nonce of the envelope and with the envelope's own header as associated data. |
| `SealedFrames.OpenSealed` | pkg/feed/subscriber.go:425-434 | The associated data rebuilt from a decoded frame is the one that was sealed, so the frame opens to its plaintext and shows its number. |
| `SealedFrames.OpenDataFrame` | pkg/feed/publisher.go:805-838 | A padded, sealed message opens and unpads to the payload. |
| `SealedFrames.MessageSurvivesIff` | pkg/feed/publisher.go:815-838 | One message is written, read back and opened unchanged if and only if it leaves room for number, length prefix and tag below 32 MiB. |
| `SealedFrames.PipelineRoundTrip` | pkg/feed/publisher.go:815-838 | Any list of such payloads, padded, sealed, encoded and concatenated, comes back as the same list. |
| `Handshake.HandshakeAgreement` | pkg/feed/subscriber.go:199-247 | For every choice of keys, randomness and padding and equal passphrases: the answer is 1280 + 60 + 32 bytes, both sides hold one key, each verifies the other's tag, and the subscriber unwraps exactly the publisher's master key. |
| `Handshake.SameSecret` | pkg/crypto/pake.go:110-190 | Each side's Update on the other's message succeeds and gives the same shared key. |
| `Handshake.UnwrapWrapped` | pkg/crypto/cipher.go:246-283 | Unwrapping undoes wrapping of a session key. |
| `Handshake.PakePeer.Process` | pkg/crypto/pake.go:110-190 | A failed Update changes nothing; a successful one sets the shared key, of which `HandshakeKeys.UpdateKey` says what it is, and, for a publisher, the reply. |
| `HandshakeKeys.UpdateKey` | pkg/crypto/pake.go:110-190 | For any message, if Update succeeds the shared key is HMAC(HMAC(Argon2id key of the own passphrase, Diffie-Hellman secret then encapsulated secret), label, 1), with the secrets of bytes 0 to 31 and of the key or ciphertext behind them. |
| `HandshakeKeys.HelloLayout` | pkg/crypto/pake.go:54-99 | The subscriber's 1280 bytes are share, encapsulation key and padding. |
| `HandshakeKeys.AnswerLayout` | pkg/feed/publisher.go:245-283 | The publisher's 1372 bytes are share, ciphertext and padding; nonce and master key sealed under the shared key with the wrap label; the HMAC under the shared key of the confirmation label and role 1. |
| `HandshakeKeys.VerdictIs` | pkg/feed/subscriber.go:199-247 | The subscriber refuses an answer of the right size with a confirmation mismatch if and only if its last 32 bytes are not the HMAC under the key it computes itself; what it accepts was sealed under that key, and it confirms with role 2. |
| `HandshakeKeys.ConfirmIs` | pkg/crypto/pake.go:220-231 | Frames confirm a handshake to the publisher if and only if the first key confirmation among them is the HMAC under the shared key of the confirmation label and role 2. |
| `HandshakeKeys.ConfirmDecides` | pkg/crypto/pake.go:209-231 | An honest exchange between any two passphrases ends in a confirmation mismatch if and only if the HMACs of the confirmation label under the two keys differ. |
| `HandshakeKeys.PassphraseMattersIff` | pkg/crypto/pake.go:173-181 | Some lawful exchange and suite make every handshake between two passphrases end in a mismatch if and only if the passphrases differ. |
| `HandshakeKeys.ShareMatters` | pkg/crypto/pake.go:116-130 | With some lawful exchange and suite, any change of the publisher's share ends in a mismatch. |
| `HandshakeKeys.CiphertextMatters` | pkg/crypto/pake.go:155-166 | With some lawful exchange and suite, any change of the publisher's ciphertext ends in a mismatch. |
| `Handshake.AwaitConfirm` | pkg/feed/publisher.go:284-308 | The publisher accepts if and only if the first confirmation among at most 8 frames verifies. |
| `WebSocket.FrameRoundTrip` | pkg/relay/websocket.go:68-149 | Parsing undoes printing, masked or not, in all three length forms of section 5.2 of RFC 6455. |
| `WebSocket.FrameOctets` | pkg/relay/websocket.go:72-123 | Every frame that parses, octet by octet: opcode in the low half of the first, length in the second or in the 2 or 8 after it, four octets of key if the mask bit is set, then the payload, of which each bit of octet i is set if and only if exactly one of the bits of octet i on the wire and of octet i mod 4 of the key is (section 5.3 of RFC 6455); the rest is left. |
| `WebSocket.WrittenOctets` | pkg/relay/websocket.go:152-182 | A write sends a final binary frame, unmasked, its length in the shortest form; a pong is a final frame with opcode 10. |
| `WebSocket.ReadsArePrefix` | pkg/relay/websocket.go:68-149 | For any stream of well-formed frames and any buffer sizes: the bytes returned so far are a prefix of the data payloads, nothing is lost or repeated, each ping consumed got exactly one pong, and an end is reported only when everything was returned and every ping answered. |
| `WebSocket.ReadStep` | pkg/relay/websocket.go:68-149 | A single Read, whether it returns data or reports the end, consumes some number of whole frames, returns the next pending bytes and has answered exactly the pings among those frames. |
| `WebSocket.PongEchoesIff` | pkg/relay/websocket.go:125-138 | A pong carries the ping's payload back if and only if that is at most 65535 bytes. |
| `WebSocket.ReadUndoesWriteIff` | pkg/relay/websocket.go:152-182 | A written frame reads back across all length boundaries if and only if it is at most 64 MiB. |
| `WebSocket.ReadsUndoWrites` | pkg/relay/websocket.go:68-182 | Whatever was written in whatever pieces, reads of any sizes return its bytes in order and write nothing back. |
| `WebSocket.MaskedTwice` | pkg/relay/websocket.go:119-123 | Masking twice with the same key gives the payload back (section 5.3 of RFC 6455). |
| `WebSocket.MaskedOctets` | pkg/relay/websocket.go:119-123 | Octet i is masked with octet i mod 4 of the key, bit by bit. |
| `WebSocket.Unmask` | pkg/relay/websocket.go:119-123 | The in-place loop masks the whole array: each bit of octet i becomes the exclusive or of it and of that bit of octet i mod 4 of the key. |
| `WebSocket.WsConn.ReadInto` | pkg/relay/websocket.go:68-149 | The object reads what `WebSocket.Read` says and writes only the first n bytes of the caller's buffer; on an error the buffer is untouched and the pongs written before it are on the connection. |
| `WebSocket.WsConn.Write` | pkg/relay/websocket.go:152-182 | A successful write puts exactly one frame on the connection and reports the full length; a failed one reports 0. |
| `FanOut.FanOutOrder` | pkg/relay/session.go:291-317 | In every reachable state, for every subscriber and every publisher, with any number of publishers forwarding at once: of that publisher's frames, written plus queued are an in-order subsequence of those broadcast since the subscriber registered; without a refused send, those taken and queued are an unbroken stretch from its registration, even after a close or a removal, and nothing is missing before the first refusal; what was taken before a close was written; the queue never exceeds 200; after a refusal its removal is pending or done. |
| `FanOut.WholeOrder` | pkg/relay/session.go:291-317 | If no two publishers owe a subscriber a frame at the same time, all of the above holds of all frames together, in the order of their broadcasts. |
| `FanOut.OverlapBreaksOrder` | pkg/relay/session.go:291-317 | On any run, as soon as two publishers owe a frame to a registered, open subscriber that has room for both and has had no refused send, one of the two orders in which they may offer it leaves the subscriber with frames that are not in the order of the broadcasts. |
| `FanOut.OnePublisherNeverTwice` | pkg/relay/server.go:331-365 | A run on which one publisher does all the forwarding meets that condition. |
| `FanOut.NothingRefused` | pkg/relay/session.go:139-153 | On any run, an open, registered subscriber whose queue has never been full has had nothing refused: of every publisher's frames it has exactly those broadcast since it registered and no longer owed to it, all taken ones written. |
| `FanOut.StepInv` | pkg/relay/session.go:101-163 | Every interleaving step of overlapping broadcasts, write loops, closes and removals keeps the queue invariant. |
| `FanOut.ClientConn.SendFrame` | pkg/relay/session.go:129-163 | A subscriber's frame goes to the end of the queue if the connection is open and has room, and is refused if the queue is full; with room in a closed one either may happen. A publisher's is written at once, and refused exactly when the write fails. |
| `FanOut.ClientConn.Close` | pkg/relay/session.go:166-179 | The first close fixes how many frames had been taken by then; a second one changes nothing. |
| `FanOut.ClientConn.WriteOne` | pkg/relay/session.go:101-126 | One frame leaves the front of the queue and is on the wire exactly when its write succeeded; a failed write outside the drain ends the loop and closes the connection. |
| `FanOut.ClientConn.Drain` | pkg/relay/session.go:101-126 | After close the queue is emptied, and what it held is written in order, all but the frames whose write failed. |
| `StreamQueues.QueueIsTheRelays` | pkg/relay/session.go:291-317 | From the moment a subscriber joins, over any run on which it keeps its connection, the connection of the stream system is a FanOut client that went through the same offers and writes: what was read, is on the wire and is queued is a subsequence of what was forwarded, and all of it unless a send was refused, which is exactly what the gap flag says. |
| `SubscriberKeys.KeyInjective` | pkg/relay/session.go:264-272 | Address and serial can both be recovered from a subscriber key, so keys never collide. |
| `RelaySafety.FramesStayInSession` | pkg/relay/server.go:274-365 | In every reachable state, whatever reached a subscriber was sent by the handler of a connection that opened as publisher for the same session id and is registered in the same session; whatever reached a publisher came from a connection that opened for the same session id, and not as publisher. |
| `RelaySafety.OneOpenPublisher` | pkg/relay/session.go:234-258 | In every reachable state, of all connections ever registered as publisher in a session at most one is open, and it is the one the session points to. |
| `RelaySafety.OneForwarder` | pkg/relay/session.go:234-258 | In every reachable state, a session that has not been closed has had one publisher, so at most one handler forwards on it. |
| `RelaySafety.OneSource` | pkg/relay/session.go:291-317 | In every reachable state, all frames a subscriber of a session that has not been closed was handed came from one connection. |
| `RelaySafety.NewcomerAcceptedIff` | pkg/relay/session.go:234-258 | In every reachable state a publisher is accepted if and only if the session points to none; the one it points to is always open, so the branch that replaces a closed publisher is never taken. |
| `RelaySafety.RemovalIsOwn` | pkg/relay/session.go:264-317 | In every reachable state, the removal of a subscriber by its own handler or after a refused send takes its own connection and no other out of any session, and then closes that one alone. |
| `RelaySafety.TableOverRuns` | pkg/relay/server.go:394-449 | In every reachable state every session in the table is open and filed under its own id, and the gauge is the size of the table plus what CloseAll discarded; without CloseAll it is the size of the table. |
| `RelaySafety.OnlyHandshakesGrow` | pkg/relay/server.go:270-328 | A step adds a session id to the table only if it is the first frame of a connection, is one of the two handshake frames, and carries that id. |
| `RelaySafety.StepInv` | pkg/relay/server.go:274-470 | Every step of every handler, of the removals it starts, of a failing write loop, of the reaper's test, of its close and of CloseAll keeps the invariant that ties connections, sessions, keys and the table together. |
| `RelayDelivery.GotOverRun` | pkg/relay/server.go:274-383 | Over every run, what a connection has been given is exactly what was handed to it, in order: handshakes that waited for a publisher, frames passed up, publisher's frames its queue took. |
| `RelayDelivery.BroadcastReachesAll` | pkg/relay/session.go:291-317 | Over every run, between the snapshot of a broadcast and its end the frame is offered to every subscriber that was in the session at the snapshot. |
| `RelayDelivery.PassesUp` | pkg/relay/session.go:320-330 | What a subscriber or a visitor sends up goes to the publisher its session points to when it looks: the handshake of a newcomer, the frame of a listener, the request of a visitor. |
| `RelayDelivery.RemovesOnlyDeserted` | pkg/relay/server.go:385-391 | Over every run, a subscriber's handler that is about to remove a session by its id has, at an earlier step, found the session it held without publisher and without subscribers. |
| `RelayDelivery.TestEmptyIff` | pkg/relay/server.go:386-390 | The test at the end of a subscriber's loop is passed if and only if the session has neither publisher nor subscribers. |
| `Reaper.ReaperClosesNewcomers` | pkg/relay/server.go:459-470 | Over every run: the session the reaper takes was empty and at least 30 seconds old at its test; whatever happens until the close, the close disconnects exactly the connections that registered in that session since the test and are still in it, each of which held the session unregistered at the test; the session leaves the table, and no other session changes. |
| `Reaper.ReaperHarmlessIff` | pkg/relay/session.go:222-231 | At the moment of its test, the reaper disconnects nobody on any run up to the close if and only if no handler holds that session without having registered. |
| `Reaper.RemovalDisconnects` | pkg/relay/server.go:417-426 | In every reachable state, the removal at the end of a handler disconnects exactly the open connections in the session filed under its id by then, be it its own or a newer one. |
| `RelayWitness.ReaperDisconnects` | pkg/relay/server.go:459-470 | A complete run on which the reaper finds a session empty and 40 seconds old, a subscriber that already held it registers, and the close disconnects that subscriber. |
| `RelayWitness.OverlapHappens` | pkg/relay/session.go:291-317 | A complete run on which two publishers are forwarding to the same subscriber of a session that was closed, and either may offer its frame first. |
| `RelayServer.RelaySession.RegisterPublisher` | pkg/relay/session.go:234-258 | A publisher is turned away if and only if an open one is registered, and then nothing changes; among all publishers ever accepted only the current one is open. |
| `RelayServer.RelaySession.RegisterSubscriber` | pkg/relay/session.go:264-272 | The new key was not in use, so no subscriber is overwritten, and it names a new connection with an empty queue. |
| `RelayServer.RelaySession.RemoveSubscriber` | pkg/relay/session.go:275-286 | Exactly the named connection is forgotten and closed. |
| `RelayServer.RelaySession.ForwardFromPublisher` | pkg/relay/session.go:291-317 | Every subscriber is offered the frame exactly once, as one step of `FanOut`; reported are exactly those whose queue is full and those that are closed, except for closed ones that take it by chance; nobody is added or removed. |
| `RelayServer.RelaySession.ForwardToPublisher` | pkg/relay/session.go:320-330 | Fails without a publisher or when the write fails, and only then; otherwise the frame is the next one on its connection. |
| `RelayServer.RelaySession.Greet` | pkg/relay/server.go:282-288 | A new publisher is sent the handshakes of the current subscribers, each once, all but those whose write failed. |
| `RelayServer.RelaySession.Close` | pkg/relay/session.go:333-351 | The first close closes every connection of the session and forgets them; a second one changes nothing. |
| `RelayServer.Server.GetOrCreateSession` | pkg/relay/server.go:394-407 | The session filed under the id, created if missing; no other entry changes, and every filed session stays open and under its own id. |
| `RelayServer.Server.LookupSession` | pkg/relay/server.go:411-415 | A caller gets a session that is open and carries the id it asked for, or none because none is filed. |
| `RelayServer.Server.RemoveSession` | pkg/relay/server.go:417-426 | That id alone leaves the table, every connection of its session is closed, and the gauge follows. |
| `RelayServer.Server.ReapStaleSessions` | pkg/relay/server.go:459-470 | Exactly the sessions found empty and at least 30 seconds old are removed; with any number of registrations between the test of a session and its close, the connections closed are newly registered ones, and none that existed before the call is touched. |
| `RelayServer.Server.CloseAll` | pkg/relay/server.go:441-449 | The table is emptied, every connection of every session in it is closed, and the gauge is left behind by exactly the number of sessions discarded. |
| `RelayServer.Server.LeaveSubscriber` | pkg/relay/server.go:385-391 | Run without interruption: exactly that subscriber leaves its session; the table loses the session filed under the same id if and only if nobody is left in this one, and nothing otherwise. |
| `RelayServer.Server.LeavePublisher` | pkg/relay/server.go:364-364 | The session filed under the publisher's id leaves the table, no other does, and all its connections are closed. |
| `RelayServer.Server.AcceptPublisher` | pkg/relay/server.go:275-290 | Run without interruption: turned away if and only if the session has an open publisher; otherwise it is the session's publisher and has been sent the waiting handshakes; no other entry of the table changes. |
| `RelayServer.Server.AcceptSubscriber` | pkg/relay/server.go:292-304 | Run without interruption: always registered under an unused key, and its handshake is passed on if there is a publisher; no other entry of the table changes. |
| `RelayServer.Server.AcceptSync` | pkg/relay/server.go:306-320 | A lone sync request never changes the table and is passed on exactly when its session exists, has a publisher and the write succeeds. |
| `RelayServer.Server.HandleFirstFrame` | pkg/relay/server.go:274-328 | Run without interruption: only the two handshake frames can add a session, and only under their own id; a publisher is accepted if and only if no open one is registered, a sync request if and only if the session exists, and every other type is refused. |
| `RateLimiter.Limiter.IsBanned` | pkg/relay/ratelimit.go:43-73 | With limiting enabled the answer is yes if and only if there are at least 3 failures since the last reset and the latest is less than 5 minutes old; asking changes no later answer. |
| `RateLimiter.Limiter.RecordFailure` | pkg/relay/ratelimit.go:76-101 | One failure is added to that address's history and to no other; nothing when limiting is off. |
| `RateLimiter.Limiter.RecordSuccess` | pkg/relay/ratelimit.go:104-114 | That address's failures are reset. |
| `RateLimiter.Limiter.CleanupStale` | pkg/relay/ratelimit.go:117-127 | Exactly the stale records go, and no present or later answer changes until another failure is recorded. |
| `RateLimiter.BannedIff` | pkg/relay/ratelimit.go:76-101 | Whatever came before the last reset, an address is banned if and only if it has failed at least 3 times since and the last failure is less than 300 seconds ago. |
| `RateLimiter.ResetInvisible` | pkg/relay/ratelimit.go:68-70 | Forgetting an address that is not banned changes no answer from then on. |
| `RateLimiter.ResetShowsAfterNextFailure` | pkg/relay/ratelimit.go:68-70 | The next failure does tell the difference: with three old failures it bans at once, after a reset it does not. |

## Left out

- Dialing, TLS, QUIC, relay probing, the HTTP upgrade and origin checks: I/O and library plumbing.
- The mathematics of the cryptographic primitives, and any claim of secrecy or authenticity beyond "what was sealed opens".
- Goroutine interleaving inside the atomic steps named above, and deadlock freedom: sendFrame and Close take the two publisher locks in opposite orders, so there is no lock order to prove.
- That a populated session is never torn down: the code removes by id and can hit a newer session. `Reaper.RemovalDisconnects` says exactly whom that disconnects.
- PROXY v2 parsing and invite URIs.
- The command line, WASM bindings, logging, the metrics exporter, progress bars, memory locking, the wipe registry and short authentication strings.
- Timeouts and polling: a send to a full queue may be refused at any time, a timeout is not measured; the watermark wait before forwarding is not modelled.
- Heartbeats, the reconnect backoff and the publisher's own reconnect.
- Failures to create a file at the subscriber, two transfers that share a file name, and the printed checksum comparison.
- Hkdf.HkdfSha256: does not model the backing arrays that Go's append abandons unwiped when the output grows.
- EnvelopeCodec.EncodeFrame: does not model the return of the buffer to the frame pool.
- WebSocket.ReadsArePrefix: close frames and malformed frames end the stream in `WebSocket.Read` and are not part of the prefix theorem.
- WebSocket.WsConn.ReadInto: does not say what is left of a broken frame in the input after an error.
- RelayServer.Server.ReapStaleSessions: lets handlers register only in the session being reaped, between its test and its close, and none of them leave again; `Reaper` and `RelayRuns` have every interleaving.
- RelayServer.Server.CloseAll: takes the connections it may close as a ghost argument.
- RelayServer.Server.LeaveSubscriber: runs its three critical sections without interruption; RemoveOwn, TestEmpty and RemoveById of `RelayRuns` interleave them.
- RelayServer.Server.AcceptPublisher: runs lookup, registration and greeting without interruption; First, Register and GreetOne of `RelayRuns` interleave them.
- RelayServer.Server.AcceptSubscriber: runs lookup, registration and passing on without interruption; First, Register, LookUp and SendUp of `RelayRuns` interleave them.
- RelayServer.Server.AcceptSync: runs lookup and forwarding without interruption; First, LookUp and SendUp of `RelayRuns` interleave them.
- RelayServer.Server.HandleFirstFrame: is one of the three above, without interruption.
- RateLimiter.Limiter.IsBanned: takes a clock that has passed zero, since a record without a ban holds the zero time.
