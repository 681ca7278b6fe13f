# Kore cores

Models of the self-contained cores of the Kore web framework and the job queue of its `brocolli` layer, with
proofs of the laws they rest on. The kernel, the clock, the disk and foreign libraries are parameters: every
answer they may give is allowed unless a contract says otherwise.

| module | what it models |
|---|---|
| `Lists`, `Bytes`, `Search` | sequences, octets, big-endian integers, substring search |
| `Net` | send queue with partial writes; receive buffer with a re-armable target |
| `Msg` | messages between workers over such a link, from sender to receiver, and their fan-out by the parent |
| `WebSocket` | frame building and the two receive callbacks |
| `HttpBody` | accounting, hashing and completion of a Content-Length body |
| `Buf`, `Multipart` | buffers, in-place replacement, streaming search, multipart forms |
| `Blocks`, `HashContext`, `Sha2`, `Sha2Words`, `Sha2Family` | incremental hashing, the SHA-2 transforms, their words and constants |
| `Sha1`, `Sha1Rounds`, `Sha1Digest` | the same for SHA-1 |
| `Json`, `JsonSound`, `JsonParser`, `JsonPrinter` | grammar and layout of JSON documents and that they agree; the parser and printer as they run |
| `Base64` | both alphabets, padded and raw |
| `Workflow` | the durable job queue as steps of any number of workers |
| `CoroLock` | the coroutine lock and the lists of runnable and suspended coroutines |
| `Pool`, `Mem` | pool allocator and general allocator |
| `Timers`, `FileRef` | timer list; cache of open files |

Code that changes things in place is a class or a loop here too; each such method is tied to a function on
values, and the laws are proved about that function or about every run of such steps. Lists linked by
pointers are sequences, except the free list of a pool, which is threaded through the entries as in the
source.

Where the natural statement is false of the code, the exact condition is proved instead: `Msg.SendIntact`
(data missing), `HttpBody.Begin` (more octets than announced), `Multipart.FormReadsBack` with
`Multipart.EmptyFieldLost` (empty fields and uploads), `Json.DocumentBack` with `Json.ErrnoLeaks` (errno left
over from an earlier number), `Base64.RawRoundTrip` (length a multiple of three), `Timers.RunExact` and
`Timers.RunEnds` (interval zero), `CoroLock.KillExact` with `CoroLock.KillLosesWakeup` (the one woken waiter
killed).

Two remarks on the sources. The comment of `workflow.h` lists delays up to 243 seconds; the code gives up at
the fifth failure, so the longest delay is 81 seconds. The test `json_consume_whitespace(json) == -1` in
`kore_json_parse` can never hold, since that function returns zero or one; a document of white space only is
refused by the look at the next character instead.

## Model

| member | source | states |
|---|---|---|
| `Bytes.BigEndianRoundTrip` | src/net.c:380-432 | Reading back a 16-, 32- or 64-bit integer written in network order gives the integer, for every width. |
| `Net.PendingWritten` | src/net.c:216-250 | A partial write takes exactly the octets written off the front of what is waiting, whether or not the buffer is used up by it. |
| `Net.Sender.SendQueue` | src/net.c:78-120 | Queueing data, by topping up the last buffer, by splitting or by a new buffer, adds exactly that data behind everything queued before; octets sent followed by octets waiting stay equal to octets queued. |
| `Net.Sender.SendStream` | src/net.c:122-141 | The same conservation law for data queued as a buffer of its own. |
| `Net.Sender.Consume` | src/net.c:300-323 | The octets written move from the first buffer to the wire, and the buffer is removed exactly when nothing of it is left. |
| `Net.Sender.Send` | src/net.c:216-250 | One write attempt: how much leaves for every answer of the kernel (partial, interrupted, would block, error), when it is an error, and when the connection stops being writable; conservation in every case. |
| `Net.Sender.SendFlush` | src/net.c:252-266 | Flushing loses, repeats and reorders nothing for any sequence of answers; if the socket stays writable everything queued is on the wire, and a kernel that always takes something gets it there. A connection marked to close when empty is closed exactly when the flush succeeds and nothing is left, so that nothing queued is cut off. |
| `Net.FeedAppend` | src/net.c:268-298 | Receiving is independent of chunking: two deliveries have the effect of their concatenation, for every callback protocol. |
| `Net.FeedChunk` | src/net.c:268-298 | A read that does not fill the target only buffers, and one that fills it runs the callback once on exactly the wanted octets. |
| `Net.FeedClosed` | src/net.c:268-298 | After a callback failed or stopped reading, or when it asked for nothing more, no octet that follows has an effect. |
| `Net.EventsGrow` | src/net.c:268-298 | Further octets never take back what callbacks have already delivered. |
| `Net.Receiver.constructor` | src/net.c:190-205 | A receive buffer starts empty with the target asked for. |
| `Net.Receiver.RecvReset` | src/net.c:174-188 | Re-arming drops what was buffered and sets the target, whether or not the storage is reused. |
| `Net.Receiver.RecvExpand` | src/net.c:207-214 | Expanding keeps every octet already received and moves the target by the length given. |
| `Net.Receiver.RunCallback` | src/net.c:268-298 | Running the armed callback in place has the effect of its reaction on the abstract receive state. |
| `Net.Receiver.Arrive` | src/net.c:349-378 | A read of any size into the buffer equals feeding its octets one at a time. |
| `Net.Receiver.RecvFlush` | src/net.c:268-298 | However the kernel cuts the incoming octets, the outcome is that of feeding the octets taken one at a time; a kernel that always has something gets everything taken unless the callbacks stop, and then the call fails exactly if a callback failed. |
| `Msg.OneMessage` | src/msg.c:187-220 | One message on the wire, in any struct layout and with or without payload, is delivered once and leaves the receiver ready for the next. |
| `Msg.AllMessages` | src/msg.c:187-261 | Any sequence of messages is delivered as the same sequence. |
| `Msg.PrefixDelivered` | src/msg.c:187-261 | After any prefix of the octets the receiver has delivered at least the messages that are complete in it and only a prefix of what was sent. |
| `Msg.SendIntact` | src/msg.c:154-185 | A sent message arrives as sent if and only if data was given or the length is zero; otherwise the receiver is left waiting for that many octets of whatever comes next. |
| `Msg.Send` | src/msg.c:154-185 | Sending queues header and payload behind everything sent before, for any behaviour of the socket. |
| `Msg.LinkDelivers` | src/msg.c:154-261 | Whatever part of the octets of some messages has left and whatever part of that has been read, the callbacks have seen a prefix of the messages, and all of them once nothing is waiting. |
| `Msg.StaysReading` | src/msg.c:187-261 | At every cut of a stream of messages the receiver is reading and wants more octets, so a link never gets stuck. |
| `Msg.Link.constructor` | src/msg.c:104-124 | A new link has sent nothing and its peer waits for a header. |
| `Msg.Link.SendMessage` | src/msg.c:154-185 | Sending over the link, whatever the kernel answers, adds exactly that message to those sent and keeps the link sound: all octets ever queued are those of the messages sent, and the peer is where the octets it has read lead. |
| `Msg.Link.Flush` | src/net.c:252-266 | Flushing keeps the link sound for any answers, and empties the queue if the kernel always takes something. |
| `Msg.Link.Receive` | src/net.c:268-298 | Reading keeps the link sound however the octets are cut, and takes everything there is if the kernel always gives something. |
| `Msg.Link.Delivered` | src/msg.c:154-261 | After any run of sends, flushes and reads the peer has seen the first messages sent, once each and in order, and all of them when nothing is queued or unread. |
| `Msg.Link.Settle` | src/msg.c:154-261 | From any such state, a kernel that always takes and gives something brings the peer to exactly the messages sent. |
| `Msg.RoutedFaithful` | src/msg.c:222-257 | A worker is given only messages addressed to it, each one received by the parent for it, contents unchanged. |
| `Msg.RoutedExact` | src/msg.c:222-257 | A worker gets exactly the messages addressed to it and those for all workers, the latter not as key manager: every one, as often and in the order the parent received them, with only the destination rewritten. |
| `Msg.RoutedStep` | src/msg.c:222-257 | Each message received by the parent adds to each worker's stream exactly its share of it, at the end. |
| `Msg.Parent.CarriedStep` | src/msg.c:222-257 | What a link has to carry grows by one message exactly if the message is for its worker. |
| `Msg.Parent.Forward` | src/msg.c:201-261 | Forwarding keeps every link carrying exactly the messages its worker should get, whatever the sockets do: the link of a worker the message is for grows by the message with that worker as destination, and no other link changes. |
| `WebSocket.MaskTwice` | src/websocket.c:314-315 | Masking twice with the same key gives the payload back, for every length. |
| `WebSocket.Unmask` | src/websocket.c:314-315 | The loop over the buffer unmasks exactly the payload and leaves headers, key and everything behind it alone. |
| `WebSocket.BuiltIsFrame` | src/websocket.c:184-222 | Masking what the builder writes is a well-formed final frame in the shortest of the three length forms, for every payload. |
| `WebSocket.BuildInNumerals` | src/websocket.c:184-222 | A built frame has the final bit with the opcode, then 0 to 125, 126 with two or 127 with eight octets of length, and the data, unmasked. |
| `WebSocket.HeaderTaken` | src/websocket.c:224-269 | The two header octets of an acceptable kind of frame arm the shortest length that form can have. |
| `WebSocket.FrameReaction` | src/websocket.c:271-312 | A length over the limit or in too long a form is an error; otherwise exactly the missing octets are asked for. |
| `WebSocket.FullFrame` | src/websocket.c:313-352 | A complete frame has the effect of its opcode on the unmasked payload. |
| `WebSocket.AllTaken` | src/websocket.c:224-352 | Whatever the length form, the callback that acts sees the whole frame and nothing of the next. |
| `WebSocket.FrameTaken` | src/websocket.c:224-352 | A frame in an acceptable form has its effect once and leaves the receiver ready for the next, or closed after a close frame. |
| `WebSocket.ShortFrame` | src/websocket.c:224-352 | In numerals: 0x81 and 0x82 with a masked payload reach the handler as text and binary data, 0x88 closes, 0x89 is answered with its payload, 0x8a has no effect. |
| `WebSocket.FrameRefused` | src/websocket.c:224-352 | No frame of any other kind or form reaches the handler or is answered, whatever octets follow: unknown opcodes, control frames that are long or not final, a 16-bit length below 126, a 64-bit length below 127, a payload over the limit; a continuation is only logged. |
| `WebSocket.HeaderRefused` | src/websocket.c:224-269 | For any two octets the connection goes on reading if and only if they have a mask, no reserved bit, a known opcode and, for control frames, the final bit and a short length; otherwise it fails with no effect, whatever follows. |
| `WebSocket.Conversation` | src/websocket.c:224-352 | For any sequence of acceptable frames the handler gets exactly the unmasked payloads in order and pings are answered; with Net.Receiver.RecvFlush this holds for any splitting into reads. |
| `WebSocket.ConversationSoFar` | src/websocket.c:224-352 | A conversation cut off anywhere has had the first effects in order, among them those of every frame read in full. |
| `WebSocket.NothingAfterClose` | src/websocket.c:333-340 | After a close frame nothing the peer sends has an effect. |
| `HttpBody.Begin` | src/http.c:926-976 | The octets read past the headers leave the body accounting sound if and only if they do not exceed the announced length; otherwise the remaining length wraps around and the body is not complete after them. |
| `HttpBody.Update` | src/http.c:2333-2391 | A chunk within the remaining length keeps the accounting sound: contents, remaining length, hash, next target and completion; one beyond it wraps the remaining length around. |
| `HttpBody.Connection.Arrive` | src/http.c:2325-2331 | A read and its callback append the octets read to the body. |
| `HttpBody.Connection.RecvFlush` | src/http.c:2325-2391 | For any read sizes the body is exactly the announced octets, complete exactly when the last one has been taken; no later octet is read into it, and its hash state is that of its contents. |
| `Search.IndexOfSpec` | src/utils.c:401-418 | The position reported is the leftmost occurrence, and none is reported exactly when there is none. |
| `Search.MemFind` | src/utils.c:401-418 | The scan with its early exit finds the leftmost occurrence. |
| `Multipart.Request.BodyRead` | src/http.c:1364-1402 | Reads of any size hand out the body in order without gap or overlap; nothing is read exactly when nothing is left or nothing is asked for. |
| `Multipart.Request.Rewind` | src/http.c:1321-1338 | Rewinding makes the whole body unread again. |
| `Multipart.Judge` | src/http.c:2121-2161 | From the buffered octets alone: the needle starts here, or no match can start among the octets passed on, whatever follows them. |
| `Multipart.Refill` | src/http.c:2110-2119 | Reading more changes neither what is to be searched nor its order. |
| `Multipart.Pass` | src/http.c:2121-2162 | What is passed on is a prefix of what was to be searched and no match starts in it; it stops at the needle if there is one. |
| `Multipart.Turn` | src/http.c:2109-2162 | One turn of the loop makes progress by the pair of unread and buffered octets, ends on the first match or at the end of the body. |
| `Multipart.FindData` | src/http.c:2097-2165 | The streaming search succeeds exactly if the needle occurs in what is buffered and unread; it then passed on exactly the octets before the first occurrence and what is left is exactly what follows it. |
| `Multipart.NextIsIndexOf` | src/utils.c:401-418 | Searching on from a position is searching the rest of the body. |
| `Multipart.FindNext` | src/http.c:2097-2165 | On a request body the search moves the position past the next occurrence, independent of read sizes. |
| `Multipart.AddPart` | src/http.c:2234-2283 | A field gets the octets before the boundary less the line break; a file gets their position and length. |
| `Multipart.AddParts` | src/http.c:2167-2232 | The dispositions of one header block are recorded in order, each up to its own boundary, and nothing is recorded once a boundary is missing. |
| `Multipart.ReadHeader` | src/http.c:1302-1308 | The header block is exactly what lies between the line end and the next blank line. |
| `Multipart.ReadPart` | src/http.c:1302-1313 | One turn of the form loop records what the whole-body reading records there and goes on where that goes on. |
| `Multipart.PopulateForm` | src/http.c:1265-1319 | Whatever sizes the reads come in, the records are those of a reader of the whole body. |
| `Multipart.FilesAreSlices` | src/http.c:2259-2283 | Every recorded file is a non-empty slice of the body that starts behind the blank line of its part headers or behind a boundary, and the next boundary behind its start is exactly two octets behind its end. |
| `Multipart.FormReadsBack` | src/http.c:1265-1319 | A form written with recognisable separators is read back as exactly its entries whose content is not empty, fields with their contents and files as the slices that hold them; it is read back in full if and only if no content is empty. |
| `Multipart.AllRecorded` | src/http.c:2248-2272 | Every entry leaves its record exactly if no content is empty, and never are there more records than entries. |
| `Multipart.EmptyFieldLost` | src/http.c:2248-2251 | A well-written form with one empty field, given octet by octet, leaves no record at all. |
| `Multipart.ArgumentAdd` | src/http.c:2286-2323 | Adding an argument walks the parameters of the route: the first one for that name and method decides, and only a value it accepts is kept, as a C string. |
| `Multipart.AdmitsExact` | src/http.c:2297-2316 | A value is kept exactly if the validator of the first parameter for that name and method accepts it. |
| `Multipart.FormArguments` | src/http.c:2234-2323 | From the entries of a client to the arguments of a route: exactly the fields that are not empty and that the route takes, in order. |
| `Multipart.WantedExact` | src/http.c:2234-2323 | The arguments are those of the non-empty fields whose value, up to its first zero octet, that validator accepts. |
| `Multipart.CutWhole` | src/http.c:2253-2254 | A field value is kept up to its first zero octet, so whole if and only if it has none. |
| `Multipart.OpenFile.Read` | src/http.c:1079-1129 | A read returns the next octets of the slice, as many as asked for or as are left. |
| `Multipart.OpenFile.ReadAll` | src/http.c:1079-1129 | Successive reads of any sizes concatenate to the slice. |
| `Buf.SplitIsExact` | src/buf.c:149-184 | Cutting at every occurrence from the left loses nothing, and no piece contains the key. |
| `Buf.ReplacedStep` | src/buf.c:149-184 | Replacement goes from left to right and never looks at inserted text. |
| `Buf.ReplaceOnce` | src/buf.c:149-184 | Replacing one occurrence in the buffer and going on behind the inserted text leaves the final result unchanged. |
| `Buf.Buffer.Append` | src/buf.c:68-81 | Appending, with or without growing, adds the octets behind the contents. |
| `Buf.Buffer.ReplaceString` | src/buf.c:149-184 | For every non-empty key the loop ends and yields the non-overlapping replacement of all occurrences, with the offset within the length throughout. |
| `Sha2.ExpandIsScheduled` | src/sha2.c:299-318 | The circular sixteen-word buffer holds the message schedule of sections 6.2.2 and 6.4.2 of FIPS 180-4 at every round. |
| `Sha2.MacroIsRound` | src/sha2.c:299-318 | The round macro on eight register names is one round of the standard. |
| `Sha2.RolledRounds` | src/sha2.c:378-450 | The shifting loop computes the rounds of the standard. |
| `Sha2.FourRoundsAt` | src/sha2.c:320-374 | Four uses of the macro with rotated register names are four rounds of the standard, up to renaming. |
| `Sha2.UnrolledRounds` | src/sha2.c:320-374 | The eight-at-a-time body without register moves computes the rounds of the standard. |
| `Sha2.Transform` | src/sha2.c:569-726 | Either variant, at either word size, computes the compression function of the standard. |
| `Sha2Family.Lawful256` | src/sha2.c:161-175 | The 32-bit word operations meet the laws the refinement rests on. |
| `Sha2Family.Lawful512` | src/sha2.c:161-181 | The 64-bit word operations meet the laws the refinement rests on. |
| `Sha2Family.Transformed` | src/sha2.c:324-450 | Either transform computes the compression that the digests are stated with, and that of the standard. |
| `Sha2Family.Round256Is` | src/sha2.c:299-322 | A round is that of section 6.2.2 of FIPS 180-4, with its own functions and order. |
| `Sha2Family.Round512Is` | src/sha2.c:573-596 | The same for section 6.4.2. |
| `Sha2Family.Words256Are` | src/sha2.c:109-112 | The words of a block are its octets, most significant first. |
| `Sha2Family.Words512Are` | src/sha2.c:114-119 | The same for words of 64 bits. |
| `Sha2Family.Upper032Is` | src/sha2.c:172 | The function used in the rounds of 32-bit words is that one on their bits. |
| `Sha2Family.Upper132Is` | src/sha2.c:173 | The function used in the rounds of 32-bit words is that one on their bits. |
| `Sha2Family.Lower032Is` | src/sha2.c:174 | The function used in the rounds of 32-bit words is that one on their bits. |
| `Sha2Family.Lower132Is` | src/sha2.c:175 | The function used in the rounds of 32-bit words is that one on their bits. |
| `Sha2Family.Choice32Is` | src/sha2.c:168 | The choice used for 32-bit words is that on their bits. |
| `Sha2Family.Majority32Is` | src/sha2.c:169 | The majority used for 32-bit words is that on their bits. |
| `Sha2Family.Schedule256Is` | src/sha2.c:308-317 | The message schedule is that of the standard in 32-bit words. |
| `Sha2Family.Upper064Is` | src/sha2.c:178 | The function used in the rounds of 64-bit words is that one on their bits. |
| `Sha2Family.Upper164Is` | src/sha2.c:179 | The function used in the rounds of 64-bit words is that one on their bits. |
| `Sha2Family.Lower064Is` | src/sha2.c:180 | The function used in the rounds of 64-bit words is that one on their bits. |
| `Sha2Family.Lower164Is` | src/sha2.c:181 | The function used in the rounds of 64-bit words is that one on their bits. |
| `Sha2Family.Choice64Is` | src/sha2.c:168 | The choice used for 64-bit words is that on their bits. |
| `Sha2Family.Majority64Is` | src/sha2.c:169 | The majority used for 64-bit words is that on their bits. |
| `Sha2Family.Schedule512Is` | src/sha2.c:583-592 | The message schedule is that of the standard in 64-bit words. |
| `Sha2Words.BigSigma064Bits` | src/sha2.c:178 | Each bit is the parity of the bits 28, 34 and 39 places above, going round. |
| `Sha2Words.BigSigma032Bits` | src/sha2.c:172 | Each bit is the parity of the bits 2, 13 and 22 places above, going round. |
| `Sha2Words.BigSigma132Bits` | src/sha2.c:173 | Each bit is the parity of the bits 6, 11 and 25 places above, going round. |
| `Sha2Words.SmallSigma032Bits` | src/sha2.c:174 | Each bit is the parity of the bits 7, 18 and 3 places above, of which the last does not go round. |
| `Sha2Words.SmallSigma132Bits` | src/sha2.c:175 | Each bit is the parity of the bits 17, 19 and 10 places above, of which the last does not go round. |
| `Sha2Words.Ch32Chooses` | src/sha2.c:168 | In 32 bits: the first word chooses between the bits of the other two. |
| `Sha2Words.Maj32Decides` | src/sha2.c:169 | In 32 bits: each bit is that of the majority. |
| `Sha2Words.BigSigma164Bits` | src/sha2.c:179 | Each bit is the parity of the bits 14, 18 and 41 places above, going round. |
| `Sha2Words.SmallSigma064Bits` | src/sha2.c:180 | Each bit is the parity of the bits 1, 8 and 7 places above, of which the last does not go round. |
| `Sha2Words.SmallSigma164Bits` | src/sha2.c:181 | Each bit is the parity of the bits 19, 61 and 6 places above, of which the last does not go round. |
| `Sha2Words.Ch64Chooses` | src/sha2.c:168 | In 64 bits: the first word chooses between the bits of the other two. |
| `Sha2Words.Maj64Decides` | src/sha2.c:169 | In 64 bits: each bit is that of the majority. |
| `Sha2Words.Load64Is` | src/sha2.c:114-119 | Reading a word is reading a big-endian integer. |
| `Sha2Words.ShiftedIs` | src/sha2.c:121-138 | Storing a word by shifts is writing a big-endian integer, for either width. |
| `Sha2Family.K256Row0` | src/sha2.c:187-188 | Constants 1 to 8 of SHA-256 are the first 32 bits behind the point of the cube roots of those primes. |
| `Sha2Family.K256Row1` | src/sha2.c:189-190 | Constants 9 to 16 of SHA-256 are the first 32 bits behind the point of the cube roots of those primes. |
| `Sha2Family.K256Row2` | src/sha2.c:191-192 | Constants 17 to 24 of SHA-256 are the first 32 bits behind the point of the cube roots of those primes. |
| `Sha2Family.K256Row3` | src/sha2.c:193-194 | Constants 25 to 32 of SHA-256 are the first 32 bits behind the point of the cube roots of those primes. |
| `Sha2Family.K256Row4` | src/sha2.c:195-196 | Constants 33 to 40 of SHA-256 are the first 32 bits behind the point of the cube roots of those primes. |
| `Sha2Family.K256Row5` | src/sha2.c:197-198 | Constants 41 to 48 of SHA-256 are the first 32 bits behind the point of the cube roots of those primes. |
| `Sha2Family.K256Row6` | src/sha2.c:199-200 | Constants 49 to 56 of SHA-256 are the first 32 bits behind the point of the cube roots of those primes. |
| `Sha2Family.K256Row7` | src/sha2.c:201-202 | Constants 57 to 64 of SHA-256 are the first 32 bits behind the point of the cube roots of those primes. |
| `Sha2Family.K512Row0` | src/sha2.c:219-222 | Constants 1 to 8 of SHA-512 are the first 64 bits behind the point of the cube roots of those primes. |
| `Sha2Family.K512Row1` | src/sha2.c:223-226 | Constants 9 to 16 of SHA-512 are the first 64 bits behind the point of the cube roots of those primes. |
| `Sha2Family.K512Row2` | src/sha2.c:227-230 | Constants 17 to 24 of SHA-512 are the first 64 bits behind the point of the cube roots of those primes. |
| `Sha2Family.K512Row3` | src/sha2.c:231-234 | Constants 25 to 32 of SHA-512 are the first 64 bits behind the point of the cube roots of those primes. |
| `Sha2Family.K512Row4` | src/sha2.c:235-238 | Constants 33 to 40 of SHA-512 are the first 64 bits behind the point of the cube roots of those primes. |
| `Sha2Family.K512Row5` | src/sha2.c:239-242 | Constants 41 to 48 of SHA-512 are the first 64 bits behind the point of the cube roots of those primes. |
| `Sha2Family.K512Row6` | src/sha2.c:243-246 | Constants 49 to 56 of SHA-512 are the first 64 bits behind the point of the cube roots of those primes. |
| `Sha2Family.K512Row7` | src/sha2.c:247-250 | Constants 57 to 64 of SHA-512 are the first 64 bits behind the point of the cube roots of those primes. |
| `Sha2Family.K512Row8` | src/sha2.c:251-254 | Constants 65 to 72 of SHA-512 are the first 64 bits behind the point of the cube roots of those primes. |
| `Sha2Family.K512Row9` | src/sha2.c:255-258 | Constants 73 to 80 of SHA-512 are the first 64 bits behind the point of the cube roots of those primes. |
| `Sha2Family.Initial256` | src/sha2.c:206-215 | The initial value is the square roots of the first eight primes. |
| `Sha2Family.Initial512` | src/sha2.c:262-271 | The same to 64 bits. |
| `Sha2Family.Initial384` | src/sha2.c:274-283 | The same for the next eight primes. |
| `Sha2Family.StoreWords` | src/sha2.c:542-556 | The digest is the state words in order, most significant octet first. |
| `Sha2Family.Digest256` | src/sha2.c:452-556 | For any split of a message into updates the digest is the octets of the hash value of the standard: the padded message block by block through all rounds, from the initial value; 32 octets. |
| `Sha2Family.Digest512` | src/sha2.c:728-832 | The same for SHA-512, with the bit count in two words; 64 octets. |
| `Sha2Family.Digest384` | src/sha2.c:834-879 | The same for SHA-384, from its own initial value, 48 octets. |
| `HashContext.Updated` | src/sha2.c:452-496 | An update of any length keeps the context tracking the message: whole blocks compressed, the rest buffered, the bit count counted. |
| `HashContext.Padding` | src/sha2.c:498-539 | Padding in the buffer, in one block or two, gives the compression folded over the message padded as in section 5.1 of FIPS 180-4. |
| `Blocks.PaddedExact` | src/sha2.c:500-537 | The padding is whole blocks and no more than it takes: the message, a 1 bit, zeros and the length in bits. |
| `HashContext.Hasher.Update` | src/sha2.c:452-496 | The context object tracks the message with the new octets at its end. |
| `HashContext.Hasher.Final` | src/sha2.c:541-556 | The final state is the hash of all octets given to it. |
| `HashContext.HashParts` | src/sha2.c:452-556 | Incremental hashing equals one-shot hashing for every split into updates. |
| `HashContext.AddInc128Counts` | src/sha2.c:144-149 | The two-word increment with its carry test is addition modulo 2^128. |
| `HashContext.TwoWordField` | src/sha2.c:774-815 | The two stored count words are the 128-bit length field of the standard. |
| `HashContext.LowWord` | src/sha2.c:737-779 | The low word alone counts the bits modulo 2^64, whether or not there is a high word. |
| `HashContext.InUse` | src/sha2.c:461-503 | The use of the block buffer read off the low word of the bit count is the length of the part not hashed yet, for every message length, after wrap-around too. |
| `HashContext.Counted` | src/sha2.c:737-768 | Counting on, in one word or in two with the carry test, keeps the count of the whole message. |
| `HashContext.Field` | src/sha2.c:804-808 | The stored words are the length field of the standard, for both widths. |
| `Sha1.Updated` | src/sha1.c:122-139 | The SHA-1 update keeps the same tracking with its own loop. |
| `Sha1.Padding` | src/sha1.c:144-158 | Padding octet by octet through updates gives the padding of section 5.1.1 of FIPS 180-4. |
| `Sha1.HashParts` | src/sha1.c:122-172 | For any split into updates the result is the compression folded over the padded message. |
| `Sha1Rounds.BlockIsScheduled` | src/sha1.c:29-36 | The word that the in-place expansion of the block copy yields is the word of the full message schedule. |
| `Sha1Rounds.MacroIsRound` | src/sha1.c:41-45 | One use of a round macro, with its own form of the function and order of adding, is one round of the standard with every register named one position further. |
| `Sha1Rounds.FiveRoundsAt` | src/sha1.c:71-91 | Five uses in a row are five rounds of the standard with every register back at its own name, from any position. |
| `Sha1Rounds.Transform` | src/sha1.c:55-102 | The unrolled transform in place computes the compression function of section 6.1.2 of FIPS 180-4. |
| `Sha1Digest.FormIsF` | src/sha1.c:41-45 | The logical functions as the macros write them are those of the standard in every round. |
| `Sha1Digest.SwapIsLoad` | src/sha1.c:29-34 | Swapping the octets of a word read by a little-endian machine is reading it with the most significant octet first. |
| `Sha1Digest.Transformed` | src/sha1.c:55-102 | With the words and constants of SHA-1 the transform is the compression function. |
| `Sha1Digest.RoundIs` | src/sha1.c:41-45 | A round is that of section 6.1.2 of FIPS 180-4. |
| `Sha1Digest.ScheduleIs` | src/sha1.c:35-36 | The message schedule is that of the same section. |
| `Sha1Digest.ConstantsAre` | src/sha1.c:41-45 | The four constants are the square roots of 2, 3, 5 and 10 to 30 bits behind the point. |
| `Sha1Digest.Rol1Bits` | src/sha1.c:23 | Rotating by one moves every bit one place up, going round. |
| `Sha1Digest.Rol5Bits` | src/sha1.c:23 | The same by five places. |
| `Sha1Digest.Rol30Bits` | src/sha1.c:23 | The same by thirty places. |
| `Sha1Digest.StoreOctets` | src/sha1.c:160-172 | The digest stored octet by octet is the five words of the state in order, most significant octet first. |
| `Sha1Digest.Digest` | src/sha1.c:107-172 | For any split of a message into updates the digest is the octets of the hash value of the standard, block by block through eighty rounds; 20 octets. |
| `Json.CharsBack` | src/json.c:895-1016 | A string stored escaped reads back as the string with every unprintable character a question mark. |
| `Json.VisiblyWhole` | src/json.c:964-1016 | Printable characters and those with an escape of their own come back as they are, all others as question marks, one for one. |
| `Json.WholeNatural` | src/utils.c:143-185 | A printed natural number parses back, as unsigned only above INT64_MAX, except UINT64_MAX and above, which fail; above INT64_MAX errno is left set. |
| `Json.WholeNegative` | src/utils.c:143-185 | A printed negative number parses back, INT64_MIN exactly if errno was not set before. |
| `Json.ValueBack` | src/json.c:562-894 | Any item of any nesting, laid out with any white space, parses back and leaves exactly the text behind it, or fails if it does not survive. |
| `Json.ElementsBack` | src/json.c:663-741 | The array loop collects exactly the items laid out, in order. |
| `Json.FieldsBack` | src/json.c:562-661 | The object loop collects exactly the names and items laid out, in order. |
| `Json.DocumentBack` | src/json.c:82-122 | A document, created or written token by token, with any white space between its tokens parses if and only if it survives (depth, number ranges, errno), and then to the tree it stands for. |
| `Json.ModestSurvives` | src/json.c:756-841 | Within the depth limit and without the two extreme integers every tree survives, whatever errno holds. |
| `Json.ErrnoLeaks` | src/utils.c:143-185 | Input on which the plain round trip fails: the smallest integer comes back alone and before a large unsigned integer, but not behind one. |
| `Json.DoubleClears` | src/utils.c:186-221 | A double between an overflowing number and the smallest integer makes the document parse that fails without it. |
| `JsonSound.ValueSound` | src/json.c:562-894 | Whatever the item parser accepts is the text of a document in front of what it leaves, and the item is what that document stands for. |
| `JsonSound.ElementsSound` | src/json.c:663-741 | Whatever the array loop accepts is items with single commas between them up to the bracket. |
| `JsonSound.FieldsSound` | src/json.c:562-661 | Whatever the object loop accepts is quoted names, colons and items with single commas between them up to the brace. |
| `JsonSound.ParsedExact` | src/json.c:82-122 | The parser gives an item for a text if and only if the text is a document that survives, standing for that item, with nothing but white space around it. |
| `JsonSound.TrailingRefused` | src/json.c:114-119 | A document followed by anything but white space is refused. |
| `JsonSound.Escapes` | src/json.c:895-962 | The escapes accepted are those of section 7 of RFC 8259 but for four hexadecimal digits, with their meanings. |
| `Json.PrintedIs` | src/json.c:232-295 | The printer writes the layout without white space. |
| `Json.PrintBack` | src/json.c:232-295 | What the printer writes for a created tree parses back exactly under the same condition. |
| `JsonParser.Parser.ConsumeWhitespace` | src/json.c:514-530 | The offset moves to the first character that is not white space. |
| `JsonParser.Parser.ReadString` | src/json.c:895-961 | The string loop with its escapes agrees with the grammar, including when it fails. |
| `JsonParser.Parser.ParseNumber` | src/json.c:756-841 | Number scanning and conversion agree with the grammar, errno included, which a double clears. |
| `JsonParser.Parser.ParseLiteral` | src/json.c:843-892 | Exactly the three literals are accepted. |
| `JsonParser.Parser.ParseValue` | src/json.c:532-559 | An item is parsed by its first character, with the offset, depth and errno the grammar says. |
| `JsonParser.Parser.ParseArray` | src/json.c:663-741 | The array parser agrees with the grammar: depth limit, trailing comma, missing bracket. |
| `JsonParser.Parser.ParseObject` | src/json.c:562-661 | The object parser agrees with the grammar: depth limit, trailing comma, missing colon or brace. |
| `JsonParser.Parser.Parse` | src/json.c:82-122 | The whole parse is the grammar, which accepts exactly one document with nothing but white space around it (JsonSound.ParsedExact). |
| `JsonPrinter.BuildString` | src/json.c:964-1016 | The escaping loop stores the escaped string. |
| `JsonPrinter.Printer.ToBuf` | src/json.c:232-295 | Printing appends exactly the text of the item to the buffer, with commas between items only. |
| `Base64.OneAlphabet` | src/utils.c:57-64 | Both tables are alphabets: 64 different characters without the padding. |
| `Base64.Encode` | src/utils.c:594-661 | The encoding loop computes the encoding; only the padded encoding of nothing is an error. |
| `Base64.EncodedSpells` | src/utils.c:594-661 | The characters read as one base-64 number are the octets read as one base-256 number, with the zero bits that fill the last character. |
| `Base64.EncodedLength` | src/utils.c:594-661 | Four characters for every three octets begun. |
| `Base64.Find` | src/utils.c:712-717 | The table walk gives the digit of a character, or one past the table for a character outside the alphabet. |
| `Base64.UnknownFails` | src/utils.c:712-724 | A character outside the alphabet before the padding is an error. |
| `Base64.DecodePadded` | src/utils.c:707-752 | The decoding loop with its bit buffer agrees with decoding group by group, at the padding, at a short end and on errors. |
| `Base64.Decode` | src/utils.c:664-758 | The raw form is decoded with the missing padding put back, and refused where there can be none. |
| `Base64.RoundTrip` | src/utils.c:594-758 | Padded decoding inverts padded encoding for every octet string and either alphabet (sections 4 and 5 of RFC 4648). |
| `Base64.RawRoundTrip` | src/utils.c:681-703 | The raw form comes back if and only if the length is not a multiple of three; otherwise it is refused. |
| `Workflow.RunSafe` | src/workflow.c:183-304 | In every interleaving of any number of workers each running row is held by exactly one worker, whose retry snapshot is the row's count. |
| `Workflow.BoundedStarts` | src/workflow.c:269-300 | No handler is started more than five times, and the retry count is the number of failed runs. |
| `Workflow.FinalUntilPurged` | src/workflow.c:464-501 | Done and failed rows never change until a purge covers them. |
| `Workflow.LiveStays` | src/workflow.c:482-501 | No step drops a job that is pending or running. |
| `Workflow.PurgeExact` | src/workflow.c:482-501 | A purge removes a row if and only if it is done or failed and was created before the cut-off, and leaves every other row as it is. |
| `Workflow.PendingWaits` | src/workflow.c:183-240 | A pending job is there, pending and unchanged, through any run in which nobody takes or cancels it. |
| `Workflow.RunningStays` | src/workflow.c:257-304 | A running job stays as it is with its worker through any run until that worker finishes. |
| `Workflow.CancelledNeverRuns` | src/workflow.c:464-479 | A job cancelled while pending is never started again: after any further steps, purges included, no worker holds it, and its row, if it is still there, is failed with its number of starts unchanged, unless the same identifier is enqueued anew. |
| `Workflow.RunTimed` | src/workflow.c:269-300 | With a clock that does not go back, every row keeps its schedule in every run. |
| `Workflow.WaitsAddUp` | src/workflow.h:35-39 | The waits add up to the geometric sum. |
| `Workflow.BackoffInEveryRun` | src/workflow.c:269-300 | In every run attempt k+1 starts at least 3^k seconds after failure k, and at least (3^(k+1)-3)/2 seconds after the first failure. |
| `Workflow.Backoff` | src/workflow.c:284-287 | The loop computes the power of the base. |
| `Workflow.SelectOldest` | src/workflow.c:187-194 | The row selected is pending and due with the earliest time, and none is selected exactly when none is due. |
| `Workflow.JobQueue.Enqueue` | src/workflow.c:376-423 | A new id gets a pending row with its kind and payload, no retries and the time now plus the delay; an id in use is refused, and no other row changes. |
| `Workflow.JobQueue.Take` | src/workflow.c:183-240 | The row claimed is pending and due and no due pending row is older; it becomes running and no other row changes; nothing is claimed only when no row is due. |
| `Workflow.JobQueue.Finish` | src/workflow.c:257-304 | The row becomes done, pending again after 3 to the number of its failures seconds, or failed at the fifth failure; no other row changes. |
| `Workflow.JobQueue.Cancel` | src/workflow.c:464-479 | Exactly a pending row becomes failed; anything else is left alone and reported as no change. |
| `Workflow.JobQueue.Purge` | src/workflow.c:482-501 | Exactly the done and failed rows created before the cut-off go, and the number of them is returned. |
| `CoroLock.NotifyKeeps` | src/python.c:1198-1209 | A wake-up makes a suspended coroutine runnable, or marks the request of one that serves a request, and only moves coroutines towards running. |
| `CoroLock.SuspendKeeps` | src/python.c:1211-1222 | A suspension moves exactly one coroutine between the lists, which is then not ready. |
| `CoroLock.ReleaseKeeps` | src/python.c:4339-4362 | Releasing wakes the first entering operation, if there is one, and keeps the invariant. |
| `CoroLock.LeaveIsRelease` | src/python.c:4306-4337 | Leaving the block frees the lock just as a release does, although its own operation is on the list meanwhile. |
| `CoroLock.EnterKeeps` | src/python.c:4273-4304 | Entering takes a free lock or queues behind an owner, and keeps the invariant. |
| `CoroLock.LeaveKeeps` | src/python.c:4385-4430 | Leaving keeps the invariant. |
| `CoroLock.DispatchKeeps` | src/python.c:1125-1196 | Resuming a woken waiter keeps the invariant, also when another coroutine took the lock first and it queues again. |
| `CoroLock.RunKeeps` | src/python.c:4244-4430 | Every run of spawns, dispatches, entries, exits, releases, yields, ends and wake-ups keeps the invariant. |
| `CoroLock.NoLostWakeupInAnyRun` | src/python.c:4244-4430 | In every run, whenever the lock is free and somebody waits, a waiter is ready to try; each coroutine is on exactly the list its state names. |
| `CoroLock.OwnerKept` | src/python.c:4256-4271 | Whoever has the lock loses it in a step only by its own release or exit. |
| `CoroLock.OwnerTaken` | src/python.c:4244-4254 | The lock gets an owner only while it is free, and then the coroutine that runs. |
| `CoroLock.OwnerFrees` | src/python.c:4256-4337 | Release and exit by the owner free the lock; by anybody else they change nothing, and so do a second entry and a failed try. |
| `CoroLock.FreeIsTaken` | src/python.c:4244-4304 | A running coroutine gets a free lock, by either call. |
| `CoroLock.OwnerUntilFreed` | src/python.c:4244-4430 | Mutual exclusion over runs: between having the lock and not having it a coroutine has freed it itself. |
| `CoroLock.ReleaseServesFirst` | src/python.c:4339-4362 | Freeing the lock takes the head of the waiting list off it and makes its coroutine ready. |
| `CoroLock.EnterWaitsLast` | src/python.c:4273-4304 | Whoever finds the lock taken waits behind all others, suspended. |
| `CoroLock.ResumedFirst` | src/python.c:4385-4430 | A woken waiter has the lock if it is still free, and otherwise waits again ahead of all others. |
| `CoroLock.KillExact` | src/python.c:496-528 | Killing a coroutine loses a wake-up if and only if the lock is free and it was the only woken one among several waiters. |
| `CoroLock.KillLosesWakeup` | src/python.c:496-528 | A run from the start leads to a state in which killing a coroutine loses a wake-up. |
| `CoroLock.Scheduler.CoroWakeup` | src/python.c:1198-1209 | The list moves are those of the wake-up step. |
| `CoroLock.Scheduler.CoroSuspend` | src/python.c:1211-1222 | The list moves are those of the suspend step. |
| `CoroLock.Scheduler.Free` | src/python.c:4339-4362 | The walk over the operations wakes the first entering one and no other. |
| `CoroLock.Scheduler.EnterNext` | src/python.c:4385-4430 | The iteration of an entering operation is the enter step. |
| `CoroLock.Scheduler.LeaveNext` | src/python.c:4385-4430 | The iteration of a leaving operation is the leave step. |
| `CoroLock.Scheduler.TryLock` | src/python.c:4244-4254 | The call succeeds exactly on a free lock, and is the try step. |
| `CoroLock.Scheduler.Release` | src/python.c:4256-4271 | The call succeeds exactly for the owner, and is the release step. |
| `CoroLock.Scheduler.Enter` | src/python.c:4273-4304 | Entering fails exactly for the owner, and is the enter step. |
| `CoroLock.Scheduler.Leave` | src/python.c:4306-4337 | Leaving succeeds exactly for the owner, and is the leave step. |
| `Pool.MixedTwice` | src/pool.c:155-157 | Unmixing a mixed canary gives the pool's canary back. |
| `Pool.LaidInside` | src/pool.c:214-271 | Every entry carved from a region, header to canary, lies inside it. |
| `Pool.LaidApart` | src/pool.c:214-271 | Entries carved from one region do not overlap. |
| `Pool.LaidChain` | src/pool.c:214-271 | The links of a freshly carved region visit all its entries once and end. |
| `Pool.GrowKeeps` | src/pool.c:214-271 | Growing an empty pool makes the new region its free list: acyclic, all entries free, nothing overlapping what is out. |
| `Pool.GetKeeps` | src/pool.c:129-166 | A block is always to be had; its entry was free or new, the free list stays acyclic and equal to all entries minus those out, and nothing else changes. |
| `Pool.GetNew` | src/pool.c:129-166 | New entries lie in the region mapped for them and all but the one handed out are free. |
| `Pool.PutExact` | src/pool.c:168-211 | A block is taken back if and only if it is one of the pool's, is out, and its canary is as it was written. |
| `Pool.PutKeeps` | src/pool.c:168-211 | Taking a block back puts its entry at the head of the free list and changes no other entry. |
| `Pool.PutThenGet` | src/pool.c:129-211 | The block put back last is handed out next, and then the pool is as it was. |
| `Pool.SealedKeeps` | src/pool.c:129-211 | As long as nobody writes over a canary every block that is out can be put back. |
| `Pool.Blocks.constructor` | src/pool.c:67-110 | A new pool has at least sixteen entries, room for the canary behind every block and a growth of at least four. |
| `Pool.Blocks.GrowBy` | src/pool.c:214-271 | The carving loop with its linking through the previous entry lays out the region. |
| `Pool.Blocks.Take` | src/pool.c:129-166 | Taking a block in place is the get operation and keeps the pool valid. |
| `Pool.Blocks.Return` | src/pool.c:168-211 | Returning a block in place is the put operation, refused exactly where the source gives up. |
| `Mem.ClassSpec` | src/mem.c:302-318 | Every length up to 8192 has a class among the eleven, the smallest whose blocks are large enough. |
| `Mem.MemIndex` | src/mem.c:302-318 | The doubling loop finds that class. |
| `Mem.LiveApart` | src/mem.c:277-299 | Two blocks that are held do not overlap, from their headers to behind their canaries, whichever pools or mappings they are of. |
| `Mem.LiveInside` | src/mem.c:277-299 | A held block has at least the length asked for, behind its headers and in front of its canary. |
| `Mem.MallocKeeps` | src/mem.c:277-299 | Allocation never fails, hands out a pointer nobody holds and touches no octet. |
| `Mem.FreeKeeps` | src/mem.c:166-191 | Any held block can be freed: it is then at the head of the free list of the pool it came from, or its mapping is gone, and no other pool has changed. |
| `Mem.ReallocKeeps` | src/mem.c:116-134 | Resizing keeps the pointer exactly if the length is unchanged; otherwise the common prefix is at the new pointer, the old block is wiped and every other block has its octets. |
| `Mem.StepKeeps` | src/mem.c:110-191 | No step callers may take is fatal, and each keeps the invariant. |
| `Mem.RunKeeps` | src/mem.c:110-191 | Over every run of allocations, frees, resizes and writes the invariant holds. |
| `Mem.RunSpares` | src/mem.c:110-191 | Over every run a block nobody frees, resizes or writes is still held, octet for octet. |
| `Mem.InitKeeps` | src/mem.c:59-86 | Eleven pools in regions that do not overlap start with nothing out and nothing overlapping. |
| `Mem.Zero` | src/mem.c:264-275 | The zeroing loop clears exactly the block. |
| `Mem.Allocator.constructor` | src/mem.c:59-86 | Initialisation establishes the invariant with nothing held. |
| `Mem.Allocator.Alloc` | src/mem.c:277-299 | Allocation in place is the allocation operation. |
| `Mem.Allocator.Release` | src/mem.c:166-191 | Freeing in place is the free operation, for NULL too. |
| `Mem.Allocator.Resize` | src/mem.c:116-134 | Resizing in place, by allocating, copying, clearing and freeing, is the resize operation; for NULL it allocates. |
| `Timers.InsertSorted` | src/timer.c:31-54 | Insertion keeps the list sorted by next run. |
| `Timers.DueSpec` | src/timer.c:77-110 | On a sorted list everything behind the leading due timers is in the future. |
| `Timers.TurnPartway` | src/timer.c:77-110 | One turn fires the next due timer and requeues or drops it; the test on the previous timer never skips a due one. |
| `Timers.RunPartway` | src/timer.c:77-110 | From anywhere inside a run, the turns that are left fire the due timers in order and then the one that repeats without an interval at most once more. |
| `Timers.WholeRun` | src/timer.c:77-110 | If at most one due timer is periodic with interval zero, a run ends: every due timer has fired once in order, that one once more exactly if a periodic timer ran behind it; the list is in order, and without such a timer all that is left is in the future. |
| `Timers.RequeuedMembers` | src/timer.c:90-108 | What is put back is exactly the periodic timers that ran, an interval from now. |
| `Timers.RunExact` | src/timer.c:77-110 | A run ends with every due timer fired once in order and nothing due left if and only if no due timer is periodic with interval zero. |
| `Timers.RunEnds` | src/timer.c:77-110 | A run ends if and only if at most one due timer is periodic with interval zero. |
| `Timers.SpinForever` | src/timer.c:77-110 | Two due timers that are periodic with interval zero take turns for ever: after no number of turns does the loop end. |
| `Timers.TimerList.Add` | src/timer.c:31-54 | Adding adds exactly one timer and keeps the list sorted. |
| `Timers.TimerList.Remove` | src/timer.c:56-61 | Removing takes exactly that timer off. |
| `Timers.TimerList.NextRun` | src/timer.c:63-75 | The wait reported is that to the earliest timer, zero if one is due, none exactly if there is none. |
| `Timers.TimerList.Fire` | src/timer.c:77-110 | One pass of the loop body is one turn. |
| `Timers.TimerList.Run` | src/timer.c:77-110 | Wherever the loop can end it ends, with the timers fired as the specification says; the list then has what was in the future and each periodic timer that was due, to run an interval from now. |
| `FileRef.GetKeeps` | src/fileref.c:110-148 | A lookup that succeeds is one more hold on the one current reference for the key, unchanged on disk and now at the front; one that fails leaves no reference for the key on the list. |
| `FileRef.CreateKeeps` | src/fileref.c:45-104 | Creating keeps the invariant on every path, the failing one included. |
| `FileRef.CreateGives` | src/fileref.c:45-104 | A create that succeeds gives one more hold on a current reference for that file, an old one that is up to date or a new one with the given time; it fails exactly if there is none and none can be made, and then gives no hold. |
| `FileRef.ReleaseFrees` | src/fileref.c:150-170 | A soft-removed reference is freed at its last release and at no other; a current one then expires in thirty seconds; no other reference changes. |
| `FileRef.IdleFor` | src/fileref.c:150-225 | After its last release a current reference survives a sweep exactly for thirty seconds. |
| `FileRef.TickKeeps` | src/fileref.c:198-224 | A sweep drops exactly the references nobody holds whose time is up. |
| `FileRef.RunKeeps` | src/fileref.c:45-244 | Over every run counts are holds, no held reference has been dropped, soft-removed ones are still held, there is one live reference per key, and the timer runs while the list is not empty. |
| `FileRef.HeldStays` | src/fileref.c:110-170 | A reference given back less often than it is held stays the same open file through any run, whatever its other holders, lookups and sweeps do. |
| `FileRef.FileRefs.GetRef` | src/fileref.c:110-148 | The lookup in place is the get step and keeps the invariant. |
| `FileRef.FileRefs.CreateRef` | src/fileref.c:45-104 | Creation in place is the create step and keeps the invariant. |
| `FileRef.FileRefs.ReleaseRef` | src/fileref.c:150-170 | Release in place is the release step and keeps the invariant. |
| `FileRef.FileRefs.ExpirationCheck` | src/fileref.c:198-224 | The walk that drops entries while it goes sees them all: it is the sweep step. |

## Left out

- TLS reads and writes, `NETBUF_MUST_RESEND`, sendfile and stream callbacks: only the plain in-memory socket path.
- HTTP header parsing: the body starts after the headers are recognised; that search depends on how the octets arrive.
- Bodies offloaded to disk, body chunk callbacks and the HTTP error responses around a body.
- Multipart.AddParts: takes what a header block asks for as given (`Headers`), because the splitting of header text is a chain of library string calls.
- Multipart.AddPart: records a field with all its octets; what `http_argument_add` keeps of it is Multipart.ArgumentAdd, where names have no zero octet.
- Multipart.Request.BodyRead: in-memory bodies only.
- WebSocket.FullFrame: does not ask for the final bit on data frames, because the code does not look at it; continuation frames are refused by the code and by the model.
- WebSocket.FrameReaction: does not model wrap-around of the 64-bit total, which cannot happen while the configured maximum is below 2^64 - 14.
- Msg.Parent.Forward: keeps a fixed set of workers, because the cache of connections is not pruned when a worker restarts.
- HashContext.Updated: the block buffer is a value of the context rather than a memory area shared with the caller.
- JSON doubles: a double is its text, so its binary value and how it is printed are not modelled, and whether `kore_strtodouble` takes a text is a parameter; `\u` escapes are refused by the code. Error codes are not modelled, only whether parsing fails.
- JSON searches (`kore_json_find`), detaching and freeing items: pointer bookkeeping.
- Json.PrintBack: asks for names that may stand between quotes as they are, because names are printed without escapes.
- Base64.Decode: C strings, so no zero character inside.
- Workflow.RunSafe: no crash of a worker between claim and finish, because the code never reclaims a row left running; failing database calls are not modelled.
- CoroLock.RunKeeps: no kills (see CoroLock.KillExact), one lock, and coroutines that do not end while owning it.
- Mem.MallocKeeps: the address space and the size type are unbounded, so running out of memory is not modelled.
- Pool.GetKeeps: memory pool guards off and one thread, so page protection and the lock of a pool are not modelled.
- Tagged memory, `kore_calloc`, `kore_strdup`: small wrappers around the allocator.
- Timers.TimerList.Run: does not model callbacks that change the list, nor wrap-around of the millisecond clock; it asks for a run that ends, because a method has to (see Timers.RunEnds).
- FileRef.CreateKeeps: mapping, closing and logging are left out.
- Configuration, routing, access log, domains, tasks, sandbox, agent and the Python bindings apart from the lock.
