# A verified model of CDTP

CDTP carries messages between a server and its clients over stream sockets: a
client connects, the two sides agree on a symmetric key, and from then on every
message travels as a length header followed by a sealed body. The server keeps
its clients in a hash table and serves them from one thread, while other threads
call its public interface.

This project models the library in four layers and proves what it promises. All
lengths follow a 64-bit platform, and the POSIX branches of the source.

**The client map** (`Sizing`, `Tables`, `ClientMaps`, `MapRuns`). `ClientMap` is
the open-addressing table on the heap, an array of distinct node objects probed
in place. Each method is proved to do to the nodes exactly what `Tables` says of
a sequence of slots, down to the slot chosen; `Tables` proves that the slots
behave as a finite map through every resize; `Sizing` proves when resizes happen,
how far apart they are and what they cost; `MapRuns` puts whole runs of calls
beside an ideal map.

**The wire** (`Wire`, `Crypto`, `CryptoDatas`, `Links`, `Mails`, `Handshakes`,
`Exchanges`). Headers, frames, padding, sealed messages, the envelope around a
key, the reading of a header and then a body, sends that take only part of a
message, and the key exchange. The ciphers are parameters with the laws in
`Crypto.Lawful`; `LawsHaveAModel` gives a cipher that obeys them. A `Link` is what
the kernel holds of one end of a connection, with a record of the bytes that came
in and the frames read from them.

**The server** (`ServerSpec`, `ServerBook`, `ServerEvents`, `ServerSafety`,
`ServerSteps`, `ServerTheorems`, `Effects`, `Passes`, `Endings`, `Descriptors`,
`Servers`, `ServerRuns`). `ServerSpec` is a state machine whose actions carry
all that is decided outside: what arrives, what each read and send reports, in
which order a listing names the clients, which close fails. A run is any
sequence of enabled actions, so every theorem about runs is about every
interleaving. `Server` is the program on the heap, on the real hash table; each
method is proved to take exactly the step of the state machine. `ServerRuns`
launches it and adds that it carries out every action the machine allows, within
the sizes asked for below, so that whatever it has done is a run and the
theorems hold of it. `Effects` says of every action what it does to the clients,
the records and the streams, and that it does nothing else; `Passes` says in
which order the serve thread reads. The source has no locks; the model takes as
one step each public call, an accept with its key exchange and insertion, the
taking of a listing, and each read together with what the serve loop does about
its result. So `remove_client` and `stop` may come between a listing and a
header read, and between a header and a body read. A descriptor that has been
closed reads as a bad descriptor, also when its close reported a failure; the
socket records of a listing stay readable. The machine gives every connection a
descriptor of its own; `NumbersNeverClash` proves that nothing changes when the
kernel gives closed ones out again.

**The client and the whole** (`ClientSpec`, `ClientEffects`, `Clients`,
`ClientRuns`, `Outboxes`, `Delivery`, `ServerWitness`, `ClientWitness`). The
client is a state machine and a program on the heap in the same way, and its
receive loop, `ClientRuns.Handle`, goes through the reads of a run with whatever
other threads do in between. `Outboxes` says what the server has written to each
client. The end-to-end statements are about one run of a client program joined
to one run of a server, up to `Conversation`: what is sent on one side is what
is received on the other. `ConversationHappens` gives runs that meet all they
ask, for every cipher that obeys the laws.

Where the source and its own promises part:

- A header read that returns fewer than five bytes is taken for a whole one, with
  the rest of the size buffer stale. `FrameIsReadExactly` proves that a frame is
  read exactly if and only if its header is read whole; `InStepIffWholeHeaders`,
  `Delivery.ReadsExactly` and `ClientSpec.ReadsExactly` prove the same of whole
  streams in every run: what was read is what was sent if and only if no header
  on that stream was cut short. `ShortHeaderCrashes` is a run in which one such
  read brings the server down over the message of a client that did nothing
  wrong.
- A send that takes only part of a message, as the kernel may on these
  non-blocking sockets, is taken for a whole one. `Outboxes.OutboxIffWhole` and
  `ClientSpec.OutboxIffWhole` prove for every run that what has been written is
  the frames of what was sent if and only if every send went out whole, and
  `MailIsReadIffWhole` and `SentIsReadIffWhole` that the peer has then read what
  was sent. `ShortSendCuts` is such a run. The end-to-end theorems ask for whole
  headers and whole sends on the one connection they speak of.
- One client ends service for every client: when its handshake is refused, or a
  body of its is cut short, the serve thread returns, and `OneClientEndsService`
  proves that no callback is ever started again. `ReturnsIff` lists exactly when
  the thread returns.
- The server takes a key of any length from a client. With one shorter than the
  cipher reads, the program reads outside the key on the first send or receive;
  the model stops there, in a state called crashed, and does not say what the
  program does next. `CrashesIff` lists exactly when that happens, with the
  handshakes and bodies that do not decrypt; `ShortKeyCrashes` is a run; and
  `HonestClientsDoNotCrash` proves that it never happens while every client is a
  proper peer and no header is cut short.
- A client whose key exchange has been refused stays connected, with its key never
  set. `SendFallsIffNotAgreed` proves that a send made while connected brings the
  client down if and only if no exchange has agreed; `RefusedThenFalls` is a run.
  `FallsIff` lists all that brings a client down.
- `stop` leaves a client in the map when its socket does not close, and the pass
  in progress may then close the descriptor again and report a disconnection
  after the stop. `EachClientLeavesOnce` counts this exactly, `StopClosesEveryone`
  says when the map ends up empty, and `FailedCloseClosesTwice` is such a run.
- A message of 2^40 bytes or more, or an empty frame, does not survive framing;
  `ReadAllFrames` proves that these are the only ones.

## Model

| member | source | states |
|---|---|---|
| Sizing.TracesAreReachable | src/map.c:35-48 | after any run of set and pop calls the capacity is 16 times a power of two, holds the size, and is at most 4 times the size or 16 |
| Sizing.ResizeTriggers | src/map.c:122-133 | in every reachable shape a call resizes if and only if the map is exactly full, or exactly a quarter full above 16 slots, and then leaves it exactly half full before the call's own change |
| Sizing.RoomAfterResize | src/map.c:122-133 | after try_resize there is a free slot, so the unbounded probe loops stop |
| Sizing.CallIsPaidFor | src/map.c:122-133 | one call raises allocation plus potential by at most 4 |
| Sizing.AmortisedAllocation | src/map.c:68-133 | over any n set and pop calls from an empty map, resizes allocate at most 4n nodes, and the potential left is still in hand |
| Sizing.AmortisedBoundIsTight | src/map.c:101-104 | 16*2^k + 1 inserts allocate exactly 4n - 36 nodes, so the 4 cannot be lowered |
| Sizing.ResizesAreSpaced | src/map.c:122-133 | between a resize to capacity C and any later resize lie at least C/4 set and pop calls, counting the first |
| Tables.ProbeStops | src/map.c:83-85 | from any start the cyclic probe reaches a free slot when one exists |
| Tables.ProbeIsUnique | src/map.c:177-179 | the slot a probe stops at is determined by the table and the hash |
| Tables.InsertAdds | src/map.c:175-185 | filling the probed slot adds exactly one pair, whatever the collisions |
| Tables.InsertFillsFirstFree | src/map.c:79-91 | a new client goes to the first free slot from its id on, cyclically, and to no other |
| Tables.FreeRemoves | src/map.c:198-205 | emptying a slot in place, without a tombstone, removes exactly its pair |
| Tables.ResizedKeepsContents | src/map.c:68-94 | a resize keeps every pair, loses none, and keeps ids distinct |
| Tables.CountIsSize | src/map.c:185 | the number of used slots is the number of clients |
| Tables.SetAgrees | src/map.c:167-188 | set refuses exactly the ids present and otherwise adds one pair; size and capacity follow the sizing rules |
| Tables.PopAgrees | src/map.c:190-214 | pop removes exactly the pair asked for; it resizes even when the id is absent |
| Tables.ListingLists | src/map.c:216-237 | the iterator names every client once, with its own socket |
| Tables.ListingInSlotOrder | src/map.c:225-234 | the iterator goes through the slots in order |
| ClientMaps.FindFree | src/map.c:81-85 | the `while (allocated)` probe terminates and finds the first free slot in cyclic order |
| ClientMaps.FillWithFreeNodes | src/map.c:43-45 | the new array holds distinct free nodes |
| ClientMaps.Reinsert | src/map.c:79-91 | the rehash loop leaves the new nodes as the slot-by-slot reinsertion of the old |
| ClientMaps.ClientMap.constructor | src/map.c:35-48 | a new map is empty, with 16 free nodes |
| ClientMaps.ClientMap.Resize | src/map.c:68-94 | the nodes become the rehashed table, and as many nodes as the new capacity are allocated |
| ClientMaps.ClientMap.TryResize | src/map.c:122-133 | doubles, halves or keeps the table as the sizing rules say, within size_t, and returns 1, -1 or 0 accordingly |
| ClientMaps.ClientMap.Find | src/map.c:137-146 | the do-while scan of the whole cycle finds a client if and only if the map holds it |
| ClientMaps.ClientMap.Contains | src/map.c:135-149 | true exactly for the ids in the map |
| ClientMaps.ClientMap.Get | src/map.c:151-165 | the stored socket, or none |
| ClientMaps.ClientMap.Set | src/map.c:167-188 | inserts exactly when the id is new, into the slot the probe finds after the resize, and counts the nodes allocated |
| ClientMaps.ClientMap.Pop | src/map.c:190-214 | returns the stored socket and empties its slot after the resize, and counts the nodes allocated |
| ClientMaps.ListClients | src/map.c:216-237 | the iterator's array has exactly room for the clients and lists them in slot order |
| MapRuns.Run | src/map.c:68-214 | every reply of every run of calls on the heap map is that of an ideal finite map; the nodes its resizes allocate are at most 4 per set or pop; its sizing is a run of the sizing rules |
| Wire.HeaderRoundTrip | src/util.c:97-119 | decoding an encoded length gives it modulo 2^40, and the length itself exactly below 2^40 |
| Wire.HeaderIsOnto | src/util.c:109-119 | every five bytes are the header of one length below 2^40 |
| Wire.HeaderKeepsOrder | src/util.c:97-107 | headers compare as their lengths do |
| Wire.EncodeMessageSize | src/util.c:97-107 | the shift loop writes the five big-endian digits |
| Wire.DecodeMessageSize | src/util.c:109-119 | the shift loop computes the value of five digits without overflow |
| Wire.ConstructMessage | src/util.c:121-137 | the message is the header of the data's length followed by the data |
| Wire.DeconstructMessage | src/util.c:139-150 | the data taken out is that whose frame begins the message |
| Wire.ReadAllFrames | src/client.c:208-257 | header-then-body reading of concatenated frames gives back the list if and only if every body is non-empty and below 2^40 bytes |
| Wire.FramesPrefix | src/util.c:121-137 | a stream of frames that begins another stream of frames is of a list that begins the other list |
| Wire.FramesAreInjective | src/util.c:121-137 | different lists never have the same stream |
| Crypto.LawsHaveAModel | src/crypto.c:451-511 | the laws asked of the ciphers can be met |
| Crypto.PadRoundTrip | src/crypto.c:33-75 | unpadding undoes padding, for every text |
| Crypto.PadsWith | src/crypto.c:33-75 | the padding is one zero byte, or a one and a 255 exactly when that would make whole blocks; unpadding goes by the first byte alone |
| Crypto.BufferFits | src/crypto.c:480-497 | the allocated length holds a ciphertext exactly when the text is no whole number of blocks |
| Crypto.PaddedTextFits | src/crypto.c:33-52 | a padded text is never a whole number of blocks, so its ciphertext fits |
| Crypto.AesRoundTrip | src/crypto.c:451-561 | opening a sealed message gives it back; a sealed message, even an empty one, has at least 32 bytes and can be framed |
| Crypto.OpensIff | src/crypto.c:513-561 | bytes open to a text if and only if the key is long enough, a nonce is there, and the rest decrypts to that text, padded |
| Crypto.EnvelopeRoundTrip | src/crypto.c:325-368 | the decrypting side's offsets find the three fields if and only if the wrapped key's length is a non-negative int |
| Crypto.RsaRoundTrip | src/crypto.c:270-414 | what is sealed with a public key opens with its private key |
| CryptoDatas.CryptoData.PadData | src/crypto.c:33-52 | the buffer becomes the padded text |
| CryptoDatas.CryptoData.UnpadData | src/crypto.c:59-75 | the buffer becomes the unpadded text |
| CryptoDatas.EncryptPadded | src/crypto.c:480-498 | update and final write the ciphertext at running offsets, within the allocated buffer |
| CryptoDatas.AesEncrypt | src/crypto.c:451-511 | the result is the nonce followed by the ciphertext of the padded text |
| CryptoDatas.AesDecrypt | src/crypto.c:513-561 | splits off the nonce, decrypts and unpads; none where the program would fail |
| CryptoDatas.JoinFour | src/crypto.c:325-330 | the four copies lay out length, wrapped key, nonce and ciphertext |
| CryptoDatas.RsaEncrypt | src/crypto.c:270-345 | the result is the envelope of the padded text |
| CryptoDatas.RsaDecrypt | src/crypto.c:347-414 | takes the envelope apart at the decoded offsets and opens it; none where the program would fail |
| Links.FrameIsReadExactly | src/server.c:405-412 | whatever was in the size buffer, a frame is read exactly and the stream left at the next if and only if the header is read whole |
| Links.BodyIsAccounted | src/client.c:232-257 | whole headers and then bodies, read whole or cut short, leave every byte accounted for in order |
| Links.InStepIffIntact | src/client.c:208-257 | between frames, what came in is the frames read and the bytes waiting if and only if every header was whole; one cut short makes the frames read claim more than was there |
| Links.ReadIsPrefixOfSent | src/client.c:208-257 | the frames read are how the list sent begins, and all of it once every byte is read |
| Mails.WholeMailIsFrames | src/server.c:879-888 | sends that all go out whole put the frames of the sealed data on the wire |
| Mails.FramesIffWhole | src/server.c:884-887 | the bytes on the wire are the frames of the sealed data if and only if every send went out whole |
| Mails.ReadIffWhole | src/client.c:608-611 | a peer that has read all of it, on whole headers, has read the sealed data if and only if every send went out whole |
| Handshakes.ReceiveTakesOneFrame | src/server.c:138-154 | the exchange takes exactly the handshake frame off the stream if and only if its header is read whole |
| Handshakes.KeysAgree | src/server.c:101-167 | when both halves succeed on whole headers, both sides hold the client's key and all queued bytes are still unread |
| Exchanges.ServerExchangeKeys | src/server.c:101-167 | sends the public key, reads one frame and opens it as the specification says, with a send that fails, a read that fails and a body that does not open |
| Exchanges.ClientExchangeKeys | src/client.c:47-110 | reads the public key and answers with the client's key in an envelope; refuses on a failed read or send, and faults on a key that does not parse |
| ServerSteps.StepIsSafe | src/server.c:174-448 | every step, of the serve loop or of another thread, keeps the invariant |
| ServerSteps.RunsAreSafe | src/server.c:174-448 | every state of every run satisfies the invariant |
| ServerTheorems.EachClientLeavesOnce | src/server.c:20-34 | in every run each client leaves the map at most once; its socket is closed and its key freed exactly as often as stated; a disconnect is reported if and only if the serve loop took it out |
| ServerTheorems.HistoriesAreWellShaped | src/server.c:278-306 | in every run each id has one connect, then receives, then at most one disconnect; the k-th connect carries id k |
| ServerTheorems.InsertNeverRefuses | src/server.c:304 | every id in the map is below the next id, and the insert whose result is ignored adds exactly the new client |
| ServerTheorems.DispatchFindsClient | src/server.c:44-48 | when a body is delivered its client is still in the map, with the key of the listing |
| ServerTheorems.StopClosesEveryone | src/server.c:584-642 | stop empties the map if and only if every socket closes; then every client has been closed once and freed once, and no callback was started |
| ServerTheorems.StopIsFinal | src/server.c:592-644 | after such a stop no run ever starts another callback |
| ServerTheorems.StopTakesOutInOrder | src/server.c:634-642 | stop takes the clients of its listing out in order, each closed and freed, up to the first socket that does not close, and leaves those after it alone |
| Passes.PassReadsEveryone | src/server.c:310-442 | in every run, from a listing to the next accept exactly one header is read from each client of the listing, in its order |
| Passes.ListingBetweenAccepts | src/server.c:202-314 | in every run, between two accepts there is a listing, also when there was no connection |
| Passes.OnePassBetweenAccepts | src/server.c:202-442 | in every run, the headers read between one accept and the next are one from each client then in the map |
| Effects.ReadDisconnectsIff | src/server.c:380-431 | a read makes its client leave, closed, freed and reported, if and only if it reports that the connection is gone and the client is still in the map; otherwise the books stand |
| Effects.ReadDeliversIff | src/server.c:437-439 | a text is reported if and only if a body, read whole, opens to it under the key of the client it came from |
| Effects.ReadConsumes | src/server.c:380-412 | a read takes exactly the bytes delivered off its own stream; a header read leaves them in the size buffer, over what was there |
| Effects.RemoveTakesOut | src/server.c:833-863 | for a client of a serving server: out of the map, closed, freed if and only if the close succeeded, nobody told, the pass undisturbed; otherwise nothing |
| Effects.StopOnlyStops | src/server.c:584-593 | does nothing unless the server serves; streams, callbacks and the pass stand |
| Effects.StartsIff | src/server.c:526-582 | a server starts if and only if it does not serve, has not been stopped, and can bind and listen |
| Effects.AcceptEnrolsIff | src/server.c:101-167 | an accepted connection becomes a client, under the next id and its own key, if and only if the greeting went out, a handshake came in whole and it opens; otherwise nothing but the id is used |
| Effects.NoClientMovesOn | src/server.c:227-262 | an accept without a client only moves the serve thread; a broken one uses up an id |
| Effects.SnapshotOnlyLists | src/server.c:310-314 | a listing only moves the serve thread to its first client, or back to the accept if there is none |
| Effects.SendOnlyWrites | src/server.c:865-908 | a send or broadcast changes nothing but what is written to clients |
| ServerWitness.FirstClient | src/server.c:278-306 | there are runs in which a client connects |
| ServerWitness.FailedCloseClosesTwice | src/server.c:634-637 | a run in which a failed close in stop leads to a second close and a late disconnect |
| ServerWitness.MessageIsReceived | src/server.c:278-439 | for every cipher, key pair and message there is a run that ends with the message received |
| ServerWitness.RemovedInThePass | src/server.c:833-863 | a run in which a client is removed between the listing and its read: closed once, freed once, not reported |
| ServerWitness.WholeLife | src/server.c:382-387 | for every cipher, key pair and message a run in which a client connects, is heard, hangs up and is reported gone |
| ServerWitness.ShortHeaderCrashes | src/server.c:405-439 | for every cipher, key pair and message of a proper peer there is a run in which one header read of one byte ends in a crash, with nothing received |
| ServerWitness.ShortSendCuts | src/server.c:884-887 | for every cipher, key pair, message and n short of its length there is a run in which a send takes n bytes and what is written falls short of the frames |
| ServerWitness.ShortKeyCrashes | src/server.c:158-159 | for every key too short for the cipher there is a run in which it is accepted and the first send stops the model |
| Delivery.EndToEnd | src/server.c:310-440 | in every run, with any interleaving, the texts received from a proper peer are how its messages begin, and all of them once its stream is read |
| Delivery.SentIsReceived | src/client.c:597-615 | for any run of a client program joined to a run of the server, on whole sends and headers: both hold the client's key, and the texts received are how the data of the sends made while connected begin, and all of them once read |
| Delivery.SentIsReadIffWhole | src/client.c:608-611 | when the server has read all of a client's output, it has read the sealed data of the client's sends if and only if each went out whole |
| Delivery.IntactIffWholeHeaders | src/server.c:380-406 | in every run, a stream is intact if and only if every header read on it was whole |
| Delivery.InStepIffWholeHeaders | src/server.c:405-412 | in every run and for every client, between frames the bytes that came in are the frames read and those waiting if and only if every header was read whole |
| Delivery.ReadsExactly | src/server.c:380-439 | in every run, once a peer's whole stream has been read, the frames read are the frames sent if and only if every header was read whole |
| Outboxes.OutboxHoldsMail | src/server.c:865-908 | in every run, what has been written to a client is the server's public key and then, in order, what the kernel took of each send or broadcast that reached it |
| Outboxes.OutboxIffWhole | src/server.c:884-887 | in every run, what has been written to a client is the greeting and the frames of its mail if and only if every send that reached it went out whole |
| Delivery.MailIsHeard | src/client.c:208-257 | the texts a client program receives in a run are how the data of the sends and broadcasts that reached it in a server run begin, and all of them once it has read its mail |
| Delivery.MailIsReadIffWhole | src/server.c:884-887 | when the client has read all that was written to it, it has read the sealed data of its mail if and only if each send went out whole |
| Delivery.Conversation | src/client.c:322-615 | one run of a client program and one of the server, joined, on whole headers and sends: each side has received, in order, how what the other sent begins, and all of it once read |
| Delivery.ProperBodyOpens | src/server.c:437-439 | a body read whole from a proper peer decrypts to the message next in turn |
| Delivery.BroadcastReachesEveryone | src/server.c:893-908 | when every send goes out whole, the server falls if and only if some client's key is too short for the cipher; otherwise each client in the map gets exactly one frame that it decrypts to the data; nobody else gets anything |
| Endings.CrashesIff | src/server.c:44-62 | a step crashes the server if and only if a served handshake or a whole body does not decrypt, or a served send or broadcast meets a key too short for the cipher |
| Endings.ShortKeyHearsNothing | src/server.c:44-49 | in every run nothing is received from a client whose key is too short for the cipher |
| Endings.ReturnsIff | src/server.c:202-442 | a step makes the serve thread return if and only if the server has stopped, an accept goes wrong, a handshake is refused, or a read fails or is short |
| Endings.ServiceIsOver | src/server.c:174-448 | in every run, after the serve thread has returned no callback is started and no client connects ever again |
| Endings.OneClientEndsService | src/server.c:293-295 | one client's refused handshake or short body ends service for every client, in every run |
| Endings.HonestClientsDoNotCrash | src/server.c:174-448 | in every run in which all accepted clients are proper peers, on whole headers, the server never crashes |
| Descriptors.NumbersNeverClash | src/server.c:206-209 | in every run, whatever free descriptors the kernel gives out, that of a connection the server may still use never names another open one |
| Servers.Server.constructor | src/server.c:469-481 | a new server is in the initial state |
| Servers.Server.Start | src/server.c:526-582 | starts serving unless the server is serving, has been stopped, or cannot bind or listen |
| Servers.Server.RemoveClient | src/server.c:833-863 | takes the step of the state machine, on the real table |
| Servers.Server.Stop | src/server.c:584-642 | takes the step of the state machine, over a listing of the table that its own pops rehash |
| Servers.Server.StopClient | src/server.c:634-641 | each pop of the loop finds the very client whose socket was just closed |
| Servers.Server.Send | src/server.c:865-891 | puts the part that the kernel takes of the sealed, framed data on the client's stream, and nothing on any other; falls over a key that is too short |
| Servers.Server.SendAll | src/server.c:893-908 | sends to the clients of a listing one after the other |
| Servers.Server.Accept | src/server.c:202-307 | the accept of one pass, its failures, the exchange and the insertion |
| Servers.Server.TakeSnapshot | src/server.c:310-314 | the listing names every client of the map once |
| Servers.Server.DropClient | src/server.c:383-386 | a client still in the map is taken out, closed, freed and reported; otherwise nothing happens |
| Servers.Server.ReadHeader | src/server.c:380-412 | what the serve loop does for each result of a header read |
| Servers.Server.ReadBody | src/server.c:412-439 | what the serve loop does for each result of a body read |
| ServerRuns.Launch | src/server.c:469-481 | the program starts with an empty run |
| ServerRuns.Perform | src/server.c:174-448 | the program on the heap carries out any enabled action, over the listing of its own table, and ends in exactly the state the machine says |
| ServerRuns.PerformAndRecord | src/server.c:174-448 | whatever actions the program has carried out make a run from the initial state, so every theorem about runs holds of it |
| ClientSpec.RunsAreSafe | src/client.c:117-262 | in every run of a client the texts are those of the frames read; the socket is closed at most once and the farewell said at most once; the key is the one drawn for the exchange |
| ClientSpec.IntactIffWholeHeaders | src/client.c:208-229 | in every run the stream is intact if and only if every header was read whole |
| ClientSpec.ReadsExactly | src/client.c:208-257 | in every run, once a whole stream has been read, the frames read are the frames sent if and only if every header was read whole |
| ClientSpec.ServerIsHeard | src/client.c:208-257 | the texts the client receives are how the messages in an intact stream of sealed frames begin, and all of them once the stream is read |
| ClientSpec.OutboxHoldsMail | src/client.c:597-615 | in every run, what the client has written is its answer to the greeting and then what the kernel took of each send made while connected |
| ClientSpec.OutboxIffWhole | src/client.c:608-611 | that is the answer and the sealed data in frames if and only if every send made while connected went out whole |
| ClientSpec.AnswersServer | src/client.c:47-110 | in every run, if what has come in is how a server's output begins and the greeting's header was whole, the answer is sealed for that server |
| ClientSpec.FallsIff | src/client.c:86-102 | a step brings the client down if and only if the greeting does not parse as a key, a whole body does not decrypt, or a send finds no key |
| ClientSpec.SendFallsIffNotAgreed | src/client.c:600-606 | in every run, a send made while connected brings the client down if and only if no exchange has agreed |
| ClientEffects.ConnectAgreesIff | src/client.c:322-392 | a first connect that reaches the server gives a key and a running loop if and only if the greeting came in whole and parses and the answer went out; it falls if and only if it does not parse; else the client stays connected without either |
| ClientEffects.KeyIsFromConnect | src/client.c:47-110 | in every run a client has a key if and only if a connect went through, answer sent and all, and it is the one drawn there |
| ClientEffects.LoopEndsIff | src/client.c:208-260 | exactly when the receive loop returns, waits for a body, and goes on |
| ClientEffects.IdlePollIsNothing | src/client.c:224-226 | a poll of an idle socket changes nothing |
| ClientEffects.ReceivesIff | src/client.c:255-257 | a text is received if and only if a body, read whole, opens to it |
| ClientEffects.ClosesIff | src/client.c:216-247 | a farewell is said if and only if a read finds the server gone; the socket is closed if and only if that happens or the user disconnects while connected |
| ClientEffects.ReadConsumes | src/client.c:208-239 | a read takes exactly the bytes delivered; a header read leaves them in the size buffer, over what was there |
| ClientEffects.SendOnlyWrites | src/client.c:597-615 | a send changes nothing but what is written, and falls if and only if connected without a key |
| Clients.Client.constructor | src/client.c:274-320 | a new client has done nothing |
| Clients.Client.Connect | src/client.c:322-392 | a client connects once in its life, if it reaches the server; a refused exchange leaves it connected without a key or a receive loop, a faulted one brings it down |
| Clients.Client.Disconnect | src/client.c:394-448 | closes the socket of a connected client, once |
| Clients.Client.Send | src/client.c:597-615 | appends the part that the kernel takes of one sealed frame to the output; falls over a key that was never set |
| Clients.Client.ReadHeader | src/client.c:208-229 | what the receive loop does for each result of a header read, and for a disconnection before it returns |
| Clients.Client.ReadBody | src/client.c:239-257 | what the receive loop does for each result of a body read |
| ClientRuns.Launch | src/client.c:274-320 | the program starts with an empty run |
| ClientRuns.Perform | src/client.c:117-262 | the program on the heap carries out any enabled action and ends in exactly the state the machine says |
| ClientRuns.PerformAndRecord | src/client.c:117-262 | whatever actions the program has carried out make a run, so every theorem about runs holds of it |
| ClientRuns.Handle | src/client.c:208-261 | the receive loop, with any actions of others before each read, extends the run by the script of its turns until it returns |
| ClientWitness.RefusedThenFalls | src/client.c:387-389 | for every cipher there is a run in which a refused exchange leaves the client connected and its send brings it down |
| ClientWitness.ConversationHappens | src/client.c:322-615 | for every cipher, key pair and message there are runs of a client and a server that meet all that Conversation asks, and in which the message arrives |
| ClientWitness.TwoMessagesAreHeard | src/client.c:208-260 | for every cipher, key pair and two messages there is a run of a client that receives both, with an idle poll in between |

## Left out

- PadData: copies exactly the payload, as the sizes at src/crypto.c:42 and src/crypto.c:47 say; the copy counts at src/crypto.c:41 and src/crypto.c:46 are larger than that.
- Stop: closing the listening socket and joining the serve thread (src/server.c:646-666) are not modelled.
- Send: asks for a text whose sealed length is an int, as the cipher calls do of their caller.
- Disconnect: joining or detaching the receive thread (src/client.c:433-447) is not modelled.
- Connect: the one-off setting of the socket's mode in the receive thread (src/client.c:200-203) is taken to succeed.
- Run: asks for fewer calls than would make the table's size in bytes exceed size_t.
- Perform: asks for the sizes that `Send`, `Run` and `Accept` ask for.
- Accept: asks that the next client id does not wrap around size_t.
- The insides of AES, RSA, PEM and random generation: parameters with the laws stated in `Crypto.Lawful` and `Crypto.Paired`.
- Socket creation, bind, listen, connect, fcntl and address conversion: their failures appear only as a start that is not ready, the failed and the broken accept, and a connect that does not reach the server.
- Callback threads: a callback is an event in the history at the point where its thread is started, all three callbacks are taken to be registered, and the order in which the threads then proceed is not modelled.
- The serve loop's `while`: the loop may go on for ever, so it is the state machine's phase, one method a step, rather than one method; `PerformAndRecord` joins the steps into runs.
- Error codes and `cdtp_on_error`, host and port getters, sleeping, and all Windows branches.
- malloc failure, leaks and the freeing of nodes and records; only closed sockets and freed client keys are counted.
- Data races finer than the steps listed above.
- What the program does after it has followed a null pointer or read outside a buffer: over bytes that do not decrypt or parse, or a key too short or never set, the model stops in a state of its own.
