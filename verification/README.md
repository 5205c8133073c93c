# Verified model of the messenger

The repository is a client/server messenger in C++: length-prefixed packets over TCP, a schema-driven
message codec, and a single-threaded server over four database tables (accounts, login tokens, friendships,
direct messages) and a registry of online sessions. This project models those parts in Dafny and proves
what they promise together.

| file | what it models |
|---|---|
| `Wire.dfy`, `Codec.dfy`, `Serializer.dfy` | big-endian integers, the codec as functions over schemas and values, and the growing buffer and offset-passing reader proved equal to them |
| `Network.dfy`, `NetworkSession.dfy` | frames, the FIFO of posted sends, the write queue and the header/body reader: first as an event system, then as the class that refines it |
| `Channel.dfy` | one direction of a connection, from send_packet on one side to handle_packet on the other, and the exact limit up to which it is a FIFO channel |
| `Protocol.dfy` | packet types, error codes, the fields of every request and response |
| `Users.dfy`, `Friends.dfy`, `Mail.dfy`, `Sorting.dfy`, `Registry.dfy` | each repository and the session registry: the meaning of each SQL statement, the laws of the table, and the class whose methods change it |
| `Server.dfy` | the server as a state machine: one step for each handled packet, connection, disconnection, cleaner tick, restart, and crash on a packet whose handling throws |
| `ServerSafety.dfy`, `ServerOutput.dfy`, `ServerAnswers.dfy` | the invariant, what each packet makes the server send and when it throws, and what each answer tells the client |
| `ServerRuns.dfy`, `ServerRegistry.dfy`, `ServerCopies.dfy`, `ServerCleaning.dfy` | results about whole runs: consent, friends-only mail and delivery; the registry; who got which copy; the token cleaner |
| `ServerExamples.dfy` | runs from the empty server that reach what the main results exclude or only allow |
| `ClientSession.dfy`, `Client.dfy` | the two `handle_packet` objects, method by method, proved equal to the state machines |
| `Correlation.dfy`, `Progress.dfy` | clients and server together, under any interleaving: the pending-request queue and what each packet means to the client, and that nothing posted is stuck |

The layers meet in three places. `ClientSession.HandlePacket` takes the server from a state to exactly the state
`Server.HandlePacket` defines, or throws in exactly the state it defines, so every law about runs is about the class.
`NetworkSession` refines the event system of `Network`, and `Correlation` puts that system, byte by byte, between
each client and the server in both directions. And `Correlation.EveryPacketUnderstood` joins the codec, the handlers,
the channels and the pending-request queue end to end.

## Reading the model

* A run of the server is a list of events (`Connect`, `Receive`, `Disconnect`, `CleanTokens`, `Restart`, `Crash`).
  `Receive` has no successor state when handling the packet throws: the exception ends the process. `Crash` is
  that end followed by a restart on the database as the throwing handler left it.
* A text column is read through `getText()`, a C string, so logins and messages come back from the database only as
  far as their first zero byte (`Wire.CString`), while they are bound and compared whole.
* The clock, generated salts and tokens, the outcome of file operations and SHA-256 are parameters. Salts and digests
  have no zero byte, being UUIDs and hexadecimal; nothing else is assumed of them. The clock may take any value at
  each packet; only the token cleaner's transparency needs it not to run backwards, and says so.
* Every packet the server posts goes into one log with a note of why it was sent. Only its type and body travel.
* `friendships` has no UNIQUE constraint. Uniqueness of a pair is an invariant of the operations, and the
  UPDATE and DELETE that do not filter on status are right because of it.

## Where the code and its description differ

The model follows the code.

* The repository's README.md (stage 4) says a message is stored with `delivered=0` when its recipient is offline.
  `handle_direct_message` always stores 0 and never marks a message it also sent live
  (`include/client_session.hpp:419-427`). A message is therefore queued at most twice, and at least once as soon as its
  recipient authenticates again: `ServerCopies.LiveExactly` and `ServerRuns.DeliveryAccounting` count both kinds of
  copy exactly, and `ServerExamples.DeliveredTwice` is a run in which a message is delivered twice.
* The database section of that README.md has no `message` column in `direct_messages`; the code has one
  (`include/database.hpp:61-71`).
* A live copy carries the row id where a replayed copy carries the time, because `saveMessage` returns the row id
  (`include/repositories/message_repository.hpp:48`). `Server.WireValues` keeps the difference.
* `getHistory` keeps the oldest `limit` messages of a conversation, not the latest
  (`include/repositories/message_repository.hpp:134`); `Mail.HistoryIsOldest` states it.
* `handle_message_history` throws for a peer that does not exist, where the other handlers answer with an error
  (`include/client_session.hpp:375-377`). `ServerOutput.ThrowsExactly` gives the complete list of causes.
* A login with a zero byte can be registered, but a token resolves to what stands before that byte
  (`include/repositories/user_repository.hpp:137`): to nobody, and then four handlers throw, or to another user.
  `Users.TokenNamesOwnerExactly` gives the exact condition, `ServerExamples.CutLoginThrows` and
  `ServerExamples.CutLoginNamesAnother` the runs, and `ServerRuns.FriendshipByOwnersConsent` what holds without such logins.
* A body of 2^32 bytes or more is announced with its length cut to 32 bits (`include/network_session.hpp:101`), and
  nothing limits the body of a history answer. `Channels.NextExactly` and `Correlation.NextPacketExactly` show
  that this is exactly where a direction of a connection stops being a FIFO channel.
* A disconnecting session erases the registry entry of its login whichever session it names
  (`include/client_session.hpp:620-622`), and logout does not unregister (513-519).
  `ServerRegistry.AuthenticationKeepsAgreementExactly` and `ServerRegistry.CarryLostExactly` give the exact conditions
  under which the registry stays right in each direction, `ServerExamples.SecondSessionUnregistered` and
  `ServerRegistry.LoggedOutStillReached` what happens otherwise.

## Model

| member | source | states |
|---|---|---|
| Wire.GetPutU32 | include/messages.hpp:68-83 | reading four bytes written for n gives n modulo 2^32, wherever in the body they stand |
| Wire.PutGetU32 | include/messages.hpp:68-83 | writing a value read from any four bytes gives those bytes back |
| Wire.GetPutI64 | include/messages.hpp:85-101 | every signed 64-bit value, negative ones included, comes back from its eight bytes |
| Wire.PutGetI64 | include/messages.hpp:85-101 | every string of eight bytes is the encoding of the value it decodes to, so the two loops are inverse both ways |
| Wire.BigEndian | include/messages.hpp:85-89 | the bytes of a number stand most significant first: byte i of k has the weight 256^(k-1-i) |
| Wire.CStringExactly | include/repositories/user_repository.hpp:135-137 | a text comes back from the database unchanged if and only if it has no zero byte |
| Serializer.Buffer.PackI64 | include/messages.hpp:85-89 | the shifting loop appends exactly the eight big-endian digits of the two's complement value and leaves the earlier bytes alone |
| Serializer.Cursor.UnpackI64 | include/messages.hpp:91-101 | the shift-and-or loop computes the signed number of the eight bytes at the offset, and throws exactly when fewer remain |
| Serializer.Buffer.Pack | include/messages.hpp:12-19 | a chunk is appended: its length cut to 32 bits, then its bytes |
| Serializer.Buffer.PackU32 | include/messages.hpp:68-72 | the four big-endian bytes of the value are appended |
| Serializer.Cursor.Unpack | include/messages.hpp:21-62 | the chunk at the offset, or an exception exactly when its length or its bytes are cut off |
| Serializer.Cursor.UnpackU32 | include/messages.hpp:74-83 | the number at the offset, or an exception exactly when fewer than four bytes remain |
| Serializer.Buffer.Serialize | include/messages.hpp:107-129 | the in-place serializer appends the encoding of any value, nested records and vectors included |
| Serializer.Buffer.SerializeTuple | include/messages.hpp:190-213 | serializing the fields of a message appends the encodings one after another |
| Serializer.Cursor.Deserialize | include/messages.hpp:131-186 | the offset-passing reader returns what the decoder defines for the bytes at its offset, moves exactly that far, and throws exactly when the decoder runs out of bytes |
| Serializer.Cursor.DeserializeTuple | include/messages.hpp:197-222 | the fields of a message are read in order, each from where the one before ended |
| Serializer.Cursor.DeserializeItems | include/messages.hpp:180-184 | the vector loop reads exactly the counted number of elements |
| Serializer.ShiftIn | include/messages.hpp:95-98 | one turn of the signed shift-and-or loop never overflows and extends the number by the next byte |
| Codec.RoundTrip | include/messages.hpp:107-222 | for every schema and every value whose lengths fit 32 bits, decoding after any prefix and before any suffix returns the value and consumes exactly its encoding |
| Codec.RoundTripAt | include/messages.hpp:107-202 | the same wherever in a body the encoding stands, by recursion through vectors of nested records |
| Codec.RoundTripItems | include/messages.hpp:162-184 | a vector's elements come back one after another |
| Codec.RoundTripExactly | include/messages.hpp:12-62 | a value decodes back to itself if and only if every length in it is below 2^32 |
| Codec.MessageRoundTrip | include/messages.hpp:205-222 | deserialize inverts serialize on every message |
| Codec.ShortAllFit | include/messages.hpp:12-19 | fields encoded in fewer than 2^32 bytes have no length or count that is cut |
| Codec.Layout | include/messages.hpp:12-186 | how each kind of value stands in the body, told by reading it: the length that counts the rest, the number of items, the text of a boolean, the data behind them |
| Codec.DecodesExactly | include/messages.hpp:21-202 | for plain schemas a body decodes at an offset if and only if the encoding of some value stands there, and then to that value |
| Codec.ShortBodies | include/messages.hpp:21-83 | a body that ends within a length or number is out of bounds, except that a vector's count is read unchecked |
| Codec.LooselyRead | include/messages.hpp:138-149 | what follows the last field of a message or nested record is ignored, and a boolean is true for exactly one text |
| Codec.PrefixFree | include/messages.hpp:107-202 | encodings of one schema are prefix-free and injective |
| Codec.DecodeBounds | include/messages.hpp:21-62 | a successful decode moves the offset forward, never past the end, and yields a value of the schema |
| Codec.DecodeItemsBounds | include/messages.hpp:171-185 | a decoded vector has exactly the counted elements, all of the element schema |
| Codec.DecodePrefix | include/messages.hpp:131-186 | bytes after the end of a value never change what it decodes to |
| Codec.Reencode | include/messages.hpp:107-186 | for schemas without nested records and booleans, encoding what was decoded gives exactly the consumed bytes |
| Codec.ReencodeMessage | include/messages.hpp:190-202 | the same for all the fields of a message |
| Protocol.ResponseNotEmpty | include/client_session.hpp:612-615 | the encoding of every response has at least four bytes, so the not-empty check never suppresses an answer |
| Protocol.RequestRoundTrip | include/messages.hpp:224-403 | every request a client serializes is read back by the handler of its type with the same fields |
| Protocol.RequestOnTheWire | include/messages.hpp:224-403 | a request body is its one, two or three fields, by type, each behind its length, and reads back as them |
| Protocol.PacketTypesCount | include/protocol.hpp:12-35 | the packet types count from 1 in the order of their declaration, and casting a number back gives its type |
| Protocol.ErrorsCount | include/codes.hpp:53-88 | an error code is its category in the upper bits and a number counted from 1 within it |
| Network.LinkStep | include/network_session.hpp:66-118 | every post, completion, failure and partial write keeps: one write outstanding exactly when the queue is non-empty and nothing failed; and keeps the frames in post order |
| Network.LinkRun | include/network_session.hpp:66-118 | in every run sent, queued and waiting frames are the posted ones in post order, and the bytes on the wire are a prefix of their concatenation |
| Network.NothingAfterFailure | include/network_session.hpp:77-79 | after a write error no byte is written and no write starts, whatever is posted later |
| Network.Drains | include/network_session.hpp:66-82 | from any reachable queue without an error the remaining steps put everything posted on the wire: no deadlock |
| Network.ParseSplit | include/network_session.hpp:23-64 | reading a stream in two parts is reading it whole |
| Network.FeedIsParse | include/network_session.hpp:23-64 | the packets handed over do not depend on how the bytes were cut into chunks |
| Network.ParseStream | include/network_session.hpp:36-64 | the reader takes the frames of any packets with bodies below 2^32 bytes back off the wire as exactly those packets |
| Network.FrameComesBackExactly | include/network_session.hpp:96-107 | a frame is read back as its packet if and only if the body is shorter than 2^32 bytes |
| Network.WholeInIsLargest | include/network_session.hpp:36-64 | the number of packets counted as complete in a cut stream is the largest whose frames are all there |
| Network.CutStream | include/network_session.hpp:23-64 | a stream cut at any byte yields exactly its complete packets |
| Network.FifoChannel | include/network_session.hpp:23-118 | writer and reader together are a FIFO channel: whatever interleaving, failure and chunking, the peer is handed a prefix of the packets posted, and all of them once everything arrived |
| Channels.SendKeeps | include/network_session.hpp:96-118 | posting packets keeps a direction of the connection consistent: its link carries exactly the frames of the packets posted, in order |
| Channels.NextExactly | include/network_session.hpp:23-107 | while everything handed over was short enough, the next packet the reader hands over is the next one posted if and only if its body is shorter than 2^32 bytes |
| Channels.HandOnKeeps | include/network_session.hpp:54-64 | handing over a packet keeps the direction consistent; it is still in step only if that packet was the one posted |
| Channels.AllArrive | include/network_session.hpp:23-118 | once the writer has drained and the bytes have arrived, a packet is there to hand over exactly as long as not all have been |
| Sessions.NetworkSession.SendPacket | include/network_session.hpp:96-117 | send_packet posts the whole frame and touches neither the queue nor the reader |
| Sessions.NetworkSession.RunPostedLambda | include/network_session.hpp:109-117 | the posted lambda is the queueing step: a write starts only if none was in progress |
| Sessions.NetworkSession.Progress | include/network_session.hpp:69-69 | the socket takes the next bytes of the front buffer and of no other |
| Sessions.NetworkSession.OnWritten | include/network_session.hpp:70-80 | the completion handler is the completion or the failure step: the next write starts, or none ever again |
| Sessions.NetworkSession.ReadHeaderByte | include/network_session.hpp:23-34 | a header byte arrives and the reader still holds back exactly the unread bytes |
| Sessions.NetworkSession.HandOver | include/network_session.hpp:54-64 | a full body is handed over as the first packet of the stream and the reader is back at a header |
| Sessions.NetworkSession.OnReceive | include/network_session.hpp:23-64 | for any chunk, the packets handed over and the bytes held back are those of the whole stream so far |
| Users.LookupsInverseExactly | include/repositories/user_repository.hpp:151-173 | the login found for an id is the user's as far as its first zero byte, and leads back to that user if and only if it has none |
| Users.LookupIsTotal | include/repositories/user_repository.hpp:110-140 | a token check succeeds exactly for a token at most a week old and answers its owner's login as far as its first zero byte; otherwise it tells unknown from expired; the not-found branch is never taken |
| Users.TokenNamesOwnerExactly | include/repositories/user_repository.hpp:133-137 | the login a token resolves to is its owner's if and only if that login has no zero byte |
| Users.RegisterIs | include/repositories/user_repository.hpp:61-80 | registering is refused exactly if some user has the login; otherwise it adds one user with the next id, the salt and the digest of password and salt |
| Users.VerifyIs | include/repositories/user_repository.hpp:36-108 | a sign-in is denied exactly if no user has both the login and the digest of this password with its salt; otherwise that user's token is stored with the time, unless the generated one exists already |
| Users.PasswordDecides | include/repositories/user_repository.hpp:36-85 | after a registration a password is refused if and only if its digest with the salt differs from the registered one's |
| Users.CleanedExactly | include/repositories/user_repository.hpp:183-193 | cleaning keeps exactly the tokens that are at most a week old, each as it was |
| Users.RegisterKeepsInv | include/repositories/user_repository.hpp:61-80 | registering keeps ids and logins unique and every token owned by an existing user |
| Users.VerifyKeepsInv | include/repositories/user_repository.hpp:82-108 | issuing a token keeps it too, so the unset id of a missing user is never inserted |
| Users.RegisteredUserVerifies | include/repositories/user_repository.hpp:61-140 | a just registered user always passes the password check and gets a token, unless the generated one exists already, that resolves to that login as far as its first zero byte until it expires |
| Users.RevokedOnly | include/repositories/user_repository.hpp:175-181 | logout ends that token and no other |
| Users.CleanedNeverExpired | include/repositories/user_repository.hpp:183-193 | cleaning removes every expired token and no working one |
| Users.CleanerStep | include/repositories/user_repository.hpp:110-193 | two databases that differ by cleaned tokens answer every operation alike and still differ only by cleaned tokens |
| Users.CleaningIsInvisible | include/repositories/user_repository.hpp:110-193 | with a clock that does not run backwards, cleaner runs inserted anywhere in a history change no answer except expired into non-authorized |
| Users.UserRepository.RegisterNew | include/repositories/user_repository.hpp:61-80 | an existing login is refused and nothing changes; otherwise one user with a new id, the salt and the salted hash is added |
| Users.UserRepository.VerifyPassword | include/repositories/user_repository.hpp:36-47 | true exactly for an existing login whose stored digest is that of the password and the stored salt; by VerifyIs, exactly if some user has both |
| Users.UserRepository.VerifyLogin | include/repositories/user_repository.hpp:82-108 | a token for the user's id stamped with the time, or a refusal, or an exception on a token already there; on the last two nothing changes |
| Users.UserRepository.GetLoginByToken | include/repositories/user_repository.hpp:110-140 | the login as the column accessor cuts it, or the error, and the lookup itself deletes an expired token |
| Users.UserRepository.GetLoginById | include/repositories/user_repository.hpp:163-173 | the login of that id as the column accessor cuts it, if there is one |
| Users.UserRepository.DropToken | include/repositories/user_repository.hpp:175-181 | the token is gone and the rest stays |
| Users.UserRepository.CleanExpiredTokens | include/repositories/user_repository.hpp:183-193 | exactly the expired tokens are gone |
| Friends.OpKeepsInv | include/repositories/friend_repository.hpp:27-104 | every send, accept and reject keeps: user1 below user2, at most one row a pair, status pending or accepted, initiator one of the two |
| Friends.AcceptedStays | include/repositories/friend_repository.hpp:73-101 | no operation removes or changes an accepted row, although UPDATE and DELETE do not filter on status |
| Friends.AcceptedForever | include/repositories/friend_repository.hpp:146-157 | two friends stay friends under every operation |
| Friends.OtherPairsUnchanged | include/repositories/friend_repository.hpp:27-104 | an operation touches no row of another pair |
| Friends.SendEffect | include/repositories/friend_repository.hpp:27-54 | a request succeeds exactly between two different users with nothing between them, and then shows up as pending at the target |
| Friends.AcceptEffect | include/repositories/friend_repository.hpp:56-79 | after an accept each is listed once as the other's friend and the request is gone from the pending ones |
| Friends.RejectEffect | include/repositories/friend_repository.hpp:81-104 | after a reject nothing is left between the two, so a request can be sent again |
| Friends.CodesFollowViews | include/repositories/friend_repository.hpp:27-104 | between known users every call completes, with the code the friend and pending lists of the two predict: already friends, already sent, nothing to accept or reject, one's own request, or OK |
| Friends.NotYourOwn | include/repositories/friend_repository.hpp:70-96 | nobody can accept or reject a request of their own; the table stays as it was |
| Friends.FriendViewsAgree | include/repositories/friend_repository.hpp:106-157 | b is listed among a's friends once if areFriends says so and otherwise not at all, symmetrically in a and b |
| Friends.PendingViewAgrees | include/repositories/friend_repository.hpp:56-144 | b is listed as pending for a exactly when a could accept b's request, and exactly when a could reject it |
| Friends.RowHistory | include/repositories/friend_repository.hpp:27-104 | every row of the table after a history comes from a standing request of its initiator, and an accepted one from a later accept by the other user |
| Friends.ConsentExactly | include/repositories/friend_repository.hpp:27-104 | after any history an accepted row from a to b exists if and only if a's request was accepted by b with no reject in between |
| Friends.FriendRepository.SendRequest | include/repositories/friend_repository.hpp:27-54 | the three refusals in the code's order, the insertion, or the exception on an unknown user |
| Friends.FriendRepository.AcceptRequest | include/repositories/friend_repository.hpp:56-79 | both refusals leave the table alone; otherwise the pair's rows become accepted |
| Friends.FriendRepository.RejectRequest | include/repositories/friend_repository.hpp:81-104 | both refusals leave the table alone; otherwise the pair's rows are deleted |
| Friends.FriendRepository.GetFriends | include/repositories/friend_repository.hpp:106-124 | the row loop collects the other user of each accepted row of this user |
| Friends.FriendRepository.GetPendingIncoming | include/repositories/friend_repository.hpp:126-144 | the row loop collects the initiators of the pending rows made by others |
| Friends.FriendRepository.AreFriendsNow | include/repositories/friend_repository.hpp:146-157 | OK exactly when the pair has an accepted row |
| Mail.SaveKeepsInv | include/repositories/message_repository.hpp:30-49 | saving keeps row ids unique and below the next one |
| Mail.UndeliveredIs | include/repositories/message_repository.hpp:51-71 | getUndelivered returns exactly the recipient's unmarked rows in non-decreasing time |
| Mail.MarkingDelivers | include/repositories/message_repository.hpp:51-89 | marking the ids getUndelivered returned leaves that recipient nothing undelivered, changes no other recipient's list and no other column |
| Mail.ChatListIs | include/repositories/message_repository.hpp:91-125 | one entry for each peer the user exchanged messages with in either direction, each a row with that peer's latest time, latest first |
| Mail.GroupProps | include/repositories/message_repository.hpp:96-106 | one pass over the rows already groups them so |
| Mail.HistoryRows | include/repositories/message_repository.hpp:127-155 | the history has at most limit rows, all of this conversation, none repeated, in non-decreasing time |
| Mail.HistoryIsOldest | include/repositories/message_repository.hpp:132-135 | when a row of the conversation is left out the limit is reached and everything kept is at most as recent |
| Mail.ConversationIs | include/repositories/message_repository.hpp:132-135 | the conversation has exactly the rows between the two users in either direction, each as often as it is in the table |
| Mail.HistorySize | include/repositories/message_repository.hpp:132-135 | the history has the whole conversation, or as many messages as the limit |
| Mail.MessageRepository.Save | include/repositories/message_repository.hpp:30-49 | one unmarked row is added under the next id, which is returned, or an exception on an unknown user |
| Mail.MessageRepository.GetUndelivered | include/repositories/message_repository.hpp:61-70 | the row loop returns the selected rows in the selected order, each text cut at its first zero byte |
| Mail.MessageRepository.Mark | include/repositories/message_repository.hpp:73-89 | exactly the rows with a listed id become marked |
| Mail.MessageRepository.GetLastMessages | include/repositories/message_repository.hpp:91-125 | the statement and its row loop return the chat list described by ChatListIs, each peer by the login looked up for it, or an empty one, and each text cut at its first zero byte |
| Mail.MessageRepository.GetHistory | include/repositories/message_repository.hpp:127-155 | the statement and its row loop return the history described by HistoryRows and HistoryIsOldest, each text cut at its first zero byte |
| Registry.GetPut | include/services/session_manager.hpp:31-34 | after addUser the login names the new session and every other login what it named before |
| Registry.GetErase | include/services/session_manager.hpp:36-39 | after removeUser the login names nobody and every other login what it named before |
| Registry.SessionOfIs | include/services/session_manager.hpp:43-48 | getSession returns a session exactly if it is alive and entered under the login |
| Registry.BroadcastOncePerLogin | include/services/session_manager.cpp:5-24 | a broadcast sends to a session once for each login other than the sender's it is registered under, and only to live sessions |
| Registry.SessionManager.AddUser | include/services/session_manager.hpp:31-34 | the map is assigned in place |
| Registry.SessionManager.RemoveUser | include/services/session_manager.hpp:36-39 | the entry is erased in place |
| Registry.SessionManager.GetSession | include/services/session_manager.hpp:43-48 | the registered session if it is still alive |
| ServerSafety.StepKeeps | include/client_session.hpp:391-625 | every event keeps the server's invariant: unique accounts, friendship rows over known users, stored messages only between present friends, the delivery ledger, known sessions |
| ServerSafety.RunKeeps | include/client_session.hpp:391-625 | the invariant holds in every reachable state, through restarts and crashes |
| ServerSafety.DispatchKeeps | include/client_session.hpp:532-604 | each handler keeps it, whether it returns or throws |
| ServerSafety.DirectMessageKeeps | include/client_session.hpp:391-431 | storing a message and sending it live keeps friends-only mail and the ledger: one live copy under a fresh id |
| ServerSafety.DeliverKeeps | include/client_session.hpp:466-488 | deliver_pending never fails for a known login, replays each waiting row once, and leaves none waiting |
| ServerSafety.AuthenticateKeeps | include/client_session.hpp:606-610 | what follows a successful authentication completes exactly for a known login and keeps the invariant; otherwise it throws before anything was sent or marked |
| ServerSafety.ReplaysAre | include/client_session.hpp:475-485 | one packet for each pending row, in the order of the rows, all to the session, each with that row's sender login and text as the database returns them and its time |
| ServerOutput.PacketOutput | include/client_session.hpp:523-616 | a handled packet appends pushes and then exactly one RESULT to its own session with the fields of its request's response, or no RESULT for LOGOUT and unknown types |
| ServerOutput.AuthenticationDelivers | include/client_session.hpp:466-616 | a successful REGISTER, LOGIN or TOKEN_VERIFY first queues the user's undelivered messages in time order, then the RESULT that says OK, with the new token where one was issued; afterwards the user has none waiting, the session has the login and the token, and is registered under the login |
| ServerOutput.ChatReachesEverybodyElse | include/client_session.hpp:95-122 | a chat message is posted to every live session once for each login other than the sender's it is registered under, to nobody else, and then answered OK; nothing else changes |
| ServerOutput.ThrowsExactly | include/client_session.hpp:523-616 | in a reachable state handling a packet throws if and only if the body does not parse, a generated token exists already, a file operation fails, a history request names an unknown peer, or FRIEND_LIST, MESSAGE_HISTORY, DIRECT_MESSAGE to a known user or TOKEN_VERIFY comes with a token whose owner's login is cut at a zero byte to a login nobody has; all other unchecked value() calls are safe |
| ServerOutput.HistoryThrowsExactly | include/client_session.hpp:361-389 | the history handler throws exactly for a working token and an unknown peer, or one that resolves to nobody |
| ServerOutput.RegisterThrowsExactly | include/client_session.hpp:40-45 | the unchecked token.value() fails only if the generated token exists already |
| ServerOutput.FriendListThrowsExactly | include/client_session.hpp:326-359 | the friend list throws exactly for a token that resolves to nobody; every login lookup of the lists succeeds |
| ServerOutput.DirectMessageThrowsExactly | include/client_session.hpp:391-431 | the direct-message handler throws exactly for a known recipient and a token that resolves to nobody; the insert is never refused |
| ServerOutput.ResolvesUnlessNameless | include/repositories/user_repository.hpp:110-161 | a working token resolves to a user except exactly when its owner's login is cut at a zero byte to a login nobody has |
| ServerOutput.AuthenticatesKnown | include/client_session.hpp:466-511 | only TOKEN_VERIFY with such a token can authenticate a session as a login nobody has |
| ServerOutput.DispatchLogin | include/client_session.hpp:532-604 | which login a packet authenticates as can be told from the state and the packet alone |
| ServerRuns.FriendsOnly | include/client_session.hpp:391-431 | whatever was stored at any moment of a run is still stored at its end and joins two distinct users who are accepted friends at its end |
| ServerRuns.StoredStays | include/repositories/message_repository.hpp:30-89 | a stored row never disappears and only its delivered flag ever changes |
| ServerRuns.RunFriends | include/client_session.hpp:180-324 | the friendship table of a reachable state is the outcome of the operations asked for, in order, each by the user its token resolved to |
| ServerRuns.FriendshipByConsent | include/client_session.hpp:180-324 | two users are friends in a reachable state if and only if one of them, as the server resolved the token presented, sent a request that stood and the other, likewise, accepted it |
| ServerRuns.ActsAsOwnerExactly | include/client_session.hpp:185-211 | a friendship operation is attributed to the owner of the token if and only if the owner's login has no zero byte |
| ServerRuns.FriendshipByOwnersConsent | include/client_session.hpp:180-324 | in a run in which no login with a zero byte was registered, two users are friends if and only if one's own working token was used to send a request that stood and the other's to accept it |
| ServerRuns.DeliveryAccounting | include/client_session.hpp:391-488 | a stored row is waiting at its recipient if and only if it was never replayed; it was replayed at most once and sent live at most once |
| ServerRuns.CopiesAreTrue | include/client_session.hpp:419-485 | every copy ever queued is of a stored message: a live one carries its whole text, a replay its text and its sender's login as the database returns them and its time |
| ServerCopies.CopiesReachTheRecipient | include/client_session.hpp:419-485 | every copy of a message, live or replayed, was posted to a session that had authenticated, earlier or just then, as the user the message is for |
| ServerCopies.NewCopy | include/client_session.hpp:419-485 | a replay is posted to the session that authenticates as the recipient in the same step, a live copy to the session the registry names for the recipient |
| ServerCopies.LiveExactly | include/client_session.hpp:419-427 | a message has exactly one live copy in the whole run if a session was registered for its recipient when it was saved, and otherwise none |
| ServerCopies.LiveStays | include/client_session.hpp:419-427 | no event ever queues another live copy of a message already stored |
| ServerCopies.ThrowLeaves | include/client_session.hpp:33-63 | in a reachable state a packet whose handling throws leaves the tables, the registry and the log as they were, except that a REGISTER with a token that exists already has added the user |
| ServerCleaning.CleaningUnseen | include/repositories/user_repository.hpp:183-193 | with a clock that does not run backwards and no generated token equal to an expired one, taking the cleaner's ticks out of a run of the server changes no table, session or registry entry but expired tokens, and no packet ever posted except that a refused token may be called expired instead of unknown |
| ServerCleaning.PacketAlike | include/client_session.hpp:523-616 | two servers that differ only by expired tokens handle a packet alike, or throw alike |
| ServerExamples.CutLoginThrows | include/client_session.hpp:326-341 | from the empty server: whoever registers first, with any login that has a zero byte, and asks for the friend list with the token answered, makes the handler throw |
| ServerExamples.CutLoginNamesAnother | include/client_session.hpp:490-504 | from the empty server: if what stands before the zero byte is registered too, the token authenticates its session as that user |
| ServerExamples.DeliveredTwice | include/client_session.hpp:419-488 | from the empty server: a message to an online friend is queued once live and once more when that friend authenticates again |
| ServerExamples.SecondSessionUnregistered | include/client_session.hpp:490-625 | from the empty server: two sessions get one login, the first disconnects, and the second is no longer registered |
| ServerRegistry.PacketSessions | include/client_session.hpp:513-610 | a packet changes the login of its own session only, and the registry only by the authenticated login |
| ServerRegistry.AuthenticationKeepsAgreementExactly | include/client_session.hpp:606-610 | an authentication keeps every live session reachable under its login if and only if no other live session carries that login |
| ServerRegistry.OtherEventsKeepAgreement | include/client_session.hpp:513-625 | logouts, disconnections, restarts, crashes and all other packets keep it without any condition |
| ServerRegistry.RegistryAgreement | include/services/session_manager.hpp:31-48 | with one live session a login at a time, in every reachable state each live session with a login is the one getSession returns for it |
| ServerRegistry.DisconnectUnregistersTheOther | include/client_session.hpp:620-625 | with two live sessions under one login, the end of either leaves the other unregistered |
| ServerRegistry.RegisteredAuthenticated | include/services/session_manager.hpp:31-34 | without any condition, whoever is registered under a login authenticated as it earlier in the run |
| ServerRegistry.CarryLostExactly | include/client_session.hpp:513-610 | a registered live session stops carrying the login it is registered under in exactly one way: it logs out, or authenticates as somebody else |
| ServerRegistry.CarryThroughRun | include/services/session_manager.hpp:31-48 | in a run in which no packet does that, every registered live session carries the login it is registered under |
| ServerRegistry.LoggedOutStillReached | include/client_session.hpp:513-519 | a session that logged out while registered is still the one getSession returns for its old login |
| ServerRegistry.ConnectAdds | server/main.cpp:28-41 | a connection adds a session without login and token that nobody was registered as and nothing was posted to |
| ServerRegistry.DisconnectLeaves | include/client_session.hpp:620-625 | the end of a session takes exactly the entry under its login out of the registry, whichever session that names, and none if it has no login |
| ServerRegistry.RestartLeaves | server/main.cpp:51-60 | a restart keeps the database but for tokens older than a week, and nobody is connected or registered |
| ServerAnswers.AnswerSent | include/client_session.hpp:612-615 | without authentication the state after a packet is the handler's state plus its RESULT |
| ServerAnswers.RegisterAnswer | include/client_session.hpp:33-63 | REGISTER answers login-exists exactly if some user has the login; otherwise the user is added, with the digest of password and salt, and answered a token that is stored for that user, unless it exists already |
| ServerAnswers.LoginAnswer | include/client_session.hpp:65-93 | LOGIN answers incorrect-credentials and changes nothing exactly if no user has both the login and the digest of this password; otherwise it answers a token that is stored for that user, unless it exists already |
| ServerAnswers.TokenVerifyAnswer | include/client_session.hpp:490-511 | TOKEN_VERIFY with a working token answers OK, the session takes the token, and is authenticated as its owner's login as the database returns it |
| ServerAnswers.FileAnswers | include/client_session.hpp:124-178 | with a working token UPLOAD answers OK and DOWNLOAD the file and OK, unless the file operation fails; neither changes anything |
| ServerAnswers.NamelessAnswer | include/client_session.hpp:205-209 | with a token that resolves to nobody a friend operation on a known user and CHAT_LIST answer not-found |
| ServerAnswers.DroppedPackets | include/client_session.hpp:600-603 | a packet of any type the server does not handle changes nothing and is not answered |
| ServerAnswers.AnsweredTokenWorks | include/client_session.hpp:33-93 | the token in a register or login answer is the session's and works for a week; it resolves to the login as far as its first zero byte, which is the same user if and only if there is none |
| ServerAnswers.NoTokenNoEffect | include/client_session.hpp:95-511 | no handler has any effect without a working token: the answer names the reason, nobody else is sent anything, and all tables and the registry stay but that an expired token is deleted |
| ServerAnswers.LogoutEnds | include/client_session.hpp:513-519 | LOGOUT ends the token and the session's login and changes nothing else, the registry entry included, and is not answered |
| ServerAnswers.FriendAnswer | include/client_session.hpp:180-324 | when a token holder's request, accept or reject of a known user succeeds, in terms of the two friend lists before, and what those lists show after |
| ServerAnswers.FriendNotice | include/client_session.hpp:211-323 | the answer carries the code the two users' lists predict, and only on success one notice of the matching kind goes to the target's session if there is one |
| ServerAnswers.UnknownTarget | include/client_session.hpp:195-408 | a friend operation or message for a login nobody registered answers not-found and leaves the whole state alone |
| ServerAnswers.FriendListAnswer | include/client_session.hpp:326-359 | a name is listed as friend exactly when it is the login, as the database returns it, of somebody with whom direct messages are allowed, and as pending exactly when it is that of somebody whose request could be accepted or rejected |
| ServerAnswers.DirectMessageAnswer | include/client_session.hpp:391-431 | a message is accepted exactly between listed friends; otherwise it is answered as not friends and nothing is stored; once accepted the recipient has it undelivered, from the token's holder, and a live copy goes to the recipient's session if there is one |
| ServerAnswers.HistoryAnswer | include/client_session.hpp:361-389 | the entries are the messages of the two users in either direction, oldest first, none twice, all of them up to a hundred and of more the oldest hundred; each has, in this order, the login of the user who sent it, the text and the time, as the database returns them |
| ServerAnswers.ChatListAnswer | include/client_session.hpp:433-464 | one entry for each peer, latest first: in this order the peer's login, the text and the time of a latest message with that peer, as the database returns them |
| ClientSessions.Executor.Connect | server/main.cpp:28-41 | a new connection gets a session without login and token and a number never used before |
| ClientSessions.Executor.SendPacket | include/network_session.hpp:109-117 | packets are posted in the order of the calls |
| ClientSessions.ClientSession.Deserialize | include/messages.hpp:215-221 | a request body yields its fields, or an exception exactly when it does not parse |
| ClientSessions.ClientSession.HandleRegister | include/client_session.hpp:33-63 | the handler's calls in their order leave the state and the answer of the state machine |
| ClientSessions.ClientSession.HandleLogin | include/client_session.hpp:65-93 | the same for a login |
| ClientSessions.ClientSession.Broadcast | include/services/session_manager.cpp:5-24 | the loop over the registry posts to every live session registered under another login, in registry order |
| ClientSessions.ClientSession.HandleMessage | include/client_session.hpp:95-122 | a chat message is broadcast before it is answered |
| ClientSessions.ClientSession.HandleUpload | include/client_session.hpp:124-149 | the token is checked before the file is written |
| ClientSessions.ClientSession.HandleDownload | include/client_session.hpp:151-178 | the token is checked before the file is read |
| ClientSessions.ClientSession.HandleFriend | include/client_session.hpp:180-324 | the three friend handlers: token, target, sender, operation, notice, each with its own way out |
| ClientSessions.ClientSession.LoginsById | include/client_session.hpp:341-355 | the loop collects the login of each id and throws at the first one missing |
| ClientSessions.ClientSession.HandleFriendList | include/client_session.hpp:326-359 | friends and pending requests by login |
| ClientSessions.ClientSession.HandleMessageHistory | include/client_session.hpp:361-389 | the history by login, or an exception for an unknown peer |
| ClientSessions.ClientSession.HandleDirectMessage | include/client_session.hpp:391-431 | token, recipient and friendship are checked in that order before the row is saved and sent live |
| ClientSessions.ClientSession.HandleChatList | include/client_session.hpp:433-464 | the chat list by login |
| ClientSessions.ClientSession.HandleTokenVerify | include/client_session.hpp:490-511 | a working token authenticates the session as its owner and becomes the session's token |
| ClientSessions.ClientSession.HandleLogout | include/client_session.hpp:513-519 | the token is dropped and both fields are emptied |
| ClientSessions.ClientSession.SendAll | include/client_session.hpp:475-485 | the delivery loop posts one packet a row and collects the ids of exactly those rows, or throws at the first missing sender with the packets before it posted |
| ClientSessions.ClientSession.DeliverPendingMessages | include/client_session.hpp:466-488 | deliver_pending, with its early return when nothing waits, is the delivery step, or throws where it does |
| ClientSessions.ClientSession.FinishAuthentication | include/client_session.hpp:606-610 | login, delivery and registration in this order |
| ClientSessions.ClientSession.DispatchPacket | include/client_session.hpp:532-604 | the switch over all packet types |
| ClientSessions.ClientSession.HandlePacket | include/client_session.hpp:523-616 | the session object takes the server from any state to exactly the state the state machine defines, throws exactly when it has none and then in exactly the state defined for that, and leaves one state all sessions share |
| ClientSessions.ClientSession.Destruct | include/client_session.hpp:620-625 | the destructor is the disconnection step |
| Client.ResponseComesBack | include/client_async_handler.hpp:65-110 | a RESULT for each of the nine request types the client decodes gives its callback the fields the handler serialized; a RESULT for any other type is popped and left undecoded |
| Client.BreaksExactly | include/client_async_handler.hpp:45-113 | handling a packet throws exactly if the body of a MESSAGE, DIRECT_MESSAGE or decoded RESULT does not hold its fields; only a RESULT pops the queue, and which packets end in a notice or in nothing |
| Client.ClientAsyncHandler.SendRequest | include/client_async_handler.hpp:36-42 | the type goes to the end of the queue and one frame with the same type is posted |
| Client.ClientAsyncHandler.HandlePacket | include/client_async_handler.hpp:45-113 | a RESULT pops exactly the front of the queue and no other packet touches it; the callback gets the decoded fields |
| Correlation.StepAlignment | include/client_async_handler.hpp:36-72 | every step of any client thread, of the server, of the bytes in either direction and of any other connection keeps the queues aligned |
| Correlation.QueueAlignment | include/client_async_handler.hpp:36-72 | in every reachable state, for every client that has handled and been served only packets with bodies below 2^32 bytes, pending_requests is the types of the RESULTs travelling back, then of the requests not handled yet without LOGOUT, then at most one type pushed but not posted |
| Correlation.NextPacketExactly | include/network_session.hpp:23-118 | in every reachable state and either direction, while it is in step, the next packet handed over is the next one posted if and only if its body is shorter than 2^32 bytes; from the server these are the packets of its log |
| Correlation.PostingAligns | include/client_async_handler.hpp:36-42 | posting a packet keeps the queue aligned if and only if its type is the one just pushed, or nothing was pushed and it will not be answered |
| Correlation.TakingKeepsAlignment | include/client_async_handler.hpp:65-72 | on every RESULT the queue is non-empty and its front is the type of the request that RESULT answers |
| Correlation.EveryPacketUnderstood | include/client_async_handler.hpp:45-113 | whenever a client hands over a packet in a reachable state, and that packet and all before it on the connection had bodies below 2^32 bytes, its callback is the one for that packet and gets its fields in order: sender, text and the row id or time of a direct message, sender and text of a chat message, the response of the request a decoded RESULT answers; the empty-queue branch is not taken and decoding does not throw |
| Correlation.PacketNumbers | include/protocol.hpp:12-35 | the numbers in the headers of what the server sends: 6 for a RESULT, 5 for the chat, 11 for both copies of a direct message, 16 to 18 for the notices |
| Correlation.OnlyAnsweredTypesMayBeQueued | client/client_handler_qml.hpp:53-64 | whatever is still on its way, queueing a type and posting its packet leaves the queue aligned if and only if the server answers that type, which is why LOGOUT bypasses the queue |
| Progress.Delivered | include/network_session.hpp:23-118 | from any reachable state in which no write of a direction failed, everything posted in it can reach its reader and nothing else moves |
| Progress.EverythingCanBeTaken | include/client_async_handler.hpp:45-113 | from any such state a client whose I/O thread lives can take everything posted to it, and then waits for exactly the requests the server has not handled, in order |
| Progress.NextRequestCanBeServed | include/client_session.hpp:523-616 | the next packet a client posted can always be handled, as that packet; each client finds what the handler posted behind what was posted before, and a throwing handler leaves nobody connected |
| Progress.NextRequestCanBeAnswered | include/client_async_handler.hpp:36-113 | from any reachable state a client's next request can be handled and answered, the client taking everything posted to it, the RESULT included, unless the handler throws or a body is too long; it then waits for exactly its later requests |

## Left out

- The Qt/QML client, NetworkBridge and TokenStorage: user interface. Which requests go through send_request and which
  through send_packet is taken from `client/client_handler_qml.hpp`.
- Boost.Asio and SQLite themselves: FIFO execution of posted lambdas, reads of the exact length, a failed write that
  emitted a prefix, atomic statements, enforced foreign keys and UNIQUE columns, and increasing AUTOINCREMENT ids
  are assumed. SQLite's limit on the number of bound variables in `IN (...)` is not modelled.
- SHA-256 and UUID generation: the hash is an arbitrary function, salts and tokens are parameters. Nothing is claimed
  about collisions or secrecy.
- File contents, AES and `include/cast.hpp`: upload and download keep only the token check, whether the file operation
  fails, and the one answer.
- The logger, console output and the `errorCode` member, which only the logger reads; the client's 200-entry message
  log; the synchronous functions of `include/protocol.hpp`.
- The 64-bit limit of ids and times inside the tables: they are unbounded there and are cut to 64 bits where a packet
  carries them.
- Tie order under `ORDER BY` and the iteration order of `unordered_map`: the model keeps row order and insertion order,
  and no law depends on either.
- The `id` column of `friendships`, which no statement reads.
- `Codec.DecodeItems`: the element count at `include/messages.hpp:176-179` is read without a length check; the model
  reports such a read as UncheckedCount instead of giving it a meaning. Allocating the counted elements before
  they are read is not modelled either.
- Mutexes and thread scheduling inside a method: each repository, registry and queue method is one atomic step.
- ServerOutput.ThrowsExactly: allocation failures and database I/O errors are not among the causes.
- ServerCleaning.CleaningUnseen: a generated token equal to one that has expired is excluded, because the sign-in then
  succeeds or throws depending on whether the cleaner came first.
- Packets that a process had queued but not written when it crashed stay in the log, which records what was queued.
- What a client still reads after its connection has ended on the server's side: it could have been read before.
- Correlation.QueueAlignment: one sending thread a client, as in the program; a client whose decoding threw takes no
  further packet.
- Correlation.EveryPacketUnderstood: after a packet of 2^32 bytes or more nothing is claimed about that direction;
  NextPacketExactly shows that the limit is exact.
- ServerRegistry.RegistryAgreement: needs the one-session-a-login hypothesis; AuthenticationKeepsAgreementExactly proves
  it exact for each step.
- Errors on the reading side close the socket; in the model such a connection simply receives nothing more.
