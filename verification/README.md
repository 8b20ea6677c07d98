# Nullchat: a verified model

A Dafny model of two parts of Nullchat that fit together: the Node chat server
(`src/server/node/server.js`) as a state machine, and the wire framing that it
and the C++ client share.

**Framing.** A frame is a six-byte header (big-endian 32-bit body length, type,
version) and a body. `Framing` defines what a byte stream means without
reference to any decoder: the longest run of complete version-1 frames, with
every byte accounted for. `NodeCodec` and `CppCodec` model the encoders and
decoders of the two languages, the C++ one on machines of either byte order, and
`Decoders` relates them. `ClientNetwork` is the client's receive loop and state.

**Server.** `JsonDb` and `Session` are the classes of `server.js`, updating
their fields in place. Each method is proved against a function on values
(`DbSpec`, `SessionSpec`), and the functions are what the theorems are about.
`World` puts connections, timers and restarts together into a machine whose
steps are: a connection opens, bytes arrive, a packet is dispatched, a
connection closes, a timer fires, the process restarts. `Process` ties the
objects to the machine: each callback changes them as the machine's step says.
`Requests`, `Commands` and `Welcoming` say what each request, each admin command
and the welcome timer does, in terms of the data and the packets alone: when it is
carried out, what it changes, and what is sent to whom. The theorems about runs
(`Invariants`, `Safety`, `Routing`, `Addressing`, `Bans`, `Growth`, `Rights`, `Presence`,
`Chunking`) rest on three summaries of a packet's handling (`Effects`): its one
database operation, its effect on the sessions map, and the packets it sends.

What the program does not compute is a parameter, `Env`: random ids (which never
repeat and are none of the reserved ones), clock readings, SHA-256, lower-casing
and JSON parsing. Packets sent are appended to a log, with the user id under
which the receiving connection was looked up; the file is the last data saved.
`logins` counts a connection's successful authentications; the program keeps no
such count.

**Where the code departs from its documentation or intent.** The model follows
the code, and states exactly when the intent holds:

- `server.js:21` says its message numbers must match `Protocol.h`. They do for
  the types before `LeaveGroup` and for no other (`NumbersAgreeExactly`), so the
  client learns peer keys from the Node server's UserOffline packets only, and an
  admin who renames a group with the client deletes it (`ClientRenameDeletes`).
- The client keeps its read buffer across a disconnection. A new connection is
  read correctly exactly when nothing was left over (`ReconnectReadsCorrectlyExactly`).
- A second authentication on a connection, as another user, leaves the old
  session entry behind, leading to the wrong user (`AuthenticationKeepsSoundExactly`).
- Closing a connection removes its user's only entry, and logging it in as someone
  else takes it along, so that a user's other open connections are no longer
  reached (`StepKeepsCoveredExactly`, `CoveredExactly`).
- What is addressed to a user is written on the connection their entry leads to,
  be it another user's, so a group's messages can end up with someone banned from
  it; not while every entry leads to its own user (`GroupBanEndToEnd`).
- A banned user with a connection left open goes on being answered, and relayed
  for, on it; a ban cuts them off altogether exactly if there is none (`BanTotalExactly`).
- A group message without a text reaches the first online member only, since
  looking for mentions then throws (`AllServedExactly`).
- Joining a group that does not exist is answered as a success (`JoinAnsweredExactly`).
- Registering on a connection that has admin rights leaves them in place, so that
  the connection's rights are not its account's (`RightsMatchExactly`).
- A newcomer is welcomed in the groups they have joined with a key when the timer
  fires. Registering joins them to the default groups with an empty key, so one who
  has only registered is welcomed nowhere (`WelcomeExact`, `NewcomerUnwelcomed`).
- `/kick` takes the sender out of the general group, whoever is named (`KickExact`).
- `serialize` truncates the length of a body of 2^32 bytes or more
  (`SerializedPacketSurvivesExactly`); the Node encoder refuses such a body.

`Scenes` gives runs on which routing, reachability, delivery, bans and rights fail,
and `Witnesses` plays them from the start of a server in one concrete environment.

## Model

| member | source | states |
|---|---|---|
| Framing.WaitingExactly | src/client/network/ClientNetwork.cpp:291-301 | A buffer has no packet at its front exactly when it is shorter than a header, has a wrong version byte, or is shorter than the frame it announces |
| Framing.PrefixFree | src/common/Protocol.cpp:13-23 | At most one packet can start a buffer |
| Framing.NoProperPrefix | src/common/Protocol.cpp:13-23 | One packet's encoding is a prefix of another's exactly when they are the same packet |
| Framing.DecodingUnique | src/client/network/ClientNetwork.cpp:289-307 | A byte stream has at most one reading as packets followed by bytes that start no packet |
| Framing.DecodingSplit | src/client/network/ClientNetwork.cpp:289-307 | Reading a stream in two pieces, the leftover carried over, is reading it whole |
| Framing.EncodeAllInjective | src/common/Protocol.cpp:13-23 | The encoding of packet lists is injective |
| NodeCodec.MakePacket | src/server/node/server.js:35-42 | makePacket yields the six-byte header and the body for every body under 2^32 bytes and refuses any other |
| NodeCodec.ParsePacketExact | src/server/node/server.js:44-54 | parsePacket returns a packet exactly when that packet's encoding is at the front of the buffer, and null exactly when none is |
| NodeCodec.DrainDecodes | src/server/node/server.js:286-294 | The server's receive loop computes the one reading of its buffer |
| NodeCodec.DrainSplit | src/server/node/server.js:286-294 | Where the input is cut makes no difference to the packets dispatched or the bytes kept |
| NodeCodec.DrainSettles | src/server/node/server.js:288-293 | What the loop leaves over holds no further packet |
| CppCodec.StoredInNetworkOrder | src/common/Protocol.cpp:17-20 | The swapped length field lies in memory in network order on machines of either byte order |
| CppCodec.LoadedFromNetworkOrder | src/common/Protocol.cpp:29-37 | Loading and swapping the length field reads network order on machines of either byte order |
| CppCodec.Serialize | src/common/Protocol.cpp:13-23 | serialize writes header and body into one vector; the length field holds the body size modulo 2^32 |
| CppCodec.SerializeFaithfulExactly | src/common/Protocol.cpp:13-23 | The length field is the body's size exactly when that is under 2^32; then the bytes are makePacket's, and otherwise they begin with a packet of a shorter body |
| CppCodec.Deserialize | src/common/Protocol.cpp:25-41 | deserialize returns a packet exactly when that packet is at the front of the data, each error exactly in its case, and reads past its data exactly when the announced body is not all there |
| Decoders.DecodersAgree | src/client/network/ClientNetwork.cpp:289-307 | The C++ loop and the Node loop dispatch the same packets and keep the same bytes on every byte stream |
| Decoders.FeedingIsCutIndependent | src/client/network/ClientNetwork.cpp:289-307 | Fed in any pieces, both loops dispatch the longest run of complete version-1 frames of the whole |
| Decoders.BytesConserved | src/client/network/ClientNetwork.cpp:289-307 | Bytes received are always the re-encoded packets dispatched followed by the buffer, which is maximally consumed |
| Decoders.PacketsRoundTrip | src/client/network/ClientNetwork.cpp:289-307 | Any list of packets, serialized back to back and cut anywhere, is dispatched as exactly that list and leaves an empty buffer |
| Decoders.SerializedPacketSurvivesExactly | src/common/Protocol.cpp:13-23 | A serialized packet comes out of the receive loop as itself, with nothing left over, exactly when its body is under 2^32 bytes |
| ClientNetworkModel.ClientNetwork.constructor | src/client/network/ClientNetwork.h:85-95 | A new client is nobody, knows no keys and has an empty buffer |
| ClientNetworkModel.ClientNetwork.OnReadyRead | src/client/network/ClientNetwork.cpp:289-307 | The loop hands exactly the packets of its buffer, in order, to the handler, keeps the rest, and reports a version mismatch exactly when the rest shows one |
| ClientNetworkModel.ClientNetwork.HandlePacket | src/client/network/ClientNetwork.cpp:309-411 | One packet's effect on identity, groups, authentication, pending credentials and peer keys |
| ClientNetworkModel.ClientNetwork.OnDisconnected | src/client/network/ClientNetwork.cpp:284-287 | Disconnection only clears authenticated_; the read buffer stays |
| ClientNetworkModel.RunFollowsHistory | src/client/network/ClientNetwork.cpp:284-334 | The client's state after any run is the fold of the packets received and connections lost |
| ClientNetworkModel.ClientIsFoldOfHistory | src/client/network/ClientNetwork.cpp:284-393 | A peer's key is the last non-empty one received; authenticated exactly when an ok AuthResponse came after the last disconnection; id, name, admin flag and groups are the last ok response's |
| ClientNetworkModel.ClientCutIndependent | src/client/network/ClientNetwork.cpp:289-307 | The client's whole state, leftover bytes included, is the same for every cutting of the bytes into pieces |
| ClientNetworkModel.ReconnectReadsCorrectlyExactly | src/client/network/ClientNetwork.cpp:284-291 | A new connection's packets are dispatched correctly, whatever they are, exactly when the old connection left no bytes in the buffer |
| MessageNumbers.NumbersAgreeExactly | src/server/node/server.js:21-32 | The comment's promise that the numbers match Protocol.h holds exactly for the types before LeaveGroup |
| MessageNumbers.NumbersAreListed | src/server/node/server.js:21-32 | The server's numbers are the types' places in one list; the client's skip LeaveGroup and so are one higher from there on |
| MessageNumbers.ServerServes | src/server/node/server.js:303-325 | A record under a type's own number goes to that type's handler, and under any other type's does nothing |
| MessageNumbers.ClientServes | src/client/network/ClientNetwork.cpp:309-411 | Under its own numbers the client settles who it is by an AuthResponse, learns a key by a UserOnline or PubKeyResponse, and changes nothing by any other type |
| MessageNumbers.KeysLearnedFromNode | src/client/network/ClientNetwork.cpp:357-393 | Of all the packets the Node server sends, a UserOffline with a key adds that one key to the client's and no other packet changes any key |
| MessageNumbers.IdentityLearnedFromNode | src/client/network/ClientNetwork.cpp:313-335 | Of the packets the Node server sends, only AuthResponses change the client's identity, groups, login state or pending credentials, and they change no key; one that says ok makes the client the user it names |
| MessageNumbers.ClientRequestsRead | src/server/node/server.js:303-325 | What the server does with each request the C++ client sends: its offer is relayed as an answer, its rename deletes, its delete and its key request do nothing |
| MessageNumbers.ClientRenameDeletes | src/client/network/ClientNetwork.cpp:251-257 | An admin's rename sent by the C++ client deletes the group and its member table |
| MessageNumbers.ServedAsMeantExactly | src/server/node/server.js:21-32 | A request of the client's is served as its own type, in every state, exactly if that type comes before LeaveGroup |
| JsonDbModel.JsonDB.constructor | src/server/node/server.js:58-77 | A database object is the stored data, whatever they are, seeded; well-formed data give a valid object |
| JsonDbModel.JsonDB.Seed | src/server/node/server.js:83-104 | seed in place, TheNull first, then each default group whose name is missing |
| JsonDbModel.JsonDB.AddDefaultGroup | src/server/node/server.js:98-100 | A seeded group is TheNull's, under a fresh id, with TheNull its only member |
| JsonDbModel.JsonDB.Save | src/server/node/server.js:79-81 | save makes the file equal to the data |
| JsonDbModel.JsonDB.BanUser | src/server/node/server.js:110-114 | Adds the id to the ban list once and saves |
| JsonDbModel.JsonDB.UnbanUser | src/server/node/server.js:116-119 | Filters the id out of the ban list and saves |
| JsonDbModel.JsonDB.BanFromGroup | src/server/node/server.js:126-131 | Adds the id to the group's ban list once, creating the list, and saves |
| JsonDbModel.JsonDB.UnbanFromGroup | src/server/node/server.js:133-137 | Filters the id out of the group's ban list and saves (no handler calls it) |
| JsonDbModel.JsonDB.FindUser | src/server/node/server.js:185-190 | Scanning the users in any order finds the one user with the id |
| JsonDbModel.JsonDB.SetPublicKey | src/server/node/server.js:139-143 | Sets the key of the one user with the id and saves, or does nothing |
| JsonDbModel.JsonDB.GetPublicKey | src/server/node/server.js:145-150 | The key of the one user with the id, or empty |
| JsonDbModel.JsonDB.GetGeneralGroupId | src/server/node/server.js:152-157 | The first group named general in insertion order, and none exactly if no group is named that |
| JsonDbModel.JsonDB.RegisterUser | src/server/node/server.js:159-175 | Registration in place: name check, fresh id, user saved, default groups joined, saved |
| JsonDbModel.JsonDB.AutoJoin | src/server/node/server.js:166-171 | The loop over groups joins the newcomer to the default ones and never meets a missing member table |
| JsonDbModel.JsonDB.LoginUser | src/server/node/server.js:177-183 | The user stored under the name exactly when the password's hash is theirs; a wrong name or password is refused; an absent password throws |
| JsonDbModel.JsonDB.CreateGroup | src/server/node/server.js:196-203 | A new group under a fresh id with the owner as member, saved |
| JsonDbModel.JsonDB.AddMember | src/server/node/server.js:205-210 | Sets the member's key if the group has a table, and says whether it had |
| JsonDbModel.JsonDB.RemoveMember | src/server/node/server.js:212-217 | Removes the member if the group has a table |
| JsonDbModel.JsonDB.GetUserGroups | src/server/node/server.js:224-233 | The loop over member tables collects the user's groups |
| DbInvariants.SeedKeeps | src/server/node/server.js:83-104 | Seeding keeps the database well-formed, bans and memberships apart, and file and memory equal |
| DbInvariants.BanThenRemoveDisjoint | src/server/node/server.js:493-494 | Banning from a group and then removing keeps banned users out of the member table |
| DbInvariants.AddMemberKeeps | src/server/node/server.js:526-529 | Joining keeps bans and memberships apart because the join guard was passed |
| DbInvariants.AutoJoinExact | src/server/node/server.js:166-171 | Joining changes nothing but the newcomer's entries in groups with a default name |
| DbInvariants.RegisterExact | src/server/node/server.js:159-175 | Registering a free name never throws, stores the user under a fresh id, and saves |
| DbInvariants.RegisterMembership | src/server/node/server.js:159-175 | The newcomer is a member of exactly the default-named groups; everyone else is where they were |
| DbInvariants.GroupListExact | src/server/node/server.js:219-233 | A group is in a user's group list exactly when the user is in its member list, once, under its current name |
| DbInvariants.GeneralExact | src/server/node/server.js:152-157 | The lookup finds the first group named general in the order of creation, and nothing exactly if there is none |
| Seeding.SeedExact | src/server/node/server.js:83-104 | Seeding adds TheNull if missing, with the set password's hash, no key and admin rights, and one group of TheNull's alone per missing default name, and keeps everything else |
| Seeding.SeedIdempotent | src/server/node/server.js:83-104 | A second seed changes nothing |
| Undo.UnbanUndoesBan | src/server/node/server.js:110-119 | Unban right after ban restores the database |
| Undo.RemoveUndoesAdd | src/server/node/server.js:205-217 | Removing a newly added member restores every table, order included |
| Undo.DeleteUndoesCreate | src/server/node/server.js:196-203 | Deleting a group just created restores the database |
| Undo.PublicKeysFormMap | src/server/node/server.js:139-150 | The scans behave as one map from registered ids to keys: a key set is read back and no other changes |
| Operations.OpBans | src/server/node/server.js:470-487 | Who is banned after an operation: changed by /ban and /unban only, and only for their target |
| Operations.OpGroupBans | src/server/node/server.js:488-496 | Who is banned from a group after an operation: added by /gban, never taken off |
| Operations.OpGroups | src/server/node/server.js:515-549 | Which groups exist after an operation, and what they are called |
| Operations.OpMembership | src/server/node/server.js:466-549 | Each member's entry in each group's table, key included, after any operation, registration included |
| Operations.RegisteredCanLogIn | src/server/node/server.js:159-183 | After registering, a login is accepted exactly for a password of the same hash, as the assigned id, without admin rights |
| Operations.UnbanFromGroupExact | src/server/node/server.js:133-137 | Taking a group ban back, which no handler does, lifts exactly that ban |
| SessionModel.Server.SendSystemMessage | src/server/node/server.js:242-257 | The loop sends the message to each online member, in member order |
| SessionModel.Server.BroadcastStatus | src/server/node/server.js:583-589 | The loop tells every session but the user's own |
| SessionModel.Server.FireTimer | src/server/node/server.js:384-391 | The welcome callback greets the newcomer in each group where a non-empty key is stored |
| SessionModel.Session.constructor | src/server/node/server.js:264-271 | A new connection is nobody with an empty buffer |
| SessionModel.Session.OnData | src/server/node/server.js:286-294 | The receive loop handles exactly the packets of the buffer in order, keeps the rest, and leaves a good database |
| SessionModel.Session.OnClose | src/server/node/server.js:296-301 | Closing removes the entry under the connection's user id and tells the others |
| SessionModel.Session.Handle | src/server/node/server.js:303-325 | Dispatch by number; a body that does not parse, or a throw, stops where it stops |
| SessionModel.Session.HandleNull | src/server/node/server.js:303-325 | With the body null, only what precedes the first field access happens |
| SessionModel.Session.HandleLogin | src/server/node/server.js:327-353 | Login: credentials, ban check, identity and session, key, reply, status |
| SessionModel.Session.HandleRegister | src/server/node/server.js:355-396 | Registration: invite, ban and name checks, user, identity and session, key, reply, status, welcome timer |
| SessionModel.Session.HandlePubKeyRequest | src/server/node/server.js:398-402 | Replies with the stored key of the id asked for |
| SessionModel.Session.HandleTextMessage | src/server/node/server.js:404-419 | Direct message: login, recipient and ban checks, then one packet to the recipient |
| SessionModel.Session.HandleGroupMessage | src/server/node/server.js:421-464 | Group message: login, ban and group-ban checks, admin commands, else delivery |
| SessionModel.Session.PostToGroup | src/server/node/server.js:440-463 | Delivery to the members online, with mentions; ends where a missing content throws |
| SessionModel.Session.HandleAdminCommand | src/server/node/server.js:466-513 | Admin commands by word |
| SessionModel.Session.BanCommand | src/server/node/server.js:470-481 | /ban: ban, remove from this group, tell the target if online, announce |
| SessionModel.Session.UnbanCommand | src/server/node/server.js:482-487 | /unban: unban and announce |
| SessionModel.Session.GroupBanCommand | src/server/node/server.js:488-496 | /gban general: ban from the general group, remove, announce |
| SessionModel.Session.KickCommand | src/server/node/server.js:497-502 | /kick: the sender leaves general |
| SessionModel.Session.BroadcastCommand | src/server/node/server.js:506-511 | /broadcast: announce the text in general |
| SessionModel.Session.HandleCreateGroup | src/server/node/server.js:515-522 | Create: login and ban checks, new group, reply |
| SessionModel.Session.HandleJoinGroup | src/server/node/server.js:524-531 | Join: login and group-ban checks, membership, reply |
| SessionModel.Session.HandleRenameGroup | src/server/node/server.js:533-540 | Rename by an admin, saved and announced |
| SessionModel.Session.HandleDeleteGroup | src/server/node/server.js:542-549 | Delete by an admin: group and table removed, saved |
| SessionModel.Session.HandleP2POffer | src/server/node/server.js:551-560 | Relays the offer to the target if online |
| SessionModel.Session.HandleP2PAnswer | src/server/node/server.js:562-570 | Relays the answer to the target if online |
| SessionModel.Session.HandleP2PICE | src/server/node/server.js:572-580 | Relays the candidate to the target if online |
| ProcessModel.Process.constructor | src/server/node/server.js:260-261 | The program started on a stored file is the state machine started on those data |
| ProcessModel.Process.Connect | src/server/node/server.js:263-276 | A new socket gets a Session of its own, under a number no other has: the machine opens a connection |
| ProcessModel.Process.Receive | src/server/node/server.js:271-294 | A socket's data event is the machine's onData on that connection and leaves every other connection and the good state intact |
| ProcessModel.Process.Hangup | src/server/node/server.js:272-301 | A socket's close event is the machine's closing of that connection |
| ProcessModel.Process.TimerDue | src/server/node/server.js:385-391 | A due welcome timer is the machine's timer step |
| ProcessModel.Process.Restart | src/server/node/server.js:58-81 | Ending the process and starting it on its file is the machine's restart |
| Effects.HandleDb | src/server/node/server.js:303-549 | Every packet changes the database by exactly the one operation it asks for |
| Effects.HandleSessions | src/server/node/server.js:339-376 | Only a successful authentication touches the sessions map or the identity, and it maps the user to this connection |
| Effects.HandleInOrder | src/server/node/server.js:404-513 | All a packet sends is in order: replies to its own connection, the rest to online users, group packets to members; every packet is the system's or the sender's own doing; no chat packet is from a banned user, nor about a group its sender is banned from; only existing groups are listed |
| Broadcast.GroupBroadcastExact | src/server/node/server.js:434-463 | An accepted post gives each online member but the sender one message, and directly after it a mention exactly if '@' and their name occur in it; without a text it gives the first of them one message (none if the sender has admin rights); nobody else gets anything |
| Broadcast.AllServedExactly | src/server/node/server.js:434-463 | Every member an accepted post is due to gets something exactly if it has a text or is due to at most one (to none, if the sender has admin rights) |
| Broadcast.SystemMessageExact | src/server/node/server.js:242-257 | A system message reaches each online member once and no one else |
| Broadcast.StatusExact | src/server/node/server.js:583-589 | A status change is told to every other online user, once |
| Broadcast.LoginResponseExact | src/server/node/server.js:327-353 | An accepted login is answered with the account's id, name, admin flag and exactly its groups, each once under its name, and told once to every other online user with the key just given or else the stored one; any other login is answered with an error at most and told to no one |
| Broadcast.RegistrationResponseExact | src/server/node/server.js:355-382 | An accepted registration is answered with the new id, no admin flag and exactly the groups with a default name, and told once to every other online user with the key given |
| Broadcast.BanAnnounced | src/server/node/server.js:470-481 | /ban bans and removes its target, tells them once if online, and tells each remaining online member of the group once, nobody else |
| Broadcast.JoinSplit | src/server/node/server.js:466-468 | Joining the words of any text with single spaces gives it back |
| Requests.LoginExact | src/server/node/server.js:327-353 | A login is carried out exactly if the name is an account's, the password's hash is the stored one and the account is not banned; the connection is then that account's, its key replaced by the one given, the answer and the others' notices exact; else nothing changes and the reason is answered, unless the password is absent |
| Requests.RegistrationRefusedExact | src/server/node/server.js:355-395 | A wrong invite, a banned, reserved or taken name is answered in this order and changes nothing; an absent password does nothing |
| Requests.RegistrationExact | src/server/node/server.js:355-391 | Any other registration stores an account without admin rights under a new id with the key given, joins it with an empty key to exactly the groups with a default name, logs the connection in, schedules a welcome, and is answered and told exactly |
| Requests.KeyRequestExact | src/server/node/server.js:398-402 | A key request is answered once to whoever asks, with the id asked for and the key of the account with that id, or none, and does nothing else |
| Requests.DirectMessageExact | src/server/node/server.js:404-419 | A direct message reaches exactly the recipient's connection under the sender's own id and name, stamped with its time or the clock's; a banned sender is told so; else nothing is done |
| Requests.RelaysExact | src/server/node/server.js:551-580 | A relay passes one packet, marked as the sender's own, to exactly the target's connection, if the sender is logged in and the target online, and does nothing else |
| Requests.PostRefusedExact | src/server/node/server.js:421-432 | Who is logged in and may not post is told why, who is not logged in gets nothing, and nothing else is done |
| Requests.PostExact | src/server/node/server.js:434-463 | Anything but an admin's text that begins with a slash gives each online member but the sender one message, with the time given or the clock's, and after it one mention exactly if '@' and their name occur in the text, and nothing to anyone else; only the log and the clock change |
| Requests.ContainsExact | src/server/node/server.js:454 | includes is true exactly if the text is something, the pattern, and something |
| Requests.CreateExact | src/server/node/server.js:515-522 | A creation makes a group under a new id with the asker its owner and only member, answered with that id and the name asked for; a banned asker is told so |
| Requests.JoinExact | src/server/node/server.js:524-531 | An accepted join stores exactly the key given as the asker's entry, exactly if the group exists, and changes no other entry; who is banned from the group is told so |
| Requests.RenameExact | src/server/node/server.js:533-540 | An admin's renaming of an existing group changes its name alone and is announced once to each of its online members |
| Requests.DeleteExact | src/server/node/server.js:542-549 | An admin's deletion takes away exactly the group and its table, and nothing is said |
| Requests.PingExact | src/server/node/server.js:319 | A ping is answered to anyone, and does nothing else |
| Requests.IgnoredExact | src/server/node/server.js:303-325 | A number that is no request's, and a body that does not parse, do nothing |
| Requests.NullBodyExact | src/server/node/server.js:303-325 | The body null is treated as any record by a ping and by a banned sender's post or creation, and as nothing elsewhere |
| Commands.BanExact | src/server/node/server.js:470-481 | "/ban name", in any case of letters and whatever follows: bans exactly the named account's user and takes out exactly their entry in this group; they are told, if online, and then each online member left; an unknown name does nothing |
| Commands.UnbanExact | src/server/node/server.js:482-487 | "/unban name" lifts exactly the named user's ban and announces it to this group |
| Commands.GroupBanExact | src/server/node/server.js:488-496 | "/gban general name" bans the named user from the first group named general, takes out exactly their entry there, and announces it to this group; any other group word, unknown name or lack of such a group does nothing |
| Commands.KickExact | src/server/node/server.js:497-502 | "/kick", whatever follows, takes exactly the sender's entry out of the first group named general and tells the sender |
| Commands.HelpExact | src/server/node/server.js:503-505 | "/help" announces the list of commands to this group and does nothing else |
| Commands.BroadcastDeliversText | src/server/node/server.js:506-511 | "/broadcast text" delivers exactly the text, spaces kept, after the marker, once to every online member of the first group named general and to no one else; without a text or such a group, nothing |
| Commands.BareCommandExact | src/server/node/server.js:466-513 | A command that needs words after it and has none does nothing |
| Commands.ShortGroupBanExact | src/server/node/server.js:488-489 | "/gban" with one word does nothing |
| Commands.UnknownCommandExact | src/server/node/server.js:466-513 | An admin's text that begins with a slash and no known command does nothing, and is not posted |
| Welcoming.WelcomeExact | src/server/node/server.js:384-391 | A timer that fires greets its user by name in exactly the groups where they have a non-empty key by then: one message, naming the group, to each online member and nothing else to anyone; the timer is spent |
| Welcoming.NewcomerUnwelcomed | src/server/node/server.js:384-391 | After a registration, and whatever happens but a join of the newcomer's with a key, restarts included, their timer does nothing at all |
| Chunking.CutIndependent | src/server/node/server.js:286-325 | Every cutting of the bytes sent on a connection ends in the same database, file, sessions, connection, leftover and packets sent |
| Chunking.OnDataIsARun | src/server/node/server.js:286-294 | onData is a run of the state machine, so its theorems hold of the server fed with bytes |
| Chunking.HistoryIsARun | src/server/node/server.js:263-301 | Every history of connections, chunks, closings, timers and restarts is a run of the state machine |
| Invariants.StepKeeps | src/server/node/server.js:263-589 | Every step keeps the database well-formed, saved, with bans and memberships apart, and sessions leading to known connections |
| Invariants.RunKeeps | src/server/node/server.js:263-589 | So does every run |
| Invariants.BootGood | src/server/node/server.js:58-104 | The server starts well on every well-formed stored database |
| Invariants.EmptyStoreWellFormed | src/server/node/server.js:60-61 | The database without a file is well-formed |
| Invariants.RestartLosesNothing | src/server/node/server.js:66-81 | A restart at any event boundary of any run gives exactly the seeded form of the data in memory; connections, sessions and timers are gone |
| Safety.StepDelivers | src/server/node/server.js:242-589 | Every delivery of every step is to an online user, of group packets to a member, of chat packets from the system or an unbanned user not banned from their group, and lists only groups that exist |
| Safety.StepInOrder | src/server/node/server.js:242-589 | Everything a step sends is a reply on its own connection or routed to an online user, and is the system's doing or that of the user whose connection it is |
| Safety.GroupBanHolds | src/server/node/server.js:421-432 | Once banned from a group, in every later state: banned, no member, addressed none of its messages, mentions or announcements, and the sender of none |
| Safety.DeletedGroupStaysDead | src/server/node/server.js:542-549 | After a group is deleted, in every later state its id names no group or table, and no message, mention, announcement, group list or creation carries it; only the answer to an attempt to join it may |
| Safety.JoinAnsweredExactly | src/server/node/server.js:524-531 | A join is answered ok exactly if the sender is logged in and not banned from the group, and makes them a member exactly if the group then exists |
| Safety.BanLiftedOnlyByUnban | src/server/node/server.js:482-487 | A step lifts a global ban exactly when it carries out an /unban of that user |
| Safety.GlobalBanHolds | src/server/node/server.js:327-432 | A banned user who is offline stays banned and offline, nothing is routed to them and no message or mention is from them, in every run without an /unban of them |
| Safety.GoneIsCutOff | src/server/node/server.js:327-580 | If no open connection is logged in as them either, then in every such run none becomes so, and no packet of any kind, relays, status and replies included, is their doing or sent to them |
| Bans.BanTotalExactly | src/server/node/server.js:286-580 | A banned offline user is cut off in this sense exactly if no open connection is logged in as them, whatever parts of packets they have received, provided someone is online or theirs are not out of step |
| Bans.OpenConnectionAnswered | src/server/node/server.js:286-319 | However much of a packet an open connection of a banned user has received, some further bytes on it are answered, unless a wrong version byte has put it out of step |
| Bans.ClosingIsTold | src/server/node/server.js:296-301 | Closing an open connection of a banned offline user sends whoever is online a packet in that user's name |
| Routing.RoutingSound | src/server/node/server.js:296-343 | In every run, a session entry whose connection authenticated once leads to an open connection logged in as exactly that user |
| Routing.AuthenticationKeepsSoundExactly | src/server/node/server.js:339-376 | Authenticating a connection keeps the table sound exactly when it was not still serving another user |
| Routing.OtherStepsKeepSound | src/server/node/server.js:296-301 | Every other step, closings in any order included, keeps a sound table sound |
| Routing.CloseKeepsCoveredExactly | src/server/node/server.js:296-301 | Call a user with an open connection reached if their entry leads to an open connection logged in as them. Closing a connection keeps everyone reached exactly if it was not logged in or its user has no other |
| Routing.AuthenticationKeepsCoveredExactly | src/server/node/server.js:339-376 | Logging a connection in keeps everyone reached exactly if it does not take it, as the one their entry leads to, from another user who has a further one |
| Routing.StepKeepsCoveredExactly | src/server/node/server.js:296-376 | Any step keeps everyone reached exactly if it is neither such a closing nor such a login |
| Routing.CoveredExactly | src/server/node/server.js:296-376 | A run keeps every user with an open connection reached throughout exactly if none of its steps closes one of a user's several connections or logs the one their entry leads to in as someone else |
| Addressing.SoundThroughoutExactly | src/server/node/server.js:296-376 | Every entry leads to an open connection of its own user throughout a run exactly if the run never logs in as someone else a connection that its user's entry leads to |
| Addressing.RoutedReachesAddressee | src/server/node/server.js:242-589 | Where every entry does, whatever a step routes to a user is written on an open connection logged in as that user |
| Addressing.ShownOnlyByLeak | src/server/node/server.js:242-463 | A packet about a group is written on a connection of a user's only if some member's entry leads there |
| Addressing.AnnouncementShownExactly | src/server/node/server.js:242-257 | An announcement in a group is written on a connection of a user's exactly if some member's entry leads there |
| Addressing.GroupBanEndToEnd | src/server/node/server.js:421-463 | In every run that keeps every entry leading to its own user, no packet about a group is written on a connection logged in as a user banned from it |
| Presence.CloseExact | src/server/node/server.js:296-301 | Closing an open connection logged in as a user ends their entry and sends every other online user one UserOffline with their id, the connection's name and their key, and nothing else to anyone; closing one that is nobody's does neither |
| Presence.BecomesByLogin | src/server/node/server.js:327-343 | A connection becomes an existing user's only by handling a login with their name and a password of the hash stored for them, not banned |
| Presence.LoginBecomes | src/server/node/server.js:327-343 | And it does by every such login |
| Presence.IdentityEarned | src/server/node/server.js:327-343 | Over whole runs, a connection that ends up as an existing user's handled such a login at some step |
| Presence.AccountLasts | src/server/node/server.js:159-183 | After any run, restarts included, a login under an account's name makes the connection its user, with its id and rights, exactly for a password of the hash stored at the start and while not banned, and is otherwise answered with the reason and changes nothing |
| Presence.AdminOfEmptyStore | src/server/node/server.js:83-91 | A server started on the empty store has exactly one account: TheNull's, with the set password's hash and admin rights; nobody is banned |
| Presence.SeededHasGeneral | src/server/node/server.js:94-102 | After seeding, whatever was stored, there is a general group for the commands to find |
| Presence.RunKeepsNames | src/server/node/server.js:339-376 | In every run, a logged-in connection's username is that of its user, so messages carry their sender's name |
| Presence.KeyServedUntilNext | src/server/node/server.js:139-150 | After a login that gives a key, whatever happens, restarts included, any connection that asks for that user's key is answered with it once, until a login of theirs gives another |
| Growth.PlainPacketOwn | src/server/node/server.js:327-531 | A packet on a connection without admin rights only adds to the database and changes only its own user's key and entries |
| Growth.PlainRunGrows | src/server/node/server.js:327-549 | Without packets on admin connections, every run only grows the database and changes no ban list |
| Growth.PlainRunLeavesOthers | src/server/node/server.js:327-549 | Over such runs a user as whom no packet's handling ends keeps their account, key and entry in every member table there was |
| Rights.AdminOnlyByLogin | src/server/node/server.js:339-342 | A connection gains admin rights exactly by an accepted login to an account that has them |
| Rights.RightsMatchExactly | src/server/node/server.js:339-376 | Connections' admin flags are their accounts' after a step exactly if it does not accept a registration on a connection with admin rights |
| Rights.RightsMatchThroughoutExactly | src/server/node/server.js:339-376 | Throughout a run every connection has exactly its own account's rights, exactly if the run holds no such registration |
| Rights.WithoutAdminLoginOnlyGrowth | src/server/node/server.js:327-549 | As long as no one logs in to an admin account, whatever users send only grows the database |
| Witnesses.RoutingCanFail | src/server/node/server.js:339-376 | A run on which an entry leads to another user's connection: two logins on one connection |
| Witnesses.CoverageCanFail | src/server/node/server.js:296-301 | A run after which a user with an open connection cannot be reached: two logins as one user, one of the connections closed |
| Witnesses.CoverageCanFailUnclosed | src/server/node/server.js:339-376 | A run without a closing after which a user has an open connection and their entry leads to another user's: two logins as one user, then a login as another on the second connection |
| Witnesses.GroupBanCanLeak | src/server/node/server.js:440-463 | A run after which a message to a group is written on a connection logged in as a user banned from it |
| Witnesses.DeliveryCanStall | src/server/node/server.js:447-462 | A run after which a post without a text is due to a member who gets nothing |
| Witnesses.BanCanBePartial | src/server/node/server.js:470-560 | A run after which a user is banned and offline and an offer sent on a connection still logged in as them is relayed in their name |
| Witnesses.RightsCanFail | src/server/node/server.js:355-376 | A run after which a connection has admin rights and its account none |

## Left out

- Sockets, TLS, files, Qt signals and console output: a write is an entry in the log whether or not the socket still takes it, ending a socket has no effect until the close event, and a save is one assignment, so a crash in the middle of a handler is not modelled.
- JSON text and UTF-8: bodies are bytes in the framing modules and records in the handlers, and a stored file loads back as what was saved. A file that fails to load is not modelled.
- Records whose fields have other JSON types than the handlers expect, and absent strings other than `password` and `content`, which read as empty (an absent username is the key `undefined` in JavaScript). Object prototype keys such as `constructor` are ordinary absent keys.
- JavaScript strings are sequences of Unicode characters here, not of UTF-16 units.
- Array-index-like keys, which JavaScript moves to the front of an object: ids are UUIDs, and the order of users is never used.
- The event loop: `Process` has a method per kind of callback, and every order of calling them is considered; when Node calls which is not modelled.
- Bans.BanTotalExactly: where nobody is online and all open connections of the banned user are out of step, nothing may ever come of them, and whether it does depends on who else can log in.
- Machines with 32-bit sizes: the receive loop of the client adds the header size to the announced length, which wraps there for lengths near 2^32; sizes are unbounded here.
- CppCodec.Deserialize: where the code reads past the end of its data, the outcome is named and its content is not modelled, since the language leaves it undefined.
- `Session::onReadyRead` of the C++ server: it reads the length without the byte swap that `serialize` applies, so it is not a decoder of this format.
- The blocking login and registration fast paths of the client, its sending half and its user interface.
- Cryptography, the SQL stores, the C++ server and its group manager, packaging and configuration.
