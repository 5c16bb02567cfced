# Chat rooms: server state machine and client reducers

This project models the core of a small socket chat application.

The server (`server/src/index.ts`) keeps two stores in memory:

- the global list of connected `users`;
- the `rooms` table, seeded with the room `general`. Each room holds a member list and a message history.

Three socket handlers change these stores:

- `join` creates the room on demand. Then it either reclaims a member of the same name or adds a new user.
- `sendMessage` appends to the sender's room.
- `disconnect` removes the user from the global list and from the room's member list, and keeps the room's history.

Two views are computed from the stores: the room directory (`roomsList`, `/api/rooms`) and the `roomData` snapshot.

The client (`client/src/context/ChatContext.tsx`) keeps its own state and updates it from the server's events:

- the `message` listener appends a message, or enters the "name taken" error state;
- the `roomData` listener stores a de-duplicated member list and replaces the message history;
- the `roomsList` listener stores the directory;
- `joinRoom` and `sendMessage` send requests, and `sendMessage` only sends text that is not blank.

Modules:

- `Wrappers`: `Option`, for fields that may be absent.
- `Text`: JavaScript's `trim` and `includes`, and `Number.prototype.toString` on the integers `Date.now()` returns (below 2^53).
- `ChatServer` has two layers.
  - **Values.** `Stores` is the state as a value. The step functions `JoinStep`, `SendStep` and `DisconnectStep` give the new stores and the list of emitted events, each with its audience. The handlers' properties are lemmas about these functions, and the invariant `Inv` is proved to be kept by every handler.
  - **Objects.** The class `Server` holds the state the way the program does, as mutable `User` objects. The same object sits in the global list and in its room's member list, so an update through one list is seen through the other. A ghost map `people` records the current fields of every user object. Each handler method is proved to produce exactly what its step function says.
- `ChatClient`: the client's state cells as the fields of a `Client` object, and the pure de-duplication and normalisation functions its listeners use.

Facts established along the way:

- **The rename branch of `join` never runs.** The member's previous name is read from the entry that was just matched by that very name, so it always equals the requested name. Neither the branch nor the history rewrite is ever reached (`RenameBranchUnreachable`, `JoinKeepsHistory`). As a consequence, no user's display name ever differs from its original name, and neither does any stored message's (`NamesCurrent`, `RoomInv`). So the `originalUsername || username` fallback never changes a snapshot that the server sends (`SnapshotShowsStoredHistory`).
- **The reclaim's global lookup is not confined to the room.** It matches by name across all rooms. A reclaim in one room therefore also hands the new socket id to a user of the same name in another room (`JoinReclaims`).
- **The client's "already taken" error path is reachable, though the server never refuses a name.**
  - The server's own join notice trips it when the joining user's name contains "already taken" (`JoinNoticeCanReadAsRefusal`).
  - An ordinary message trips it when its sender chose the name `System` and the text contains "already taken" (`PostFromUserNamedSystemReadsAsRefusal`).

## Model

| member | source | states |
|---|---|---|
| Text.Trim | client/src/context/ChatContext.tsx:147 | `trim` leaves the slice of the text after its leading white space; everything it drops before and after that slice is white space, the slice has no white space at either end, and it is empty exactly when the text is all white space |
| Text.LeadingSpace | client/src/context/ChatContext.tsx:147 | the leading run of white space is the longest one: everything before it is space and the next character, if any, is not |
| Text.TrailingSpace | client/src/context/ChatContext.tsx:147 | the trailing run of white space is the longest one: everything after it is space and the character before it, if any, is not |
| Text.Contains | client/src/context/ChatContext.tsx:67 | `includes` is true exactly when the pattern occurs at some position of the text |
| Text.DecimalString | server/src/index.ts:130 | `Date.now().toString()` gives decimal digits without leading zeros that denote the instant |
| ChatServer.User.constructor | server/src/index.ts:115-120 | a new user object carries the given id, name, room and original name |
| ChatServer.IndexOf | server/src/index.ts:83-88 | `findIndex` gives the first entry whose compared field matches, or -1 exactly when no entry matches |
| ChatServer.FindIndex | server/src/index.ts:219 | the scan over the live objects returns the same index that `IndexOf` gives on their recorded fields |
| ChatServer.RemoveAt | server/src/index.ts:229 | `splice(i, 1)` removes exactly entry `i`, keeps the order of the rest, and the multiset loses just that entry |
| ChatServer.Directory | server/src/index.ts:175-178 | one directory entry per listed room name, in the same order, each carrying that room's member count |
| ChatServer.DirectoryListsEachRoomOnce | server/src/index.ts:58-61 | the directory names every room of the table exactly once and no other name, each with its current member count |
| ChatServer.DistinctKeysCount | server/src/index.ts:254-257 | a duplicate-free list of exactly the table's keys has as many entries as the table has rooms |
| ChatServer.WithOriginal | server/src/index.ts:154-157 | an empty original name falls back to the display name; a message with a non-empty one is unchanged; no other field changes |
| ChatServer.ProjectMessages | server/src/index.ts:168-171 | the snapshot's history has the stored history's length and order, with the fallback applied to each message |
| ChatServer.ProjectionKeepsConsistentHistory | server/src/index.ts:210-213 | when every stored message's display and original names agree, the snapshot shows the history exactly as stored |
| ChatServer.MemberInfos | server/src/index.ts:149-153 | a snapshot lists the members in order with id, name and original name, and with the room only when whole objects are sent |
| ChatServer.RoomDataOf | server/src/index.ts:147-158 | a `roomData` payload for the named room, with one entry per member and one per message |
| ChatServer.Profiles | server/src/index.ts:163-167 | the members' fields as they are at the moment the snapshot is taken, in member order |
| ChatServer.ProfilesOf | server/src/index.ts:205-209 | the members' fields as the ghost record holds them, in member order |
| ChatServer.Snapshot | server/src/index.ts:241-248 | the snapshot of a room on the stores lists as many members and messages as the room holds |
| ChatServer.SystemNotice | server/src/index.ts:129-135 | a server notice is authored by `System` under both names, carries no sender id, and is stamped with the handler's instant |
| ChatServer.RenameAuthor | server/src/index.ts:102-111 | the rewrite shows every message of the previous original author under the new name and leaves the other messages alone |
| ChatServer.Initial | server/src/index.ts:47-54 | the starting stores, with no users and only `general`, satisfy the invariant |
| ChatServer.Newcomer | server/src/index.ts:83-90 | `join` adds a new user exactly when the room is missing or none of its members shows the requested name |
| ChatServer.EnsureRoom | server/src/index.ts:74-80 | after the on-demand creation the room exists |
| ChatServer.EnsureRoomKeepsInv | server/src/index.ts:74-80 | creating a missing room keeps the invariant, and the directory stays free of duplicates |
| ChatServer.Reassigned | server/src/index.ts:93-97 | reassigning a user's socket id and name touches only that user; when the name does not change, only its id changes |
| ChatServer.Reclaimed | server/src/index.ts:90-112 | the reclaim branch creates no user object and no room: the global list, the directory, the set of rooms, the set of user objects and the room's member list all stay as they are |
| ChatServer.Admitted | server/src/index.ts:113-123 | the new-user branch appends exactly the new object to the global list, records it with the socket id, the room, and the name as both display and original name, and adds no room |
| ChatServer.Joined | server/src/index.ts:72-123 | after `join` the room exists and every one of its members is a known user object |
| ChatServer.JoinStep | server/src/index.ts:70-181 | the stores after the `join` handler are those of `Joined`, the other half of the handler being its five emissions |
| ChatServer.Caller | server/src/index.ts:185 | `users.find` by socket id gives the first listed user holding that id, whose room exists, or nothing exactly when no user holds it |
| ChatServer.PostBy | server/src/index.ts:188-195 | the stored message carries the text, the sender's display and original names, the socket id, the instant, and an id whose decimal digits denote that instant |
| ChatServer.Posted | server/src/index.ts:184-197 | `sendMessage` changes no user, no list of users, the directory or the set of rooms: only a history can change |
| ChatServer.WelcomeText | server/src/index.ts:131 | the greeting names the room at its fixed position after "Welcome to ", and the user right after " room, " |
| ChatServer.JoinedText | server/src/index.ts:140 | the join notice starts with the joining user's name and says more than the name |
| ChatServer.SendStep | server/src/index.ts:184-216 | the stores after the `sendMessage` handler are those of `Posted` |
| ChatServer.Disconnected | server/src/index.ts:218-251 | `disconnect` changes no user's fields, the directory or the set of rooms, and the global list loses one entry exactly when some user holds the socket |
| ChatServer.LeftText | server/src/index.ts:234 | the leave notice starts with the leaving user's name and says more than the name |
| ChatServer.DisconnectStep | server/src/index.ts:218-260 | the stores after the `disconnect` handler are those of `Disconnected` |
| ChatServer.IdsOnlyKeepsInv | server/src/index.ts:93-97 | handing users new socket ids, and changing nothing else, keeps the invariant |
| ChatServer.AdmitKeepsInv | server/src/index.ts:113-123 | pushing a fresh user with an unused name onto both lists keeps the invariant |
| ChatServer.RemoveAtKeepsDistinctNames | server/src/index.ts:225-230 | removing a member keeps the room's member names pairwise distinct |
| ChatServer.ReclaimChangesIdsOnly | server/src/index.ts:90-112 | the reclaim branch changes only socket ids: every user keeps its name, room and original name, and the room table is unchanged |
| ChatServer.ReclaimKeepsInv | server/src/index.ts:90-112 | the reclaim branch keeps the invariant: only socket ids change |
| ChatServer.JoinKeepsInv | server/src/index.ts:70-123 | `join` keeps the invariant, in particular that member names are pairwise distinct within each room |
| ChatServer.SendKeepsInv | server/src/index.ts:184-197 | `sendMessage` keeps the invariant |
| ChatServer.DisconnectKeepsInv | server/src/index.ts:218-251 | `disconnect` keeps the invariant |
| ChatServer.JoinCreatesRoomOnDemand | server/src/index.ts:74-80 | after `join` the room exists; an existing room keeps its members (plus a newcomer), a new one starts empty and goes to the end of the directory, and every other room is unchanged |
| ChatServer.JoinKeepsHistory | server/src/index.ts:92-111 | `join` never changes any room's history, and a room it creates starts with none |
| ChatServer.RenameBranchUnreachable | server/src/index.ts:83-101 | the matched member's previous name always equals the requested name, so the rename rewrite is never taken |
| ChatServer.JoinAddsNewcomer | server/src/index.ts:113-123 | with a new name, exactly one user is appended to both lists, with the socket id, the room, and the name as both display and original name |
| ChatServer.JoinReclaims | server/src/index.ts:83-98 | with a taken name, the lists stay as they are; the matched member and the first user of that name in any room get the socket id; nothing else changes |
| ChatServer.SendFromUnknownSocket | server/src/index.ts:185-187 | a message from a socket no user holds changes nothing and sends nothing |
| ChatServer.SendAppendsOneMessage | server/src/index.ts:184-197 | a known sender's room gets exactly one message at the end, with the sender's names, the socket id, the text and the instant; every other room, the users and the directory stay as they are |
| ChatServer.DisconnectFromUnknownSocket | server/src/index.ts:219-221 | a disconnect of a socket no user holds changes nothing and sends nothing |
| ChatServer.RemoveAtKeepsOthers | server/src/index.ts:251 | a splice keeps every other entry and adds none |
| ChatServer.DisconnectKeepsRooms | server/src/index.ts:218-251 | a disconnect deletes no room, keeps the directory, and keeps every room's history |
| ChatServer.DisconnectRemovesUser | server/src/index.ts:219-251 | a disconnect removes exactly the first user holding the socket from the global list, and from that user's room exactly the first member holding the socket, when there is one, keeping every member that holds another socket; other rooms are unchanged |
| ChatServer.RoomsOnlyGrowOnJoin | server/src/index.ts:48-54 | `join` loses no room, `general` always exists, and the directory only grows at its end |
| ChatServer.SnapshotShowsStoredHistory | server/src/index.ts:147-172 | a snapshot lists the room's history exactly as stored and the members' current names, pairwise distinct |
| ChatServer.ProfilesAgree | server/src/index.ts:121-122 | the fields read off the shared user objects are the ones the ghost record holds |
| ChatServer.Server.constructor | server/src/index.ts:46-54 | the server starts with no users and the single empty room `general`, satisfying the invariant |
| ChatServer.Server.ListRooms | server/src/index.ts:58-61 | the directory lists each room once, as many entries as rooms, each with its member count |
| ChatServer.Server.RoomSnapshot | server/src/index.ts:147-172 | the snapshot read off the live objects equals the one computed on the stores, with the stored history and distinct member names |
| ChatServer.Server.OpenRoom | server/src/index.ts:74-80 | the room table becomes `EnsureRoom` of the old one, and the invariant is kept |
| ChatServer.Server.Reclaim | server/src/index.ts:90-112 | the reclaim branch, carried out on the shared objects, yields the stores `Reclaimed` describes |
| ChatServer.Server.HandOver | server/src/index.ts:93-98 | the matched member, and then the globally matched user, take the socket id and name; every other object keeps its fields |
| ChatServer.Server.RewriteHistory | server/src/index.ts:100-112 | the room's history is rewritten only when the previous name differs from the requested one; nothing else changes |
| ChatServer.Server.Rebind | server/src/index.ts:93-94 | assigning id and name to one object changes that object's fields and no other object's |
| ChatServer.Server.Admit | server/src/index.ts:113-123 | a fresh user object is pushed onto the global list and onto the room's list, as `Admitted` describes |
| ChatServer.Server.Enter | server/src/index.ts:72-123 | the state change of `join` yields `Joined` of the old stores, keeps the invariant, and creates an object exactly for a newcomer |
| ChatServer.Server.Join | server/src/index.ts:70-181 | the `join` handler yields the stores and emissions `JoinStep` gives, and keeps the invariant |
| ChatServer.Server.SendMessage | server/src/index.ts:184-216 | the `sendMessage` handler yields the stores and emissions `SendStep` gives, and keeps the invariant |
| ChatServer.Server.Leave | server/src/index.ts:222-251 | the two splices of `disconnect` yield the stores `Disconnected` describes |
| ChatServer.Server.Disconnect | server/src/index.ts:218-260 | the `disconnect` handler yields the stores and emissions `DisconnectStep` gives, and keeps the invariant |
| ChatClient.FromServer | client/src/context/ChatContext.tsx:10-16 | a server message reaches the client with its text, author and original author |
| ChatClient.FindByUsername | client/src/context/ChatContext.tsx:90 | `find` gives a member showing the name, and finds one exactly when some member shows it |
| ChatClient.UniqueUsers | client/src/context/ChatContext.tsx:89-95 | the de-duplicated member list is no longer than the input and shows each name at most once |
| ChatClient.FirstIndices | client/src/context/ChatContext.tsx:89-95 | reference: the increasing positions at which a name occurs for the first time |
| ChatClient.FirstIndicesComplete | client/src/context/ChatContext.tsx:89-95 | every first occurrence of a name is among those positions |
| ChatClient.UniqueUsersNames | client/src/context/ChatContext.tsx:89-95 | the de-duplicated list shows a name exactly when the input shows it: no name is lost or invented |
| ChatClient.UniqueUsersIsFirstOccurrences | client/src/context/ChatContext.tsx:89-95 | the de-duplicated list is exactly the input's first occurrences of each name, in input order |
| ChatClient.UniqueUsersIsSubsequence | client/src/context/ChatContext.tsx:89-95 | the de-duplicated list is a subsequence of the input |
| ChatClient.UniqueUsersOfDistinct | client/src/context/ChatContext.tsx:89-95 | a member list that already shows each name once passes through unchanged |
| ChatClient.WithOriginal | client/src/context/ChatContext.tsx:74-77 | a missing or empty original name falls back to the display name; a non-empty one is kept; no other field changes |
| ChatClient.WithOriginalAll | client/src/context/ChatContext.tsx:100-104 | the normalised history has the event's length and order, with each message normalised |
| ChatClient.IsTakenNotice | client/src/context/ChatContext.tsx:65-68 | a message reads as a refusal exactly when its author is `System` and "already taken" occurs somewhere in its text |
| ChatClient.JoinNoticeCanReadAsRefusal | client/src/context/ChatContext.tsx:65-71 | the server's join notice for a name containing "already taken" is read as a refusal |
| ChatClient.PostFromUserNamedSystemReadsAsRefusal | client/src/context/ChatContext.tsx:65-71 | a chat message from a user named `System` whose text contains "already taken" is read as a refusal |
| ChatClient.Client.constructor | client/src/context/ChatContext.tsx:44-51 | every state cell starts empty and there is no error |
| ChatClient.Client.ClearError | client/src/context/ChatContext.tsx:53 | the error is cleared and nothing else changes |
| ChatClient.Client.OnMessage | client/src/context/ChatContext.tsx:64-83 | a refusal sets the error to its text and clears name and room, keeping the history; any other message is appended, normalised, at the end, and nothing else changes |
| ChatClient.Client.OnRoomData | client/src/context/ChatContext.tsx:85-109 | the member list becomes the de-duplicated one; a message list, when present, replaces the history wholesale, normalised; the rest is unchanged; member names stay distinct |
| ChatClient.Client.OnRoomsList | client/src/context/ChatContext.tsx:111-116 | the directory becomes the one sent, and nothing else changes |
| ChatClient.Client.JoinRoom | client/src/context/ChatContext.tsx:137-144 | name and room are stored, and a join request is sent exactly when a socket exists |
| ChatClient.Client.SendMessage | client/src/context/ChatContext.tsx:146-150 | the text is sent as typed exactly when a socket exists and the text is not all white space |

## Left out

- Transport. The Express app, the HTTP server, socket.io, CORS, `dotenv`, `listen` and console logging are not modelled. Neither are the GET `/api/rooms` route wiring (only the list it computes is modelled) and `socket.join`. Emitted events are returned as values with their audience; they are never delivered.
- Time. `Date.now()` is a parameter, `now`, and a handler uses the same instant for all its calls. Message ids are its decimal rendering, so they are not unique, and the model does not claim they are.
- Socket ids. They are parameters. The server sees the caller's id as `sid`.
- JavaScript object keys. Key order, the integer-like-key ordering quirk and prototype keys such as `__proto__` are not modelled. The directory order is modelled as insertion order. `!rooms[room]` is modelled as "no such key".
- Text.DecimalString: renders exactly the digits of any natural number. JavaScript's `toString` switches to exponent form from 1e21 and rounds digits above 2^53, but `Date.now()` never reaches those values.
- Strings are sequences of code points, not UTF-16 code units. `trim` follows ECMAScript's white-space and line-terminator set.
- Spread fields that pass through unnamed. A stored server message keeps `userId`. When the client spreads an incoming message, it copies any extra field, such as `userId`. The client's `Message` keeps only the fields its interface declares.
- ChatClient.User: the `room` field is always present. The server's `join` and `sendMessage` snapshots send members without `room`, and the client leaves it undefined.
- ChatClient.Incoming: only `originalUsername` is modelled as possibly absent. The client treats an absent or empty value the same way, so `null` and `undefined` are one case, `None`.
- The React lifecycle: `useEffect`, socket construction, the `fetch` of `/api/rooms`, the `connect`/`disconnect` flags (`isConnected`), `setUsername`/`setCurrentRoom` as exposed setters, and the context provider. Whether a socket exists is fixed when the `Client` is built.
- `client/src/components/Chat.tsx`, `client/src/components/Login.tsx` and `client/src/App.tsx` are not part of this model. They do rendering, navigation and styling.
- Concurrency. Each handler runs to completion on one event loop, so each is one method.
- ChatServer.Server.Join: the ghost out-parameter `created` is the new user object for a newcomer. In the reclaim case it is the matched member and plays no role.
- ChatServer.Server.Leave: the room's member list is reassigned even when no member holds the socket. The value it is given is the old list, so the stores are the same.
