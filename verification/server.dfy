/**
 * The chat server's in-memory state machine: the global user list, the room
 * table, and the three socket handlers `join`, `sendMessage` and `disconnect`
 * that change them. Each handler runs to completion before the next one starts,
 * so each is one method. What a handler sends over the socket is returned as a
 * list of emissions instead of being transmitted.
 *
 * The module has two layers. `Stores` is the state as a value, and `JoinStep`,
 * `SendStep` and `DisconnectStep` say what each handler does to it; the
 * properties of the handlers are lemmas about those functions. The class
 * `Server` holds the state the way the program does, as mutable user objects
 * shared between lists, and each of its methods is proved to do exactly what
 * the matching step function says.
 */
module ChatServer {
  import opened Wrappers
  import opened Text

  /**
   * A user entry. The very same object is pushed onto the global list and onto
   * its room's member list, so an update through one list is seen through the
   * other. `room` and `originalUsername` are never reassigned.
   */
  class User {
    var id: string
    var username: string
    const room: string
    const originalUsername: string

    constructor (id: string, username: string, room: string, originalUsername: string)
      ensures this.id == id && this.username == username
      ensures this.room == room && this.originalUsername == originalUsername
    {
      this.id := id;
      this.username := username;
      this.room := room;
      this.originalUsername := originalUsername;
    }

  }

  /** The fields of one user object at one moment. */
  datatype Profile = Profile(id: string, username: string, room: string, originalUsername: string)

  function Current(u: User): Profile
    reads u
  {
    Profile(u.id, u.username, u.room, u.originalUsername)
  }

  /** A chat message. System notices carry no `userId`. */
  datatype Message = Message(
    id: string,
    text: string,
    username: string,
    timestamp: int,
    originalUsername: string,
    userId: Option<string>)

  datatype Room = Room(name: string, users: seq<User>, messages: seq<Message>)

  /**
   * The two stores as a value. User objects appear by identity in `users` and in
   * each room's member list; `people` holds the current fields of every user
   * object the server has created. `order` lists the room names in the order
   * they were inserted, the order `Object.keys` reports them in.
   */
  datatype Stores = Stores(users: seq<User>, rooms: map<string, Room>, order: seq<string>, people: map<User, Profile>)

  /** One entry of the room directory sent as `roomsList`. */
  datatype RoomEntry = RoomEntry(name: string, userCount: nat)

  /** A member as listed in `roomData`; `room` is present only when the user object is sent whole. */
  datatype MemberInfo = MemberInfo(id: string, username: string, originalUsername: string, room: Option<string>)

  /** Who receives an emission: the calling socket, the rest of a room, a whole room, or every socket. */
  datatype Audience = Sender | OthersInRoom(room: string) | WholeRoom(room: string) | Everyone

  datatype Payload =
    | ChatMessage(message: Message)
    | RoomData(room: string, users: seq<MemberInfo>, messages: seq<Message>)
    | RoomsList(rooms: seq<RoomEntry>)

  datatype Emission = Emission(to: Audience, payload: Payload)

  /** The stores after a handler, and what it sent. */
  datatype Outcome = Outcome(after: Stores, out: seq<Emission>)

  /** The field a `findIndex`/`find` scan compares. */
  datatype Key = ByUsername | ById

  function KeyOf(p: Profile, key: Key): string {
    match key
    case ByUsername => p.username
    case ById => p.id
  }

  /** Every object of `s` has known fields. */
  ghost predicate Known(people: map<User, Profile>, s: seq<User>) {
    forall i :: 0 <= i < |s| ==> s[i] in people
  }

  /** The index `findIndex` returns: the first entry whose `key` equals `value`, or -1. */
  function IndexOf(people: map<User, Profile>, s: seq<User>, key: Key, value: string): (i: int)
    requires Known(people, s)
    ensures -1 <= i < |s|
    ensures i == -1 <==> forall j :: 0 <= j < |s| ==> KeyOf(people[s[j]], key) != value
    ensures 0 <= i ==> KeyOf(people[s[i]], key) == value
    ensures forall j :: 0 <= j < i ==> KeyOf(people[s[j]], key) != value
    decreases |s|
  {
    if s == [] then -1
    else if KeyOf(people[s[0]], key) == value then 0
    else
      var k := IndexOf(people, s[1..], key, value);
      if k == -1 then -1 else k + 1
  }

  /** The `findIndex` scan itself, a left-to-right loop over the objects. */
  method FindIndex(s: seq<User>, key: Key, value: string, ghost people: map<User, Profile>) returns (i: int)
    requires forall j :: 0 <= j < |s| ==> s[j] in people && people[s[j]] == Current(s[j])
    ensures i == IndexOf(people, s, key, value)
  {
    i := 0;
    while i < |s|
      invariant 0 <= i <= |s|
      invariant forall j :: 0 <= j < i ==> KeyOf(people[s[j]], key) != value
    {
      if KeyOf(Current(s[i]), key) == value {
        return;
      }
      i := i + 1;
    }
    i := -1;
  }

  /** `splice(i, 1)`: drops the entry at `i` and keeps the others in order. */
  function RemoveAt<T>(s: seq<T>, i: nat): (r: seq<T>)
    requires i < |s|
    ensures |r| == |s| - 1
    ensures forall j :: 0 <= j < i ==> r[j] == s[j]
    ensures forall j :: i <= j < |r| ==> r[j] == s[j + 1]
    ensures multiset(r) + multiset{s[i]} == multiset(s)
  {
    assert s == s[..i] + [s[i]] + s[i + 1..];
    s[..i] + s[i + 1..]
  }

  ghost predicate NoDuplicates<T>(s: seq<T>) {
    forall i, j :: 0 <= i < j < |s| ==> s[i] != s[j]
  }

  /** The room directory: one entry per room name in `order`, with the room's member count. */
  function Directory(order: seq<string>, rooms: map<string, Room>): (r: seq<RoomEntry>)
    requires forall i :: 0 <= i < |order| ==> order[i] in rooms
    ensures |r| == |order|
    ensures forall i :: 0 <= i < |r| ==> r[i].name == order[i] && r[i].userCount == |rooms[order[i]].users|
  {
    seq(|order|, i requires 0 <= i < |order| => RoomEntry(order[i], |rooms[order[i]].users|))
  }

  function Names(d: seq<RoomEntry>): (r: seq<string>)
    ensures |r| == |d| && forall i :: 0 <= i < |d| ==> r[i] == d[i].name
  {
    seq(|d|, i requires 0 <= i < |d| => d[i].name)
  }

  /** The room table and its insertion order agree, and `general` is always there. */
  ghost predicate DirectoryShape(rooms: map<string, Room>, order: seq<string>) {
    && "general" in rooms
    && NoDuplicates(order)
    && (forall k :: k in rooms <==> k in order)
  }

  /**
   * When the room table and its order agree, the directory lists every room
   * exactly once, in insertion order, each with its current member count.
   */
  lemma DirectoryListsEachRoomOnce(rooms: map<string, Room>, order: seq<string>)
    requires DirectoryShape(rooms, order)
    ensures var d := Directory(order, rooms);
      && NoDuplicates(Names(d))
      && (forall k :: k in rooms <==> k in Names(d))
      && (forall i :: 0 <= i < |d| ==> d[i].name in rooms && d[i].userCount == |rooms[d[i].name].users|)
  {
    var d := Directory(order, rooms);
    assert Names(d) == order;
  }

  /** A duplicate-free list of exactly the keys of a map is as long as the map has keys. */
  lemma DistinctKeysCount(rooms: map<string, Room>, names: seq<string>)
    requires NoDuplicates(names) && forall k :: k in rooms <==> k in names
    ensures |names| == |rooms.Keys|
  {
    assert rooms.Keys == set k | k in names;
    DistinctCount(names);
  }

  /** A sequence without repeats has as many entries as it has distinct values. */
  lemma {:induction false} DistinctCount<T>(s: seq<T>)
    requires NoDuplicates(s)
    ensures |set x | x in s| == |s|
    decreases |s|
  {
    if s != [] {
      var init := s[..|s| - 1];
      var last := s[|s| - 1];
      assert NoDuplicates(init);
      DistinctCount(init);
      assert last !in init;
      assert (set x | x in s) == (set x | x in init) + {last};
    }
  }

  /** `msg.originalUsername || msg.username`: an empty original name falls back to the display name. */
  function WithOriginal(m: Message): (r: Message)
    ensures r.originalUsername != "" || m.username == ""
    ensures m.originalUsername == "" ==> r.originalUsername == m.username
    ensures m.originalUsername != "" ==> r == m
    ensures r == m.(originalUsername := r.originalUsername)
  {
    m.(originalUsername := if m.originalUsername == "" then m.username else m.originalUsername)
  }

  /** The message list of a `roomData` snapshot: same length and order, each with the fallback applied. */
  function ProjectMessages(ms: seq<Message>): (r: seq<Message>)
    ensures |r| == |ms|
    ensures forall i :: 0 <= i < |ms| ==> r[i] == WithOriginal(ms[i])
  {
    seq(|ms|, i requires 0 <= i < |ms| => WithOriginal(ms[i]))
  }

  /** When every message already names its author in both fields, the snapshot shows the history exactly as stored. */
  lemma ProjectionKeepsConsistentHistory(ms: seq<Message>)
    requires forall i :: 0 <= i < |ms| ==> ms[i].username == ms[i].originalUsername
    ensures ProjectMessages(ms) == ms
  {
    var r := ProjectMessages(ms);
    assert forall i :: 0 <= i < |ms| ==> r[i] == ms[i];
  }

  /** The member list of a `roomData` snapshot: one entry per member, in order; `withRoom` when the objects are sent whole. */
  function MemberInfos(ps: seq<Profile>, withRoom: bool): (r: seq<MemberInfo>)
    ensures |r| == |ps|
    ensures forall i :: 0 <= i < |ps| ==>
      && r[i].id == ps[i].id && r[i].username == ps[i].username
      && r[i].originalUsername == ps[i].originalUsername
      && r[i].room == (if withRoom then Some(ps[i].room) else None)
  {
    seq(|ps|, i requires 0 <= i < |ps| =>
      MemberInfo(ps[i].id, ps[i].username, ps[i].originalUsername, if withRoom then Some(ps[i].room) else None))
  }

  /** The `roomData` payload for room `name` with the given members and history. */
  function RoomDataOf(name: string, members: seq<Profile>, messages: seq<Message>, withRoom: bool): (p: Payload)
    ensures p.RoomData? && p.room == name
    ensures |p.users| == |members| && |p.messages| == |messages|
  {
    RoomData(name, MemberInfos(members, withRoom), ProjectMessages(messages))
  }

  /** The fields of the objects of `us`, read from the heap. */
  function Profiles(us: seq<User>): (r: seq<Profile>)
    reads us
    ensures |r| == |us| && forall i :: 0 <= i < |us| ==> r[i] == Current(us[i])
  {
    seq(|us|, i requires 0 <= i < |us| reads us => Current(us[i]))
  }

  /** The fields of the objects of `us`, looked up in `people`. */
  function ProfilesOf(people: map<User, Profile>, us: seq<User>): (r: seq<Profile>)
    requires Known(people, us)
    ensures |r| == |us| && forall i :: 0 <= i < |us| ==> r[i] == people[us[i]]
  {
    seq(|us|, i requires 0 <= i < |us| && Known(people, us) => people[us[i]])
  }

  /** The `roomData` snapshot of room `name` in `st`. */
  function Snapshot(st: Stores, name: string, withRoom: bool): (p: Payload)
    requires name in st.rooms && Known(st.people, st.rooms[name].users)
    ensures p.RoomData? && p.room == name
    ensures |p.users| == |st.rooms[name].users| && |p.messages| == |st.rooms[name].messages|
  {
    RoomDataOf(name, ProfilesOf(st.people, st.rooms[name].users), st.rooms[name].messages, withRoom)
  }

  /** A message authored by the server itself. */
  function SystemNotice(now: nat, text: string): (m: Message)
    ensures m.username == "System" && m.originalUsername == "System" && m.userId == None
    ensures m.text == text && m.timestamp == now && AllDigits(m.id) && DecimalValue(m.id) == now
  {
    Message(DecimalString(now), text, "System", now, "System", None)
  }

  /** The greeting names the room and then the user. */
  function WelcomeText(room: string, username: string): (s: string)
    ensures OccursAt(s, room, 11) && OccursAt(s, username, 11 + |room| + 7)
  {
    "Welcome to " + room + " room, " + username + "!"
  }

  /** The join notice starts with the user's name. */
  function JoinedText(username: string): (s: string)
    ensures |s| > |username| && s[..|username|] == username
  {
    username + " has joined the room"
  }

  /** The leave notice starts with the user's name. */
  function LeftText(username: string): (s: string)
    ensures |s| > |username| && s[..|username|] == username
  {
    username + " has left the room"
  }

  /**
   * The history rewrite of a rename: messages whose original author is `previous`
   * are shown under `current`. `join` only reaches it when the matched member's
   * name differs from the requested one, which a match by that name rules out.
   */
  function RenameAuthor(ms: seq<Message>, previous: string, current: string): (r: seq<Message>)
    ensures |r| == |ms|
    ensures forall i :: 0 <= i < |ms| ==>
      r[i] == (if ms[i].originalUsername == previous then ms[i].(username := current) else ms[i])
  {
    seq(|ms|, i requires 0 <= i < |ms| =>
      if ms[i].originalUsername == previous then ms[i].(username := current, originalUsername := previous) else ms[i])
  }

  /** No two members of `s` show the same name. */
  ghost predicate DistinctNames(people: map<User, Profile>, s: seq<User>)
    requires Known(people, s)
  {
    forall i, j :: 0 <= i < j < |s| ==> people[s[i]].username != people[s[j]].username
  }

  /**
   * One room as stored under `name`: it carries that name, its members are
   * known users of that room with pairwise distinct names, and every stored
   * message shows its author under the author's original name.
   */
  ghost predicate RoomInv(people: map<User, Profile>, name: string, r: Room) {
    && r.name == name
    && Known(people, r.users)
    && (forall i :: 0 <= i < |r.users| ==> people[r.users[i]].room == name)
    && DistinctNames(people, r.users)
    && (forall i :: 0 <= i < |r.messages| ==> r.messages[i].username == r.messages[i].originalUsername)
  }

  /** No user has been renamed: each shows its original name. */
  ghost predicate NamesCurrent(people: map<User, Profile>) {
    forall u :: u in people ==> people[u].username == people[u].originalUsername
  }

  /** Every listed user and every member is known, and every listed user's room exists. */
  ghost predicate Shaped(st: Stores) {
    && Known(st.people, st.users)
    && (forall i :: 0 <= i < |st.users| ==> st.people[st.users[i]].room in st.rooms)
    && (forall k :: k in st.rooms ==> Known(st.people, st.rooms[k].users))
  }

  /**
   * What every handler keeps: the directory agrees with the table, every
   * listed user is known and belongs to an existing room, every room has its
   * shape, and nobody has been renamed.
   */
  ghost predicate Inv(st: Stores) {
    && DirectoryShape(st.rooms, st.order)
    && Shaped(st)
    && (forall k :: k in st.rooms ==> RoomInv(st.people, k, st.rooms[k]))
    && NamesCurrent(st.people)
  }

  /** The stores as the server starts: no users, and the one empty room `general`. */
  function Initial(): (st: Stores)
    ensures Inv(st)
  {
    Stores([], map["general" := Room("general", [], [])], ["general"], map[])
  }

  /** Whether `join` of `username` to `room` adds a new user: nobody in the room shows that name yet. */
  predicate Newcomer(st: Stores, username: string, room: string)
    requires Shaped(st)
    ensures Newcomer(st, username, room) <==>
      room !in st.rooms || forall i :: 0 <= i < |st.rooms[room].users| ==> st.people[st.rooms[room].users[i]].username != username
  {
    room !in st.rooms || IndexOf(st.people, st.rooms[room].users, ByUsername, username) == -1
  }

  /** `if (!rooms[room]) rooms[room] = {...}`: an empty room is created on demand. */
  function EnsureRoom(st: Stores, name: string): (r: Stores)
    ensures name in r.rooms
  {
    if name in st.rooms then st
    else st.(rooms := st.rooms[name := Room(name, [], [])], order := st.order + [name])
  }

  /** User `u` takes socket id `sid` and is (re)named `username`; with its own name this changes its socket id only. */
  function Reassigned(people: map<User, Profile>, u: User, sid: string, username: string): (p: map<User, Profile>)
    requires u in people
    ensures p.Keys == people.Keys && p[u].id == sid && p[u].username == username
    ensures forall v :: v in people && v != u ==> p[v] == people[v]
    ensures people[u].username == username ==> IdsOnly(people, p)
  {
    people[u := people[u].(id := sid, username := username)]
  }

  /**
   * The reclaim branch of `join`: the member of `room` showing `username`, and
   * the first user anywhere showing that name, take socket id `sid` and are
   * (re)named `username`; if the member's name changed, the room's history is
   * shown under the new name.
   */
  function Reclaimed(st: Stores, sid: string, username: string, room: string): (r: Stores)
    requires Shaped(st) && room in st.rooms && !Newcomer(st, username, room)
    ensures r.users == st.users && r.order == st.order && r.rooms.Keys == st.rooms.Keys && r.people.Keys == st.people.Keys
    ensures r.rooms[room].users == st.rooms[room].users
  {
    var members := st.rooms[room].users;
    var ri := IndexOf(st.people, members, ByUsername, username);
    var gi := IndexOf(st.people, st.users, ByUsername, username);
    var member := members[ri];
    var previousUsername := st.people[member].username;
    var p1 := Reassigned(st.people, member, sid, username);
    var p2 := if gi != -1 then Reassigned(p1, st.users[gi], sid, username) else p1;
    var history := st.rooms[room].messages;
    var rewritten := if previousUsername != username then RenameAuthor(history, previousUsername, username) else history;
    st.(people := p2, rooms := st.rooms[room := st.rooms[room].(messages := rewritten)])
  }

  /** The other branch of `join`: the new user object `created` is pushed onto the global list and onto the room. */
  function Admitted(st: Stores, sid: string, username: string, room: string, created: User): (r: Stores)
    requires room in st.rooms
    ensures |r.users| == |st.users| + 1 && r.users[..|st.users|] == st.users && r.users[|st.users|] == created
    ensures r.rooms.Keys == st.rooms.Keys && r.order == st.order
    ensures created in r.people && r.people[created] == Profile(sid, username, room, username)
  {
    st.(users := st.users + [created],
        rooms := st.rooms[room := st.rooms[room].(users := st.rooms[room].users + [created])],
        people := st.people[created := Profile(sid, username, room, username)])
  }

  /**
   * The stores after `join`: the room is created on demand, then the member
   * showing `username` is reclaimed, or the new user `created` admitted.
   */
  function Joined(st: Stores, sid: string, username: string, room: string, created: User): (r: Stores)
    requires Shaped(st)
    ensures room in r.rooms && Known(r.people, r.rooms[room].users)
  {
    if Newcomer(st, username, room) then Admitted(EnsureRoom(st, room), sid, username, room, created)
    else Reclaimed(st, sid, username, room)
  }

  /**
   * `join` as a whole: the stores become `Joined`; the caller is welcomed, the
   * rest of the room told, both given the room's snapshot, and everybody the
   * directory.
   */
  function JoinStep(st: Stores, sid: string, username: string, room: string, now: nat, created: User): (o: Outcome)
    requires Inv(st)
    ensures o.after == Joined(st, sid, username, room, created)
  {
    var after := Joined(st, sid, username, room, created);
    RoomsOnlyGrowOnJoin(st, sid, username, room, created);
    Outcome(after, [
      Emission(Sender, ChatMessage(SystemNotice(now, WelcomeText(room, username)))),
      Emission(OthersInRoom(room), ChatMessage(SystemNotice(now, JoinedText(username)))),
      Emission(Sender, Snapshot(after, room, false)),
      Emission(WholeRoom(room), Snapshot(after, room, false)),
      Emission(Everyone, RoomsList(Directory(after.order, after.rooms)))])
  }

  /** The first user holding socket `sid`, if any: the one `users.find` returns. */
  function Caller(st: Stores, sid: string): (r: Option<Profile>)
    requires Inv(st)
    ensures r.None? <==> forall i :: 0 <= i < |st.users| ==> st.people[st.users[i]].id != sid
    ensures r.Some? ==> r.value.id == sid && r.value.room in st.rooms
    ensures r.Some? ==> exists i :: (0 <= i < |st.users| && r.value == st.people[st.users[i]]
      && forall j :: 0 <= j < i ==> st.people[st.users[j]].id != sid)
  {
    var gi := IndexOf(st.people, st.users, ById, sid);
    if gi == -1 then None else Some(st.people[st.users[gi]])
  }

  /** The message `sendMessage` stores for user `u`. */
  function PostBy(u: Profile, sid: string, text: string, now: nat): (m: Message)
    ensures m.text == text && m.username == u.username && m.originalUsername == u.originalUsername
    ensures m.userId == Some(sid) && m.timestamp == now && AllDigits(m.id) && DecimalValue(m.id) == now
  {
    Message(DecimalString(now), text, u.username, now, u.originalUsername, Some(sid))
  }

  /** The stores after `sendMessage`: the sender's message goes at the end of its room's history. */
  function Posted(st: Stores, sid: string, text: string, now: nat): (r: Stores)
    requires Inv(st)
    ensures r.users == st.users && r.people == st.people && r.order == st.order && r.rooms.Keys == st.rooms.Keys
  {
    match Caller(st, sid)
    case None => st
    case Some(u) =>
      var r := st.rooms[u.room];
      st.(rooms := st.rooms[u.room := r.(messages := r.messages + [PostBy(u, sid, text, now)])])
  }

  /**
   * `sendMessage` as a whole: from an unknown socket nothing happens;
   * otherwise the stores become `Posted` and the sender's room gets the
   * message and a fresh snapshot.
   */
  function SendStep(st: Stores, sid: string, text: string, now: nat): (o: Outcome)
    requires Inv(st)
    ensures o.after == Posted(st, sid, text, now)
  {
    match Caller(st, sid)
    case None => Outcome(st, [])
    case Some(u) =>
      var after := Posted(st, sid, text, now);
      SendKeepsInv(st, sid, text, now);
      assert RoomInv(after.people, u.room, after.rooms[u.room]);
      Outcome(after, [
        Emission(WholeRoom(u.room), ChatMessage(PostBy(u, sid, text, now))),
        Emission(WholeRoom(u.room), Snapshot(after, u.room, false))])
  }

  /**
   * The stores after `disconnect`: the first user holding `sid` leaves the
   * global list, and the first member holding `sid` in that user's room leaves
   * the room, if there is one.
   */
  function Disconnected(st: Stores, sid: string): (r: Stores)
    requires Shaped(st)
    ensures r.people == st.people && r.order == st.order && r.rooms.Keys == st.rooms.Keys
    ensures |r.users| == |st.users| - (if IndexOf(st.people, st.users, ById, sid) == -1 then 0 else 1)
  {
    var gi := IndexOf(st.people, st.users, ById, sid);
    if gi == -1 then st
    else
      var u := st.people[st.users[gi]];
      var r := st.rooms[u.room];
      var ri := IndexOf(st.people, r.users, ById, sid);
      var members := if ri == -1 then r.users else RemoveAt(r.users, ri);
      st.(users := RemoveAt(st.users, gi), rooms := st.rooms[u.room := r.(users := members)])
  }

  /**
   * `disconnect` as a whole: from an unknown socket nothing happens;
   * otherwise the stores become `Disconnected`, the rest of the room is told,
   * the room gets a snapshot listing whole user objects, and everybody the
   * directory.
   */
  function DisconnectStep(st: Stores, sid: string, now: nat): (o: Outcome)
    requires Inv(st)
    ensures o.after == Disconnected(st, sid)
  {
    match Caller(st, sid)
    case None => Outcome(st, [])
    case Some(u) =>
      var after := Disconnected(st, sid);
      DisconnectKeepsInv(st, sid);
      DisconnectKeepsRooms(st, sid);
      assert RoomInv(after.people, u.room, after.rooms[u.room]);
      Outcome(after, [
        Emission(OthersInRoom(u.room), ChatMessage(SystemNotice(now, LeftText(u.username)))),
        Emission(WholeRoom(u.room), Snapshot(after, u.room, true)),
        Emission(Everyone, RoomsList(Directory(after.order, after.rooms)))])
  }

  // ---------------------------------------------------------------------------
  // What the handlers keep.

  /** `q` differs from `p` in socket ids at most. */
  ghost predicate IdsOnly(p: map<User, Profile>, q: map<User, Profile>) {
    && p.Keys == q.Keys
    && forall u :: u in p ==> q[u] == p[u].(id := q[u].id)
  }

  /** Handing out new socket ids keeps the invariant. */
  lemma IdsOnlyKeepsInv(st: Stores, people: map<User, Profile>)
    requires Inv(st) && IdsOnly(st.people, people)
    ensures Inv(st.(people := people))
  {
    forall k | k in st.rooms ensures RoomInv(people, k, st.rooms[k]) {
      assert RoomInv(st.people, k, st.rooms[k]);
    }
  }

  /** Adding a user whose name is new to its room, to both lists, keeps the invariant. */
  lemma AdmitKeepsInv(st: Stores, created: User, p: Profile)
    requires Inv(st) && p.room in st.rooms && created !in st.people
    requires p.username == p.originalUsername
    requires forall i :: 0 <= i < |st.rooms[p.room].users| ==> st.people[st.rooms[p.room].users[i]].username != p.username
    ensures
      var r := st.rooms[p.room];
      Inv(st.(users := st.users + [created],
              rooms := st.rooms[p.room := r.(users := r.users + [created])],
              people := st.people[created := p]))
  {
    var r := st.rooms[p.room];
    var people := st.people[created := p];
    var rooms := st.rooms[p.room := r.(users := r.users + [created])];
    forall k | k in rooms ensures RoomInv(people, k, rooms[k]) {
      assert RoomInv(st.people, k, st.rooms[k]);
      if k == p.room {
        var s := r.users + [created];
        forall i, j | 0 <= i < j < |s| ensures people[s[i]].username != people[s[j]].username {
          if j == |r.users| {
            assert s[i] == r.users[i];
          } else {
            assert s[i] == r.users[i] && s[j] == r.users[j];
          }
        }
      }
    }
  }

  /** Dropping the entry at `i` keeps the names of the others distinct. */
  lemma RemoveAtKeepsDistinctNames(people: map<User, Profile>, s: seq<User>, i: nat)
    requires i < |s| && Known(people, s) && DistinctNames(people, s)
    ensures Known(people, RemoveAt(s, i)) && DistinctNames(people, RemoveAt(s, i))
  {
    var r := RemoveAt(s, i);
    forall a, b | 0 <= a < b < |r| ensures people[r[a]].username != people[r[b]].username {
      var a', b' := if a < i then a else a + 1, if b < i then b else b + 1;
      assert r[a] == s[a'] && r[b] == s[b'];
    }
  }

  /** Creating a room on demand keeps the invariant: the new name is listed once, after the others. */
  lemma EnsureRoomKeepsInv(st: Stores, name: string)
    requires Inv(st)
    ensures Inv(EnsureRoom(st, name))
  {
    if name !in st.rooms {
      var r := EnsureRoom(st, name);
      assert NoDuplicates(r.order) by {
        forall i, j | 0 <= i < j < |r.order| ensures r.order[i] != r.order[j] {
          if j == |st.order| { assert st.order[i] in st.order; }
        }
      }
    }
  }

  /** The reclaim branch hands out socket ids only, so it keeps the invariant. */
  lemma ReclaimKeepsInv(st: Stores, sid: string, username: string, room: string)
    requires Inv(st) && room in st.rooms && !Newcomer(st, username, room)
    ensures Inv(Reclaimed(st, sid, username, room))
  {
    var r := Reclaimed(st, sid, username, room);
    ReclaimChangesIdsOnly(st, sid, username, room);
    IdsOnlyKeepsInv(st, r.people);
    assert r == st.(people := r.people);
  }

  /** Under the invariant the reclaim branch changes socket ids and nothing else. */
  lemma ReclaimChangesIdsOnly(st: Stores, sid: string, username: string, room: string)
    requires Shaped(st) && room in st.rooms && !Newcomer(st, username, room)
    ensures var r := Reclaimed(st, sid, username, room);
      IdsOnly(st.people, r.people) && r.rooms == st.rooms
  {
    var members := st.rooms[room].users;
    var ri := IndexOf(st.people, members, ByUsername, username);
    var gi := IndexOf(st.people, st.users, ByUsername, username);
    var member := members[ri];
    var p1 := Reassigned(st.people, member, sid, username);
    assert st.people[member].username == username;
    if gi != -1 {
      var v := st.users[gi];
      assert p1[v].username == username;
      IdsOnlyTrans(st.people, p1, Reassigned(p1, v, sid, username));
    }
    assert st.rooms[room := st.rooms[room].(messages := st.rooms[room].messages)] == st.rooms;
  }

  lemma IdsOnlyTrans(p: map<User, Profile>, q: map<User, Profile>, r: map<User, Profile>)
    requires IdsOnly(p, q) && IdsOnly(q, r)
    ensures IdsOnly(p, r)
  {
  }

  /** `join` keeps the invariant, provided a new user object really is new. */
  lemma JoinKeepsInv(st: Stores, sid: string, username: string, room: string, created: User)
    requires Inv(st)
    requires Newcomer(st, username, room) ==> created !in st.people
    ensures Inv(Joined(st, sid, username, room, created))
  {
    if Newcomer(st, username, room) {
      EnsureRoomKeepsInv(st, room);
      AdmitKeepsInv(EnsureRoom(st, room), created, Profile(sid, username, room, username));
    } else {
      ReclaimKeepsInv(st, sid, username, room);
    }
  }

  /** `sendMessage` keeps the invariant: the new message shows its author's original name. */
  lemma SendKeepsInv(st: Stores, sid: string, text: string, now: nat)
    requires Inv(st)
    ensures Inv(Posted(st, sid, text, now))
  {
    match Caller(st, sid)
    case None =>
    case Some(u) =>
      assert RoomInv(st.people, u.room, st.rooms[u.room]);
  }

  /** `disconnect` keeps the invariant. */
  lemma DisconnectKeepsInv(st: Stores, sid: string)
    requires Inv(st)
    ensures Inv(Disconnected(st, sid))
  {
    var gi := IndexOf(st.people, st.users, ById, sid);
    if gi != -1 {
      var u := st.people[st.users[gi]];
      var r := st.rooms[u.room];
      var ri := IndexOf(st.people, r.users, ById, sid);
      var members := if ri == -1 then r.users else RemoveAt(r.users, ri);
      var rooms := st.rooms[u.room := r.(users := members)];
      assert RoomInv(st.people, u.room, r);
      if ri != -1 {
        RemoveAtKeepsDistinctNames(st.people, r.users, ri);
      }
      forall k | k in rooms ensures RoomInv(st.people, k, rooms[k]) {
        if k != u.room {
          assert rooms[k] == st.rooms[k];
        }
      }
      assert rooms.Keys == st.rooms.Keys;
      var users := RemoveAt(st.users, gi);
      forall i | 0 <= i < |users| ensures users[i] in st.people && st.people[users[i]].room in rooms {
        assert users[i] == st.users[if i < gi then i else i + 1];
      }
      assert Disconnected(st, sid) == st.(users := users, rooms := rooms);
    }
  }

  // ---------------------------------------------------------------------------
  // What the handlers do.

  /**
   * After `join` the room exists. A room that already existed is not reset:
   * it keeps its members, gaining at most the new user; no other room
   * changes, and a new room goes at the end of the directory order.
   */
  lemma JoinCreatesRoomOnDemand(st: Stores, sid: string, username: string, room: string, created: User)
    requires Inv(st)
    ensures var a := Joined(st, sid, username, room, created);
      && room in a.rooms && a.rooms.Keys == st.rooms.Keys + {room}
      && a.order == st.order + (if room in st.rooms then [] else [room])
      && (forall k :: k in st.rooms && k != room ==> a.rooms[k] == st.rooms[k])
      && a.rooms[room].name == room
      && a.rooms[room].users == (if room in st.rooms then st.rooms[room].users else [])
                                + (if Newcomer(st, username, room) then [created] else [])
  {
  }

  /** `join` never changes any room's history: the rename rewrite cannot run. */
  lemma JoinKeepsHistory(st: Stores, sid: string, username: string, room: string, created: User)
    requires Shaped(st)
    ensures var a := Joined(st, sid, username, room, created);
      && (forall k :: k in st.rooms ==> a.rooms[k].messages == st.rooms[k].messages)
      && (room !in st.rooms ==> a.rooms[room].messages == [])
  {
  }

  /**
   * The rewrite branch of `join` is dead: the member it would rename was found
   * by the very name it would be renamed to.
   */
  lemma RenameBranchUnreachable(st: Stores, username: string, room: string)
    requires Inv(st) && room in st.rooms && !Newcomer(st, username, room)
    ensures var members := st.rooms[room].users;
      st.people[members[IndexOf(st.people, members, ByUsername, username)]].username == username
  {
  }

  /**
   * A `join` whose name is new to the room appends one fresh user, with that
   * name as its original name and the caller's socket id, to the global list
   * and to the room; nobody else's fields change.
   */
  lemma JoinAddsNewcomer(st: Stores, sid: string, username: string, room: string, created: User)
    requires Shaped(st) && Newcomer(st, username, room)
    ensures var a := Joined(st, sid, username, room, created);
      && a.users == st.users + [created]
      && a.rooms[room].users == (if room in st.rooms then st.rooms[room].users else []) + [created]
      && a.people == st.people[created := Profile(sid, username, room, username)]
  {
  }

  /**
   * A `join` whose name is already shown in the room adds nobody: the room's
   * member with that name, and the first user anywhere with that name (which
   * may sit in another room), take the caller's socket id; every other field
   * of every user stays.
   */
  lemma JoinReclaims(st: Stores, sid: string, username: string, room: string, created: User)
    requires Shaped(st) && !Newcomer(st, username, room)
    ensures var a := Joined(st, sid, username, room, created);
      var members := st.rooms[room].users;
      var member := members[IndexOf(st.people, members, ByUsername, username)];
      var gi := IndexOf(st.people, st.users, ByUsername, username);
      && a.users == st.users && a.rooms[room].users == members
      && IdsOnly(st.people, a.people)
      && a.people[member].id == sid
      && (gi != -1 ==> a.people[st.users[gi]].id == sid)
      && (forall u :: u in st.people && u != member && (gi == -1 || u != st.users[gi]) ==> a.people[u] == st.people[u])
  {
    var members := st.rooms[room].users;
    var ri := IndexOf(st.people, members, ByUsername, username);
    var gi := IndexOf(st.people, st.users, ByUsername, username);
    var member := members[ri];
    var p1 := Reassigned(st.people, member, sid, username);
    var p2 := if gi != -1 then Reassigned(p1, st.users[gi], sid, username) else p1;
    assert st.rooms[room := st.rooms[room].(messages := st.rooms[room].messages)] == st.rooms;
    assert Joined(st, sid, username, room, created) == st.(people := p2);
  }

  /** `sendMessage` from a socket no user holds changes nothing and sends nothing. */
  lemma SendFromUnknownSocket(st: Stores, sid: string, text: string, now: nat)
    requires Inv(st)
    requires forall i :: 0 <= i < |st.users| ==> st.people[st.users[i]].id != sid
    ensures SendStep(st, sid, text, now) == Outcome(st, [])
  {
  }

  /**
   * Otherwise `sendMessage` appends exactly one message, by the first user with
   * that socket id, at the end of that user's room's history; the message
   * carries the text, the user's names and the socket id, and no other room,
   * member list or user changes.
   */
  lemma SendAppendsOneMessage(st: Stores, sid: string, text: string, now: nat)
    requires Inv(st)
    ensures var a := Posted(st, sid, text, now);
      Caller(st, sid).Some? ==>
        var u := Caller(st, sid).value;
        var before := st.rooms[u.room].messages;
        && a.rooms.Keys == st.rooms.Keys
        && a.users == st.users && a.people == st.people && a.order == st.order
        && a.rooms[u.room].users == st.rooms[u.room].users
        && |a.rooms[u.room].messages| == |before| + 1
        && a.rooms[u.room].messages[..|before|] == before
        && var m := a.rooms[u.room].messages[|before|];
        && m.text == text && m.username == u.username && m.originalUsername == u.originalUsername
        && m.userId == Some(sid) && m.timestamp == now
        && (forall k :: k in st.rooms && k != u.room ==> a.rooms[k] == st.rooms[k])
  {
  }

  /** `disconnect` from a socket no user holds changes nothing and sends nothing. */
  lemma DisconnectFromUnknownSocket(st: Stores, sid: string, now: nat)
    requires Inv(st)
    requires forall i :: 0 <= i < |st.users| ==> st.people[st.users[i]].id != sid
    ensures DisconnectStep(st, sid, now) == Outcome(st, [])
  {
  }

  /** `splice(i, 1)` keeps exactly the entries at the other positions. */
  lemma RemoveAtKeepsOthers<T>(s: seq<T>, i: nat)
    requires i < |s|
    ensures forall x :: x in RemoveAt(s, i) ==> x in s
    ensures forall j :: 0 <= j < |s| && j != i ==> s[j] in RemoveAt(s, i)
  {
    var r := RemoveAt(s, i);
    forall x | x in r ensures x in s {
      var k :| 0 <= k < |r| && r[k] == x;
      assert r[k] == s[if k < i then k else k + 1];
    }
    forall j | 0 <= j < |s| && j != i ensures s[j] in r {
      assert s[j] == r[if j < i then j else j - 1];
    }
  }

  /** `disconnect` removes no room, reorders none, renames nobody and keeps every room's history. */
  lemma DisconnectKeepsRooms(st: Stores, sid: string)
    requires Shaped(st)
    ensures var a := Disconnected(st, sid);
      && a.rooms.Keys == st.rooms.Keys && a.order == st.order && a.people == st.people
      && (forall k :: k in st.rooms ==> a.rooms[k].messages == st.rooms[k].messages)
  {
    var gi := IndexOf(st.people, st.users, ById, sid);
    if gi != -1 {
      var u := st.people[st.users[gi]];
      var r := st.rooms[u.room];
      var ri := IndexOf(st.people, r.users, ById, sid);
      var members := if ri == -1 then r.users else RemoveAt(r.users, ri);
      assert Disconnected(st, sid) == st.(users := RemoveAt(st.users, gi), rooms := st.rooms[u.room := r.(users := members)]);
    }
  }

  /**
   * Otherwise `disconnect` removes exactly the first user with that socket id
   * from the global list and at most one member, one with that id, from its
   * room; other rooms stay as they were.
   */
  lemma DisconnectRemovesUser(st: Stores, sid: string)
    requires Shaped(st)
    ensures var gi := IndexOf(st.people, st.users, ById, sid);
      var a := Disconnected(st, sid);
      gi != -1 ==>
        var u := st.people[st.users[gi]];
        var before := st.rooms[u.room].users;
        && a.users == RemoveAt(st.users, gi)
        && multiset(a.users) + multiset{st.users[gi]} == multiset(st.users)
        && u.id == sid
        && var ri := IndexOf(st.people, before, ById, sid);
        && a.rooms[u.room].users == (if ri == -1 then before else RemoveAt(before, ri))
        && (forall k :: k in st.rooms && k != u.room ==> a.rooms[k] == st.rooms[k])
        && (|a.rooms[u.room].users| == |before| || |a.rooms[u.room].users| == |before| - 1)
        && (forall v :: v in a.rooms[u.room].users ==> v in before)
        && (forall i :: 0 <= i < |before| && st.people[before[i]].id != sid ==> before[i] in a.rooms[u.room].users)
  {
    var gi := IndexOf(st.people, st.users, ById, sid);
    if gi != -1 {
      var u := st.people[st.users[gi]];
      var r := st.rooms[u.room];
      var ri := IndexOf(st.people, r.users, ById, sid);
      if ri != -1 {
        RemoveAtKeepsOthers(r.users, ri);
      }
    }
  }

  /** `join` removes no room: the directory order only grows, and `general` stays. */
  lemma RoomsOnlyGrowOnJoin(st: Stores, sid: string, username: string, room: string, created: User)
    requires Inv(st)
    ensures var a := Joined(st, sid, username, room, created);
      && st.rooms.Keys <= a.rooms.Keys && "general" in a.rooms
      && |st.order| <= |a.order| && a.order[..|st.order|] == st.order
      && forall i :: 0 <= i < |a.order| ==> a.order[i] in a.rooms
  {
    var a := Joined(st, sid, username, room, created);
    var e := EnsureRoom(st, room);
    assert e.order[..|st.order|] == st.order && st.rooms.Keys <= e.rooms.Keys;
    if Newcomer(st, username, room) {
      assert a.order == e.order && a.rooms.Keys == e.rooms.Keys;
    } else {
      assert a.order == st.order && a.rooms.Keys == st.rooms.Keys;
    }
    forall i | 0 <= i < |a.order| ensures a.order[i] in a.rooms {
      if i < |st.order| {
        assert st.order[i] in st.order;
      }
    }
  }

  /**
   * Under the invariant a `roomData` snapshot lists the room's members in order
   * under distinct names, and its history exactly as stored.
   */
  lemma SnapshotShowsStoredHistory(st: Stores, name: string, withRoom: bool)
    requires Inv(st) && name in st.rooms
    ensures var p := Snapshot(st, name, withRoom);
      && p.messages == st.rooms[name].messages
      && (forall i :: 0 <= i < |p.users| ==> p.users[i].username == st.people[st.rooms[name].users[i]].username)
      && (forall i, j :: 0 <= i < j < |p.users| ==> p.users[i].username != p.users[j].username)
  {
    assert RoomInv(st.people, name, st.rooms[name]);
    ProjectionKeepsConsistentHistory(st.rooms[name].messages);
  }

  // ---------------------------------------------------------------------------
  // The stores as the program keeps them.

  /** Every object of `people` shows the fields recorded for it. */
  ghost predicate Coupled(people: map<User, Profile>)
    reads people.Keys
  {
    forall u :: u in people ==> people[u] == Current(u)
  }

  /** Reading the objects of `us` gives what `people` records for them. */
  lemma ProfilesAgree(people: map<User, Profile>, us: seq<User>)
    requires Coupled(people) && Known(people, us)
    ensures Profiles(us) == ProfilesOf(people, us)
  {
  }

  class Server {
    /** Every connected user, in the order they first joined. */
    var users: seq<User>
    var rooms: map<string, Room>
    /** The keys of `rooms` in insertion order, the order `Object.keys` lists them in. */
    var roomOrder: seq<string>
    /** The fields of every user object the server has created. */
    ghost var people: map<User, Profile>

    /** The stores as a value. */
    ghost function Abs(): Stores
      reads this
    {
      Stores(users, rooms, roomOrder, people)
    }

    ghost predicate Valid()
      reads this, people.Keys
    {
      Coupled(people) && Inv(Abs())
    }

    /** The stores as the server starts: no users, and the one empty room `general`. */
    constructor ()
      ensures Valid() && Abs() == Initial()
    {
      users := [];
      rooms := map["general" := Room("general", [], [])];
      roomOrder := ["general"];
      people := map[];
    }

    /**
     * The room directory as `/api/rooms` and every `roomsList` event compute it:
     * every room once, in insertion order, with its member count.
     */
    method ListRooms() returns (list: seq<RoomEntry>)
      requires Valid()
      ensures list == Directory(roomOrder, rooms)
      ensures |list| == |rooms.Keys| && NoDuplicates(Names(list))
      ensures forall k :: k in rooms <==> k in Names(list)
      ensures forall i :: 0 <= i < |list| ==> list[i].name in rooms && list[i].userCount == |rooms[list[i].name].users|
    {
      DirectoryListsEachRoomOnce(rooms, roomOrder);
      list := Directory(roomOrder, rooms);
      DistinctKeysCount(rooms, Names(list));
    }

    /** The `roomData` payload for room `name`, read off the user objects. */
    method RoomSnapshot(name: string, withRoom: bool) returns (p: Payload)
      requires Valid() && name in rooms
      ensures p == Snapshot(Abs(), name, withRoom)
      ensures p.messages == rooms[name].messages
      ensures forall i, j :: 0 <= i < j < |p.users| ==> p.users[i].username != p.users[j].username
    {
      assert RoomInv(people, name, rooms[name]);
      ProfilesAgree(people, rooms[name].users);
      p := RoomDataOf(name, Profiles(rooms[name].users), rooms[name].messages, withRoom);
      SnapshotShowsStoredHistory(Abs(), name, withRoom);
    }

    /** `if (!rooms[room]) rooms[room] = {...}`, on the stores. */
    method OpenRoom(room: string)
      requires Valid()
      modifies this
      ensures Valid() && Abs() == EnsureRoom(old(Abs()), room)
    {
      if room !in rooms {
        rooms := rooms[room := Room(room, [], [])];
        roomOrder := roomOrder + [room];
      }
      EnsureRoomKeepsInv(old(Abs()), room);
    }

    /** The reclaim branch of `join`, on the objects. */
    method Reclaim(sid: string, username: string, room: string, existingUserIndex: nat, existingUserGlobalIndex: int)
      requires Coupled(people) && Shaped(Abs()) && room in rooms && !Newcomer(Abs(), username, room)
      requires existingUserIndex == IndexOf(people, rooms[room].users, ByUsername, username)
      requires existingUserGlobalIndex == IndexOf(people, users, ByUsername, username)
      modifies this, people.Keys
      ensures Coupled(people)
      ensures Abs() == Reclaimed(old(Abs()), sid, username, room)
    {
      var member := rooms[room].users[existingUserIndex];
      var previousUsername := member.username;
      HandOver(sid, username, member, existingUserGlobalIndex);
      RewriteHistory(room, previousUsername, username);
    }

    /** `member` and, when there is one, the user at `existingUserGlobalIndex` take socket id `sid` and name `username`. */
    method HandOver(sid: string, username: string, member: User, existingUserGlobalIndex: int)
      requires Coupled(people) && member in people && Known(people, users) && existingUserGlobalIndex < |users|
      modifies this`people, people.Keys
      ensures Coupled(people)
      ensures var p1 := old(people)[member := old(people)[member].(id := sid, username := username)];
        people == if existingUserGlobalIndex < 0 then p1
          else p1[users[existingUserGlobalIndex] := p1[users[existingUserGlobalIndex]].(id := sid, username := username)]
    {
      Rebind(member, sid, username, people);
      people := people[member := people[member].(id := sid, username := username)];
      if existingUserGlobalIndex >= 0 {
        var globalUser := users[existingUserGlobalIndex];
        Rebind(globalUser, sid, username, people);
        people := people[globalUser := people[globalUser].(id := sid, username := username)];
      }
    }

    /** `if (previousUsername !== username)`: the room's history is shown under the new name. */
    method RewriteHistory(room: string, previousUsername: string, username: string)
      requires room in rooms
      modifies this`rooms
      ensures rooms == old(rooms)[room := old(rooms)[room].(messages :=
        if previousUsername != username then RenameAuthor(old(rooms)[room].messages, previousUsername, username)
        else old(rooms)[room].messages)]
    {
      var history := rooms[room].messages;
      var rewritten := if previousUsername != username then RenameAuthor(history, previousUsername, username) else history;
      rooms := rooms[room := rooms[room].(messages := rewritten)];
    }

    /** `user.id = socket.id; user.username = username`, on one object. */
    static method Rebind(u: User, sid: string, username: string, ghost people: map<User, Profile>)
      requires Coupled(people) && u in people
      modifies u
      ensures Coupled(people[u := people[u].(id := sid, username := username)])
    {
      label Start:
      u.id := sid;
      u.username := username;
      forall v | v in people && v != u ensures people[v] == Current(v) {
        assert unchanged@Start(v);
      }
    }

    /** The other branch of `join`: a new user object goes onto both lists. */
    method Admit(sid: string, username: string, room: string) returns (user: User)
      requires Coupled(people) && room in rooms
      modifies this
      ensures fresh(user) && Coupled(people) && people.Keys == old(people.Keys) + {user}
      ensures Abs() == Admitted(old(Abs()), sid, username, room, user)
    {
      user := new User(sid, username, room, username);
      users := users + [user];
      rooms := rooms[room := rooms[room].(users := rooms[room].users + [user])];
      people := people[user := Current(user)];
    }

    /**
     * The state change of `join`: the room is created on demand, then the
     * member showing `username` is reclaimed or a new user object is pushed
     * onto both lists. `created` names the new object, or the reclaimed one.
     */
    method Enter(sid: string, username: string, room: string) returns (ghost created: User)
      requires Valid()
      modifies this, people.Keys
      ensures Valid()
      ensures Newcomer(old(Abs()), username, room) ==> fresh(created)
      ensures Abs() == Joined(old(Abs()), sid, username, room, created)
    {
      ghost var st := Abs();
      OpenRoom(room);
      ghost var st1 := Abs();
      assert RoomInv(people, room, rooms[room]);
      var existingUserIndex := FindIndex(rooms[room].users, ByUsername, username, people);
      var existingUserGlobalIndex := FindIndex(users, ByUsername, username, people);
      if existingUserIndex != -1 {
        assert st1 == st && !Newcomer(st, username, room);
        created := rooms[room].users[existingUserIndex];
        Reclaim(sid, username, room, existingUserIndex, existingUserGlobalIndex);
      } else {
        assert Newcomer(st, username, room);
        var user := Admit(sid, username, room);
        created := user;
      }
      JoinKeepsInv(st, sid, username, room, created);
    }

    /** `join`, on the objects: the state change, then the welcome, the notice, the snapshots and the directory. */
    method Join(sid: string, username: string, room: string, now: nat) returns (out: seq<Emission>, ghost created: User)
      requires Valid()
      modifies this, people.Keys
      ensures Valid()
      ensures Newcomer(old(Abs()), username, room) ==> fresh(created)
      ensures Outcome(Abs(), out) == JoinStep(old(Abs()), sid, username, room, now, created)
    {
      created := Enter(sid, username, room);
      var snapshot := RoomSnapshot(room, false);
      var list := ListRooms();
      out := [
        Emission(Sender, ChatMessage(SystemNotice(now, WelcomeText(room, username)))),
        Emission(OthersInRoom(room), ChatMessage(SystemNotice(now, JoinedText(username)))),
        Emission(Sender, snapshot),
        Emission(WholeRoom(room), snapshot),
        Emission(Everyone, RoomsList(list))];
    }

    /** `sendMessage`, on the objects: the first user with the socket id posts to its room. */
    method SendMessage(sid: string, text: string, now: nat) returns (out: seq<Emission>)
      requires Valid()
      modifies this
      ensures Valid()
      ensures Outcome(Abs(), out) == SendStep(old(Abs()), sid, text, now)
    {
      ghost var st := Abs();
      var index := FindIndex(users, ById, sid, people);
      if index == -1 {
        out := [];
        return;
      }
      var user := users[index];
      var newMessage := Message(DecimalString(now), text, user.username, now, user.originalUsername, Some(sid));
      var r := rooms[user.room];
      label Start:
      rooms := rooms[user.room := r.(messages := r.messages + [newMessage])];
      assert Coupled(people) by {
        forall u | u in people ensures people[u] == Current(u) {
          assert unchanged@Start(u);
        }
      }
      assert Abs() == Posted(st, sid, text, now);
      SendKeepsInv(st, sid, text, now);
      var snapshot := RoomSnapshot(user.room, false);
      out := [
        Emission(WholeRoom(user.room), ChatMessage(newMessage)),
        Emission(WholeRoom(user.room), snapshot)];
    }

    /** The state change of `disconnect` once the caller is found at `index` of the global list. */
    method Leave(sid: string, index: nat)
      requires Coupled(people) && Shaped(Abs()) && index < |users|
      requires index == IndexOf(people, users, ById, sid)
      modifies this
      ensures Coupled(people) && Abs() == Disconnected(old(Abs()), sid)
    {
      ghost var st := Abs();
      var user := users[index];
      var r := rooms[user.room];
      var roomUserIndex := FindIndex(r.users, ById, sid, people);
      var members := if roomUserIndex == -1 then r.users else RemoveAt(r.users, roomUserIndex);
      label Start:
      rooms, users := rooms[user.room := r.(users := members)], RemoveAt(users, index);
      assert Coupled(people) by {
        forall u | u in people ensures people[u] == Current(u) {
          assert unchanged@Start(u);
        }
      }
    }

    /** `disconnect`, on the objects: the user leaves its room's member list and the global list. */
    method Disconnect(sid: string, now: nat) returns (out: seq<Emission>)
      requires Valid()
      modifies this
      ensures Valid()
      ensures Outcome(Abs(), out) == DisconnectStep(old(Abs()), sid, now)
    {
      ghost var st := Abs();
      var index := FindIndex(users, ById, sid, people);
      if index == -1 {
        out := [];
        return;
      }
      var user := users[index];
      Leave(sid, index);
      DisconnectKeepsInv(st, sid);
      var snapshot := RoomSnapshot(user.room, true);
      var list := ListRooms();
      out := [
        Emission(OthersInRoom(user.room), ChatMessage(SystemNotice(now, LeftText(user.username)))),
        Emission(WholeRoom(user.room), snapshot),
        Emission(Everyone, RoomsList(list))];
    }
  }
}
