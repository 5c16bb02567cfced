/**
 * The chat client's state and its reactions to the server's events: the
 * `message` listener (append, or the "name taken" error), the `roomData`
 * listener (a de-duplicated member list and a wholesale message replacement),
 * and the `joinRoom`/`sendMessage` actions. React's state cells become the
 * fields of one object; each listener runs to completion, so each is one
 * method. What an action sends to the server is returned instead of emitted.
 */
module ChatClient {
  import opened Wrappers
  import opened Text
  import ChatServer

  /** A room member as the client lists it. */
  datatype User = User(id: string, username: string, room: string)

  /** A message as it arrives: `originalUsername` may be missing. */
  datatype Incoming = Incoming(id: string, text: string, username: string, timestamp: int, originalUsername: Option<string>)

  /** A message as the client keeps it. */
  datatype Message = Message(id: string, text: string, username: string, timestamp: int, originalUsername: string)

  /** What an action sends to the server. */
  datatype Request = JoinRequest(username: string, room: string) | SendRequest(text: string)

  /** A server message as it reaches the client. */
  function FromServer(m: ChatServer.Message): (r: Incoming)
    ensures r.text == m.text && r.username == m.username && r.originalUsername == Some(m.originalUsername)
  {
    Incoming(m.id, m.text, m.username, m.timestamp, Some(m.originalUsername))
  }

  // ---------------------------------------------------------------------------
  // The `roomData` member de-duplication

  /** Some member of `acc` shows `name`. */
  predicate HasUsername(acc: seq<User>, name: string) {
    exists i :: 0 <= i < |acc| && acc[i].username == name
  }

  /** `acc.find(user => user.username === name)`: the first member showing `name`, if any. */
  function FindByUsername(acc: seq<User>, name: string): (r: Option<User>)
    ensures r.Some? <==> HasUsername(acc, name)
    ensures r.Some? ==> r.value.username == name && r.value in acc
    decreases |acc|
  {
    if acc == [] then None
    else if acc[0].username == name then Some(acc[0])
    else
      var r := FindByUsername(acc[1..], name);
      assert HasUsername(acc, name) ==> HasUsername(acc[1..], name) by {
        if HasUsername(acc, name) {
          var i :| 0 <= i < |acc| && acc[i].username == name;
          assert acc[1..][i - 1] == acc[i];
        }
      }
      r
  }

  /** No two members of `us` show the same name. */
  ghost predicate DistinctUsernames(us: seq<User>) {
    forall i, j :: 0 <= i < j < |us| ==> us[i].username != us[j].username
  }

  /**
   * The `reduce` over the members of a `roomData` event: a member is pushed
   * onto the accumulator unless one with the same name is already there. The
   * fold runs left to right, so it is written as recursion on the last element.
   */
  function UniqueUsers(us: seq<User>): (r: seq<User>)
    ensures |r| <= |us|
    ensures DistinctUsernames(r)
    decreases |us|
  {
    if us == [] then []
    else
      var acc := UniqueUsers(us[..|us| - 1]);
      var current := us[|us| - 1];
      if FindByUsername(acc, current.username).None? then acc + [current] else acc
  }

  /** Member `i` is the first of `us` to show its name. */
  predicate IsFirst(us: seq<User>, i: nat)
    requires i < |us|
  {
    forall j :: 0 <= j < i ==> us[j].username != us[i].username
  }

  /** The positions of the first occurrences of each name, in increasing order. */
  ghost function FirstIndices(us: seq<User>): (f: seq<nat>)
    ensures forall k :: 0 <= k < |f| ==> f[k] < |us| && IsFirst(us, f[k])
    ensures forall k, l :: 0 <= k < l < |f| ==> f[k] < f[l]
    decreases |us|
  {
    if us == [] then []
    else
      var init := us[..|us| - 1];
      var f := FirstIndices(init);
      assert forall k :: 0 <= k < |f| ==> IsFirst(us, f[k]) by {
        forall k | 0 <= k < |f| ensures IsFirst(us, f[k]) {
          FirstInPrefix(us, f[k]);
        }
      }
      if IsFirst(us, |us| - 1) then f + [|us| - 1] else f
  }

  /** Whether a member is a first occurrence depends only on the members before it. */
  lemma FirstInPrefix(us: seq<User>, i: nat)
    requires i < |us| - 1
    ensures IsFirst(us[..|us| - 1], i) <==> IsFirst(us, i)
  {
    var init := us[..|us| - 1];
    assert forall j :: 0 <= j <= i ==> init[j] == us[j];
  }

  /** Every first occurrence is listed. */
  lemma {:induction false} FirstIndicesComplete(us: seq<User>, i: nat)
    requires i < |us| && IsFirst(us, i)
    ensures i in FirstIndices(us)
    decreases |us|
  {
    var init := us[..|us| - 1];
    if i < |us| - 1 {
      FirstInPrefix(us, i);
      FirstIndicesComplete(init, i);
    }
  }

  /** The last member of a non-empty `us` is a first occurrence exactly when no earlier member shows its name. */
  lemma LastIsFirst(us: seq<User>)
    requires us != []
    ensures IsFirst(us, |us| - 1) <==> !HasUsername(us[..|us| - 1], us[|us| - 1].username)
  {
    var init := us[..|us| - 1];
    if !IsFirst(us, |us| - 1) {
      var j :| 0 <= j < |us| - 1 && us[j].username == us[|us| - 1].username;
      assert init[j] == us[j];
    }
  }

  /** Appending a member adds exactly its name. */
  lemma HasUsernameSnoc(s: seq<User>, x: User, name: string)
    ensures HasUsername(s + [x], name) <==> HasUsername(s, name) || x.username == name
  {
    if HasUsername(s, name) {
      var i :| 0 <= i < |s| && s[i].username == name;
      assert (s + [x])[i] == s[i];
    }
    assert (s + [x])[|s|] == x;
  }

  /** The de-duplication loses no name and invents none. */
  lemma {:induction false} UniqueUsersNames(us: seq<User>, name: string)
    ensures HasUsername(UniqueUsers(us), name) <==> HasUsername(us, name)
    decreases |us|
  {
    if us != [] {
      var init, current := us[..|us| - 1], us[|us| - 1];
      var acc := UniqueUsers(init);
      UniqueUsersNames(init, name);
      assert us == init + [current];
      HasUsernameSnoc(init, current, name);
      if FindByUsername(acc, current.username).None? {
        HasUsernameSnoc(acc, current, name);
      }
    }
  }

  lemma FirstIndicesSnoc(us: seq<User>)
    requires us != []
    ensures FirstIndices(us) == if IsFirst(us, |us| - 1) then FirstIndices(us[..|us| - 1]) + [|us| - 1] else FirstIndices(us[..|us| - 1])
  {
  }

  /** One more member is kept exactly when its name is new. */
  lemma UniqueUsersSnoc(us: seq<User>)
    requires us != []
    ensures var init, current := us[..|us| - 1], us[|us| - 1];
      UniqueUsers(us) == if HasUsername(init, current.username) then UniqueUsers(init) else UniqueUsers(init) + [current]
  {
    var init, current := us[..|us| - 1], us[|us| - 1];
    UniqueUsersNames(init, current.username);
  }

  /** `f` picks the elements of `r` out of `us` at strictly increasing positions. */
  ghost predicate Embeds(r: seq<User>, us: seq<User>, f: seq<nat>) {
    && |f| == |r|
    && (forall k :: 0 <= k < |f| ==> f[k] < |us| && r[k] == us[f[k]])
    && (forall k, l :: 0 <= k < l < |f| ==> f[k] < f[l])
  }

  /** Picking from one more member: either the new member is picked too, at its own position, or nothing changes. */
  lemma EmbedsSnoc(r: seq<User>, us: seq<User>, f: seq<nat>, keep: bool)
    requires us != [] && Embeds(r, us[..|us| - 1], f)
    ensures Embeds(if keep then r + [us[|us| - 1]] else r, us, if keep then f + [|us| - 1] else f)
  {
    var init := us[..|us| - 1];
    assert forall k :: 0 <= k < |f| ==> us[f[k]] == init[f[k]];
  }

  /** The de-duplicated list is the input's first occurrences of each name, picked in input order. */
  lemma {:induction false} UniqueUsersIsFirstOccurrences(us: seq<User>)
    ensures Embeds(UniqueUsers(us), us, FirstIndices(us))
    decreases |us|
  {
    if us != [] {
      var init := us[..|us| - 1];
      UniqueUsersIsFirstOccurrences(init);
      UniqueUsersSnoc(us);
      FirstIndicesSnoc(us);
      LastIsFirst(us);
      EmbedsSnoc(UniqueUsers(init), us, FirstIndices(init), IsFirst(us, |us| - 1));
    }
  }

  ghost predicate IsSubsequence(r: seq<User>, us: seq<User>) {
    exists f :: Embeds(r, us, f)
  }

  /** The de-duplicated list is a subsequence of the event's member list. */
  lemma UniqueUsersIsSubsequence(us: seq<User>)
    ensures IsSubsequence(UniqueUsers(us), us)
  {
    UniqueUsersIsFirstOccurrences(us);
  }

  /** A member list that already shows each name once passes through unchanged. */
  lemma {:induction false} UniqueUsersOfDistinct(us: seq<User>)
    requires DistinctUsernames(us)
    ensures UniqueUsers(us) == us
    decreases |us|
  {
    if us != [] {
      var init, current := us[..|us| - 1], us[|us| - 1];
      assert DistinctUsernames(init);
      UniqueUsersOfDistinct(init);
      assert us == init + [current];
    }
  }

  // ---------------------------------------------------------------------------
  // Message normalisation

  /** `{...msg, originalUsername: msg.originalUsername || msg.username}`: a missing or empty original name falls back to the display name. */
  function WithOriginal(m: Incoming): (r: Message)
    ensures r.id == m.id && r.text == m.text && r.username == m.username && r.timestamp == m.timestamp
    ensures m.originalUsername.Some? && m.originalUsername.value != "" ==> r.originalUsername == m.originalUsername.value
    ensures m.originalUsername == None || m.originalUsername == Some("") ==> r.originalUsername == m.username
  {
    var original := if m.originalUsername.Some? && m.originalUsername.value != "" then m.originalUsername.value else m.username;
    Message(m.id, m.text, m.username, m.timestamp, original)
  }

  /** The `map` over the messages of a `roomData` event: same length and order, each normalised. */
  function WithOriginalAll(ms: seq<Incoming>): (r: seq<Message>)
    ensures |r| == |ms|
    ensures forall i :: 0 <= i < |ms| ==> r[i] == WithOriginal(ms[i])
  {
    seq(|ms|, i requires 0 <= i < |ms| => WithOriginal(ms[i]))
  }

  /** A kept message names an original author unless it has no display name either. */
  ghost predicate Attributed(m: Message) {
    m.originalUsername != "" || m.username == ""
  }

  lemma WithOriginalAttributes(m: Incoming)
    ensures Attributed(WithOriginal(m))
  {
  }

  /** A message the client reads as the server refusing the chosen name. */
  predicate IsTakenNotice(m: Incoming)
    ensures IsTakenNotice(m) <==> m.username == "System" && exists i :: OccursAt(m.text, "already taken", i)
  {
    m.username == "System" && Contains(m.text, "already taken")
  }

  /**
   * The server never refuses a name, yet its own join notice is read as a
   * refusal when the joining user's name contains "already taken": the other
   * clients in the room then drop their name and room.
   */
  lemma JoinNoticeCanReadAsRefusal(name: string, now: nat)
    requires Contains(name, "already taken")
    ensures IsTakenNotice(FromServer(ChatServer.SystemNotice(now, ChatServer.JoinedText(name))))
  {
    var text := ChatServer.JoinedText(name);
    var i :| OccursAt(name, "already taken", i);
    assert text[..|name|] == name;
    assert text[i..i + |"already taken"|] == name[i..i + |"already taken"|];
    assert OccursAt(text, "already taken", i);
  }

  /** A chat message from a user who chose the name "System" is read as a refusal too. */
  lemma PostFromUserNamedSystemReadsAsRefusal(u: ChatServer.Profile, sid: string, text: string, now: nat)
    requires u.username == "System" && Contains(text, "already taken")
    ensures IsTakenNotice(FromServer(ChatServer.PostBy(u, sid, text, now)))
  {
  }

  // ---------------------------------------------------------------------------
  // The client state

  class Client {
    /** The socket has been created (`socket` is not `null`). */
    const hasSocket: bool
    var username: string
    var currentRoom: string
    var messages: seq<Message>
    var users: seq<User>
    var rooms: seq<ChatServer.RoomEntry>
    var error: Option<string>

    /** The member list never shows a name twice, and every kept message names its original author. */
    ghost predicate Valid()
      reads this
    {
      DistinctUsernames(users) && forall i :: 0 <= i < |messages| ==> Attributed(messages[i])
    }

    /** The initial state of every cell: empty strings, empty lists, no error. */
    constructor (hasSocket: bool)
      ensures Valid() && this.hasSocket == hasSocket
      ensures username == "" && currentRoom == "" && messages == [] && users == [] && rooms == [] && error == None
    {
      this.hasSocket := hasSocket;
      username, currentRoom, messages, users, rooms, error := "", "", [], [], [], None;
    }

    /** `clearError`. */
    method ClearError()
      requires Valid()
      modifies this
      ensures Valid() && error == None
      ensures username == old(username) && currentRoom == old(currentRoom)
      ensures messages == old(messages) && users == old(users) && rooms == old(rooms)
    {
      error := None;
    }

    /**
     * The `message` listener: a refusal sets the error and forgets the name and
     * room, and keeps the history; anything else is appended, normalised.
     */
    method OnMessage(m: Incoming)
      requires Valid()
      modifies this
      ensures Valid() && users == old(users) && rooms == old(rooms)
      ensures IsTakenNotice(m) ==>
        error == Some(m.text) && username == "" && currentRoom == "" && messages == old(messages)
      ensures !IsTakenNotice(m) ==>
        && messages == old(messages) + [WithOriginal(m)]
        && error == old(error) && username == old(username) && currentRoom == old(currentRoom)
    {
      if m.username == "System" && Contains(m.text, "already taken") {
        error := Some(m.text);
        username := "";
        currentRoom := "";
      } else {
        WithOriginalAttributes(m);
        messages := messages + [WithOriginal(m)];
      }
    }

    /**
     * The `roomData` listener: the member list becomes the de-duplicated one,
     * and a message list, when the event carries one, replaces the history.
     */
    method OnRoomData(us: seq<User>, ms: Option<seq<Incoming>>)
      requires Valid()
      modifies this
      ensures Valid()
      ensures users == UniqueUsers(us)
      ensures ms.Some? ==> messages == WithOriginalAll(ms.value)
      ensures ms.None? ==> messages == old(messages)
      ensures error == old(error) && username == old(username) && currentRoom == old(currentRoom) && rooms == old(rooms)
    {
      users := UniqueUsers(us);
      if ms.Some? {
        var normalised := WithOriginalAll(ms.value);
        forall i | 0 <= i < |normalised| ensures Attributed(normalised[i]) {
          WithOriginalAttributes(ms.value[i]);
        }
        messages := normalised;
      }
    }

    /** The `roomsList` listener: the directory is replaced as sent. */
    method OnRoomsList(list: seq<ChatServer.RoomEntry>)
      requires Valid()
      modifies this
      ensures Valid() && rooms == list
      ensures username == old(username) && currentRoom == old(currentRoom)
      ensures messages == old(messages) && users == old(users) && error == old(error)
    {
      rooms := list;
    }

    /** `joinRoom`: remember the name and room, and ask to join when connected. */
    method JoinRoom(name: string, room: string) returns (sent: Option<Request>)
      requires Valid()
      modifies this
      ensures Valid() && username == name && currentRoom == room
      ensures messages == old(messages) && users == old(users) && rooms == old(rooms) && error == old(error)
      ensures sent.Some? <==> hasSocket
      ensures sent.Some? ==> sent.value == JoinRequest(name, room)
    {
      username := name;
      currentRoom := room;
      sent := if hasSocket then Some(JoinRequest(name, room)) else None;
    }

    /** `sendMessage`: the text is sent as typed, and only when it is not all white space. */
    method SendMessage(text: string) returns (sent: Option<Request>)
      ensures sent.Some? <==> hasSocket && !AllSpace(text)
      ensures sent.Some? ==> sent.value == SendRequest(text)
    {
      sent := if hasSocket && Trim(text) != [] then Some(SendRequest(text)) else None;
    }
  }
}
