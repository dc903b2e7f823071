/** The handlers of backend/socket.js as functions from the coordinator's state
    before an event to its state after it and what it emitted. Each handler
    runs to completion as one atomic step. */
module Coordinator {
  import opened Wrappers
  import opened Rooms
  import opened Events

  /** What one connection's handlers close over (`currentRoom`, `currentUser`,
      `null` being None) and the socket.io rooms its socket is in, which only
      `socket.join` and `socket.leave` change. */
  datatype Conn = Conn(currentRoom: Option<string>, currentUser: Option<string>, joined: set<string>)

  /** A socket just connected: both variables null, in no room. */
  const Idle := Conn(None, None, {})

  /** The store and the live connections, by socket id. */
  datatype State = State(rooms: map<string, Room>, conns: map<ConnId, Conn>)

  /** A handler's effect: the state after it, and what it emitted, in order,
      each emit with the sockets it reached when it was made. */
  datatype Step = Step(state: State, out: seq<Delivery>)

  /** The guard `currentRoom && currentUser` of `leaveRoom` and `disconnect`. */
  predicate InRoom(k: Conn) {
    Truthy(k.currentRoom) && Truthy(k.currentUser)
  }

  /** A connection agrees with the store: its two variables are set and reset
      together, and a set room is a key of the store that its socket is in. */
  predicate Bound(k: Conn, rooms: map<string, Room>) {
    (k.currentRoom.Some? <==> k.currentUser.Some?) &&
    (k.currentRoom.Some? ==> k.currentRoom.value in rooms && k.currentRoom.value in k.joined)
  }

  /** The coordinator's invariant: every list is duplicate-free and every
      connection is bound to the store, so that the `rooms.get(currentRoom)` of
      lines 16, 51 and 97 always finds a room. */
  predicate Coherent(st: State) {
    Consistent(st.rooms) &&
    forall c | c in st.conns :: Bound(st.conns[c], st.rooms)
  }

  /** The socket.io rooms of every live socket. */
  function Membership(conns: map<ConnId, Conn>): (m: map<ConnId, set<string>>)
    ensures m.Keys == conns.Keys
    ensures forall c | c in conns :: m[c] == conns[c].joined
  {
    map c | c in conns :: conns[c].joined
  }

  /** An emit from `sender`, made while the connections stand as in `conns`. */
  function Deliver(e: Emit, sender: ConnId, conns: map<ConnId, Conn>): Delivery {
    Delivery(e, sender, Membership(conns))
  }

  /** Who an emit made under `conns` reaches, in terms of the connections:
      the sender alone, or the sockets in the room (less the sender for
      `socket.to`). */
  lemma DeliverReaches(e: Emit, sender: ConnId, conns: map<ConnId, Conn>)
    ensures Recipients(Deliver(e, sender, conns)) <= conns.Keys
    ensures e.target.ToSender? ==> Recipients(Deliver(e, sender, conns)) == (if sender in conns then {sender} else {})
    ensures !e.target.ToSender? ==> forall d | d in conns ::
      d in Recipients(Deliver(e, sender, conns)) <==> e.target.room in conns[d].joined && (d == sender ==> e.target.ToRoom?)
  {
  }

  /** `starterCode || ""`: a missing or empty starter text gives an empty document. */
  function StarterOrEmpty(starterCode: Option<string>): string
  {
    if Truthy(starterCode) then starterCode.value else ""
  }

  /** Line 16 of `join`: a connection whose `currentRoom` is set has its name
      deleted from that room. */
  function Vacated(rooms: map<string, Room>, k: Conn): (r: map<string, Room>)
    requires Bound(k, rooms)
    ensures r.Keys == rooms.Keys
  {
    if Truthy(k.currentRoom) then DeleteUser(rooms, k.currentRoom.value, k.currentUser.value) else rooms
  }

  /** Line 15 of `join`: `socket.leave(currentRoom)` when `currentRoom` is set. */
  function LeftSocket(k: Conn): Conn
  {
    if Truthy(k.currentRoom) then k.(joined := k.joined - {k.currentRoom.value}) else k
  }

  /** `io.on("connection")`: a new socket `c`, with both variables null and in
      no room; the store and every other connection are untouched. */
  function Connect(st: State, c: ConnId): (r: State)
    requires c !in st.conns
    ensures r.rooms == st.rooms && r.conns.Keys == st.conns.Keys + {c}
    ensures r.conns[c] == Idle && forall d | d in st.conns :: r.conns[d] == st.conns[d]
  {
    State(st.rooms, st.conns[c := Idle])
  }

  /** A new connection keeps the coordinator coherent. */
  lemma ConnectKeepsCoherent(st: State, c: ConnId)
    requires Coherent(st) && c !in st.conns
    ensures Coherent(Connect(st, c))
  {
  }

  // ---------------------------------------------------------------- join

  /** `join(roomId, userName, starterCode)` from connection `c`: lines 14-21
      followed by lines 23-39. */
  function Join(st: State, c: ConnId, roomId: string, userName: string, starterCode: Option<string>): (r: Step)
    requires c in st.conns && Bound(st.conns[c], st.rooms)
    ensures r.state.rooms.Keys == st.rooms.Keys + {roomId}
    ensures |r.out| == if Truthy(st.conns[c].currentRoom) then 3 else 2
  {
    var s := SwitchOut(st, c);
    var e := Enter(s.state, c, roomId, userName, starterCode);
    Step(e.state, s.out + e.out)
  }

  /** Lines 14-21 of `join`: a connection whose `currentRoom` is set leaves
      that socket room, its name is deleted there, and the room hears the
      remaining list. */
  function SwitchOut(st: State, c: ConnId): (r: Step)
    requires c in st.conns && Bound(st.conns[c], st.rooms)
    ensures r.state.rooms.Keys == st.rooms.Keys && r.state.conns.Keys == st.conns.Keys
    ensures |r.out| == if Truthy(st.conns[c].currentRoom) then 1 else 0
  {
    var k := st.conns[c];
    var left := st.conns[c := LeftSocket(k)];
    var vacated := Vacated(st.rooms, k);
    if Truthy(k.currentRoom) then
      Step(State(vacated, left),
           [Deliver(Emit(ToRoom(k.currentRoom.value), UserJoined(vacated[k.currentRoom.value].users)), c, left)])
    else
      Step(State(vacated, left), [])
  }

  /** Lines 23-39 of `join`: take the room and the name, join the socket room,
      create the room if unseen, add the name, then tell the sender the text
      and the room the list. */
  function Enter(st: State, c: ConnId, roomId: string, userName: string, starterCode: Option<string>): (r: Step)
    requires c in st.conns
    ensures r.state.rooms.Keys == st.rooms.Keys + {roomId} && r.state.conns.Keys == st.conns.Keys
    ensures |r.out| == 2
  {
    var conns' := st.conns[c := Conn(Some(roomId), Some(userName), st.conns[c].joined + {roomId})];
    var rooms' := AddUser(GetOrCreate(st.rooms, roomId, StarterOrEmpty(starterCode)), roomId, userName);
    Step(State(rooms', conns'),
         [Deliver(Emit(ToSender, CodeUpdate(rooms'[roomId].code)), c, conns'),
          Deliver(Emit(ToRoom(roomId), UserJoined(rooms'[roomId].users)), c, conns')])
  }

  /** The connections after `join`: only the joining one changes; it holds the
      new room and name, and its socket has left the old room and is in the
      new one. */
  lemma JoinMovesConnection(st: State, c: ConnId, roomId: string, userName: string, starterCode: Option<string>)
    requires c in st.conns && Bound(st.conns[c], st.rooms)
    ensures
      var r := Join(st, c, roomId, userName, starterCode).state.conns;
      && r.Keys == st.conns.Keys
      && (forall d | d in st.conns && d != c :: r[d] == st.conns[d])
      && r[c] == Conn(Some(roomId), Some(userName), LeftSocket(st.conns[c]).joined + {roomId})
  {
  }

  /** Lazy creation in `join`: the joiner's name ends up in the room, and an
      unseen room starts from the starter text (empty when none or an empty
      one was given) with the joiner alone in it. */
  lemma JoinCreatesLazily(st: State, c: ConnId, roomId: string, userName: string, starterCode: Option<string>)
    requires c in st.conns && Bound(st.conns[c], st.rooms)
    ensures
      var r := Join(st, c, roomId, userName, starterCode).state.rooms;
      && userName in r[roomId].users
      && (roomId !in st.rooms ==> r[roomId] == Room([userName], StarterOrEmpty(starterCode), None))
  {
  }

  /** Joining a room that exists keeps its text, its output and its other
      members; the starter text is ignored. */
  lemma JoinKeepsRoomText(st: State, c: ConnId, roomId: string, userName: string, starterCode: Option<string>)
    requires c in st.conns && Bound(st.conns[c], st.rooms) && roomId in st.rooms
    ensures
      var r := Join(st, c, roomId, userName, starterCode).state.rooms[roomId];
      && r.code == st.rooms[roomId].code && r.output == st.rooms[roomId].output
      && forall x | x in st.rooms[roomId].users && Some(x) != st.conns[c].currentUser :: x in r.users
  {
  }

  /** The joiner's name is added to the room's insertion-ordered set: after
      the other members when the room is another one, and moved to the end
      when the connection re-joins the room it is in. */
  lemma JoinAppends(st: State, c: ConnId, roomId: string, userName: string, starterCode: Option<string>)
    requires c in st.conns && Bound(st.conns[c], st.rooms) && roomId in st.rooms
    ensures
      var k := st.conns[c];
      var r := Join(st, c, roomId, userName, starterCode).state.rooms[roomId].users;
      && (Some(roomId) != k.currentRoom || roomId == "" ==> r == Add(st.rooms[roomId].users, userName))
      && (Some(roomId) == k.currentRoom && roomId != "" ==>
            r == Add(Delete(st.rooms[roomId].users, k.currentUser.value), userName))
  {
  }

  /** `join` touches no room but the one it leaves and the one it enters. */
  lemma JoinKeepsOtherRooms(st: State, c: ConnId, roomId: string, userName: string, starterCode: Option<string>)
    requires c in st.conns && Bound(st.conns[c], st.rooms)
    ensures
      var r := Join(st, c, roomId, userName, starterCode).state.rooms;
      forall id | id in st.rooms && id != roomId && !(Truthy(st.conns[c].currentRoom) && Some(id) == st.conns[c].currentRoom) ::
        r[id] == st.rooms[id]
  {
  }

  /** The room a switching `join` leaves: its list loses the name and it hears
      that list first, while the switching socket, already out of it, does
      not. */
  lemma JoinLeavesOldRoom(st: State, c: ConnId, roomId: string, userName: string, starterCode: Option<string>)
    requires c in st.conns && Bound(st.conns[c], st.rooms) && Truthy(st.conns[c].currentRoom)
    ensures
      var prev := st.conns[c].currentRoom.value;
      var name := st.conns[c].currentUser.value;
      var r := Join(st, c, roomId, userName, starterCode);
      && r.out[0].emit == Emit(ToRoom(prev), UserJoined(Delete(st.rooms[prev].users, name)))
      && name !in r.out[0].emit.message.users
      && Recipients(r.out[0]) <= st.conns.Keys && c !in Recipients(r.out[0])
      && (forall d | d in st.conns && d != c :: d in Recipients(r.out[0]) <==> prev in st.conns[d].joined)
      && (prev != roomId ==> r.state.rooms[prev].users == Delete(st.rooms[prev].users, name))
      && r.state.rooms[prev].code == st.rooms[prev].code && r.state.rooms[prev].output == st.rooms[prev].output
  {
  }

  /** After the old room's list (when switching), `join` sends the room's text
      to the sender alone. */
  lemma JoinSendsText(st: State, c: ConnId, roomId: string, userName: string, starterCode: Option<string>)
    requires c in st.conns && Bound(st.conns[c], st.rooms)
    ensures
      var r := Join(st, c, roomId, userName, starterCode);
      && r.out[|r.out| - 2].emit == Emit(ToSender, CodeUpdate(r.state.rooms[roomId].code))
      && Recipients(r.out[|r.out| - 2]) == {c}
  {
  }

  /** The last emit of `join`: every socket in the new room, the joiner's
      included, gets the room's list. */
  lemma JoinAnnounces(st: State, c: ConnId, roomId: string, userName: string, starterCode: Option<string>)
    requires c in st.conns && Bound(st.conns[c], st.rooms)
    ensures
      var r := Join(st, c, roomId, userName, starterCode);
      var last := r.out[|r.out| - 1];
      && last.emit == Emit(ToRoom(roomId), UserJoined(r.state.rooms[roomId].users))
      && Recipients(last) <= st.conns.Keys
      && (forall d | d in st.conns :: d in Recipients(last) <==> roomId in r.state.conns[d].joined)
      && c in Recipients(last)
  {
  }

  /** `join` keeps the coordinator coherent: every list stays free of
      duplicates, so the joiner's name is in its room exactly once, and every
      connection's room is still a key of the store. */
  lemma JoinKeepsCoherent(st: State, c: ConnId, roomId: string, userName: string, starterCode: Option<string>)
    requires Coherent(st) && c in st.conns
    ensures Coherent(Join(st, c, roomId, userName, starterCode).state)
  {
    var k := st.conns[c];
    var vacated := Vacated(st.rooms, k);
    if Truthy(k.currentRoom) {
      DeleteUserKeepsConsistent(st.rooms, k.currentRoom.value, k.currentUser.value);
    }
    var created := GetOrCreate(vacated, roomId, StarterOrEmpty(starterCode));
    GetOrCreateKeepsConsistent(vacated, roomId, StarterOrEmpty(starterCode));
    AddUserKeepsConsistent(created, roomId, userName);
    var r := Join(st, c, roomId, userName, starterCode).state;
    assert r.rooms == AddUser(created, roomId, userName);
    JoinMovesConnection(st, c, roomId, userName, starterCode);
    forall d | d in r.conns
      ensures Bound(r.conns[d], r.rooms)
    {
      if d != c {
        assert r.conns[d] == st.conns[d];
      }
    }
  }

  // ---------------------------------------------------------------- codeChange

  /** `codeChange(roomId, code)`: overwrites the text of a known room (an
      unknown id is ignored) and relays the text to the room less the sender
      either way. No list, output or connection changes. */
  function CodeChange(st: State, c: ConnId, roomId: string, code: string): (r: Step)
    ensures r.state.conns == st.conns
    ensures r.state.rooms.Keys == st.rooms.Keys
    ensures forall id | id in st.rooms :: r.state.rooms[id].users == st.rooms[id].users
    ensures forall id | id in st.rooms && id != roomId :: r.state.rooms[id] == st.rooms[id]
    ensures roomId in st.rooms ==>
      r.state.rooms[roomId].code == code && r.state.rooms[roomId].output == st.rooms[roomId].output
    ensures roomId !in st.rooms ==> r.state == st
    ensures |r.out| == 1 && r.out[0].emit == Emit(ToRoomExceptSender(roomId), CodeUpdate(code))
    ensures Recipients(r.out[0]) <= st.conns.Keys
    ensures forall d | d in st.conns :: d in Recipients(r.out[0]) <==> d != c && roomId in st.conns[d].joined
    ensures c !in Recipients(r.out[0])
  {
    Step(State(SetCode(st.rooms, roomId, code), st.conns),
         [Deliver(Emit(ToRoomExceptSender(roomId), CodeUpdate(code)), c, st.conns)])
  }

  /** `codeChange` keeps the coordinator coherent. */
  lemma CodeChangeKeepsCoherent(st: State, c: ConnId, roomId: string, code: string)
    requires Coherent(st)
    ensures Coherent(CodeChange(st, c, roomId, code).state)
  {
  }

  // ---------------------------------------------------------------- leaveRoom

  /** `leaveRoom`: when in a room, deletes the name and tells the room while
      the leaver's socket is still in it (so it hears too), then the socket
      leaves and both variables are reset; otherwise nothing happens. */
  function LeaveRoom(st: State, c: ConnId): (r: Step)
    requires c in st.conns && Bound(st.conns[c], st.rooms)
    ensures r.state.rooms.Keys == st.rooms.Keys && r.state.conns.Keys == st.conns.Keys
    ensures forall d | d in st.conns && d != c :: r.state.conns[d] == st.conns[d]
    ensures !InRoom(r.state.conns[c])
    ensures !InRoom(st.conns[c]) ==> r == Step(st, [])
    ensures InRoom(st.conns[c]) ==>
      var k := st.conns[c];
      var room := k.currentRoom.value;
      && r.state.rooms == DeleteUser(st.rooms, room, k.currentUser.value)
      && r.state.conns[c] == Conn(None, None, k.joined - {room})
      && r.out == [Deliver(Emit(ToRoom(room), UserJoined(r.state.rooms[room].users)), c, st.conns)]
      && k.currentUser.value !in r.out[0].emit.message.users
      && c in Recipients(r.out[0])
  {
    var k := st.conns[c];
    if InRoom(k) then
      var room := k.currentRoom.value;
      var rooms' := DeleteUser(st.rooms, room, k.currentUser.value);
      Step(State(rooms', st.conns[c := Conn(None, None, k.joined - {room})]),
           [Deliver(Emit(ToRoom(room), UserJoined(rooms'[room].users)), c, st.conns)])
    else
      Step(st, [])
  }

  /** `leaveRoom` is idempotent: right after one, another changes nothing and
      emits nothing. */
  lemma LeaveTwice(st: State, c: ConnId)
    requires c in st.conns && Bound(st.conns[c], st.rooms)
    ensures
      var once := LeaveRoom(st, c).state;
      Bound(once.conns[c], once.rooms) && LeaveRoom(once, c) == Step(once, [])
  {
  }

  /** `leaveRoom` keeps the coordinator coherent. */
  lemma LeaveKeepsCoherent(st: State, c: ConnId)
    requires Coherent(st) && c in st.conns
    ensures Coherent(LeaveRoom(st, c).state)
  {
    var k := st.conns[c];
    if InRoom(k) {
      DeleteUserKeepsConsistent(st.rooms, k.currentRoom.value, k.currentUser.value);
    }
  }

  // ---------------------------------------------------------------- relays

  /** `typing(roomId, userName)`: a pure relay to the room less the sender. */
  function Typing(st: State, c: ConnId, roomId: string, userName: string): (r: Step)
    ensures r.state == st
    ensures |r.out| == 1 && r.out[0].emit == Emit(ToRoomExceptSender(roomId), UserTyping(userName))
    ensures c !in Recipients(r.out[0])
  {
    Step(st, [Deliver(Emit(ToRoomExceptSender(roomId), UserTyping(userName)), c, st.conns)])
  }

  /** A typing notice reaches exactly the other sockets in the room: never the
      sender, and never a socket in another room, whatever name it goes by. */
  lemma TypingReachesRoomOnly(st: State, c: ConnId, roomId: string, userName: string)
    ensures
      var r := Recipients(Typing(st, c, roomId, userName).out[0]);
      && r <= st.conns.Keys
      && forall d | d in st.conns :: d in r <==> d != c && roomId in st.conns[d].joined
  {
    DeliverReaches(Emit(ToRoomExceptSender(roomId), UserTyping(userName)), c, st.conns);
  }

  /** `languageChange(roomId, language)`: a pure relay to the whole room, the
      sender included when its socket is in the room; the language is not
      stored. */
  function LanguageChange(st: State, c: ConnId, roomId: string, language: string): (r: Step)
    ensures r.state == st
    ensures |r.out| == 1 && r.out[0].emit == Emit(ToRoom(roomId), LanguageUpdate(language))
    ensures Recipients(r.out[0]) <= st.conns.Keys
    ensures forall d | d in st.conns :: d in Recipients(r.out[0]) <==> roomId in st.conns[d].joined
  {
    Step(st, [Deliver(Emit(ToRoom(roomId), LanguageUpdate(language)), c, st.conns)])
  }

  // ---------------------------------------------------------------- compileCode

  /** What `compileCode` asks of the execution provider: one request carrying
      the language, the version, the code as the only file and the input, and
      only when the room exists. */
  function ExecutionRequest(st: State, code: string, roomId: string, language: string, version: string,
                            input: string): Option<ExecRequest>
  {
    if roomId in st.rooms then Some(ExecRequest(language, version, [code], input)) else None
  }

  /** `compileCode` once the provider has answered `response` (None when the
      call failed): on a known room with a reply, only that room's output
      changes and the whole reply goes to the whole room; otherwise nothing is
      written or sent. */
  function CompileCode(st: State, c: ConnId, roomId: string, response: Option<ExecResponse>): (r: Step)
    ensures r.state.conns == st.conns && r.state.rooms.Keys == st.rooms.Keys
    ensures forall id | id in st.rooms && id != roomId :: r.state.rooms[id] == st.rooms[id]
    ensures roomId !in st.rooms || response.None? ==> r == Step(st, [])
    ensures roomId in st.rooms && response.Some? ==>
      && r.state.rooms[roomId] == st.rooms[roomId].(output := Some(response.value.run.output))
      && r.out == [Deliver(Emit(ToRoom(roomId), CodeResponse(response.value)), c, st.conns)]
  {
    if roomId in st.rooms && response.Some? then
      Step(State(SetOutput(st.rooms, roomId, response.value.run.output), st.conns),
           [Deliver(Emit(ToRoom(roomId), CodeResponse(response.value)), c, st.conns)])
    else
      Step(st, [])
  }

  /** `compileCode` keeps the coordinator coherent. */
  lemma CompileKeepsCoherent(st: State, c: ConnId, roomId: string, response: Option<ExecResponse>)
    requires Coherent(st)
    ensures Coherent(CompileCode(st, c, roomId, response).state)
  {
  }

  // ---------------------------------------------------------------- disconnect

  /** `disconnect`: the same deletion and broadcast as `leaveRoom` when in a
      room. socket.io has already taken the socket out of all its rooms when
      the handler runs, so the broadcast is made without it, and the
      connection is gone afterwards. */
  function Disconnect(st: State, c: ConnId): (r: Step)
    requires c in st.conns && Bound(st.conns[c], st.rooms)
    ensures r.state.conns == st.conns - {c} && r.state.rooms.Keys == st.rooms.Keys
    ensures !InRoom(st.conns[c]) ==> r == Step(State(st.rooms, st.conns - {c}), [])
    ensures InRoom(st.conns[c]) ==>
      var k := st.conns[c];
      var room := k.currentRoom.value;
      && r.state.rooms == DeleteUser(st.rooms, room, k.currentUser.value)
      && |r.out| == 1 && r.out[0].emit == Emit(ToRoom(room), UserJoined(r.state.rooms[room].users))
      && k.currentUser.value !in r.out[0].emit.message.users
      && Recipients(r.out[0]) <= st.conns.Keys && c !in Recipients(r.out[0])
      && forall d | d in st.conns && d != c :: d in Recipients(r.out[0]) <==> room in st.conns[d].joined
  {
    var k := st.conns[c];
    if InRoom(k) then
      var room := k.currentRoom.value;
      var rooms' := DeleteUser(st.rooms, room, k.currentUser.value);
      Step(State(rooms', st.conns - {c}), [Deliver(Emit(ToRoom(room), UserJoined(rooms'[room].users)), c, st.conns - {c})])
    else
      Step(State(st.rooms, st.conns - {c}), [])
  }

  /** `disconnect` keeps the coordinator coherent. */
  lemma DisconnectKeepsCoherent(st: State, c: ConnId)
    requires Coherent(st) && c in st.conns
    ensures Coherent(Disconnect(st, c).state)
  {
    var k := st.conns[c];
    if InRoom(k) {
      DeleteUserKeepsConsistent(st.rooms, k.currentRoom.value, k.currentUser.value);
    }
  }
}
