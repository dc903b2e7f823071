/** The socket handler of backend/socket.js as a server object: the
    module-level `rooms` Map and, per connection, the variables the handlers
    close over and the socket's socket.io rooms, updated in place by one method
    per event. Each method does what the code does, statement by statement, and
    is proved to have the effect its Coordinator step describes. */
module Socket {
  import opened Wrappers
  import opened Rooms
  import opened Events
  import Coordinator

  class Server {
    /** The module-level `rooms` Map. */
    var rooms: map<string, Room>
    /** The live connections, by socket id. */
    var conns: map<ConnId, Coordinator.Conn>
    /** The id the next connection gets. */
    var nextId: ConnId

    /** The server's state as a value. */
    function Snapshot(): Coordinator.State
      reads this
    {
      Coordinator.State(rooms, conns)
    }

    /** The coordinator invariant, and every live id was handed out. */
    ghost predicate Valid()
      reads this
    {
      Coordinator.Coherent(Snapshot()) && forall d | d in conns :: d < nextId
    }

    /** The server starts with no room and no connection. */
    constructor ()
      ensures Valid() && rooms == map[] && conns == map[]
    {
      rooms := map[];
      conns := map[];
      nextId := 0;
    }

    /** `io.on("connection")`: a fresh socket id, with both variables null
        and in no room. */
    method Connect() returns (c: ConnId)
      requires Valid()
      modifies this
      ensures Valid()
      ensures c !in old(conns) && Snapshot() == Coordinator.Connect(old(Snapshot()), c)
    {
      c := nextId;
      nextId := nextId + 1;
      Coordinator.ConnectKeepsCoherent(Snapshot(), c);
      conns := conns[c := Coordinator.Idle];
    }

    /** `join(roomId, userName, starterCode)` from connection `c`. */
    method Join(c: ConnId, roomId: string, userName: string, starterCode: Option<string>)
      returns (out: seq<Delivery>)
      requires Valid() && c in conns
      modifies this`rooms, this`conns
      ensures Valid()
      ensures Coordinator.Join(old(Snapshot()), c, roomId, userName, starterCode) == Coordinator.Step(Snapshot(), out)
    {
      ghost var before := Snapshot();
      out := SwitchOut(c);
      var rest := Enter(c, roomId, userName, starterCode);
      out := out + rest;
      Coordinator.JoinKeepsCoherent(before, c, roomId, userName, starterCode);
    }

    /** Lines 14-21 of `join`. */
    method SwitchOut(c: ConnId) returns (out: seq<Delivery>)
      requires c in conns && Coordinator.Bound(conns[c], rooms)
      modifies this`rooms, this`conns
      ensures Coordinator.SwitchOut(old(Snapshot()), c) == Coordinator.Step(Snapshot(), out)
    {
      var k := conns[c];
      out := [];
      if Truthy(k.currentRoom) {
        var prev := k.currentRoom.value;
        conns := conns[c := k.(joined := k.joined - {prev})];
        rooms := rooms[prev := rooms[prev].(users := Delete(rooms[prev].users, k.currentUser.value))];
        out := [Coordinator.Deliver(Emit(ToRoom(prev), UserJoined(rooms[prev].users)), c, conns)];
      }
    }

    /** Lines 23-39 of `join`. */
    method Enter(c: ConnId, roomId: string, userName: string, starterCode: Option<string>)
      returns (out: seq<Delivery>)
      requires c in conns
      modifies this`rooms, this`conns
      ensures Coordinator.Enter(old(Snapshot()), c, roomId, userName, starterCode) == Coordinator.Step(Snapshot(), out)
    {
      conns := conns[c := Coordinator.Conn(Some(roomId), Some(userName), conns[c].joined + {roomId})];
      if roomId !in rooms {
        rooms := rooms[roomId := Room([], Coordinator.StarterOrEmpty(starterCode), None)];
      }
      rooms := rooms[roomId := rooms[roomId].(users := Add(rooms[roomId].users, userName))];
      out := [Coordinator.Deliver(Emit(ToSender, CodeUpdate(rooms[roomId].code)), c, conns),
              Coordinator.Deliver(Emit(ToRoom(roomId), UserJoined(rooms[roomId].users)), c, conns)];
    }

    /** `codeChange(roomId, code)` from connection `c`. */
    method CodeChange(c: ConnId, roomId: string, code: string) returns (out: seq<Delivery>)
      requires Valid()
      modifies this`rooms
      ensures Valid()
      ensures Coordinator.CodeChange(old(Snapshot()), c, roomId, code) == Coordinator.Step(Snapshot(), out)
    {
      Coordinator.CodeChangeKeepsCoherent(Snapshot(), c, roomId, code);
      if roomId in rooms {
        rooms := rooms[roomId := rooms[roomId].(code := code)];
      }
      out := [Coordinator.Deliver(Emit(ToRoomExceptSender(roomId), CodeUpdate(code)), c, conns)];
    }

    /** `leaveRoom` from connection `c`. */
    method LeaveRoom(c: ConnId) returns (out: seq<Delivery>)
      requires Valid() && c in conns
      modifies this`rooms, this`conns
      ensures Valid()
      ensures Coordinator.LeaveRoom(old(Snapshot()), c) == Coordinator.Step(Snapshot(), out)
    {
      ghost var before := Snapshot();
      var k := conns[c];
      out := [];
      if Truthy(k.currentRoom) && Truthy(k.currentUser) {
        var room := k.currentRoom.value;
        rooms := rooms[room := rooms[room].(users := Delete(rooms[room].users, k.currentUser.value))];
        out := [Coordinator.Deliver(Emit(ToRoom(room), UserJoined(rooms[room].users)), c, conns)];
        conns := conns[c := k.(joined := k.joined - {room})];
        conns := conns[c := conns[c].(currentRoom := None, currentUser := None)];
      }
      Coordinator.LeaveKeepsCoherent(before, c);
    }

    /** `typing(roomId, userName)` from connection `c`. */
    method Typing(c: ConnId, roomId: string, userName: string) returns (out: seq<Delivery>)
      ensures Coordinator.Typing(Snapshot(), c, roomId, userName) == Coordinator.Step(Snapshot(), out)
    {
      out := [Coordinator.Deliver(Emit(ToRoomExceptSender(roomId), UserTyping(userName)), c, conns)];
    }

    /** `languageChange(roomId, language)` from connection `c`. */
    method LanguageChange(c: ConnId, roomId: string, language: string) returns (out: seq<Delivery>)
      ensures Coordinator.LanguageChange(Snapshot(), c, roomId, language) == Coordinator.Step(Snapshot(), out)
    {
      out := [Coordinator.Deliver(Emit(ToRoom(roomId), LanguageUpdate(language)), c, conns)];
    }

    /** `compileCode({code, roomId, language, version, input})` from
        connection `c`: `request` is what goes to the execution provider, and
        `response` its reply (None when the call fails). */
    method CompileCode(c: ConnId, code: string, roomId: string, language: string, version: string,
                       input: string, response: Option<ExecResponse>)
      returns (request: Option<ExecRequest>, out: seq<Delivery>)
      requires Valid()
      modifies this`rooms
      ensures Valid()
      ensures request == Coordinator.ExecutionRequest(old(Snapshot()), code, roomId, language, version, input)
      ensures Coordinator.CompileCode(old(Snapshot()), c, roomId, response) == Coordinator.Step(Snapshot(), out)
    {
      Coordinator.CompileKeepsCoherent(Snapshot(), c, roomId, response);
      request := None;
      out := [];
      if roomId in rooms {
        request := Some(ExecRequest(language, version, [code], input));
        if response.Some? {
          var reply := response.value;
          rooms := rooms[roomId := rooms[roomId].(output := Some(reply.run.output))];
          out := [Coordinator.Deliver(Emit(ToRoom(roomId), CodeResponse(reply)), c, conns)];
        }
      }
    }

    /** `disconnect` of connection `c`: socket.io has already taken its
        socket out of its rooms, and the connection is dropped. */
    method Disconnect(c: ConnId) returns (out: seq<Delivery>)
      requires Valid() && c in conns
      modifies this`rooms, this`conns
      ensures Valid()
      ensures Coordinator.Disconnect(old(Snapshot()), c) == Coordinator.Step(Snapshot(), out)
    {
      Coordinator.DisconnectKeepsCoherent(Snapshot(), c);
      var k := conns[c];
      conns := conns - {c};
      out := [];
      if Truthy(k.currentRoom) && Truthy(k.currentUser) {
        var room := k.currentRoom.value;
        rooms := rooms[room := rooms[room].(users := Delete(rooms[room].users, k.currentUser.value))];
        out := [Coordinator.Deliver(Emit(ToRoom(room), UserJoined(rooms[room].users)), c, conns)];
      }
    }
  }
}
