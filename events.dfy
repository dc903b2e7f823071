/** Outbound events and socket.io's rule for who receives them. */
module Events {

  /** socket.io's `socket.id`. */
  type ConnId = nat

  /** Where an emit goes: `socket.emit` (the sender only), `io.to(room)` (every
      socket in the room, the sender included) or `socket.to(room)` (every socket
      in the room but the sender). */
  datatype Target = ToSender | ToRoom(room: string) | ToRoomExceptSender(room: string)

  /** What the execution provider runs for one `compileCode`: the body of the
      POST request, with one file holding the code. */
  datatype ExecRequest = ExecRequest(language: string, version: string, files: seq<string>, stdin: string)

  /** The part of the provider's reply that the server reads (`run.output`);
      the rest is relayed without being looked at. */
  datatype RunStage = RunStage(stdout: string, stderr: string, output: string, code: int)
  datatype ExecResponse = ExecResponse(language: string, version: string, run: RunStage)

  /** The event name with its payload. */
  datatype Message =
    | UserJoined(users: seq<string>)
    | CodeUpdate(code: string)
    | UserTyping(userName: string)
    | LanguageUpdate(language: string)
    | CodeResponse(response: ExecResponse)

  datatype Emit = Emit(target: Target, message: Message)

  /** An emit from `sender`, together with the socket.io rooms every live
      socket was in at the moment it was made: that moment decides who hears
      it, so an emit made before a `socket.leave` still reaches the leaver. */
  datatype Delivery = Delivery(emit: Emit, sender: ConnId, membership: map<ConnId, set<string>>)

  /** The sockets a delivery reaches: a room-wide emit reaches exactly the
      sockets in that room (never one in another room, whatever name it uses),
      less the sender for `socket.to`; a direct emit reaches the sender alone. */
  function Recipients(d: Delivery): (r: set<ConnId>)
    ensures r <= d.membership.Keys
    ensures d.emit.target.ToSender? ==> r == (if d.sender in d.membership then {d.sender} else {})
    ensures !d.emit.target.ToSender? ==> forall c | c in d.membership ::
      c in r <==> d.emit.target.room in d.membership[c] && (c == d.sender ==> d.emit.target.ToRoom?)
  {
    match d.emit.target
    case ToSender => set c | c in d.membership && c == d.sender
    case ToRoom(id) => set c | c in d.membership && id in d.membership[c]
    case ToRoomExceptSender(id) => set c | c in d.membership && id in d.membership[c] && c != d.sender
  }
}
