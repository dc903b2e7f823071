# CollabCode room coordinator in Dafny

CollabCode is a collaborative code editor. Its server keeps one store of
rooms in memory. Each room holds a list of display names, the shared code,
and the output of the last run. Each client connection binds two variables,
`currentRoom` and `currentUser`, and handles seven socket.io events: `join`,
`codeChange`, `leaveRoom`, `typing`, `languageChange`, `compileCode` and
`disconnect`. This project models that coordinator (`backend/socket.js`) and
proves what each handler does to the store, to the connection, and to whom
each message goes.

The model has five modules:

- `Wrappers`: an `Option` type and `Truthy`, the JavaScript truthiness of a
  nullable string (null and `""` are both false).
- `Rooms`: the store.
  - A room's `users` is a JavaScript `Set` of names: a duplicate-free
    sequence in insertion order, which is the order `Array.from` returns.
  - `Add` and `Delete` are the set's `add` and `delete`.
- `Events`: the messages and where they are sent.
  - `socket.emit` goes to the sender; `io.to(room)` goes to the whole room;
    `socket.to(room)` goes to the room except the sender.
  - A `Delivery` records an emit together with every socket's socket.io
    rooms at the moment it was made. `Recipients` computes who receives it.
    This makes it observable whether an emit came before or after a
    `socket.leave`.
- `Coordinator`: each handler as a function from the state (the store plus
  every connection's variables and socket rooms) to the new state and the
  deliveries, in order. Lemmas state what each handler promises and prove
  that each one keeps the invariant `Coherent`:
  - every list is duplicate-free;
  - the two variables are set and reset together;
  - a set `currentRoom` is always a key of the store and a socket room of
    its socket. This is why the unguarded `rooms.get(currentRoom)` calls can
    never fail.
- `Socket`: the handler as the source writes it, a `Server` object whose
  `rooms` and `conns` fields are updated in place by one method per event.
  Each event method is proved to have exactly the effect of its
  `Coordinator` step, and each event method that changes the state is
  proved to keep `Valid`.
- `Scenarios`: runs of several events across two connections, proved from
  the handlers' lemmas.

## Model

| member | source | states |
|---|---|---|
| Rooms.Add | backend/socket.js:32 | `Set.add`: the result holds exactly the old names plus the new one, keeps the old order as a prefix, and grows by one only when the name was absent |
| Rooms.AddKeepsNoDup | backend/socket.js:32 | adding to a duplicate-free list keeps it duplicate-free, so a joiner's name is listed once |
| Rooms.Delete | backend/socket.js:16 | `Set.delete`: the result holds exactly the old names other than the deleted one, is never longer, and is unchanged when the name was absent |
| Rooms.DeleteKeepsNoDup | backend/socket.js:51 | deleting from a duplicate-free list keeps it duplicate-free |
| Rooms.DeleteAt | backend/socket.js:97 | on a duplicate-free list, deleting the name at position i removes exactly that position and keeps the order of the rest |
| Rooms.RejoinMovesToEnd | backend/socket.js:16-32 | deleting a listed name and adding it again moves it to the end of the list and keeps the order of the others |
| Rooms.GetOrCreate | backend/socket.js:28-30 | an unseen room id gets a room with no users, the given text and no output; existing rooms and the other keys are unchanged |
| Rooms.AddUser | backend/socket.js:32 | only that room's list changes, it becomes the `Add` of the old one, and text and output are kept |
| Rooms.DeleteUser | backend/socket.js:51 | only that room's list changes, it is the `Delete` of the old one, and text and output are kept |
| Rooms.SetCode | backend/socket.js:43-45 | a known room's text is replaced and nothing else changes; an unknown id leaves the store as it was |
| Rooms.SetOutput | backend/socket.js:89 | only that room's output changes |
| Events.Recipients | backend/socket.js:34-36 | the sender alone for `socket.emit`; for a room target, exactly the sockets in that room, less the sender for `socket.to` |
| Coordinator.DeliverReaches | backend/socket.js:46 | who an emit reaches, stated over the connections' socket rooms at the moment of the emit |
| Coordinator.Connect | backend/socket.js:7-11 | a new connection starts with both variables null and in no room; the store and the other connections are untouched |
| Coordinator.ConnectKeepsCoherent | backend/socket.js:7-11 | a new connection keeps the invariant |
| Coordinator.Join | backend/socket.js:13-40 | `join` never removes a room key: the keys afterwards are the old keys plus the joined id; it sends three messages when `currentRoom` was truthy, two otherwise |
| Coordinator.SwitchOut | backend/socket.js:14-21 | the switch leaves the room keys and the connection ids as they were, and emits one list exactly when `currentRoom` is truthy |
| Coordinator.Enter | backend/socket.js:23-39 | entering adds the room id to the keys, keeps the connection ids, and emits two messages |
| Coordinator.JoinMovesConnection | backend/socket.js:15-26 | afterwards `currentRoom` and `currentUser` are the joined room and name; the socket has left the old room and is in the new one; no other connection changes |
| Coordinator.JoinCreatesLazily | backend/socket.js:28-32 | the name ends up in the room's list; an unseen room is created with the joiner alone, the starter text (or `""`) and no output |
| Coordinator.JoinKeepsRoomText | backend/socket.js:28-32 | joining an existing room keeps its text, its output and every member other than the joiner's old name; the starter text is ignored |
| Coordinator.JoinAppends | backend/socket.js:16-32 | the room's new list is `Add` of its old one (a name another connection already listed keeps its place); re-joining the current room first deletes the old name, so a re-joiner's name moves to the end |
| Coordinator.JoinKeepsOtherRooms | backend/socket.js:13-40 | no room other than the one left and the one entered changes |
| Coordinator.JoinLeavesOldRoom | backend/socket.js:14-21 | a switching join first sends the old room its list without the name; the switcher, having already left, does not receive it and every other socket in that room does; the old room keeps that list, its text and its output |
| Coordinator.JoinSendsText | backend/socket.js:34 | the room's current text goes to the joiner alone |
| Coordinator.JoinAnnounces | backend/socket.js:36-39 | the last emit sends the new list to every socket in the room, the joiner included |
| Coordinator.JoinKeepsCoherent | backend/socket.js:13-40 | `join` keeps the invariant: lists stay duplicate-free, so the joiner is listed exactly once, and every set `currentRoom` is a key |
| Coordinator.CodeChange | backend/socket.js:42-47 | only a known room's text changes, to the new text; an unknown room leaves the state as it was; the text goes, whether or not the room is known, to exactly the sockets in the room other than the sender |
| Coordinator.CodeChangeKeepsCoherent | backend/socket.js:42-47 | `codeChange` keeps the invariant |
| Coordinator.LeaveRoom | backend/socket.js:49-60 | when both variables are truthy: the name is deleted from the room, the new list goes to the room with the leaver still in it (the leaver receives it), then the socket leaves and both variables are reset; otherwise nothing changes and nothing is sent |
| Coordinator.LeaveTwice | backend/socket.js:49-60 | a second `leaveRoom` right after the first changes nothing and sends nothing |
| Coordinator.LeaveKeepsCoherent | backend/socket.js:49-60 | `leaveRoom` keeps the invariant |
| Coordinator.Typing | backend/socket.js:62-64 | `typing` changes nothing and never reaches the sender |
| Coordinator.TypingReachesRoomOnly | backend/socket.js:63 | a typing notice reaches exactly the other sockets in that socket.io room, and never a socket in another room, whatever its name |
| Coordinator.LanguageChange | backend/socket.js:66-68 | `languageChange` changes nothing, stores no language, and reaches exactly the sockets in the room, the sender included when its socket is there |
| Coordinator.CompileCode | backend/socket.js:70-93 | with a reply for a known room, only that room's output changes, to the reply's `run.output`, and the whole reply goes to the whole room; with an unknown room or a failed call, nothing is written or sent |
| Coordinator.CompileKeepsCoherent | backend/socket.js:70-93 | `compileCode` keeps the invariant |
| Coordinator.Disconnect | backend/socket.js:95-104 | when both variables are truthy, the name is deleted from the room and the new list goes to exactly the other sockets in the room, the disconnected socket having left its rooms already; otherwise the store is unchanged and nothing is sent; in both cases the connection is dropped |
| Coordinator.DisconnectKeepsCoherent | backend/socket.js:95-104 | `disconnect` keeps the invariant |
| Socket.Server.constructor | backend/socket.js:4 | the store starts empty, with no connection |
| Socket.Server.Connect | backend/socket.js:7-11 | the new connection gets a fresh id, and the object's state becomes `Coordinator.Connect` of the old state |
| Socket.Server.Join | backend/socket.js:13-40 | the in-place `join` has exactly the effect and emits of `Coordinator.Join` and keeps `Valid` |
| Socket.Server.SwitchOut | backend/socket.js:14-21 | the in-place switch equals `Coordinator.SwitchOut` |
| Socket.Server.Enter | backend/socket.js:23-39 | the in-place entry equals `Coordinator.Enter` |
| Socket.Server.CodeChange | backend/socket.js:42-47 | the in-place `codeChange` equals `Coordinator.CodeChange` and keeps `Valid` |
| Socket.Server.LeaveRoom | backend/socket.js:49-60 | the in-place `leaveRoom` equals `Coordinator.LeaveRoom` and keeps `Valid` |
| Socket.Server.Typing | backend/socket.js:62-64 | the object is unchanged and the emits are those of `Coordinator.Typing` |
| Socket.Server.LanguageChange | backend/socket.js:66-68 | the object is unchanged and the emits are those of `Coordinator.LanguageChange` |
| Socket.Server.CompileCode | backend/socket.js:70-93 | the request is `Coordinator.ExecutionRequest` of the state before: made only for a known room, with the language, the version, the code as the only file and the input; the write and emits equal `Coordinator.CompileCode` for the given reply; `Valid` is kept |
| Socket.Server.Disconnect | backend/socket.js:95-104 | the in-place `disconnect` drops the connection, then runs the handler; it equals `Coordinator.Disconnect` and keeps `Valid` |
| Scenarios.Fresh | backend/socket.js:7-11 | two idle connections and no room satisfy the invariant |
| Scenarios.LaterJoinerGetsLatestText | backend/socket.js:29-46 | `a` creates a room with text x and writes y; `b`, joining later, is sent y, and only `b` is |
| Scenarios.FirstJoin | backend/socket.js:28-34 | the first join creates the room holding its joiner alone, with the starter text |
| Scenarios.SecondJoin | backend/socket.js:32-39 | a second, differently named joiner is appended after the first |
| Scenarios.DeleteFromPair | backend/socket.js:16 | deleting either name from a list of two leaves the other |
| Scenarios.TwoJoin | backend/socket.js:13-40 | two joins from fresh connections give room r listing a and then b, with the first joiner's starter text |
| Scenarios.GoneSocketHearsNothing | backend/socket.js:62-68 | after a member of a room of two disconnects, it is no longer a connection, and neither a typing notice nor a language change reaches it |
| Scenarios.EditThenDisconnect | backend/socket.js:42-104 | in a room of two, an edit reaches only the other member; when that member disconnects, the one left, and only it, receives the list holding only itself |
| Scenarios.RejoinScenario | backend/socket.js:14-21 | re-joining the current room first sends the others the list without the name, and only they receive it |
| Scenarios.RejoinMovesToBack | backend/socket.js:16-32 | after re-joining, the name stands at the end of the list |
| Scenarios.SwitchScenario | backend/socket.js:14-21 | moving to another room sends the old room its remaining list, and only the member left there receives it |
| Scenarios.SwitchCreates | backend/socket.js:14-32 | after the move the old room keeps the other member alone, the new room is created holding the mover, and the mover's socket is in the new room only |
| Scenarios.CompileScenario | backend/socket.js:89-90 | in a room of two, a compile result reaches both members, the requester included, and becomes the room's output |
| Scenarios.SameNameJoin | backend/socket.js:32 | a second connection joining under a name already in the room does not list it twice |
| Scenarios.SharedNameLeave | backend/socket.js:49-60 | when one of two connections sharing a name leaves, the name disappears although the other connection is still in the room, and that connection receives the empty list |
| Scenarios.EmptyRoomIdIsNeverLeft | backend/socket.js:14-32 | after joining the room id `""` and then room r, the name is listed in both rooms, because the switch is guarded by the truthiness of the room id |
| Scenarios.SoloStart | backend/socket.js:10-11 | a fresh connection satisfies `Solo` |
| Scenarios.SoloOneRoom | backend/socket.js:13-60 | under `Solo`, a name is listed in at most one room, the connection's current room |
| Scenarios.SoloJoin | backend/socket.js:13-40 | a join with a non-empty room id keeps `Solo` |
| Scenarios.SoloLeave | backend/socket.js:49-60 | `leaveRoom` keeps `Solo` |
| Scenarios.SoloWrite | backend/socket.js:42-93 | `codeChange` and `compileCode` keep `Solo` |

## Left out

- The call to the execution provider (lines 75-87) is not made.
  - `ExecutionRequest` states the request it would send.
  - The provider's reply is a parameter of `CompileCode`; `None` stands for a call that throws, after which the handler writes and sends nothing. The handler does not catch that rejection and the server installs no handler for it, so on current Node.js the process may exit and lose every room; the model treats the failed call as a no-op.
- Other events can interleave with `compileCode` while it waits for the provider. The model runs each handler as one atomic step. The `room` object that line 74 reads before the wait is the one line 89 writes, and that holds in the model because no handler removes a room.
- socket.io itself is not modelled: the transport and the delivery of messages. Its removal of a disconnected socket from all its rooms before the `disconnect` handler runs is modelled by dropping the connection from the state, so neither the handler's broadcast nor any later one reaches it.
- Every socket's automatic room named after its own id is not modelled. Room ids come from the client as free text, so a room id equal to a socket id would reach that socket through `io.to` and `socket.to`; the model assumes no room id equals a socket id.
- The `console.log` calls are left out.
- Payloads are taken as well-formed strings. A missing or non-string field is not modelled.
- The language is relayed but not stored, because the code does not store it. A newly created room has no output until a run succeeds, because line 29 does not set one.
- A room created by `join` takes `starterCode || ""`. It does not start from an empty document.
- The property "a connection's name is listed in at most one room" holds only for non-empty room ids. `EmptyRoomIdIsNeverLeft` shows that a join with the id `""` is never undone, because lines 14 and 50 test the room id's truthiness. The model follows the code. `Solo` and its lemmas state the property for one connection using non-empty ids, with `join`, `leaveRoom`, `codeChange` and `compileCode`.
- The property is proved for one connection, because names are the only identity. Two connections sharing a name share one entry, as `SharedNameLeave` shows.
- Coordinator.SwitchOut: its own contract states only the keys, the connection ids and how many messages it sends. The delete of line 16, the leave of line 15 and the list it sends are stated of `join` by `JoinLeavesOldRoom` and `JoinMovesConnection`.
- Coordinator.Enter: its own contract states only the keys, the connection ids and that it sends two messages. The creation, the add and what the two messages carry are stated of `join` by `JoinCreatesLazily`, `JoinAppends`, `JoinSendsText` and `JoinAnnounces`.
- Coordinator.Join: its own contract states only that no key is removed and how many messages it sends. What `join` does is stated by the `Join…` lemmas beside it, which keeps each proof small.
- Frontend (`frontend/src/App.jsx`) and server bootstrap (`backend/index.js`) are not part of this model.
