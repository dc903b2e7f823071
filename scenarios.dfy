/** Runs of several events, exhibiting what the coordinator does across
    handlers and connections. Each run starts from fresh connections and no
    room, and is proved from the handlers' lemmas. */
module Scenarios {
  import opened Wrappers
  import opened Rooms
  import opened Events
  import opened Coordinator

  /** Connections `ca` and `cb`, both idle, and no room yet. */
  function Fresh(ca: ConnId, cb: ConnId): (st: State)
    ensures st.conns.Keys == {ca, cb} && st.rooms == map[]
    ensures Coherent(st)
  {
    State(map[], map[ca := Idle, cb := Idle])
  }

  /** The text outlives membership changes: `a` creates room `r` with starter
      text `x` and then writes `y`; `b`, joining later, is sent `y`, and only
      `b` is. */
  lemma LaterJoinerGetsLatestText(r: string, a: string, b: string, x: string, y: string, ca: ConnId, cb: ConnId)
    requires ca != cb
    ensures
      var j1 := Join(Fresh(ca, cb), ca, r, a, Some(x));
      var e := CodeChange(j1.state, ca, r, y);
      var j2 := Join(e.state, cb, r, b, None);
      && j2.out[0].emit == Emit(ToSender, CodeUpdate(y))
      && Recipients(j2.out[0]) == {cb}
  {
    var j1 := Join(Fresh(ca, cb), ca, r, a, Some(x));
    JoinMovesConnection(Fresh(ca, cb), ca, r, a, Some(x));
    var e := CodeChange(j1.state, ca, r, y);
    assert e.state.conns[cb] == Idle;
    JoinSendsText(e.state, cb, r, b, None);
    JoinKeepsRoomText(e.state, cb, r, b, None);
  }

  /** From fresh connections, `a` creates room `r` with starter text `x`. */
  lemma FirstJoin(r: string, a: string, x: string, ca: ConnId, cb: ConnId)
    requires ca != cb
    ensures
      var j := Join(Fresh(ca, cb), ca, r, a, Some(x)).state;
      && j.rooms.Keys == {r} && j.rooms[r] == Room([a], x, None)
      && j.conns.Keys == {ca, cb}
      && j.conns[ca] == Conn(Some(r), Some(a), {r}) && j.conns[cb] == Idle
  {
    JoinMovesConnection(Fresh(ca, cb), ca, r, a, Some(x));
    JoinCreatesLazily(Fresh(ca, cb), ca, r, a, Some(x));
  }

  /** An idle connection `cb` joins as `b` the room `r` that holds `a` alone. */
  lemma SecondJoin(st: State, r: string, a: string, b: string, x: string, ca: ConnId, cb: ConnId)
    requires a != b && ca != cb
    requires st.rooms.Keys == {r} && st.rooms[r] == Room([a], x, None)
    requires st.conns.Keys == {ca, cb} && st.conns[ca] == Conn(Some(r), Some(a), {r}) && st.conns[cb] == Idle
    ensures
      var j := Join(st, cb, r, b, None).state;
      && j.rooms.Keys == {r} && j.rooms[r] == Room([a, b], x, None)
      && j.conns.Keys == {ca, cb}
      && j.conns[ca] == Conn(Some(r), Some(a), {r}) && j.conns[cb] == Conn(Some(r), Some(b), {r})
  {
    JoinMovesConnection(st, cb, r, b, None);
    JoinAppends(st, cb, r, b, None);
    JoinKeepsRoomText(st, cb, r, b, None);
  }

  /** Deleting either name from a list of two leaves the other. */
  lemma DeleteFromPair(a: string, b: string)
    requires a != b
    ensures Delete([a, b], a) == [b] && Delete([a, b], b) == [a]
  {
    assert [a, b][1..] == [b];
    DeleteHead([a, b]);
    DeletePastHead([a, b], b);
    DeleteHead([b]);
  }

  /** Room `r` holds `a` then `b` (and nothing else exists); connection `ca`
      is in it as `a` and `cb` as `b`. */
  predicate Pair(st: State, r: string, a: string, b: string, ca: ConnId, cb: ConnId) {
    && st.rooms.Keys == {r} && st.rooms[r].users == [a, b]
    && st.conns.Keys == {ca, cb}
    && st.conns[ca] == Conn(Some(r), Some(a), {r}) && st.conns[cb] == Conn(Some(r), Some(b), {r})
  }

  /** `a` and then `b` join room `r` from fresh connections. */
  lemma TwoJoin(r: string, a: string, b: string, x: string, ca: ConnId, cb: ConnId)
    requires ca != cb && a != b
    ensures
      var j := Join(Join(Fresh(ca, cb), ca, r, a, Some(x)).state, cb, r, b, None).state;
      Pair(j, r, a, b, ca, cb) && j.rooms[r].code == x
  {
    FirstJoin(r, a, x, ca, cb);
    SecondJoin(Join(Fresh(ca, cb), ca, r, a, Some(x)).state, r, a, b, x, ca, cb);
  }

  /** In a room of two, an edit reaches the other member only, and when the
      other member disconnects the one left, and only it, hears the list
      holding only itself. */
  lemma EditThenDisconnect(st: State, r: string, a: string, b: string, ca: ConnId, cb: ConnId, t: string)
    requires Pair(st, r, a, b, ca, cb) && ca != cb && a != b && r != "" && b != ""
    ensures
      var e := CodeChange(st, ca, r, t);
      var d := Disconnect(e.state, cb);
      && e.out[0].emit == Emit(ToRoomExceptSender(r), CodeUpdate(t)) && Recipients(e.out[0]) == {cb}
      && d.out[0].emit == Emit(ToRoom(r), UserJoined([a])) && Recipients(d.out[0]) == {ca}
  {
    var e := CodeChange(st, ca, r, t);
    DeliverReaches(e.out[0].emit, ca, st.conns);
    assert e.state.conns == st.conns && e.state.rooms[r].users == [a, b];
    DeleteFromPair(a, b);
    var d := Disconnect(e.state, cb);
    assert d.out[0].emit == Emit(ToRoom(r), UserJoined([a]));
    assert ca in Recipients(d.out[0]);
  }

  /** A disconnected socket hears nothing afterwards: in a room of two, once
      `cb` disconnects, neither a typing notice nor a language change from
      `ca` reaches it. */
  lemma GoneSocketHearsNothing(st: State, r: string, a: string, b: string, ca: ConnId, cb: ConnId, lang: string)
    requires Pair(st, r, a, b, ca, cb) && ca != cb
    ensures
      var d := Disconnect(st, cb).state;
      && cb !in d.conns
      && cb !in Recipients(Typing(d, ca, r, a).out[0])
      && cb !in Recipients(LanguageChange(d, ca, r, lang).out[0])
  {
  }

  /** In a room of two, `a` joins the same room again: the others hear the
      list without `a` first. */
  lemma RejoinScenario(st: State, r: string, a: string, b: string, ca: ConnId, cb: ConnId)
    requires Pair(st, r, a, b, ca, cb) && ca != cb && a != b && r != ""
    ensures
      var j := Join(st, ca, r, a, None);
      j.out[0].emit == Emit(ToRoom(r), UserJoined([b])) && Recipients(j.out[0]) == {cb}
  {
    var j := Join(st, ca, r, a, None);
    JoinLeavesOldRoom(st, ca, r, a, None);
    DeleteFromPair(a, b);
    assert cb in Recipients(j.out[0]);
  }

  /** After re-joining, `a` stands at the end of the list. */
  lemma RejoinMovesToBack(st: State, r: string, a: string, b: string, ca: ConnId, cb: ConnId)
    requires Pair(st, r, a, b, ca, cb) && a != b && r != ""
    ensures Join(st, ca, r, a, None).state.rooms[r].users == [b, a]
  {
    JoinAppends(st, ca, r, a, None);
    DeleteFromPair(a, b);
  }

  /** In a room of two, `a` moves to another room `r2`: only `cb` hears the
      list of `r`, which holds `b` alone. */
  lemma SwitchScenario(st: State, r: string, r2: string, a: string, b: string, ca: ConnId, cb: ConnId)
    requires Pair(st, r, a, b, ca, cb) && ca != cb && a != b && r != "" && r2 != r
    ensures
      var j := Join(st, ca, r2, a, None);
      j.out[0].emit == Emit(ToRoom(r), UserJoined([b])) && Recipients(j.out[0]) == {cb}
  {
    var j := Join(st, ca, r2, a, None);
    JoinLeavesOldRoom(st, ca, r2, a, None);
    DeleteFromPair(a, b);
    assert cb in Recipients(j.out[0]);
  }

  /** After the move, `r` keeps `b` alone, the room `a` moves to is created
      holding `a`, and `a`'s socket is in that room only. */
  lemma SwitchCreates(st: State, r: string, r2: string, a: string, b: string, ca: ConnId, cb: ConnId)
    requires Pair(st, r, a, b, ca, cb) && a != b && r != "" && r2 != r
    ensures
      var j := Join(st, ca, r2, a, None).state;
      j.rooms[r].users == [b] && j.rooms[r2].users == [a] && j.conns[ca].joined == {r2}
  {
    JoinLeavesOldRoom(st, ca, r2, a, None);
    DeleteFromPair(a, b);
    JoinCreatesLazily(st, ca, r2, a, None);
    JoinMovesConnection(st, ca, r2, a, None);
  }

  /** In a room of two, a compile result reaches both members, the one who
      asked included, and is kept as the room's output. */
  lemma CompileScenario(st: State, r: string, a: string, b: string, ca: ConnId, cb: ConnId, resp: ExecResponse)
    requires Pair(st, r, a, b, ca, cb) && ca != cb
    ensures
      var k := CompileCode(st, ca, r, Some(resp));
      && k.out[0].emit == Emit(ToRoom(r), CodeResponse(resp)) && Recipients(k.out[0]) == {ca, cb}
      && k.state.rooms[r].output == Some(resp.run.output)
  {
    DeliverReaches(Emit(ToRoom(r), CodeResponse(resp)), ca, st.conns);
  }

  /** Room `r` lists `n` once, and both connections are in it as `n`:
      identity is the display name, not the connection. */
  predicate Shared(st: State, r: string, n: string, ca: ConnId, cb: ConnId) {
    && st.rooms.Keys == {r} && st.rooms[r].users == [n]
    && st.conns.Keys == {ca, cb}
    && st.conns[ca] == Conn(Some(r), Some(n), {r}) && st.conns[cb] == Conn(Some(r), Some(n), {r})
  }

  /** A second connection joining under a name already in the room does not
      add it again. */
  lemma SameNameJoin(st: State, r: string, n: string, x: string, ca: ConnId, cb: ConnId)
    requires ca != cb
    requires st.rooms.Keys == {r} && st.rooms[r] == Room([n], x, None)
    requires st.conns.Keys == {ca, cb} && st.conns[ca] == Conn(Some(r), Some(n), {r}) && st.conns[cb] == Idle
    ensures Shared(Join(st, cb, r, n, None).state, r, n, ca, cb)
  {
    JoinMovesConnection(st, cb, r, n, None);
    JoinAppends(st, cb, r, n, None);
  }

  /** When one of two connections sharing a name leaves, the name is gone
      from the list although the other connection is still in the room, and
      that one hears the empty list. */
  lemma SharedNameLeave(st: State, r: string, n: string, ca: ConnId, cb: ConnId)
    requires Shared(st, r, n, ca, cb) && ca != cb && r != "" && n != ""
    ensures
      var l := LeaveRoom(st, ca);
      && l.out[0].emit == Emit(ToRoom(r), UserJoined([])) && cb in Recipients(l.out[0])
      && l.state.conns[cb] == Conn(Some(r), Some(n), {r}) && l.state.rooms[r].users == []
  {
    DeleteHead([n]);
    DeliverReaches(Emit(ToRoom(r), UserJoined([])), ca, st.conns);
  }

  /** A join with the empty room id is never undone: the switch of lines
      14-21 is guarded by the truthiness of the room id, so joining `r`
      afterwards leaves the name listed in both rooms. */
  lemma EmptyRoomIdIsNeverLeft(r: string, n: string, ca: ConnId, cb: ConnId)
    requires ca != cb && r != ""
    ensures
      var j1 := Join(Fresh(ca, cb), ca, "", n, None).state;
      var j2 := Join(j1, ca, r, n, None).state;
      n in j2.rooms[""].users && n in j2.rooms[r].users
  {
    var j1 := Join(Fresh(ca, cb), ca, "", n, None).state;
    JoinCreatesLazily(Fresh(ca, cb), ca, "", n, None);
    JoinMovesConnection(Fresh(ca, cb), ca, "", n, None);
    JoinKeepsOtherRooms(j1, ca, r, n, None);
    JoinCreatesLazily(j1, ca, r, n, None);
  }

  /** A single connection `c` using non-empty room ids: it is listed, under
      its current name, in its current room and in no other. */
  predicate Solo(st: State, c: ConnId) {
    && st.conns.Keys == {c}
    && Bound(st.conns[c], st.rooms)
    && (st.conns[c].currentRoom.Some? ==> st.conns[c].currentRoom.value != "")
    && forall id | id in st.rooms ::
         st.rooms[id].users == if Some(id) == st.conns[c].currentRoom then [st.conns[c].currentUser.value] else []
  }

  /** A fresh connection with no room yet. */
  lemma SoloStart(c: ConnId)
    ensures Solo(State(map[], map[c := Idle]), c)
  {
  }

  /** Under `Solo`, a name is listed in one room at most. */
  lemma SoloOneRoom(st: State, c: ConnId, n: string, id1: string, id2: string)
    requires Solo(st, c)
    requires id1 in st.rooms && id2 in st.rooms && n in st.rooms[id1].users && n in st.rooms[id2].users
    ensures id1 == id2 && Some(id1) == st.conns[c].currentRoom && Some(n) == st.conns[c].currentUser
  {
  }

  /** `join` with a non-empty room id keeps `Solo`: the old room is emptied
      and the new one lists the new name alone. */
  lemma SoloJoin(st: State, c: ConnId, roomId: string, userName: string, starterCode: Option<string>)
    requires Solo(st, c) && roomId != ""
    ensures Solo(Join(st, c, roomId, userName, starterCode).state, c)
  {
    var k := st.conns[c];
    var r := Join(st, c, roomId, userName, starterCode).state;
    JoinMovesConnection(st, c, roomId, userName, starterCode);
    if k.currentRoom.Some? {
      DeleteHead([k.currentUser.value]);
      JoinLeavesOldRoom(st, c, roomId, userName, starterCode);
    }
    JoinCreatesLazily(st, c, roomId, userName, starterCode);
    if roomId in st.rooms {
      JoinAppends(st, c, roomId, userName, starterCode);
    }
    JoinKeepsOtherRooms(st, c, roomId, userName, starterCode);
    forall id | id in r.rooms
      ensures r.rooms[id].users == if Some(id) == r.conns[c].currentRoom then [userName] else []
    {
      if id != roomId && Some(id) != k.currentRoom {
        assert r.rooms[id] == st.rooms[id];
      }
    }
  }

  /** `leaveRoom` keeps `Solo`: the room it leaves is emptied. */
  lemma SoloLeave(st: State, c: ConnId)
    requires Solo(st, c)
    ensures Solo(LeaveRoom(st, c).state, c)
  {
    var k := st.conns[c];
    if InRoom(k) {
      DeleteHead([k.currentUser.value]);
    }
  }

  /** Writing the text or a compile result keeps `Solo`: no list changes. */
  lemma SoloWrite(st: State, c: ConnId, roomId: string, code: string, response: Option<ExecResponse>)
    requires Solo(st, c)
    ensures Solo(CodeChange(st, c, roomId, code).state, c)
    ensures Solo(CompileCode(st, c, roomId, response).state, c)
  {
  }
}
