/** The process-wide room store: the `rooms` Map of backend/socket.js, from a
    room id to the room's participants, shared text and last execution output. */
module Rooms {
  import opened Wrappers

  /** One entry of the store. `users` stands for the JavaScript `Set` of display
      names; a JavaScript `Set` iterates in insertion order, so `Array.from` of it
      is exactly this sequence. */
  datatype Room = Room(users: seq<string>, code: string, output: Option<string>)

  predicate NoDup(s: seq<string>) {
    forall i, j | 0 <= i < j < |s| :: s[i] != s[j]
  }

  /** Every room's participant list is duplicate-free, as a `Set` is. */
  predicate Consistent(rooms: map<string, Room>) {
    forall id | id in rooms :: NoDup(rooms[id].users)
  }

  /** `Set.prototype.add`: existing names keep their place, a new name goes last. */
  function Add(users: seq<string>, name: string): (r: seq<string>)
    ensures |users| <= |r| <= |users| + 1 && r[..|users|] == users
    ensures forall x :: x in r <==> x in users || x == name
    ensures name in users ==> r == users
    ensures name !in users ==> r == users + [name]
  {
    if name in users then users else users + [name]
  }

  /** Adding keeps a list duplicate-free. */
  lemma AddKeepsNoDup(users: seq<string>, name: string)
    requires NoDup(users)
    ensures NoDup(Add(users, name))
  {
  }

  /** `Set.prototype.delete`: drops the name, keeps the others in order;
      deleting an absent name changes nothing. */
  function Delete(users: seq<string>, name: string): (r: seq<string>)
    ensures forall x :: x in r <==> x in users && x != name
    ensures name !in users ==> r == users
    ensures |r| <= |users|
  {
    if users == [] then []
    else if users[0] == name then Delete(users[1..], name)
    else [users[0]] + Delete(users[1..], name)
  }

  /** Deleting keeps a list duplicate-free. */
  lemma {:induction false} DeleteKeepsNoDup(users: seq<string>, name: string)
    requires NoDup(users)
    ensures NoDup(Delete(users, name))
  {
    if users != [] {
      assert NoDup(users[1..]);
      DeleteKeepsNoDup(users[1..], name);
      if users[0] != name {
        var rest := Delete(users[1..], name);
        assert users[0] !in rest;
        assert Delete(users, name) == [users[0]] + rest;
      }
    }
  }

  /** On a duplicate-free list, deleting the name at position i removes exactly
      that position. */
  lemma {:induction false} DeleteAt(users: seq<string>, i: nat)
    requires NoDup(users) && i < |users|
    ensures Delete(users, users[i]) == users[..i] + users[i + 1..]
  {
    NoDupTail(users);
    if i == 0 {
      DeleteHead(users);
      assert users[..0] + users[1..] == users[1..];
    } else {
      DeleteAt(users[1..], i - 1);
      assert users[1..][i - 1] == users[i];
      DeleteAtStep(users, i);
    }
  }

  /** The tail of a duplicate-free list is duplicate-free and misses its head. */
  lemma NoDupTail(users: seq<string>)
    requires NoDup(users) && users != []
    ensures NoDup(users[1..]) && users[0] !in users[1..]
  {
    forall j | 0 <= j < |users| - 1 ensures users[1..][j] != users[0] {
      assert users[1..][j] == users[j + 1];
    }
  }

  /** The inductive step of `DeleteAt`: a name past the head is deleted from
      the tail, the head staying in front. */
  lemma DeleteAtStep(users: seq<string>, i: nat)
    requires 0 < i < |users| && users[0] != users[i]
    requires Delete(users[1..], users[i]) == users[1..][..i - 1] + users[1..][i..]
    ensures Delete(users, users[i]) == users[..i] + users[i + 1..]
  {
    DeletePastHead(users, users[i]);
    SpliceTail(users, i);
  }

  /** Deleting the head, absent from the tail, leaves the tail. */
  lemma DeleteHead(users: seq<string>)
    requires users != [] && users[0] !in users[1..]
    ensures Delete(users, users[0]) == users[1..]
  {
  }

  /** Deleting a name other than the head keeps the head in front. */
  lemma DeletePastHead(users: seq<string>, name: string)
    requires users != [] && users[0] != name
    ensures Delete(users, name) == [users[0]] + Delete(users[1..], name)
  {
  }

  /** Cutting position i out of a list is keeping its head and cutting
      position i - 1 out of its tail. */
  lemma SpliceTail(users: seq<string>, i: nat)
    requires 0 < i < |users|
    ensures users[..i] + users[i + 1..] == [users[0]] + (users[1..][..i - 1] + users[1..][i..])
  {
    assert users[..i] == [users[0]] + users[1..][..i - 1];
    assert users[i + 1..] == users[1..][i..];
  }

  /** Deleting a present name and adding it again moves it to the end of the
      listing, the others keeping their order. */
  lemma RejoinMovesToEnd(users: seq<string>, i: nat)
    requires NoDup(users) && i < |users|
    ensures Add(Delete(users, users[i]), users[i]) == users[..i] + users[i + 1..] + [users[i]]
  {
    DeleteAt(users, i);
  }

  /** `if (!rooms.has(id)) rooms.set(id, { users: new Set(), code })`. */
  function GetOrCreate(rooms: map<string, Room>, id: string, code: string): (r: map<string, Room>)
    ensures r.Keys == rooms.Keys + {id}
    ensures forall k | k in rooms :: r[k] == rooms[k]
    ensures id !in rooms ==> r[id].users == [] && r[id].code == code && r[id].output.None?
  {
    if id in rooms then rooms else rooms[id := Room([], code, None)]
  }

  /** Creating a room keeps the store consistent. */
  lemma GetOrCreateKeepsConsistent(rooms: map<string, Room>, id: string, code: string)
    requires Consistent(rooms)
    ensures Consistent(GetOrCreate(rooms, id, code))
  {
  }

  /** `rooms.get(id).users.add(name)`. */
  function AddUser(rooms: map<string, Room>, id: string, name: string): (r: map<string, Room>)
    requires id in rooms
    ensures r.Keys == rooms.Keys
    ensures forall k | k in rooms && k != id :: r[k] == rooms[k]
    ensures r[id].code == rooms[id].code && r[id].output == rooms[id].output
    ensures r[id].users == Add(rooms[id].users, name)
    ensures name in r[id].users
    ensures forall x | x in rooms[id].users :: x in r[id].users
  {
    rooms[id := rooms[id].(users := Add(rooms[id].users, name))]
  }

  /** Adding a name keeps the store consistent. */
  lemma AddUserKeepsConsistent(rooms: map<string, Room>, id: string, name: string)
    requires id in rooms && Consistent(rooms)
    ensures Consistent(AddUser(rooms, id, name))
  {
    AddKeepsNoDup(rooms[id].users, name);
  }

  /** `rooms.get(id).users.delete(name)`. */
  function DeleteUser(rooms: map<string, Room>, id: string, name: string): (r: map<string, Room>)
    requires id in rooms
    ensures r.Keys == rooms.Keys
    ensures forall k | k in rooms && k != id :: r[k] == rooms[k]
    ensures r[id].code == rooms[id].code && r[id].output == rooms[id].output
    ensures r[id].users == Delete(rooms[id].users, name)
    ensures name !in r[id].users
    ensures forall x | x in rooms[id].users && x != name :: x in r[id].users
  {
    rooms[id := rooms[id].(users := Delete(rooms[id].users, name))]
  }

  /** Deleting a name keeps the store consistent. */
  lemma DeleteUserKeepsConsistent(rooms: map<string, Room>, id: string, name: string)
    requires id in rooms && Consistent(rooms)
    ensures Consistent(DeleteUser(rooms, id, name))
  {
    DeleteKeepsNoDup(rooms[id].users, name);
  }

  /** `if (rooms.has(id)) rooms.get(id).code = code`: an unknown id is ignored. */
  function SetCode(rooms: map<string, Room>, id: string, code: string): (r: map<string, Room>)
    ensures r.Keys == rooms.Keys
    ensures forall k | k in rooms :: r[k].users == rooms[k].users && r[k].output == rooms[k].output
    ensures forall k | k in rooms && k != id :: r[k] == rooms[k]
    ensures id in rooms ==> r[id].code == code
    ensures id !in rooms ==> r == rooms
  {
    if id in rooms then rooms[id := rooms[id].(code := code)] else rooms
  }

  /** `room.output = output` on a room that exists. */
  function SetOutput(rooms: map<string, Room>, id: string, output: string): (r: map<string, Room>)
    requires id in rooms
    ensures r.Keys == rooms.Keys
    ensures forall k | k in rooms && k != id :: r[k] == rooms[k]
    ensures r[id].users == rooms[id].users && r[id].code == rooms[id].code
    ensures r[id].output == Some(output)
  {
    rooms[id := rooms[id].(output := Some(output))]
  }
}
