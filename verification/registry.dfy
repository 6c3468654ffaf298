/**
  The `rooms` registry is a plain JavaScript object, so `rooms[roomId]` also
  finds the properties every object inherits. For a room id such as
  "constructor" the creation step sees a truthy value and skips, and the
  handler then throws on the missing `users`. No room under such an id ever
  exists, and nobody can join one. The second half gives the lookup the
  code evidently means (own keys only) and shows that it admits every id.
 */
module Registry {
  import opened Roster
  import opened Protocol
  import opened Invariants

  /** No room is stored under an inherited property name. */
  ghost predicate OwnKeysOnly(w: World)
  {
    forall r :: r in w.rooms ==> r !in INHERITED_KEYS
  }

  lemma StepOwnKeys(w: World, input: Input)
    requires OwnKeysOnly(w)
    ensures OwnKeysOnly(Step(w, input))
  {
    match input
    case Join(s, r, u, now) =>
      var w' := JoinRoom(w, s, r, u, now);
      assert w'.rooms.Keys <= w.rooms.Keys + {r};
      assert r in w'.rooms && r !in w.rooms ==> r !in INHERITED_KEYS;
    case _ =>
  }

  lemma {:induction false} RunOwnKeys(w: World, inputs: seq<Input>)
    requires OwnKeysOnly(w)
    ensures OwnKeysOnly(Run(w, inputs))
    decreases |inputs|
  {
    if inputs != [] {
      StepOwnKeys(w, inputs[0]);
      RunOwnKeys(Step(w, inputs[0]), inputs[1..]);
    }
  }

  /**
    The code as written: from start-up, whatever happens, no room exists
    under an inherited property name, and a join for one has no effect.
   */
  lemma InheritedNamesNeverJoinable(inputs: seq<Input>, socketId: string, roomId: string, username: string, now: int)
    requires roomId in INHERITED_KEYS
    ensures var w := Run(Initial(), inputs);
            && roomId !in w.rooms
            && JoinRoom(w, socketId, roomId, username, now) == w
  {
    RunOwnKeys(Initial(), inputs);
  }

  /** `join-room` with the registry lookup the code means: a room only when one was stored. */
  function JoinRoomOwnKey(w: World, socketId: string, roomId: string, username: string, now: int): World
  {
    var rooms := if roomId in w.rooms then w.rooms else w.rooms[roomId := NewRoom()];
    Admit(w.(rooms := rooms), socketId, roomId, username, now)
  }

  /**
    The corrected join admits the first player to any room id, inherited
    names included, and it does exactly what the code does for every other id.
   */
  lemma OwnKeyJoinAdmits(w: World, socketId: string, roomId: string, username: string, now: int)
    ensures var w' := JoinRoomOwnKey(w, socketId, roomId, username, now);
            && roomId in w'.rooms
            && (roomId !in w.rooms ==>
                  && w'.rooms[roomId].users == [NewUser(socketId, username)]
                  && w'.log == w.log + [Event(ToRoom(roomId), Notification(JoinedText(username))),
                                        Event(ToRoom(roomId), RoomUsers([NewUser(socketId, username)]))])
            && (roomId in w.rooms || roomId !in INHERITED_KEYS ==>
                  w' == JoinRoom(w, socketId, roomId, username, now))
  {
    if roomId !in w.rooms {
      assert FindByName(NewRoom().users, username) == None;
      assert NewRoom().users + [NewUser(socketId, username)] == [NewUser(socketId, username)];
    }
  }
}
