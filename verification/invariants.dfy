/**
  What stays true of the coordinator across every sequence of socket events
  and timer firings: each roster holds at most MAX_PLAYERS entries with
  distinct names, a started contest has a start time, and every live timer
  belongs to an existing room and carries a handle below the next one to be
  handed out.
 */
module Invariants {
  import opened Roster
  import opened Protocol

  ghost predicate Inv(w: World)
  {
    && (forall r :: r in w.rooms ==> RosterOk(w.rooms[r].users))
    && (forall r :: r in w.rooms && w.rooms[r].contestStarted ==> w.rooms[r].contestStartTime.Some?)
    && (forall h :: h in w.intervals ==> h < w.nextTimer && w.intervals[h].roomId in w.rooms)
    && (forall t :: t in w.timeouts ==> t < w.nextTimer && w.timeouts[t] in w.rooms)
  }

  lemma InitialInv()
    ensures Inv(Initial())
  {
  }

  lemma JoinRoomInv(w: World, socketId: string, roomId: string, username: string, now: int)
    requires Inv(w)
    ensures Inv(JoinRoom(w, socketId, roomId, username, now))
  {
    var rooms := EnsureRoom(w.rooms, roomId);
    if roomId in rooms {
      var room := rooms[roomId];
      match FindByName(room.users, username)
      case None =>
        if |room.users| < MAX_PLAYERS {
          AppendNewName(room.users, NewUser(socketId, username));
        }
      case Some(i) =>
        RebindKeepsNames(room.users, i, socketId);
    }
  }

  lemma StartContestInv(w: World, roomId: string)
    requires Inv(w)
    ensures Inv(StartContest(w, roomId))
  {
    if roomId in w.rooms {
      ResetKeepsNames(w.rooms[roomId].users);
    }
  }

  lemma ProblemSolvedInv(w: World, roomId: string, username: string, points: int)
    requires Inv(w)
    ensures Inv(ProblemSolved(w, roomId, username, points))
  {
    if roomId in w.rooms {
      CreditKeepsNames(w.rooms[roomId].users, username, points);
    }
  }

  lemma FireCountdownInv(w: World, h: nat, now: int)
    requires Inv(w)
    requires h in w.intervals && w.intervals[h].roomId in w.rooms
    ensures Inv(FireCountdown(w, h, now))
  {
  }

  lemma FireTimeoutInv(w: World, t: nat)
    requires Inv(w)
    requires t in w.timeouts && w.timeouts[t] in w.rooms
    ensures Inv(FireTimeout(w, t))
  {
  }

  lemma StepInv(w: World, input: Input)
    requires Inv(w)
    ensures Inv(Step(w, input))
  {
    match input
    case Join(s, r, u, now) => JoinRoomInv(w, s, r, u, now);
    case Start(r) => StartContestInv(w, r);
    case Solved(r, u, p) => ProblemSolvedInv(w, r, u, p);
    case Disconnected(s) =>
    case CountdownFires(h, now) =>
      if h in w.intervals && w.intervals[h].roomId in w.rooms {
        FireCountdownInv(w, h, now);
      }
    case TimeoutFires(t) =>
      if t in w.timeouts && w.timeouts[t] in w.rooms {
        FireTimeoutInv(w, t);
      }
  }

  lemma {:induction false} RunInv(w: World, inputs: seq<Input>)
    requires Inv(w)
    ensures Inv(Run(w, inputs))
    decreases |inputs|
  {
    if inputs != [] {
      StepInv(w, inputs[0]);
      RunInv(Step(w, inputs[0]), inputs[1..]);
    }
  }

  /** Running `a` and then `b` is running `a + b`. */
  lemma {:induction false} RunAppend(w: World, a: seq<Input>, b: seq<Input>)
    ensures Run(w, a + b) == Run(Run(w, a), b)
    decreases |a|
  {
    if a == [] {
      assert a + b == b;
    } else {
      assert (a + b)[0] == a[0] && (a + b)[1..] == a[1..] + b;
      RunAppend(Step(w, a[0]), a[1..], b);
    }
  }

  /**
    From start-up, whatever arrives in whatever order, every room holds at
    most three participants and no display name twice.
   */
  lemma RostersAlwaysBounded(inputs: seq<Input>)
    ensures forall r :: r in Run(Initial(), inputs).rooms ==>
      |Run(Initial(), inputs).rooms[r].users| <= MAX_PLAYERS &&
      UniqueNames(Run(Initial(), inputs).rooms[r].users)
  {
    InitialInv();
    RunInv(Initial(), inputs);
  }

  /** Rooms are never removed: a room that exists stays, whatever happens next. */
  lemma {:induction false} RoomsNeverEvicted(w: World, inputs: seq<Input>)
    ensures w.rooms.Keys <= Run(w, inputs).rooms.Keys
    decreases |inputs|
  {
    if inputs != [] {
      RoomsNeverEvicted(Step(w, inputs[0]), inputs[1..]);
    }
  }
}
