/**
  The socket.io room coordinator as the server runs it: one object holding
  the `rooms` registry, the timers the runtime keeps live, and the stream of
  emissions. Each socket handler and each timer callback is a method that
  updates these fields step by step, in the handler's own order, and is
  proved to land exactly on the pure transition of module Protocol.
 */
module Server {
  import opened Roster
  import opened Protocol
  import opened Invariants

  class Coordinator {
    /** Room id to room record; rooms are created on first join and never removed. */
    var rooms: map<string, Room>
    /** The live `setInterval` countdowns, by handle, each with its own counter. */
    var intervals: map<nat, LiveInterval>
    /** The live `setTimeout` contest timers, by handle, each naming its room. */
    var timeouts: map<nat, string>
    /** The handle the runtime gives the next timer it creates. */
    var nextTimer: nat
    /** Every emission so far, in order, with its audience. */
    var log: seq<Event>

    function State(): World
      reads this
    {
      World(rooms, intervals, timeouts, nextTimer, log)
    }

    ghost predicate Valid()
      reads this
    {
      Inv(State())
    }

    constructor ()
      ensures State() == Initial() && Valid()
    {
      rooms, intervals, timeouts, nextTimer, log := map[], map[], map[], 1, [];
      InitialInv();
    }

    /** `setInterval` for a countdown starting at `countdown` in room `roomId`. */
    method SetInterval(roomId: string, countdown: int) returns (h: nat)
      modifies this`intervals, this`nextTimer
      ensures h == old(nextTimer) && nextTimer == h + 1
      ensures intervals == old(intervals)[h := LiveInterval(roomId, countdown)]
    {
      h := nextTimer;
      intervals := intervals[h := LiveInterval(roomId, countdown)];
      nextTimer := nextTimer + 1;
    }

    /** `clearInterval(slot)`: a no-op for an empty slot or an interval already stopped. */
    method ClearInterval(slot: Option<nat>)
      modifies this`intervals
      ensures intervals == ClearTimer(old(intervals), slot)
      ensures slot.Some? ==> slot.value !in intervals
    {
      if slot.Some? {
        intervals := intervals - {slot.value};
      }
    }

    /** `setTimeout` for the contest timer of room `roomId`. */
    method SetTimeout(roomId: string) returns (t: nat)
      modifies this`timeouts, this`nextTimer
      ensures t == old(nextTimer) && nextTimer == t + 1
      ensures timeouts == old(timeouts)[t := roomId]
    {
      t := nextTimer;
      timeouts := timeouts[t := roomId];
      nextTimer := nextTimer + 1;
    }

    /** Handler `join-room` from socket `socketId` at time `now`. */
    method JoinRoom(socketId: string, roomId: string, username: string, now: int)
      requires Valid()
      modifies this
      ensures Valid()
      ensures State() == Protocol.JoinRoom(old(State()), socketId, roomId, username, now)
      ensures roomId !in INHERITED_KEYS ==> roomId in rooms && rooms.Keys == old(rooms).Keys + {roomId}
      ensures roomId in INHERITED_KEYS && roomId !in old(rooms) ==> State() == old(State())
    {
      ghost var w := State();
      JoinRoomInv(w, socketId, roomId, username, now);
      if !Truthy(rooms, roomId) {
        rooms := rooms[roomId := NewRoom()];
      }
      if roomId !in rooms {
        // An inherited property: `room.users.find` throws a TypeError here.
        return;
      }
      Admit(socketId, roomId, username, now);
    }

    /** The roster part of `join-room`, once `roomId` names a stored room. */
    method Admit(socketId: string, roomId: string, username: string, now: int)
      requires roomId in rooms
      modifies this
      ensures State() == Protocol.Admit(old(State()), socketId, roomId, username, now)
      ensures rooms.Keys == old(rooms).Keys
    {
      var room := rooms[roomId];
      var existing := FindByName(room.users, username);
      if existing.None? {
        if |room.users| >= MAX_PLAYERS {
          log := log + [Event(ToSocket(socketId), ErrorMessage(ROOM_FULL))];
          return;
        }
        room := room.(users := room.users + [NewUser(socketId, username)]);
        rooms := rooms[roomId := room];
        log := log + [Event(ToRoom(roomId), Notification(JoinedText(username)))];
      } else {
        var i := existing.value;
        room := room.(users := room.users[i := room.users[i].(id := socketId)]);
        rooms := rooms[roomId := room];
      }
      log := log + [Event(ToRoom(roomId), RoomUsers(room.users))];
      if room.contestStarted {
        var remainingTime := RemainingTime(room.contestStartTime, now);
        log := log + [Event(ToSocket(socketId), ContestStarted(remainingTime, room.users))];
      }
    }

    /** Handler `start-contest` for room `roomId`. */
    method StartContest(roomId: string)
      requires Valid()
      modifies this
      ensures Valid()
      ensures State() == Protocol.StartContest(old(State()), roomId)
    {
      ghost var w := State();
      StartContestInv(w, roomId);
      if roomId !in rooms {
        // Absent, or an inherited property whose `users` is undefined (a TypeError).
        return;
      }
      var room := rooms[roomId];
      if |room.users| < MIN_PLAYERS {
        log := log + [Event(ToRoom(roomId), ErrorMessage(NEED_PLAYERS))];
        return;
      }
      if room.contestStarted {
        return;
      }
      room := room.(users := ResetScores(room.users));
      rooms := rooms[roomId := room];
      log := log + [Event(ToRoom(roomId), InstructionPhase(true))];
      var countdown := COUNTDOWN_START;
      var h := SetInterval(roomId, countdown);
      rooms := rooms[roomId := room.(countdownInterval := Some(h))];
    }

    /** One firing of the live countdown interval `h`, at time `now`. */
    method CountdownTick(h: nat, now: int)
      requires Valid()
      requires h in intervals
      modifies this
      ensures Valid()
      ensures State() == FireCountdown(old(State()), h, now)
    {
      ghost var w := State();
      FireCountdownInv(w, h, now);
      var roomId := intervals[h].roomId;
      var countdown := intervals[h].countdown;
      log := log + [Event(ToRoom(roomId), ContestCountdown(countdown))];
      countdown := countdown - 1;
      intervals := intervals[h := LiveInterval(roomId, countdown)];
      if countdown < 0 {
        var room := rooms[roomId];
        ClearInterval(room.countdownInterval);
        room := room.(contestStarted := true, contestStartTime := Some(now));
        rooms := rooms[roomId := room];
        log := log + [Event(ToRoom(roomId), ContestStarted(CONTEST_DURATION, room.users))];
        var t := SetTimeout(roomId);
        rooms := rooms[roomId := room.(contestTimeout := Some(t))];
        assert rooms == w.rooms[roomId := room.(contestTimeout := Some(t))];
        assert t == w.nextTimer && timeouts == w.timeouts[t := roomId];
      }
      assert State() == FireCountdown(w, h, now);
    }

    /** The firing of the live contest timeout `t`. */
    method ContestTimeout(t: nat)
      requires Valid()
      requires t in timeouts
      modifies this
      ensures Valid()
      ensures State() == FireTimeout(old(State()), t)
    {
      ghost var w := State();
      FireTimeoutInv(w, t);
      var roomId := timeouts[t];
      var room := rooms[roomId];
      log := log + [Event(ToRoom(roomId), ContestEnded(room.users))];
      rooms := rooms[roomId := room.(contestStarted := false)];
      timeouts := timeouts - {t};
    }

    /** Handler `problem-solved`: `points` for `username` in room `roomId`. */
    method ProblemSolved(roomId: string, username: string, points: int)
      requires Valid()
      modifies this
      ensures Valid()
      ensures State() == Protocol.ProblemSolved(old(State()), roomId, username, points)
    {
      ghost var w := State();
      ProblemSolvedInv(w, roomId, username, points);
      if roomId !in rooms || !rooms[roomId].contestStarted {
        return;
      }
      var room := rooms[roomId];
      room := room.(users := CreditSolve(room.users, username, points));
      rooms := rooms[roomId := room];
      log := log + [Event(ToRoom(roomId), RoomUsers(room.users))];
      log := log + [Event(ToRoom(roomId), Notification(SolvedText(username)))];
    }

    /**
      Handler `disconnect`: walks every room looking for the socket's entry
      and, finding it or not, changes nothing.
     */
    method Disconnect(socketId: string)
      ensures State() == Protocol.Disconnect(old(State()), socketId)
    {
      var pending := rooms.Keys;
      while pending != {}
        invariant pending <= rooms.Keys
        decreases pending
      {
        var roomId :| roomId in pending;
        var userIndex := FindById(rooms[roomId].users, socketId);
        pending := pending - {roomId};
      }
    }
  }
}
