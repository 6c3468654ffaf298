/**
  What each socket handler does to one room and to the emission log, stated
  case by case: join (new name, full room, reconnect), start (its three
  guards and its reset), problem-solved, contest expiry and disconnect.
 */
module Handlers {
  import opened Roster
  import opened Protocol
  import opened Invariants

  /**
    A name not yet in a room with room to spare is appended as a fresh entry
    at the end, all earlier entries unchanged; the room hears the notice and
    the new roster, and the joiner a resync if the contest is running.
   */
  lemma JoinAppendsNewUser(w: World, socketId: string, roomId: string, username: string, now: int)
    requires roomId in w.rooms || roomId !in INHERITED_KEYS
    requires FindByName(EnsureRoom(w.rooms, roomId)[roomId].users, username).None?
    requires |EnsureRoom(w.rooms, roomId)[roomId].users| < MAX_PLAYERS
    ensures var room := EnsureRoom(w.rooms, roomId)[roomId];
            var users := room.users + [User(socketId, username, 0, 0)];
            var w' := JoinRoom(w, socketId, roomId, username, now);
            && (roomId !in w.rooms ==> room == NewRoom())
            && w'.rooms == w.rooms[roomId := room.(users := users)]
            && |w'.rooms[roomId].users| == |room.users| + 1
            && w'.rooms[roomId].users[..|room.users|] == room.users
            && w'.log == w.log + [Event(ToRoom(roomId), Notification(JoinedText(username))),
                                  Event(ToRoom(roomId), RoomUsers(users))]
                               + (if room.contestStarted
                                  then [Event(ToSocket(socketId),
                                              ContestStarted(RemainingTime(room.contestStartTime, now), users))]
                                  else [])
            && w'.intervals == w.intervals && w'.timeouts == w.timeouts && w'.nextTimer == w.nextTimer
  {
  }

  /**
    A new name in a full room is turned away: only the joiner hears the
    error, and nothing else changes. The room necessarily existed already.
   */
  lemma JoinFullRoom(w: World, socketId: string, roomId: string, username: string, now: int)
    requires roomId in w.rooms || roomId !in INHERITED_KEYS
    requires FindByName(EnsureRoom(w.rooms, roomId)[roomId].users, username).None?
    requires |EnsureRoom(w.rooms, roomId)[roomId].users| >= MAX_PLAYERS
    ensures roomId in w.rooms
    ensures var w' := JoinRoom(w, socketId, roomId, username, now);
            && w' == w.(log := w.log + [Event(ToSocket(socketId), ErrorMessage(ROOM_FULL))])
            && forall e :: e in w'.log[|w.log|..] ==> !e.msg.RoomUsers?
  {
    var w' := JoinRoom(w, socketId, roomId, username, now);
    assert w'.log[|w.log|..] == [Event(ToSocket(socketId), ErrorMessage(ROOM_FULL))];
  }

  /**
    A join for an inherited property name that holds no room throws before
    it changes or emits anything, so it has no effect at all.
   */
  lemma JoinInheritedName(w: World, socketId: string, roomId: string, username: string, now: int)
    requires roomId in INHERITED_KEYS && roomId !in w.rooms
    ensures JoinRoom(w, socketId, roomId, username, now) == w
  {
  }

  /**
    A name already in the room only rebinds that entry to the new socket:
    length, order, names, scores and problem cursors are all kept.
   */
  lemma JoinRebindsExisting(w: World, socketId: string, roomId: string, username: string, now: int)
    requires roomId in w.rooms
    requires FindByName(w.rooms[roomId].users, username).Some?
    ensures var room := w.rooms[roomId];
            var users := room.users;
            var i := FindByName(users, username).value;
            var w' := JoinRoom(w, socketId, roomId, username, now);
            var users' := w'.rooms[roomId].users;
            && w'.rooms == w.rooms[roomId := room.(users := users')]
            && |users'| == |users|
            && users'[i].id == socketId
            && (forall j :: 0 <= j < |users| ==>
                  users'[j].username == users[j].username &&
                  users'[j].score == users[j].score &&
                  users'[j].problemIndex == users[j].problemIndex)
            && (forall j :: 0 <= j < |users| && j != i ==> users'[j] == users[j])
            && w'.log == w.log + [Event(ToRoom(roomId), RoomUsers(users'))]
                               + (if room.contestStarted
                                  then [Event(ToSocket(socketId),
                                              ContestStarted(RemainingTime(room.contestStartTime, now), users'))]
                                  else [])
            && w'.intervals == w.intervals && w'.timeouts == w.timeouts && w'.nextTimer == w.nextTimer
  {
  }

  /**
    A joiner who is let in (a returning name, or a room with space) while a
    contest runs is told the time left, which is `CONTEST_DURATION - (now -
    start)` unclamped: after an overrun it is negative. (A joiner turned away
    from a full room hears only the error; see JoinFullRoom.)
   */
  lemma LateJoinerTimeNotClamped(w: World, socketId: string, roomId: string, username: string, start: int, now: int)
    requires roomId in w.rooms && w.rooms[roomId].contestStarted
    requires w.rooms[roomId].contestStartTime == Some(start)
    requires now - start > CONTEST_DURATION
    requires FindByName(w.rooms[roomId].users, username).Some? || |w.rooms[roomId].users| < MAX_PLAYERS
    ensures var w' := JoinRoom(w, socketId, roomId, username, now);
            && |w'.log| >= 1
            && w'.log[|w'.log| - 1].to == ToSocket(socketId)
            && w'.log[|w'.log| - 1].msg.ContestStarted?
            && w'.log[|w'.log| - 1].msg.remainingTime == CONTEST_DURATION - (now - start)
            && w'.log[|w'.log| - 1].msg.remainingTime < 0
  {
  }

  /** start-contest for a room never joined changes nothing. */
  lemma StartAbsentRoom(w: World, roomId: string)
    requires roomId !in w.rooms
    ensures StartContest(w, roomId) == w
  {
  }

  /**
    With fewer than two participants start-contest only broadcasts the
    error, and this check comes first: it fires even while a contest runs.
   */
  lemma StartTooFewPlayers(w: World, roomId: string)
    requires roomId in w.rooms && |w.rooms[roomId].users| < MIN_PLAYERS
    ensures StartContest(w, roomId) == w.(log := w.log + [Event(ToRoom(roomId), ErrorMessage(NEED_PLAYERS))])
  {
  }

  /** start-contest while a contest is running changes nothing. */
  lemma StartWhileRunning(w: World, roomId: string)
    requires roomId in w.rooms && |w.rooms[roomId].users| >= MIN_PLAYERS
    requires w.rooms[roomId].contestStarted
    ensures StartContest(w, roomId) == w
  {
  }

  /**
    A start that passes the guards zeroes every score and cursor while keeping
    membership, order, ids and names, emits instruction-phase once, and adds a
    fresh countdown at 10 recorded in the room's slot. No live timer is
    cancelled, so a start during a countdown adds a second one beside it.
   */
  lemma StartResetsAndCountsDown(w: World, roomId: string)
    requires Inv(w)
    requires roomId in w.rooms && |w.rooms[roomId].users| >= MIN_PLAYERS
    requires !w.rooms[roomId].contestStarted
    ensures var room := w.rooms[roomId];
            var w' := StartContest(w, roomId);
            var users' := w'.rooms[roomId].users;
            var h := w.nextTimer;
            && |users'| == |room.users|
            && (forall i :: 0 <= i < |users'| ==>
                  users'[i].id == room.users[i].id && users'[i].username == room.users[i].username &&
                  users'[i].score == 0 && users'[i].problemIndex == 0)
            && w'.rooms == w.rooms[roomId := room.(users := users', countdownInterval := Some(h))]
            && w'.log == w.log + [Event(ToRoom(roomId), InstructionPhase(true))]
            && h !in w.intervals
            && w'.intervals == w.intervals[h := LiveInterval(roomId, COUNTDOWN_START)]
            && w'.timeouts == w.timeouts
            && w'.nextTimer == h + 1
  {
  }

  /**
    problem-solved while no contest runs in the room (absent room, waiting, or
    still counting down) changes nothing.
   */
  lemma SolvedOutsideContest(w: World, roomId: string, username: string, points: int)
    requires roomId !in w.rooms || !w.rooms[roomId].contestStarted
    ensures ProblemSolved(w, roomId, username, points) == w
  {
  }

  /**
    problem-solved during a contest credits every entry with that name and
    leaves the others alone; the roster and the notice are broadcast even
    when no name matched. With non-negative points no score goes down.
   */
  lemma SolvedCredits(w: World, roomId: string, username: string, points: int)
    requires roomId in w.rooms && w.rooms[roomId].contestStarted
    ensures var users := w.rooms[roomId].users;
            var w' := ProblemSolved(w, roomId, username, points);
            var users' := w'.rooms[roomId].users;
            && |users'| == |users|
            && (forall i :: 0 <= i < |users| && users[i].username == username ==>
                  users'[i] == users[i].(score := users[i].score + points,
                                         problemIndex := users[i].problemIndex + 1))
            && (forall i :: 0 <= i < |users| && users[i].username != username ==> users'[i] == users[i])
            && (points >= 0 ==> forall i :: 0 <= i < |users| ==> users'[i].score >= users[i].score)
            && w'.log == w.log + [Event(ToRoom(roomId), RoomUsers(users')),
                                  Event(ToRoom(roomId), Notification(SolvedText(username)))]
            && w'.rooms == w.rooms[roomId := w.rooms[roomId].(users := users')]
            && w'.intervals == w.intervals && w'.timeouts == w.timeouts && w'.nextTimer == w.nextTimer
  {
    if points >= 0 {
      CreditMonotone(w.rooms[roomId].users, username, points);
    }
  }

  /**
    The contest timeout announces the roster to the room and clears the
    running flag; after it, a room with enough players can be started again.
   */
  lemma TimeoutEndsContest(w: World, t: nat)
    requires Inv(w)
    requires t in w.timeouts
    ensures var roomId := w.timeouts[t];
            var room := w.rooms[roomId];
            var w' := FireTimeout(w, t);
            && w'.log == w.log + [Event(ToRoom(roomId), ContestEnded(room.users))]
            && w'.rooms == w.rooms[roomId := room.(contestStarted := false)]
            && w'.timeouts == w.timeouts - {t}
            && w'.intervals == w.intervals && w'.nextTimer == w.nextTimer
            && (|room.users| >= MIN_PLAYERS ==>
                  StartContest(w', roomId).log == w'.log + [Event(ToRoom(roomId), InstructionPhase(true))])
  {
  }

  /** A disconnect anywhere in a sequence of events makes no difference to where it ends. */
  lemma DisconnectAnywhere(w: World, before: seq<Input>, socketId: string, after: seq<Input>)
    ensures Run(w, before + [Disconnected(socketId)] + after) == Run(w, before + after)
  {
    var mid := Run(w, before);
    RunAppend(w, before + [Disconnected(socketId)], after);
    RunAppend(w, before, [Disconnected(socketId)]);
    RunAppend(w, before, after);
    assert Run(mid, [Disconnected(socketId)]) == mid by {
      assert [Disconnected(socketId)][1..] == [];
    }
  }
}
