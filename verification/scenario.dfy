/**
  One whole contest from a fresh server: two players join a room, one starts
  the contest, the countdown runs out, one player solves a problem worth 20
  points, and the contest timer fires.
 */
module Scenario {
  import opened Roster
  import opened Protocol
  import opened Invariants
  import opened Countdown
  import opened Handlers

  /** The room record of a waiting room with roster `users` and no timer ever armed. */
  function Lobby(users: seq<User>): Room
  {
    Room(users, false, None, None, None)
  }

  /** Resetting a roster that is already at zero gives it back unchanged. */
  lemma ResetIdle(users: seq<User>)
    requires forall i :: 0 <= i < |users| ==> users[i].score == 0 && users[i].problemIndex == 0
    ensures ResetScores(users) == users
  {
    var r := ResetScores(users);
    assert forall i :: 0 <= i < |users| ==> r[i] == users[i];
  }

  /**
    Two distinct names join an empty server under an ordinary room id: the
    room holds both, fresh, in join order.
   */
  lemma TwoJoin(roomId: string, a: string, b: string, sa: string, sb: string, t0: int)
    requires a != b && roomId !in INHERITED_KEYS
    ensures var w2 := JoinRoom(JoinRoom(Initial(), sa, roomId, a, t0), sb, roomId, b, t0);
            && w2.rooms == map[roomId := Lobby([User(sa, a, 0, 0), User(sb, b, 0, 0)])]
            && w2.intervals == map[] && w2.timeouts == map[] && w2.nextTimer == 1
  {
    JoinAppendsNewUser(Initial(), sa, roomId, a, t0);
    var w1 := JoinRoom(Initial(), sa, roomId, a, t0);
    assert w1.rooms == map[roomId := NewRoom()][roomId := Lobby([User(sa, a, 0, 0)])];
    assert w1.rooms == map[roomId := Lobby([User(sa, a, 0, 0)])];
    assert FindByName(w1.rooms[roomId].users, b).None?;
    JoinAppendsNewUser(w1, sb, roomId, b, t0);
    assert [User(sa, a, 0, 0)] + [User(sb, b, 0, 0)] == [User(sa, a, 0, 0), User(sb, b, 0, 0)];
  }

  /** Starting that room and letting the countdown run out starts the contest at `t1`. */
  lemma StartAndCountDown(w: World, roomId: string, users: seq<User>, t1: int)
    requires w.rooms == map[roomId := Lobby(users)] && RosterOk(users) && |users| >= MIN_PLAYERS
    requires forall i :: 0 <= i < |users| ==> users[i].score == 0 && users[i].problemIndex == 0
    requires w.intervals == map[] && w.timeouts == map[] && w.nextTimer == 1
    ensures var w3 := StartContest(w, roomId);
            var w4 := FireRepeatedly(w3, 1, 11, t1);
            && w3.log == w.log + [Event(ToRoom(roomId), InstructionPhase(true))]
            && w4.log == w3.log + CountdownLog(roomId, 10, 11)
                                + [Event(ToRoom(roomId), ContestStarted(2700000, users))]
            && w4.rooms == map[roomId := Room(users, true, Some(t1), Some(1), Some(2))]
            && w4.intervals == map[] && w4.timeouts == map[2 := roomId]
  {
    assert Inv(w);
    StartResetsAndCountsDown(w, roomId);
    StartContestInv(w, roomId);
    var w3 := StartContest(w, roomId);
    ResetIdle(users);
    assert w3.rooms == map[roomId := Room(users, false, None, Some(1), None)];
    assert w3.intervals == map[1 := LiveInterval(roomId, 10)];
    FullCountdown(w3, 1, t1);
  }

  /**
    During the contest the first player solves a 20-point problem, then the
    contest timer fires: the final roster announced has 20 points and one
    problem for the solver and nothing for the other, and the room is no
    longer running a contest.
   */
  lemma SolveThenExpire(w: World, roomId: string, a: string, b: string, sa: string, sb: string, t1: int)
    requires a != b
    requires w.rooms == map[roomId := Room([User(sa, a, 0, 0), User(sb, b, 0, 0)], true, Some(t1), Some(1), Some(2))]
    requires w.timeouts == map[2 := roomId]
    ensures var w5 := ProblemSolved(w, roomId, a, 20);
            var w6 := FireTimeout(w5, 2);
            && w5.rooms[roomId].users == [User(sa, a, 20, 1), User(sb, b, 0, 0)]
            && w6.log == w5.log + [Event(ToRoom(roomId), ContestEnded([User(sa, a, 20, 1), User(sb, b, 0, 0)]))]
            && !w6.rooms[roomId].contestStarted && w6.timeouts == map[]
  {
    var users := [User(sa, a, 0, 0), User(sb, b, 0, 0)];
    var credited := CreditSolve(users, a, 20);
    assert credited[0] == User(sa, a, 20, 1) && credited[1] == User(sb, b, 0, 0);
    assert credited == [User(sa, a, 20, 1), User(sb, b, 0, 0)];
  }

  /** The whole contest, end to end, from a freshly started server. */
  lemma TwoPlayerContest(roomId: string, a: string, b: string, sa: string, sb: string, t0: int, t1: int)
    requires a != b && roomId !in INHERITED_KEYS
    ensures var w2 := JoinRoom(JoinRoom(Initial(), sa, roomId, a, t0), sb, roomId, b, t0);
            var w3 := StartContest(w2, roomId);
            var w4 := FireRepeatedly(w3, 1, 11, t1);
            var w6 := FireTimeout(ProblemSolved(w4, roomId, a, 20), 2);
            && w3.log == w2.log + [Event(ToRoom(roomId), InstructionPhase(true))]
            && w4.log == w3.log + CountdownLog(roomId, 10, 11)
                                + [Event(ToRoom(roomId), ContestStarted(2700000, w2.rooms[roomId].users))]
            && w6.log[|w6.log| - 1] == Event(ToRoom(roomId), ContestEnded([User(sa, a, 20, 1), User(sb, b, 0, 0)]))
            && !w6.rooms[roomId].contestStarted
  {
    TwoJoin(roomId, a, b, sa, sb, t0);
    var w2 := JoinRoom(JoinRoom(Initial(), sa, roomId, a, t0), sb, roomId, b, t0);
    StartAndCountDown(w2, roomId, [User(sa, a, 0, 0), User(sb, b, 0, 0)], t1);
    var w4 := FireRepeatedly(StartContest(w2, roomId), 1, 11, t1);
    SolveThenExpire(w4, roomId, a, b, sa, sb, t1);
  }
}
