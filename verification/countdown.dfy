/**
  The pre-contest countdown. One interval emits its counter on each firing
  and counts down; the firing that emits 0 starts the contest. The tick
  clears whatever interval the room's slot names, so when a second start
  has replaced the slot, the first countdown clears the second and never
  stops itself. The last part of this module states that behaviour and a
  corrected tick that clears the interval that is firing.
 */
module Countdown {
  import opened Roster
  import opened Protocol
  import opened Invariants
  import Handlers

  /** The countdown emissions `from, from - 1, ..., from - n + 1` to a room. */
  function CountdownLog(roomId: string, from: int, n: nat): (events: seq<Event>)
    ensures |events| == n
    ensures forall i :: 0 <= i < n ==> events[i] == Event(ToRoom(roomId), ContestCountdown(from - i))
    decreases n
  {
    if n == 0 then [] else [Event(ToRoom(roomId), ContestCountdown(from))] + CountdownLog(roomId, from - 1, n - 1)
  }

  /** Interval `h` firing `n` times in a row with nothing else in between (stops early once it is dead). */
  function FireRepeatedly(w: World, h: nat, n: nat, now: int): World
    decreases n
  {
    if n == 0 || h !in w.intervals || w.intervals[h].roomId !in w.rooms then w
    else FireRepeatedly(FireCountdown(w, h, now), h, n - 1, now)
  }

  /** While its counter stays at or above 1 after the decrement, a firing only emits and decrements. */
  lemma {:induction false} TicksBeforeZero(w: World, h: nat, n: nat, now: int)
    requires h in w.intervals && w.intervals[h].roomId in w.rooms
    requires n <= w.intervals[h].countdown
    ensures var c := w.intervals[h];
            FireRepeatedly(w, h, n, now) ==
              w.(intervals := w.intervals[h := c.(countdown := c.countdown - n)],
                 log := w.log + CountdownLog(c.roomId, c.countdown, n))
    decreases n
  {
    var c := w.intervals[h];
    if n > 0 {
      var w1 := FireCountdown(w, h, now);
      assert w1 == w.(intervals := w.intervals[h := c.(countdown := c.countdown - 1)],
                      log := w.log + [Event(ToRoom(c.roomId), ContestCountdown(c.countdown))]);
      TicksBeforeZero(w1, h, n - 1, now);
      assert w1.intervals[h := c.(countdown := c.countdown - n)] == w.intervals[h := c.(countdown := c.countdown - n)];
      assert [Event(ToRoom(c.roomId), ContestCountdown(c.countdown))] + CountdownLog(c.roomId, c.countdown - 1, n - 1)
          == CountdownLog(c.roomId, c.countdown, n);
    }
  }

  /**
    A fresh countdown left to itself emits 10, 9, ..., 0 on eleven firings
    and, on the eleventh only, stops, marks the contest started at `now`,
    broadcasts contest-started with the full 45 minutes and the roster, and
    arms the one contest timeout. Nothing else in the world changes.
   */
  lemma {:induction false} FullCountdown(w: World, h: nat, now: int)
    requires Inv(w)
    requires h in w.intervals && w.intervals[h].countdown == COUNTDOWN_START
    requires w.rooms[w.intervals[h].roomId].countdownInterval == Some(h)
    ensures var r := w.intervals[h].roomId;
            var room := w.rooms[r];
            var t := w.nextTimer;
            var w' := FireRepeatedly(w, h, 11, now);
            && w'.log == w.log + CountdownLog(r, COUNTDOWN_START, 11)
                               + [Event(ToRoom(r), ContestStarted(CONTEST_DURATION, room.users))]
            && w'.intervals == w.intervals - {h}
            && w'.rooms == w.rooms[r := room.(contestStarted := true, contestStartTime := Some(now),
                                              contestTimeout := Some(t))]
            && t !in w.timeouts
            && w'.timeouts == w.timeouts[t := r]
            && FireRepeatedly(w', h, 1, now) == w'
  {
    var r := w.intervals[h].roomId;
    var c := w.intervals[h];
    TicksBeforeZero(w, h, 10, now);
    var w10 := FireRepeatedly(w, h, 10, now);
    assert w10.intervals[h] == LiveInterval(r, 0);
    assert FireRepeatedly(w, h, 11, now) == FireRepeatedly(w10, h, 1, now) by {
      FireRepeatedlySplit(w, h, 10, 1, now);
    }
    var w11 := FireCountdown(w10, h, now);
    assert FireRepeatedly(w10, h, 1, now) == w11;
    assert w11.log == w.log + CountdownLog(r, COUNTDOWN_START, 10) + [Event(ToRoom(r), ContestCountdown(0))]
                     + [Event(ToRoom(r), ContestStarted(CONTEST_DURATION, w.rooms[r].users))];
    assert CountdownLog(r, COUNTDOWN_START, 10) + [Event(ToRoom(r), ContestCountdown(0))]
        == CountdownLog(r, COUNTDOWN_START, 11);
    assert w11.intervals == w10.intervals[h := LiveInterval(r, -1)] - {h};
    assert w11.intervals == w.intervals - {h};
  }

  /** Firing `m + n` times is firing `m` times and then `n` times. */
  lemma {:induction false} FireRepeatedlySplit(w: World, h: nat, m: nat, n: nat, now: int)
    ensures FireRepeatedly(w, h, m + n, now) == FireRepeatedly(FireRepeatedly(w, h, m, now), h, n, now)
    decreases m
  {
    if m > 0 && h in w.intervals && w.intervals[h].roomId in w.rooms {
      FireRepeatedlySplit(FireCountdown(w, h, now), h, m - 1, n, now);
    }
  }

  /**
    A firing at or below zero whose room slot names another interval (or
    none): the slot's interval is cleared, the firing one stays live one
    lower, the contest is (re)started at `now` with a newly armed timeout,
    and the room hears the counter and contest-started.
   */
  lemma StrayZeroFiring(w: World, h: nat, now: int)
    requires Inv(w)
    requires h in w.intervals && w.intervals[h].countdown <= 0
    requires w.rooms[w.intervals[h].roomId].countdownInterval != Some(h)
    ensures var c := w.intervals[h];
            var room := w.rooms[c.roomId];
            var w' := FireCountdown(w, h, now);
            && Inv(w')
            && h in w'.intervals && w'.intervals[h] == c.(countdown := c.countdown - 1)
            && (room.countdownInterval.Some? ==> room.countdownInterval.value !in w'.intervals)
            && w'.log == w.log + [Event(ToRoom(c.roomId), ContestCountdown(c.countdown)),
                                  Event(ToRoom(c.roomId), ContestStarted(CONTEST_DURATION, room.users))]
            && w'.rooms == w.rooms[c.roomId := room.(contestStarted := true, contestStartTime := Some(now),
                                                     contestTimeout := Some(w.nextTimer))]
            && w'.intervals == ClearTimer(w.intervals[h := c.(countdown := c.countdown - 1)], room.countdownInterval)
            && w'.nextTimer == w.nextTimer + 1
            && w.nextTimer !in w.timeouts
            && w'.timeouts == w.timeouts[w.nextTimer := c.roomId]
            && |w'.timeouts| == |w.timeouts| + 1
  {
    FireCountdownInv(w, h, now);
  }

  /**
    The code as written. A second start-contest that arrives in the last
    second of a running countdown passes the guard (the contest is not yet
    marked started), resets the scores again and replaces the room's slot
    with a second interval. The first countdown's zero firing then clears
    that second interval instead of itself, starts the contest, and stays
    live: its next firing emits -1 and a second contest-started, moves the
    start time, and arms another contest timeout.
   */
  lemma SecondStartKeepsFirstCountdownRunning(w: World, roomId: string, now: int, later: int)
    requires Inv(w)
    requires roomId in w.rooms && |w.rooms[roomId].users| >= MIN_PLAYERS
    requires !w.rooms[roomId].contestStarted
    ensures var h1 := w.nextTimer;
            var h2 := h1 + 1;
            var w10 := FireRepeatedly(StartContest(w, roomId), h1, 10, now);
            var w10s := StartContest(w10, roomId);
            var w11 := FireCountdown(w10s, h1, now);
            var w12 := FireCountdown(w11, h1, later);
            var users := w11.rooms[roomId].users;
            && h1 in w10.intervals && w10.intervals[h1].countdown == 0
            && w10s.log == w10.log + [Event(ToRoom(roomId), InstructionPhase(true))]
            && w10s.rooms[roomId].users == ResetScores(w10.rooms[roomId].users)
            && w10s.rooms[roomId].countdownInterval == Some(h2)
            && w10s.intervals == w10.intervals[h2 := LiveInterval(roomId, COUNTDOWN_START)]
            && w11.rooms[roomId].contestStarted
            && h2 !in w11.intervals
            && h1 in w11.intervals && w11.intervals[h1].countdown == -1
            && w12.log == w11.log + [Event(ToRoom(roomId), ContestCountdown(-1)),
                                     Event(ToRoom(roomId), ContestStarted(CONTEST_DURATION, users))]
            && w12.rooms[roomId].contestStartTime == Some(later)
            && h1 in w12.intervals
            && |w12.timeouts| == |w.timeouts| + 2
  {
    var h1 := w.nextTimer;
    SecondStartAtZero(w, roomId, now);
    var w10s := StartContest(FireRepeatedly(StartContest(w, roomId), h1, 10, now), roomId);
    StrayZeroFiring(w10s, h1, now);
    var w11 := FireCountdown(w10s, h1, now);
    assert w11.rooms[roomId].countdownInterval == Some(h1 + 1);
    StrayZeroFiring(w11, h1, later);
  }

  /**
    The first half of the scenario above: a fresh countdown fired ten times
    sits at 0, and a second start then passes the guard, resets the scores
    and puts a second interval in the room's slot, leaving the first live.
   */
  lemma SecondStartAtZero(w: World, roomId: string, now: int)
    requires Inv(w)
    requires roomId in w.rooms && |w.rooms[roomId].users| >= MIN_PLAYERS
    requires !w.rooms[roomId].contestStarted
    ensures var h1 := w.nextTimer;
            var h2 := h1 + 1;
            var w10 := FireRepeatedly(StartContest(w, roomId), h1, 10, now);
            var w10s := StartContest(w10, roomId);
            && h1 in w10.intervals && w10.intervals[h1].countdown == 0
            && w10s.log == w10.log + [Event(ToRoom(roomId), InstructionPhase(true))]
            && w10s.rooms[roomId].users == ResetScores(w10.rooms[roomId].users)
            && w10s.rooms[roomId].countdownInterval == Some(h2)
            && w10s.intervals == w10.intervals[h2 := LiveInterval(roomId, COUNTDOWN_START)]
            && w10s.intervals[h1] == LiveInterval(roomId, 0)
            && w10s.timeouts == w.timeouts
            && Inv(w10s)
  {
    var h1 := w.nextTimer;
    TenTicks(w, roomId, now);
    var w10 := FireRepeatedly(StartContest(w, roomId), h1, 10, now);
    StartContestInv(w10, roomId);
    Handlers.StartResetsAndCountsDown(w10, roomId);
  }

  /** Ten firings of a fresh start's countdown bring it to 0 and change nothing but the counter and the log. */
  lemma TenTicks(w: World, roomId: string, now: int)
    requires Inv(w)
    requires roomId in w.rooms && |w.rooms[roomId].users| >= MIN_PLAYERS
    requires !w.rooms[roomId].contestStarted
    ensures var h1 := w.nextTimer;
            var w1 := StartContest(w, roomId);
            var w10 := FireRepeatedly(w1, h1, 10, now);
            && w10.rooms == w1.rooms && w10.timeouts == w.timeouts && w10.nextTimer == h1 + 1
            && w10.intervals == w1.intervals[h1 := LiveInterval(roomId, 0)]
            && roomId in w10.rooms && |w10.rooms[roomId].users| >= MIN_PLAYERS
            && !w10.rooms[roomId].contestStarted
            && Inv(w10)
  {
    var h1 := w.nextTimer;
    var w1 := StartContest(w, roomId);
    StartContestInv(w, roomId);
    Handlers.StartResetsAndCountsDown(w, roomId);
    assert w1.intervals[h1] == LiveInterval(roomId, COUNTDOWN_START);
    TicksBeforeZero(w1, h1, 10, now);
    var w10 := FireRepeatedly(w1, h1, 10, now);
    assert w10 == w1.(intervals := w1.intervals[h1 := LiveInterval(roomId, 0)],
                      log := w1.log + CountdownLog(roomId, COUNTDOWN_START, 10));
  }

  /**
    The corrected tick: the firing that takes the counter below zero clears
    the interval that is firing, whatever the room's slot holds.
   */
  function FireOwnCountdown(w: World, h: nat, now: int): World
    requires h in w.intervals && w.intervals[h].roomId in w.rooms
  {
    var c := w.intervals[h];
    var log := w.log + [Event(ToRoom(c.roomId), ContestCountdown(c.countdown))];
    if c.countdown - 1 >= 0 then
      w.(intervals := w.intervals[h := c.(countdown := c.countdown - 1)], log := log)
    else
      var room := w.rooms[c.roomId];
      var t := w.nextTimer;
      w.(rooms := w.rooms[c.roomId := room.(contestStarted := true, contestStartTime := Some(now),
                                            contestTimeout := Some(t))],
         intervals := w.intervals - {h},
         timeouts := w.timeouts[t := c.roomId],
         nextTimer := t + 1,
         log := log + [Event(ToRoom(c.roomId), ContestStarted(CONTEST_DURATION, room.users))])
  }

  /**
    With the corrected tick every countdown fires contest-started at most
    once: the firing that emits it is the interval's last, whether or not a
    later start replaced the room's slot, and every other live countdown
    is left as it was.
   */
  lemma OwnCountdownStopsAtZero(w: World, h: nat, now: int)
    requires h in w.intervals && w.intervals[h].roomId in w.rooms
    ensures var c := w.intervals[h];
            var w' := FireOwnCountdown(w, h, now);
            && (c.countdown <= 0 <==> h !in w'.intervals)
            && (c.countdown <= 0 ==> w'.intervals == w.intervals - {h})
            && (c.countdown > 0 ==> w'.intervals == w.intervals[h := c.(countdown := c.countdown - 1)])
            && (c.countdown <= 0 <==>
                  (w'.log[|w.log|..] ==
                     [Event(ToRoom(c.roomId), ContestCountdown(c.countdown)),
                      Event(ToRoom(c.roomId), ContestStarted(CONTEST_DURATION, w.rooms[c.roomId].users))]))
  {
    var c := w.intervals[h];
    var w' := FireOwnCountdown(w, h, now);
    if c.countdown > 0 {
      assert |w'.log[|w.log|..]| == 1;
    }
  }
}
