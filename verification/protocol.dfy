/**
  The room coordinator as a pure transition system. A `World` is the whole
  process state the socket handlers and timer callbacks touch: the room
  registry, the timers the runtime holds live, the next timer handle, and the
  log of everything emitted so far. Each inbound socket event and each timer
  firing is one function from world to world, run to completion, exactly as
  the single-threaded event loop runs one handler at a time.
 */
module Protocol {
  import opened Roster

  /** Length of a contest in milliseconds (45 minutes). */
  const CONTEST_DURATION: int := 45 * 60 * 1000
  /** First value the pre-contest countdown emits. */
  const COUNTDOWN_START: int := 10
  /** Fewest participants for which a contest may start. */
  const MIN_PLAYERS: nat := 2

  const ROOM_FULL: string := "Room is full (max 3 players)"
  const NEED_PLAYERS: string := "Need at least 2 players to start!"

  function JoinedText(username: string): string
  {
    username + " joined the arena!"
  }

  function SolvedText(username: string): string
  {
    username + " solved their Problem and moved ahead! \U{1F680}"
  }

  /** One room record; the two `Option<nat>` fields are the timer slots. */
  datatype Room = Room(
    users: seq<User>,
    contestStarted: bool,
    contestStartTime: Option<int>,
    countdownInterval: Option<nat>,
    contestTimeout: Option<nat>)

  /** A room as it is created on the first join. */
  function NewRoom(): Room
  {
    Room([], false, None, None, None)
  }

  /** A live countdown interval: its room and its own captured `countdown` counter. */
  datatype LiveInterval = LiveInterval(roomId: string, countdown: int)

  /** Who an emission goes to: the one socket that sent the event, or every socket in a room. */
  datatype Audience = ToSocket(socketId: string) | ToRoom(roomId: string)

  /** The outbound socket.io events, by name, with their payloads. */
  datatype Message =
    | ErrorMessage(text: string)                          // "error-message"
    | Notification(text: string)                          // "notification"
    | RoomUsers(users: seq<User>)                         // "room-users"
    | InstructionPhase(on: bool)                          // "instruction-phase"
    | ContestCountdown(seconds: int)                      // "contest-countdown"
    | ContestStarted(remainingTime: int, users: seq<User>) // "contest-started"
    | ContestEnded(users: seq<User>)                      // "contest-ended"

  datatype Event = Event(to: Audience, msg: Message)

  datatype World = World(
    rooms: map<string, Room>,
    intervals: map<nat, LiveInterval>,
    timeouts: map<nat, string>,
    nextTimer: nat,
    log: seq<Event>)

  /** The process right after start-up: no rooms, no timers, nothing emitted. */
  function Initial(): World
  {
    World(map[], map[], map[], 1, [])
  }

  /**
    Time left in a running contest as told to a late joiner. Not clamped, so
    it goes negative once the contest has overrun; a missing start time counts
    as 0, as `Date.now() - null` does.
   */
  function RemainingTime(contestStartTime: Option<int>, now: int): int
  {
    var start := if contestStartTime.Some? then contestStartTime.value else 0;
    CONTEST_DURATION - (now - start)
  }

  /** `clearInterval(slot)`: stops the interval the slot names, if it is still live. */
  function ClearTimer<T>(timers: map<nat, T>, slot: Option<nat>): map<nat, T>
  {
    if slot.Some? then timers - {slot.value} else timers
  }

  /**
    The property names every plain JavaScript object inherits from
    `Object.prototype`. Looking one of them up in the `rooms` object yields a
    truthy value that is not a room record, although nothing was stored.
   */
  const INHERITED_KEYS: set<string> := {
    "constructor", "__proto__", "hasOwnProperty", "isPrototypeOf",
    "propertyIsEnumerable", "toLocaleString", "toString", "valueOf",
    "__defineGetter__", "__defineSetter__", "__lookupGetter__", "__lookupSetter__"}

  /** `rooms[roomId]` is truthy: a stored room, or an inherited property. */
  predicate Truthy(rooms: map<string, Room>, roomId: string)
  {
    roomId in rooms || roomId in INHERITED_KEYS
  }

  /** The registry after `join-room`'s `if (!rooms[roomId])` creation step. */
  function EnsureRoom(rooms: map<string, Room>, roomId: string): map<string, Room>
  {
    if Truthy(rooms, roomId) then rooms else rooms[roomId := NewRoom()]
  }

  /**
    Handler `join-room` for socket `socketId`, at wall-clock time `now`. For an
    inherited property name no room is created and `room.users.find` throws a
    TypeError before anything is changed or emitted.
   */
  function JoinRoom(w: World, socketId: string, roomId: string, username: string, now: int): World
  {
    var rooms := EnsureRoom(w.rooms, roomId);
    if roomId !in rooms then w
    else Admit(w.(rooms := rooms), socketId, roomId, username, now)
  }

  /** The roster part of `join-room`, once `roomId` names a stored room. */
  function Admit(w: World, socketId: string, roomId: string, username: string, now: int): World
    requires roomId in w.rooms
  {
    var room := w.rooms[roomId];
    match FindByName(room.users, username)
    case None =>
      if |room.users| >= MAX_PLAYERS then
        w.(log := w.log + [Event(ToSocket(socketId), ErrorMessage(ROOM_FULL))])
      else
        var room' := room.(users := room.users + [NewUser(socketId, username)]);
        Announce(w.(rooms := w.rooms[roomId := room'],
                    log := w.log + [Event(ToRoom(roomId), Notification(JoinedText(username)))]),
                 socketId, roomId, now)
    case Some(i) =>
      var room' := room.(users := room.users[i := room.users[i].(id := socketId)]);
      Announce(w.(rooms := w.rooms[roomId := room']), socketId, roomId, now)
  }

  /** The tail of `join-room`: broadcast the roster, then sync a joiner into a running contest. */
  function Announce(w: World, socketId: string, roomId: string, now: int): World
    requires roomId in w.rooms
  {
    var room := w.rooms[roomId];
    w.(log := w.log + [Event(ToRoom(roomId), RoomUsers(room.users))] + Resync(room, socketId, now))
  }

  /** The joiner's private `contest-started`, sent only while the contest runs. */
  function Resync(room: Room, socketId: string, now: int): seq<Event>
  {
    if room.contestStarted
    then [Event(ToSocket(socketId), ContestStarted(RemainingTime(room.contestStartTime, now), room.users))]
    else []
  }

  /** Handler `start-contest`: guards, score reset, instruction phase, and a new countdown interval. */
  function StartContest(w: World, roomId: string): World
  {
    // An absent room returns early; for an inherited property name
    // `room.users.length` throws. Either way nothing changes.
    if roomId !in w.rooms then w
    else
      var room := w.rooms[roomId];
      if |room.users| < MIN_PLAYERS then
        w.(log := w.log + [Event(ToRoom(roomId), ErrorMessage(NEED_PLAYERS))])
      else if room.contestStarted then w
      else
        var h := w.nextTimer;
        w.(rooms := w.rooms[roomId := room.(users := ResetScores(room.users), countdownInterval := Some(h))],
           intervals := w.intervals[h := LiveInterval(roomId, COUNTDOWN_START)],
           nextTimer := h + 1,
           log := w.log + [Event(ToRoom(roomId), InstructionPhase(true))])
  }

  /**
    One firing of the live countdown interval `h`: emit its counter, count
    down, and on the firing that takes it below zero clear the interval in the
    room's slot (which is the room's latest countdown, not necessarily `h`),
    start the contest and arm its timeout.
   */
  function FireCountdown(w: World, h: nat, now: int): World
    requires h in w.intervals && w.intervals[h].roomId in w.rooms
  {
    var c := w.intervals[h];
    var log := w.log + [Event(ToRoom(c.roomId), ContestCountdown(c.countdown))];
    var intervals := w.intervals[h := c.(countdown := c.countdown - 1)];
    if c.countdown - 1 >= 0 then
      w.(intervals := intervals, log := log)
    else
      var room := w.rooms[c.roomId];
      var t := w.nextTimer;
      w.(rooms := w.rooms[c.roomId := room.(contestStarted := true, contestStartTime := Some(now),
                                            contestTimeout := Some(t))],
         intervals := ClearTimer(intervals, room.countdownInterval),
         timeouts := w.timeouts[t := c.roomId],
         nextTimer := t + 1,
         log := log + [Event(ToRoom(c.roomId), ContestStarted(CONTEST_DURATION, room.users))])
  }

  /** The firing of the live contest timeout `t`: announce the final roster and stop the contest. */
  function FireTimeout(w: World, t: nat): World
    requires t in w.timeouts && w.timeouts[t] in w.rooms
  {
    var roomId := w.timeouts[t];
    var room := w.rooms[roomId];
    w.(rooms := w.rooms[roomId := room.(contestStarted := false)],
       timeouts := w.timeouts - {t},
       log := w.log + [Event(ToRoom(roomId), ContestEnded(room.users))])
  }

  /** Handler `problem-solved`: credit every entry with that name, then broadcast. */
  function ProblemSolved(w: World, roomId: string, username: string, points: int): World
  {
    // An inherited property name has no `contestStarted`, so it is ignored like an absent room.
    if roomId !in w.rooms || !w.rooms[roomId].contestStarted then w
    else
      var room := w.rooms[roomId];
      var users := CreditSolve(room.users, username, points);
      w.(rooms := w.rooms[roomId := room.(users := users)],
         log := w.log + [Event(ToRoom(roomId), RoomUsers(users)),
                         Event(ToRoom(roomId), Notification(SolvedText(username)))])
  }

  /** Handler `disconnect`: changes nothing. */
  function Disconnect(w: World, socketId: string): World
  {
    w
  }

  /** Everything that can happen next: an inbound socket event or a timer firing. */
  datatype Input =
    | Join(socketId: string, roomId: string, username: string, now: int)
    | Start(roomId: string)
    | Solved(roomId: string, username: string, points: int)
    | Disconnected(socketId: string)
    | CountdownFires(handle: nat, now: int)
    | TimeoutFires(handle: nat)

  /** One run-to-completion step; the runtime only fires timers that are still live. */
  function Step(w: World, input: Input): World
  {
    match input
    case Join(s, r, u, now) => JoinRoom(w, s, r, u, now)
    case Start(r) => StartContest(w, r)
    case Solved(r, u, p) => ProblemSolved(w, r, u, p)
    case Disconnected(s) => Disconnect(w, s)
    case CountdownFires(h, now) =>
      if h in w.intervals && w.intervals[h].roomId in w.rooms then FireCountdown(w, h, now) else w
    case TimeoutFires(t) =>
      if t in w.timeouts && w.timeouts[t] in w.rooms then FireTimeout(w, t) else w
  }

  /** The world after a sequence of inputs, in order. */
  function Run(w: World, inputs: seq<Input>): World
    decreases |inputs|
  {
    if inputs == [] then w else Run(Step(w, inputs[0]), inputs[1..])
  }
}
