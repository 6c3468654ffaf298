# Contest-room coordinator, modelled and verified in Dafny

CodeArena's server keeps a process-wide registry `rooms` that maps a room id to a
room record. A record holds:

- an ordered roster of `{id, username, score, problemIndex}` entries;
- a `contestStarted` flag and a `contestStartTime`;
- two timer slots, `countdownInterval` and `contestTimeout`.

Four socket.io handlers act on the registry. `join-room` creates the room on
first use, rebinds a returning name to its new socket, and admits at most 3
players. `start-contest` checks its guards, resets scores and starts a 10→0
countdown; the countdown then starts a 45-minute contest timer. `problem-solved`
credits a player. `disconnect` changes nothing. The event loop runs one handler
or timer callback at a time to completion.

The model has two layers.

- **Pure transitions.** `Protocol` defines one function per handler or timer
  firing over a `World`. A `World` holds the room registry, the live intervals
  (each with its own captured `countdown` counter), the live timeouts, the next
  timer handle, and a log of every emission with its audience (`ToSocket` for
  `socket.emit`, `ToRoom` for `io.to(room).emit`). `Run` applies any sequence of
  inputs in order.
- **Imperative coordinator.** `Server.Coordinator` holds the same state as
  fields. Its methods update those fields in the handler's own order. Each
  handler and timer-callback method is proved to produce exactly the pure
  transition and to keep the invariant `Invariants.Inv`. The timer
  primitives (`SetInterval`, `ClearInterval`, `SetTimeout`) and the roster
  step `Admit` state their own field updates instead.

The lemmas in `Roster`, `Invariants`, `Handlers`, `Countdown`, `Registry` and `Scenario` state
what the handlers promise, and also what they actually do where that differs
from what was evidently intended.

Rooms are stored as values in a map. In the code, a room object is only ever
reached as `rooms[roomId]`. The timer callbacks capture that same object, and it
is never replaced or removed. So updating the map entry has the same effect as
mutating the object in place. There is one place where a map differs from the
JavaScript object: `rooms` also answers for the names every object inherits
from `Object.prototype` ("constructor", "toString", "__proto__", …). The model
lists those names as `Protocol.INHERITED_KEYS` and reproduces what the handlers
do with them. `join-room` and `start-contest` throw a TypeError before changing
anything, and `problem-solved` ignores them.

In these places the code does less, or something other, than the contest protocol it serves suggests. The model follows the code:

- `start-contest` cancels no existing timer.
- Its guard checks only `contestStarted`, so a start during the countdown passes it.
- After the contest timeout, the room can be started again.
- A room id that is an inherited property name can never be joined.
- Nothing checks that `points` is non-negative.
- `join-room` also broadcasts a "joined the arena" notification.

## Model

| member | source | states |
|---|---|---|
| Roster.FindByName | backend/index.js:148 | Returns the position of the first entry with that username. Returns none exactly when no entry has it. |
| Roster.FindById | backend/index.js:255 | Returns the position of the first entry with that socket id. Returns none exactly when no entry has it. |
| Roster.ResetScores | backend/index.js:193-197 | Same length. Every entry keeps its id and username; its score and problemIndex become 0. |
| Roster.CreditSolve | backend/index.js:231-240 | Same length. Every entry with the name gains `points` and moves one problem ahead. Every other entry is unchanged. |
| Roster.ResetKeepsNames | backend/index.js:193-197 | The reset keeps the list of names, so membership and order survive and the roster stays well-formed. |
| Roster.CreditKeepsNames | backend/index.js:231-240 | Crediting a solve keeps the list of names and roster well-formedness. |
| Roster.RebindKeepsNames | backend/index.js:162-165 | Rebinding an entry's socket id keeps the list of names and roster well-formedness. |
| Roster.AppendNewName | backend/index.js:150-160 | Appending an absent name to a roster below 3 entries keeps the size bound and name uniqueness. |
| Roster.CreditMonotone | backend/index.js:235-236 | With non-negative points, a solve never lowers a score or a problem cursor. |
| Protocol.JoinRoom | backend/index.js:132-177 | Transition for `join-room`: create the room unless `rooms[roomId]` is truthy, leave everything unchanged for an inherited property name (the handler throws), then reject when full, append, or rebind; then broadcast, and resync a joiner while a contest runs. |
| Protocol.EnsureRoom | backend/index.js:135-143 | The creation step of `join-room`: a new empty room is stored only when `rooms[roomId]` is falsy, so neither a stored room nor an inherited property name gets one. |
| Protocol.Admit | backend/index.js:145-176 | The roster part of `join-room` on a stored room: reject a new name when the room is full, otherwise append it with a notification or rebind a returning name, then announce. |
| Protocol.Announce | backend/index.js:167-176 | Broadcast `room-users` with the roster to the room, then the joiner's resync. |
| Protocol.Resync | backend/index.js:169-176 | The joiner's private `contest-started` with the remaining time and the roster, sent only while the contest runs. |
| Protocol.StartContest | backend/index.js:181-224 | Transition for `start-contest`: absent-room (or inherited name, which throws), too-few-players and already-started guards, then reset and a new countdown at 10. |
| Protocol.FireCountdown | backend/index.js:202-223 | Transition for one interval firing. On the firing that goes below 0, clear the interval in the room's slot, start the contest and arm its timeout. |
| Protocol.FireTimeout | backend/index.js:218-221 | Transition for the contest timeout: broadcast `contest-ended` and clear the running flag. |
| Protocol.RemainingTime | backend/index.js:171 | The time left told to a late joiner: `CONTEST_DURATION - (now - start)`, unclamped, with a missing start time counting as 0. |
| Protocol.Disconnect | backend/index.js:252-269 | Transition for `disconnect`: the world is left as it was. |
| Protocol.Step | backend/index.js:128-269 | One run-to-completion step: an inbound socket event goes to its handler, and a timer firing to its callback only while that timer is live. |
| Protocol.Run | backend/index.js:128-269 | The world after a sequence of events and timer firings, applied one at a time in order. |
| Protocol.ProblemSolved | backend/index.js:227-249 | Transition for `problem-solved`: ignored unless the room exists and its contest runs. |
| Invariants.JoinRoomInv | backend/index.js:132-177 | `join-room` keeps every roster at no more than 3 entries with unique names, and keeps timers attached to existing rooms. |
| Invariants.StartContestInv | backend/index.js:181-224 | `start-contest` keeps the invariant. |
| Invariants.ProblemSolvedInv | backend/index.js:227-249 | `problem-solved` keeps the invariant. |
| Invariants.FireCountdownInv | backend/index.js:202-223 | A countdown firing keeps the invariant, including that a started contest has a start time. |
| Invariants.FireTimeoutInv | backend/index.js:218-221 | The contest timeout keeps the invariant. |
| Invariants.StepInv | backend/index.js:132-269 | Any single inbound event or timer firing keeps the invariant. |
| Invariants.RunInv | backend/index.js:132-269 | Any sequence of events keeps the invariant (induction over the sequence). |
| Invariants.RunAppend | backend/index.js:132-269 | Running one sequence of events and then another is running their concatenation. |
| Invariants.RostersAlwaysBounded | backend/index.js:125 | From start-up, after any sequence of events, every room has at most `MAX_PLAYERS = 3` users and no username twice. |
| Invariants.RoomsNeverEvicted | backend/index.js:124-143 | No sequence of events ever removes a room. |
| Handlers.JoinAppendsNewUser | backend/index.js:135-177 | A new name with space left (in a fresh room when the id was unknown) is appended at the end as `{socketId, name, 0, 0}`, with earlier entries unchanged and no other room touched. The room gets the notification and the new roster, then the joiner gets the remaining time if the contest runs; timers are untouched. |
| Handlers.JoinFullRoom | backend/index.js:133-154 | A new name in a full room: the room already existed, and the only change is the joiner's "Room is full (max 3 players)". There is no `room-users` broadcast. |
| Handlers.JoinInheritedName | backend/index.js:135-148 | A join for an inherited property name that holds no room changes nothing and emits nothing. |
| Handlers.JoinRebindsExisting | backend/index.js:162-177 | A returning name changes only that entry's id. Length, order, names, scores and cursors are kept, and no other room or timer changes. Then the roster is broadcast, and the joiner gets the remaining time if the contest runs. |
| Handlers.LateJoinerTimeNotClamped | backend/index.js:169-176 | An admitted joiner during a contest privately gets `CONTEST_DURATION - (now - start)`, which is negative after an overrun. |
| Handlers.StartAbsentRoom | backend/index.js:182-183 | `start-contest` for an unknown room changes nothing. |
| Handlers.StartTooFewPlayers | backend/index.js:185-188 | With fewer than 2 users, the only effect is the room-wide "Need at least 2 players to start!". This is checked before `contestStarted`. |
| Handlers.StartWhileRunning | backend/index.js:190 | `start-contest` while `contestStarted` is set changes nothing. |
| Handlers.StartResetsAndCountsDown | backend/index.js:192-202 | A passing start zeroes every score and cursor and keeps ids, names and order. The room's only other change is its interval slot, which names a fresh interval at 10 under the next handle. It emits `instruction-phase(true)` once, cancels no live timer and touches no other room. |
| Handlers.SolvedOutsideContest | backend/index.js:228-229 | `problem-solved` for an absent room, or one whose contest is not running (including during the countdown), changes nothing. |
| Handlers.SolvedCredits | backend/index.js:231-248 | Each matching entry gains the points and one problem and keeps its id and name; others are unchanged. Nothing but that room's roster changes (no timer, no handle), and both broadcasts happen even with no match. With non-negative points, scores do not drop. |
| Handlers.TimeoutEndsContest | backend/index.js:218-221 | The timeout broadcasts `contest-ended` with the roster, clears `contestStarted` (the room's only change) and retires that timeout; nothing else changes. The room can then be started again. |
| Handlers.DisconnectAnywhere | backend/index.js:252-269 | A disconnect anywhere in a sequence of events makes no difference to the outcome. |
| Countdown.CountdownLog | backend/index.js:203 | The countdown emissions in order: position `i` holds `contest-countdown(from - i)`. |
| Countdown.TicksBeforeZero | backend/index.js:202-206 | While the counter stays at or above 0, each firing only emits the counter and decrements it. |
| Countdown.FullCountdown | backend/index.js:201-221 | A fresh countdown emits 10, 9, …, 0 over 11 firings. Only the 11th does the rest, once: it stops the interval, sets `contestStarted` and `contestStartTime = now`, broadcasts `contest-started` with 2 700 000 ms and the users, and arms one timeout. |
| Countdown.StrayZeroFiring | backend/index.js:206-221 | A firing at or below 0 whose room slot names another interval clears that other interval. The firing one stays live one lower, and every other interval is kept. The room is (re)started at `now` with the new timeout in its `contestTimeout` slot, no other room changes, and the next handle moves on by one. |
| Countdown.TenTicks | backend/index.js:202-206 | Ten firings of a fresh start's countdown bring its counter to 0. Rooms, timeouts and the next handle stay as the start left them, and the room's contest is still not marked started. |
| Countdown.SecondStartAtZero | backend/index.js:190-202 | With the first countdown at 0, a second start passes the guard. It emits `instruction-phase(true)`, resets the scores, and puts a second interval at 10 in the room's slot, while the first interval stays live at 0. |
| Countdown.SecondStartKeepsFirstCountdownRunning | backend/index.js:190-221 | A second start in a countdown's last second passes the guard: it emits `instruction-phase(true)` again, resets the scores, and adds a second interval at 10 in the room's slot. The first countdown's zero firing then kills the second countdown and keeps running: it emits -1 and a second `contest-started` and arms another timeout. |
| Countdown.OwnCountdownStopsAtZero | backend/index.js:206-207 | With the corrected tick, the firing that emits 0 is the interval's last, and `contest-started` is emitted exactly then. |
| Scenario.TwoJoin | backend/index.js:132-167 | Two different names joining a fresh server under an ordinary room id produce one room with both fresh entries in join order. |
| Scenario.StartAndCountDown | backend/index.js:181-221 | Starting that room and letting the countdown run gives `instruction-phase`, then 10…0, then `contest-started` with 2 700 000 ms. |
| Scenario.SolveThenExpire | backend/index.js:218-243 | After a 20-point solve by A and the timeout, `contest-ended` carries A with 20 points and 1 problem, and B with 0 and 0. |
| Scenario.TwoPlayerContest | backend/index.js:132-243 | The whole two-player contest, end to end, from a fresh server. |
| Registry.StepOwnKeys | backend/index.js:135-143 | No event stores a room under an inherited property name. |
| Registry.RunOwnKeys | backend/index.js:135-143 | No sequence of events stores a room under an inherited property name. |
| Registry.InheritedNamesNeverJoinable | backend/index.js:135-148 | From start-up, whatever happens, no room exists under an inherited property name, and a join for one has no effect. |
| Registry.OwnKeyJoinAdmits | backend/index.js:135-148 | The own-key join admits the first player to any room id, inherited names included, and agrees with `join-room` on every other id. |
| Server.Coordinator.constructor | backend/index.js:124 | Starts with no rooms, no timers and no emissions. |
| Server.Coordinator.SetInterval | backend/index.js:202 | Registers a live interval with its own counter under a fresh handle. |
| Server.Coordinator.ClearInterval | backend/index.js:207 | Stops the interval the slot names. An empty slot or a dead interval is a no-op. |
| Server.Coordinator.SetTimeout | backend/index.js:218 | Registers a live timeout for the room under a fresh handle. |
| Server.Coordinator.JoinRoom | backend/index.js:132-177 | Updates the fields to exactly `Protocol.JoinRoom` of the old state and keeps the invariant. Afterwards the room exists unless the id is an inherited name, and a join for an inherited name changes nothing. |
| Server.Coordinator.Admit | backend/index.js:145-176 | Updates the fields to exactly `Protocol.Admit` of the old state, and keeps the set of rooms. |
| Server.Coordinator.StartContest | backend/index.js:181-224 | Updates the fields to exactly `Protocol.StartContest` of the old state and keeps the invariant. |
| Server.Coordinator.CountdownTick | backend/index.js:202-223 | Updates the fields to exactly `Protocol.FireCountdown` of the old state and keeps the invariant. |
| Server.Coordinator.ContestTimeout | backend/index.js:218-221 | Updates the fields to exactly `Protocol.FireTimeout` of the old state and keeps the invariant. |
| Server.Coordinator.ProblemSolved | backend/index.js:227-249 | Updates the fields to exactly `Protocol.ProblemSolved` of the old state and keeps the invariant. |
| Server.Coordinator.Disconnect | backend/index.js:252-269 | Looks the socket up in every room and leaves the whole state as it was. |

## Findings

| source | as written | input that shows it | evidently intended | confidence | as-written member | corrected member |
|---|---|---|---|---|---|---|
| backend/index.js:190-207 | Two things combine. The guard lets `start-contest` through while a countdown runs, and the tick clears `room.countdownInterval` (the room's latest countdown) instead of the interval that is firing. | Join 2 players, `start-contest`, let 10 ticks fire, send `start-contest` again, then let the first interval fire twice more. | Each countdown stops on the firing that emits 0, and that firing is the only one of its interval that emits `contest-started`. (The guard still lets a second start through, and its own countdown still starts the contest again later.) | not executed | Countdown.SecondStartKeepsFirstCountdownRunning | Countdown.OwnCountdownStopsAtZero |
| backend/index.js:135-148 | `if (!rooms[roomId])` tests a plain object, so an inherited property name such as "constructor" looks present. The room is never created, and `room.users.find` throws a TypeError. | `join-room` with room id "constructor" on a fresh server. | Any room id can be created and joined. | not executed | Registry.InheritedNamesNeverJoinable | Registry.OwnKeyJoinAdmits |

`Server.Coordinator`, `Protocol.FireCountdown` and `Protocol.JoinRoom` keep the
behaviour as written, because that is what the server does.
`Countdown.FireOwnCountdown` is the corrected tick, which clears the firing
interval itself. `Registry.JoinRoomOwnKey` is the corrected join, which creates
the room unless one is stored under that id.

## Left out

- Transport: `socket.join(roomId)` and actual delivery are not modelled. An emission is only appended to the log with its audience, a single socket or a room. Which sockets are subscribed to a room is not modelled, so neither is the fact that a socket rejected from a full room has already joined the room's channel.
- Payloads are snapshots. The code passes `room.users` by reference, and it is serialised when emitted.
- Timing: the 1000 ms interval period and the 45-minute delay are not modelled. A timer firing is an explicit step. Which live timer fires next is chosen by the caller (a `Step` input or a method call), so every interleaving is allowed, including ones real timing would not produce.
- A handler that throws (`join-room` or `start-contest` for an inherited property name) is modelled as leaving the state and the log unchanged, which is what happens up to the throw. The exception itself, and what socket.io then does with it, are not modelled.
- `Date.now()` becomes an integer `now` parameter.
- `points` is an unbounded integer. The JavaScript `number` semantics are not modelled: floating point, `undefined`, and string concatenation when a string is sent.
- `console.log` calls are not modelled.
- The REST routes `/register` and `/login` (password hashing, token signing, database queries) are not modelled. They are foreign library calls and database I/O.
- CORS setup, the database connection and server start-up are not modelled. They are configuration and network plumbing.
- The client application and the unused database schemas `backend/models/Room.js` and `backend/models/Contest.js` are not part of this model.
