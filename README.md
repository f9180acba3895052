# Pictionary game session, modelled in Dafny

This project models the core of a small socket.io drawing-and-guessing game:

- the server's authoritative session state and its socket handlers (`server.js`);
- the parts of the browser client that hold state (`script.js`): the scoreboard ranking, the time bar, the stroke hand-off between mouse events, and the "is it my turn" test.

The server keeps one process-wide session. It holds:

- the ordered `players` registry of `{socketId, name, points}`;
- the fixed five-word pool;
- the current drawer's id and name, and the current word;
- the canvas history of the current turn.

Only the current drawer may draw, change the colour, clear the canvas or report time-up. Every other sender is ignored silently. A correct guess scores 5 points and schedules a turn change. A time-up from the drawer schedules one as well. The turn change (`nextTurn`) draws a random (player, word) pair again and again until both differ from the previous turn. It then tells the drawer the word, tells everyone else the drawer's name, and resets the canvas, the colour, the slider and the scoreboard.

## Layout

| file | module | models |
|---|---|---|
| Protocol.dfy | `Protocol` | players, strokes, recipients, every server event, client requests, the client socket as a request log |
| Players.dfy | `Players` | `add5Points`, `deletePlayer`, `getNameById` as functions over the registry, with their lemmas |
| Turns.dfy | `Turns` | the word pool, ASCII upper-casing, `isCorrectAnswer`, the acceptance test of the resampling loop |
| Session.dfy | `Session` | class `GameSession`: the global state and every socket handler, `nextTurn` with its `while` loop, the helper `for` loops |
| Scenarios.dfy | `Scenarios` | short runs of a fresh session: a correct guess, skipped draws, a double schedule, the drawer leaving, a clear before a join |
| Scoreboard.dfy | `Scoreboard` | the in-place sort by points, `clearScoreboard`, `populateScoreboard`, `appendNewPlayer`, `renderScoreboard` |
| TimeBar.dfy | `TimeBar` | `startTime`, its `frame` tick, the delayed time-up check, `stopTime` |
| Pen.dfy | `Pen` | `requestDrawing`, `setPosition`, `getDrawing`, the style and slider resets |
| TurnInfo.dfy | `TurnInfo` | the `new-turn-response` classification and the text shown |

## How the model is built

- **Emits.** Each server emit is appended to `GameSession.outbox` as an `Event(recipient, message)`. The recipient is `Everyone` (`io.sockets.emit`), `AllBut(id)` (`socket.broadcast.emit`) or `Only(id)` (`io.to(id).emit`). Each client emit is appended to `ClientSocket.sent`.
- **Randomness.** `Math.random` is an oracle. `nextTurn` takes a sequence of `Draw(player, word)` index pairs. One pair is used per call of `randomlyAssignNewTurnDetails`. The pairs are required to be in range, because `Math.floor(Math.random() * n)` is always below `n`.
- **How `nextTurn` ends.** `Started(k)` means the loop stopped after `k >= 1` draws. `Crashed` means the registry is empty, so `players[0].socketId` throws. `DrawsExhausted` means the supplied draws ran out before the loop stopped. When every entry has the previous drawer's id, that happens for every draw sequence (`SoleDrawerNeverReplaced`): the loop never terminates.
- **Timers.** Each `setTimeout(nextTurn, 3020)` adds one to `pendingTurns`. `RunScheduledTurn` is the moment one of them fires. There is no idempotence guard, so a time-up and a correct guess in the same turn leave two turn changes pending (`TimeUpAndGuessBothSchedule`).
- **Ids.** Socket ids are not assumed unique in the registry. The same socket can send `new-user-request` twice, and every helper acts on the first matching entry only.
- **Client timers.** In the client, each 500 ms interval tick is one `Frame` call. The 3000 ms delayed check is one `TimeUpCheck` call.

## Guarantees the code does not give

- **Drawer registration.** The drawer need not be a registered player. `deletePlayer` does not clear `currentPlayerId`, so after the drawer disconnects the drawer id names nobody (`DrawerLeaves`). `GameSession.Valid` therefore does not include this.
- **One turn change per turn.** Nothing stops two turn changes from being scheduled in the same turn. A time-up and a correct guess each schedule one (`TimeUpAndGuessBothSchedule`). The same guesser answering correctly twice within the 3020 ms delay scores twice and schedules two (`RepeatedGuessScoresTwice`).
- **A loop that always ends.** The resampling loop has no fallback. When every registered entry has the previous drawer's id, it never ends (`SoleDrawerNeverReplaced`). With an empty registry it crashes.
- **Game start only on the second join ever.** A turn starts whenever a join makes the registry length exactly 2. This includes a join after a game-over.
- **A sorted scoreboard from the server.** The server sends `players` in registry order. Only the client sorts it (`SortByPoints`).
- **No score without a word.** Before the first turn the current word is `""`. An empty guess upper-cases to it, so a guess of `""` counts as correct and scores (`EmptyGuessMatchesUnsetWord`). The client never sends empty guesses. The server does not check.

## Model

| member | source | states |
|---|---|---|
| Players.FirstIndex | server.js:155-179 | the index found is the first entry with that id; None exactly when no entry has it |
| Players.NameOf | server.js:173-179 | undefined exactly when the id is not registered, otherwise the name of the first entry with that id |
| Players.WithFivePoints | server.js:155-162 | same length; the first matching entry gains exactly 5 points, its id and name unchanged; every other index unchanged; absent id is a no-op |
| Players.WithoutPlayer | server.js:164-171 | absent id is a no-op; otherwise one entry fewer, entries before the match kept in place, entries after it shifted down by one in order |
| Players.AwardLeavesOtherPlayers | server.js:155-162 | an entry with a different id keeps its score |
| Players.AwardAddsExactlyFive | server.js:155-162 | the total score rises by 5 when the id is registered and by 0 otherwise |
| Players.DeleteKeepsOthers | server.js:164-171 | deletion adds nothing, and every entry with another id survives |
| Players.DeleteRemovesOneEntry | server.js:164-171 | exactly one entry with the id goes; later duplicates stay |
| Turns.IsCorrectAnswer | server.js:125-127 | a correct guess has the word's length, and a word holding a lower-case letter can never be guessed |
| Turns.ToUpper | server.js:126 | upper-casing keeps the length and maps each character on its own |
| Turns.WordsAreUpperCase | server.js:13 | every pool word is upper-case ASCII and a fixed point of upper-casing |
| Turns.WordsDistinct | server.js:13 | the pool holds five pairwise different words |
| Turns.CorrectAnswerIffCaseVariant | server.js:125-127 | against an upper-case word, a guess is correct iff it spells the word letter by letter in either case |
| Turns.LowerCaseWordIsCorrect | server.js:125-127 | a pool word typed in lower case is a correct answer |
| Turns.EmptyGuessMatchesUnsetWord | server.js:18 | the empty guess matches the unset word of the time before the first turn |
| Turns.FirstAccepted | server.js:129-134 | the draw chosen is the first whose player id and word both differ from the previous turn's; None iff no draw qualifies |
| Turns.SoleDrawerNeverReplaced | server.js:129-134 | if every entry is the previous drawer, no draw ever stops the loop |
| Turns.ReplacementDrawExists | server.js:118-134 | once some entry is not the previous drawer, a draw exists that stops the loop |
| Session.Replay | server.js:84-86 | the replay holds one point-to-point drawing-response per history entry, in history order |
| Session.GuesserNoticesReachExactlyGuessers | server.js:139-144 | the drawer's name goes only to registered non-drawers, and every registered non-drawer gets it |
| Session.WordReachesOnlyDrawer | server.js:136-152 | the only word-carrying event of a turn change is addressed to the drawer |
| Session.GameSession.constructor | server.js:12-19 | the session starts with no players, empty drawer id, name and word, and empty history |
| Session.GameSession.IsNotDrawingPlayer | server.js:114-116 | before the first turn every socket with a non-empty id fails the drawer gate, and only the empty id passes it |
| Session.GameSession.DrawingRequest | server.js:27-31 | from the drawer: broadcast to all, then append exactly that stroke; from anyone else: nothing emitted, history unchanged |
| Session.GameSession.NewStyleRequest | server.js:33-36 | gated like drawing; broadcasts the colour; history never touched |
| Session.GameSession.ClearCanvasRequest | server.js:38-42 | from the drawer: clear broadcast and history emptied; otherwise nothing changes |
| Session.GameSession.NewGuessRequest | server.js:46-54 | guess always echoed to all but the sender; scores iff correct and not from the drawer: announcement, only the sender's first entry +5, one turn change scheduled |
| Session.GameSession.TimeIsUpRequest | server.js:58-65 | only the drawer's request reveals the word to all and schedules a turn change; others change nothing |
| Session.GameSession.RunScheduledTurn | server.js:52 | a scheduled turn change fires: one fewer pending, then what nextTurn does; a crash leaves drawer id, name and word as they were |
| Session.GameSession.NewUserRequest | server.js:74-97 | joiner appended with 0 points; announcement, id, full history replay in order, time request to the drawer; a turn starts iff the registry now has two entries; without one, drawer id, name and word and the history are unchanged |
| Session.GameSession.Disconnect | server.js:101-107 | first matching entry removed; game-over broadcast iff one entry remains; drawer fields untouched |
| Session.GameSession.RandomlyAssignNewTurnDetails | server.js:118-123 | drawer id, name and word are taken from the drawn entry and word |
| Session.GameSession.NextTurn | server.js:129-153 | crashes iff the registry is empty; otherwise stops at the first accepting draw, with new drawer and new word both different, drawer registered, word in the pool, empty history and the turn-start events in order |
| Session.GameSession.AnnounceTurn | server.js:136-152 | word to the drawer, name to every other entry in registry order, then clear, black style, slider reset and scoreboard |
| Session.GameSession.Add5Points | server.js:155-162 | the registry becomes WithFivePoints of the old one |
| Session.GameSession.DeletePlayer | server.js:164-171 | the registry becomes WithoutPlayer of the old one |
| Session.GameSession.GetNameById | server.js:173-179 | returns NameOf of the registry |
| Scenarios.LowerCaseAnswers | server.js:125-127 | "table" and "dress" are correct answers for TABLE and DRESS |
| Scenarios.GuessScores | server.js:46-54 | after A and B join with A drawing TABLE, B's "table" gives B 5 points, A none, one turn change pending |
| Scenarios.RejectedDrawsAreSkipped | server.js:129-134 | draws repeating the drawer or the word are skipped; the third draw, B with AUTOMOBILE, is taken |
| Scenarios.TimeUpAndGuessBothSchedule | server.js:52-64 | a time-up followed by a correct guess leaves two turn changes pending |
| Scenarios.RepeatedGuessScoresTwice | server.js:46-54 | B answering "table" twice in one turn ends with 10 points and two turn changes pending |
| Scenarios.DrawerLeaves | server.js:101-107 | when the drawer of a two-player game leaves, game-over is the last event and the drawer id is no longer registered |
| Scenarios.ClearThenJoin | server.js:38-42 | after the drawer clears, a join sends only the announcement, the id and the time request: no drawing is replayed |
| Scoreboard.RankedRows | script.js:238-261 | one row per entry, in entry order, with ranks counted up from the first rank |
| Scoreboard.RanksContiguousAndOrdered | script.js:238-249 | rows from sorted data show ranks 1..n with non-increasing points |
| Scoreboard.SortByPoints | script.js:233-235 | in place: sorted by non-increasing points, and a permutation of the input |
| Scoreboard.InsertByPoints | script.js:233-235 | one insertion step extends the sorted prefix by one entry, keeps the rest and the multiset |
| Scoreboard.ScoreboardTable.constructor | script.js:215 | the table starts with only its header row and the rank counter at 1 |
| Scoreboard.ScoreboardTable.ClearScoreboard | script.js:222-227 | removes the last child childElementCount - 1 times, so only the first row is left |
| Scoreboard.ScoreboardTable.AppendNewPlayer | script.js:245-261 | appends one row with the current rank counter, the name and the points |
| Scoreboard.ScoreboardTable.PopulateScoreboard | script.js:231-243 | sorts the data in place, then appends the ranked rows 1..n in sorted order |
| Scoreboard.ScoreboardTable.RenderScoreboard | script.js:211-220 | header kept, then exactly the ranked rows of the sorted data |
| TimeBar.LinearWhileBelowFull | script.js:156-161 | while below 100, each tick adds exactly 9 |
| TimeBar.FullIsFinal | script.js:156-158 | once at 100 or more, the width never changes again |
| TimeBar.NeverBeyond108 | script.js:147-163 | from any start below 100 the width never exceeds 108 |
| TimeBar.EventuallyFull | script.js:156-163 | after enough ticks the width is at least 100, so the interval stops |
| TimeBar.FromOneReachesExactlyHundred | script.js:147-163 | from the default start 1 the width is 1 + 9n below 100 for n < 11 ticks and exactly 100 from the 11th on |
| TimeBar.TimeBar.constructor | script.js:143-145 | initially not stopped, no running interval, no pending check |
| TimeBar.TimeBar.StartTime | script.js:147-153 | width set to `from`, stopped flag cleared, interval running |
| TimeBar.TimeBar.Frame | script.js:154-163 | below 100: +9 and still running; at 100 or more: interval cleared and one delayed check scheduled |
| TimeBar.TimeBar.TimeUpCheck | script.js:158 | time-is-up-request emitted iff the time was not stopped meanwhile |
| TimeBar.TimeBar.StopTime | script.js:166-169 | stopped flag set and interval cleared |
| Protocol.ClientSocket.constructor | script.js:1 | a new socket has sent nothing |
| Protocol.ClientSocket.Emit | script.js:24 | emitting appends exactly that request |
| Pen.CanvasPointIgnoresPlacement | script.js:70-74 | the canvas point does not depend on where the canvas sits in the window: shifting canvas and pointer together leaves it unchanged |
| Pen.DispatchPointerEvents | script.js:61-63 | delivering a run of events to the listeners leaves the pen at PosAfter and sends exactly Requests of the run |
| Pen.DragStrokesConnect | script.js:82-103 | a drag gives one stroke per move; the first starts at the old position, each ends at its event's point, and each next stroke starts where the previous ended |
| Pen.Pen.constructor | script.js:65-80 | position (0, 0), slider value, no stroke style yet |
| Pen.Pen.SetPosition | script.js:69-75 | position becomes the event point relative to the canvas bounds |
| Pen.Pen.GetDrawing | script.js:82-103 | the stroke runs from the previous position to the updated one, with the current width and style |
| Pen.Pen.RequestDrawing | script.js:20-25 | with only the left button pressed it emits that stroke; otherwise nothing changes |
| Pen.Pen.HandlePointerEvent | script.js:61-63 | mousemove draws; mousedown and mouseenter only set the position |
| Pen.Pen.OnNewStyleResponse | script.js:43-45 | later strokes use the broadcast colour |
| Pen.Pen.OnResetLineWidthSlider | script.js:57-59 | the slider value becomes 6 |
| TurnInfo.Keys | script.js:298 | the key list has one key per pair, in insertion order (the model has no integer-like keys, which Object.keys would list first) |
| TurnInfo.IsYourTurn | script.js:298 | a payload without keys is never "your turn"; a one-key payload is exactly when the key is "word" |
| TurnInfo.InfoText | script.js:299-303 | the drawer's text opens with "You are drawing "; everyone else's ends with " is drawing now." |
| TurnInfo.JoinedHasComma | script.js:298 | two or more keys stringify with a comma |
| TurnInfo.YourTurnIffOnlyWordKey | script.js:298-303 | the loose comparison holds iff "word" is the only key |
| TurnInfo.ServerTurnPayloadsClassified | script.js:296-303 | the drawer's payload reads as "your turn" and shows the word; the others' payload shows the drawer's name |

## Left out

- Transport: socket.io delivery, connection identity assignment, and room semantics for `io.to(id)`. Emits are a log with their recipient. What a client receives is not modelled.
- Timing: the 3020 ms settle delay, the 500 ms interval and the 3000 ms client delays. A delayed action is a separate step. Interleavings between steps are not enumerated.
- Randomness: `Math.random`'s distribution. Uniformity is not modelled, so "terminates with probability one" is only stated as `ReplacementDrawExists`.
- Non-termination: `DrawsExhausted` stands for the `while` loop still running after the supplied draws. The model does not run forever.
- `Crashed`: the uncaught exception and what it does to the process are not modelled. The state is left as it was.
- The `current-time-response` / `set-time-in-between` relay (server.js:68-70, script.js:171-177). It is pure message forwarding. The `current-time-request` sent on join is modelled.
- Rendering: canvas drawing, modals, chat log, progress-bar styles, `prompt`, the guess input and the join-time chat messages. Canvas coordinates and bounds are integers, not floating point.
- Session.GameSession.NewGuessRequest: payloads are typed, so the guess is always a string. A client that sends a non-string guess (null, a number, no argument) makes `guess.toUpperCase()` at server.js:126 throw after the echo at server.js:47. That uncaught exception is not modelled.
- TurnInfo.Keys: payload keys are assumed not to be integer-like. `Object.keys` would list such keys first. The server only sends `word` and `drawingName`.
- Turns.ToUpper: only ASCII letters are mapped. Full Unicode upper-casing, which can change the length, is not modelled. The word pool is upper-case ASCII. The rows for `Turns.IsCorrectAnswer` (same length) and `Turns.CorrectAnswerIffCaseVariant` (letter by letter) hold only for ASCII guesses. In the source, `"dreß".toUpperCase()` is `"DRESS"`, so a 4-letter guess wins DRESS, and `"automobıle"` with a dotless ı wins AUTOMOBILE.
- Scoreboard.SortByPoints: the stability of `Array.prototype.sort` is not stated. Only the order by points and the permutation are proved.
- Scoreboard.ScoreboardTable.ClearScoreboard: the table's children are element rows only. A text node as `lastChild` in the real DOM is not modelled.
- TimeBar.TimeBar.StartTime: calling `startTime` while an interval still runs overwrites `intervalId` and leaves the older interval ticking. The model keeps a single interval flag.
- TimeBar.TimeBar.constructor: `barWidth` is `undefined` before the first `startTime`. The model starts it at 0 and promises nothing about it.
- Pen.Pen.constructor: `globalStrokeStyle` is `undefined` until the first style broadcast. The model uses `""`. The slider value is an argument, because the page markup is not part of this model.
- Client handlers that only render (`drawing-response`, `clear-canvas-response`, `correct-answer` and `game-over` beyond `stopTime`, `time-is-up-response`).
