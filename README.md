# Lobby and round engine of a social-deduction game server, in Dafny

The project models a three-player "sheep and wolves" game server and proves
properties of the model. Each connection is a WebSocket.

- **Lobby.** Players join a lobby of at most three. Each player holds one of fifteen character slots. When the lobby fills, a countdown starts.
- **Round.** The server first opens character selection. It then deals one wolf and two sheep. After that it cycles through Day, Sudden Death and Night, with a once-per-second countdown that broadcasts every tick.
- **Broadcast.** Broadcasts reach only OPEN sockets, in roster order.
- **Liveness.** A ping sweep checks that clients are still there.
- **Echo server.** Every frame is echoed to every open client, and a sweep visits every client.
- **Browser clients.** They reconnect after a random wait. The ceiling of that wait doubles per attempt and is capped at 30 s.

## Modules

- **`Wire`** (`wire.dfy`): the observable surface.
  - Per-connection socket records: ready state, `isAlive` flag and ping count.
  - The outbound message datatype.
  - One global, ordered delivery log. Each connection's outbox is its projection `Inbox(log, c)`.
  - `Fanout`: the frames one `broadcast` emits.
  - The decimal rendering of the tick count.
- **`Dealing`** (`dealing.dfy`): `createRoleList`, the swap loop of `shuffleRoles` (the random index of each step is an oracle argument), and the positional deal of `assignRoles` into the two role channels.
- **`LobbyState`** (`lobby_state.dfy`): the whole server state as one value, with one step function per event handler. It also holds the invariant `Inv`:
  - the roster is at most three players;
  - connections and slots are pairwise distinct;
  - the slot flags agree with the roster;
  - every frame went to a known connection;
  - the clock stays within the phase's duration;
  - roles are undealt before the round and dealt during it;
  - the timer agrees with the phase, and a stopped lobby timer holds the full 10 s.
- **`LobbyProps`** and **`RoundProps`** (`lobby_props.dfy`, `round_props.dfy`): the properties of the handlers, proved about the step functions.
- **`Lobby`** (`lobby.dfy`): class `Session`, the server as it runs.
  - `characters` and `Game.roles` are arrays updated in place. The roster, the channels, the clock, the sockets and the log are fields.
  - There is one method per handler and per helper of the source: the slot loop, `broadcast`, `shuffleRoles`, `assignRoles`, `start`, the reveal loop of `cyclePhase`, `countDown` and the ping loop.
  - Each method promises `Abs() == <step function>(old(Abs()), ...)`, so every lemma about the step functions holds of the running object.
- **`EchoServer`** (`echo_server.dfy`): server.js. Class `Server` has the client list, the sockets and the log, plus lemmas on the life of one client across sweep intervals.
- **`Backoff`** (`backoff.dfy`): the doubling-loop and `Math.pow` forms of `generateWaitTime`, their equivalence, and the `connectionAttempts` counter.
  - The counter code is the same in src/app.ts (lines 21, 33, 124) and app.js (lines 4, 13, 83). Class `Reconnector` models both.

Inputs the server cannot know are arguments:
- which frame arrives on which connection;
- when the timer fires;
- the random indices of the shuffle.

## Model

| member | source | states |
|---|---|---|
| `Wire.InboxOfFanout` | src/server.ts:228-234 | a broadcast over a channel without repeats gives each OPEN member exactly one copy and everyone else nothing |
| `Wire.FanoutFrames` | src/server.ts:228-234 | every frame of a broadcast carries the message and goes to an OPEN member of the channel |
| `Wire.FanoutInChannelOrder` | src/server.ts:229-233 | the frames of a broadcast go out in channel order |
| `Wire.InboxAppend` | src/server.ts:228-234 | a connection's outbox after two runs of sends is its outbox of the first followed by that of the second |
| `Wire.DecimalRoundTrip` | src/server.ts:248-251 | the tick text `String(n)` reads back as n |
| `Wire.DecimalInjective` | src/server.ts:248-251 | different counts give different tick texts |
| `Dealing.CreateRoleList` | src/server.ts:106-116 | the loops yield exactly [Wolf, Sheep, Sheep]: one wolf, two sheep |
| `Dealing.SwapAt` | src/server.ts:121-124 | one swap exchanges positions i and j, keeps everything else, and permutes the list |
| `Dealing.Shuffled` | src/server.ts:119-126 | any sequence of in-range indices yields a permutation of the list |
| `Dealing.ShufflePermutes` | src/server.ts:119-126 | every shuffle of the manifest has one wolf, two sheep and no `None` |
| `Dealing.ChannelSize` | src/server.ts:128-144 | a channel receives as many players as the list holds of its role |
| `Dealing.ChannelMembership` | src/server.ts:128-144 | player i is pushed onto a channel if and only if it was dealt that channel's role |
| `Dealing.ChannelDistinct` | src/server.ts:128-144 | a channel holds no player twice |
| `Dealing.DealManifest` | src/server.ts:128-144 | dealing any permutation of the manifest: one wolf, two sheep, every dealt player in its own role's channel and in no other |
| `LobbyState.IndexOf` | src/server.ts:341 | `players.indexOf`: the first position holding the connection, or -1 when there is none |
| `LobbyState.LowestFree` | src/server.ts:52-58 | the slot the `Player` constructor takes is free and every lower slot is taken |
| `LobbyState.ChatBody` | src/server.ts:317-318 | the chat text is the name, ": ", then the first min(len, 300) Unicode scalar values; texts of at most 300 are kept whole |
| `LobbyState.SweepFrom` | src/server.ts:365-371 | the ping loop keeps the socket table's domain |
| `LobbyState.DealtRoster` | src/server.ts:129-131 | dealing changes only roles: each player keeps its connection, name and slot |
| `LobbyState.HeldSlotsSize` | src/server.ts:52-58 | a well-formed roster holds as many distinct slots as it has players |
| `LobbyState.FreeSlotExists` | src/server.ts:52-58 | below capacity, with slots agreeing with the roster, a free slot exists, so the constructor always finds one |
| `LobbyProps.InitialInv` | src/server.ts:40-41 | the state at start-up (all slots free, empty roster, PreGame, 10 s, no timer) satisfies the invariant |
| `LobbyProps.ConnectionRefused` | src/server.ts:264-272 | when the roster is full or the round has begun, the newcomer's outbox is exactly [fullLobby] and its socket is closing; roster, slots, phase, clock, roles, role channels and every other socket are unchanged, and nobody else is sent anything |
| `LobbyProps.ConnectionAdmitted` | src/server.ts:274-283 | an admitted connection joins the end of the roster nameless and role-less, on the lowest free slot, now taken; the connection that fills the lobby starts the timer from the full 10 s and every open member is sent `startCountDown`; roles, role channels and every other socket are unchanged |
| `LobbyProps.ConnectionKeepsInv` | src/server.ts:261-283 | the connection handler keeps the invariant, so the roster never exceeds three and a stopped lobby timer always holds the full 10 s |
| `LobbyProps.JoinEffect` | src/server.ts:288-295 | `join` renames the sender and sends every open member "<name> has joined!"; nothing else changes |
| `LobbyProps.JoinKeepsInv` | src/server.ts:288-295 | `join` keeps the invariant |
| `LobbyProps.SelectionRefused` | src/server.ts:297-298 | selecting a taken or out-of-range slot changes nothing and sends nothing |
| `LobbyProps.SelectionMoves` | src/server.ts:298-313 | selecting a free slot frees the sender's old slot and takes the new one; nothing else but the log changes |
| `LobbyProps.SelectionLog` | src/server.ts:298-313 | selecting a free slot appends the whole `characterDeselection(old)` broadcast to the global log before any frame of the `characterSelection(new)` broadcast, both over the unchanged roster |
| `LobbyProps.SelectionNotifies` | src/server.ts:298-313 | every open member is sent `characterDeselection(old)` and then `characterSelection(new)` |
| `LobbyProps.SelectionKeepsInv` | src/server.ts:296-314 | a selection keeps the invariant: slots stay distinct and agree with the roster |
| `LobbyProps.ChatEffect` | src/server.ts:315-320 | a chat reaches every open member, the sender included, as the sender's name, ": " and at most 300 Unicode scalar values; nothing else changes |
| `LobbyProps.IgnoredMessages` | src/server.ts:321-323 | a message of any other type changes nothing |
| `LobbyProps.MessageKeepsInv` | src/server.ts:285-325 | the message handler keeps the invariant |
| `LobbyProps.TakenSlotsMatchRoster` | src/server.ts:52-58 | under the invariant, the number of taken slots equals the roster size |
| `LobbyProps.DepartLog` | src/server.ts:328-339 | a departure appends the whole `characterDeselection` broadcast to the global log before any frame of the `leave` broadcast, both over the roster with the leaver still in it |
| `LobbyProps.DepartInbox` | src/server.ts:328-339 | a departure adds `characterDeselection` then `leave` to each open member's outbox |
| `LobbyProps.DepartShape` | src/server.ts:328-342 | a departure frees the slot and splices out the player and changes nothing else but the log |
| `LobbyProps.HaltShape` | src/server.ts:344-351 | the countdown is reset to 10 s and stopped exactly when the lobby is in PreGame and below capacity |
| `LobbyProps.HaltInbox` | src/server.ts:344-351 | in that case every open member is sent `stopCountDown`, otherwise nothing |
| `LobbyProps.CloseKeepsInv` | src/server.ts:327-352 | the close handler keeps the invariant |
| `LobbyProps.CloseEvicts` | src/server.ts:327-352 | a member's close frees its slot and removes exactly that player, the others keeping their order; the role channels stay as they are; in PreGame the clock is reset to 10 s and stopped, in other phases the round goes on |
| `LobbyProps.CloseNotifies` | src/server.ts:328-351 | every other open member is sent `characterDeselection`, `leave` and, in PreGame, `stopCountDown`, in that order |
| `LobbyProps.CloseSilencesLeaver` | src/server.ts:328-351 | the closed connection itself is sent nothing |
| `LobbyProps.CloseOfStranger` | src/server.ts:261-272 | the close of a refused connection only marks its socket closed |
| `LobbyProps.PongKeepsInv` | src/server.ts:360-362 | `heartbeat` keeps the invariant |
| `LobbyProps.SweepStopsAtFirstDead` | src/server.ts:364-372 | the members before the first one with a clear flag are probed (flag cleared, one more ping); that member is closed; the members after it are neither probed nor reset |
| `LobbyProps.SweepSparesLive` | src/server.ts:364-372 | the sweep never closes a member whose flag was set |
| `LobbyProps.SweepKeepsInv` | src/server.ts:364-372 | the ping sweep keeps the invariant |
| `RoundProps.StartShape` | src/server.ts:84-104 | `start` changes only the roles, the roster's roles, the channels and the log |
| `RoundProps.DealtRosterDealt` | src/server.ts:128-144 | after dealing, each player has the role at its position and belongs to its role's channel only |
| `RoundProps.StartDeals` | src/server.ts:84-144 | on a full, undealt roster, `start` deals a permutation of the manifest: one wolf, two sheep, each player in exactly its own role's channel |
| `RoundProps.StartNotifies` | src/server.ts:84-104 | each open member is sent `gameStart` and then the sheep or wolf text of the role dealt at its position, and nobody else is sent anything; with `StartDeals`, one member hears the wolf text and two the sheep text |
| `RoundProps.StartKeepsSlots` | src/server.ts:84-104 | `start` keeps slots and connections well formed |
| `RoundProps.OpenSelectionShape` | src/server.ts:151-167 | leaving PreGame enters CharacterSelection with 30 s and changes nothing else but the log |
| `RoundProps.OpenSelectionNotifies` | src/server.ts:151-167 | each open member is sent `showCharacters`, then a list satisfying `ListsTaken`: one `characterSelection` for each taken slot, in increasing slot order, and no other; nobody else is sent anything |
| `RoundProps.RevealInbox` | src/server.ts:157-165 | the replay loop sends each open member exactly the taken slots in increasing order, and everyone else nothing |
| `RoundProps.RevealFrames` | src/server.ts:157-165 | the replayed selections go only to open members of the roster |
| `RoundProps.EnterKeepsCore` | src/server.ts:150-216 | each phase transition keeps the invariant's core and never returns to PreGame |
| `RoundProps.CyclePhaseKeepsInv` | src/server.ts:146-222 | `cyclePhase` restores the invariant with the timer running |
| `RoundProps.EnterEffect` | src/server.ts:150-216 | the phase follows PreGame, CharacterSelection, Day, SuddenDeath, Night, Day; each gets its duration (30, 7, 15, 25, 7); PostGame keeps its phase and time; roles are dealt on the CharacterSelection step only; the roster's connections, the slots and the sockets stay |
| `RoundProps.CyclePhaseEndsWithStart` | src/server.ts:217-221 | every call ends with the timer running, and `startCountDown` is the last frame each open member receives |
| `RoundProps.CountDownWithTimeLeft` | src/server.ts:248-253 | with time left, `countDown` sends `tick "n"` to every open member, decrements, and changes nothing else |
| `RoundProps.CountDownAtZero` | src/server.ts:239-247 | at zero, `countDown` moves to the next phase with the timer running again, gives that phase its full duration (PostGame keeps its time), and keeps the roster and sockets |
| `RoundProps.AnnounceInbox` | src/server.ts:178-204 | entering Day, SuddenDeath or Night appends exactly one `phaseAnnouncement(text)` to each open member's outbox and nothing to anyone else's |
| `RoundProps.DealAndDayInbox` | src/server.ts:168-177 | the end of character selection appends exactly `gameStart`, the member's role text and the Day announcement, in that order, to each open member's outbox and nothing to anyone else's |
| `RoundProps.GameOverInbox` | src/server.ts:205-212 | in PostGame, exactly one `phaseAnnouncement("The game is over")` to each open member and nothing to anyone else |
| `RoundProps.EnterInbox` | src/server.ts:150-216 | each phase transition appends exactly its notice (`EntryNotice`) to every open member's outbox and nothing to anyone else's: leaving PreGame, `showCharacters` then the taken slots in increasing order; leaving CharacterSelection, `gameStart`, the member's role text and the Day announcement; otherwise the next phase's announcement, or the game-over text after PostGame |
| `RoundProps.CountDownAtZeroNotifies` | src/server.ts:239-247 | at zero, each open member's outbox becomes old + `stopCountDown` + the next phase's exact notice (`EntryNotice`) + `startCountDown`; nobody else is sent anything |
| `RoundProps.CountDownKeepsInv` | src/server.ts:238-254 | `countDown` keeps the invariant, so the clock never goes negative |
| `RoundProps.TickTextsCount` | src/server.ts:248-251 | the i-th tick of a countdown from t shows t - i |
| `RoundProps.CountdownKeepsInv` | src/server.ts:248-253 | any number of ticks keeps the invariant |
| `RoundProps.CountdownTicks` | src/server.ts:248-253 | n ticks from t send each open member `tick` t, t-1, ..., t-n+1 and nothing else |
| `RoundProps.PhaseRunsItsCourse` | src/server.ts:238-254 | a phase of duration d sends every open member ticks d, ..., 1; the clock reaches 0 without going below it; the next call moves to the next phase |
| `RoundProps.DepartureDuringSelection` | src/server.ts:327-352 | a departure during character selection leaves two players, the countdown running, and a deal that cannot be carried out when selection ends |
| `Lobby.Session.constructor` | src/server.ts:40-82 | the object starts in the initial state, which satisfies the invariant |
| `Lobby.Session.Broadcast` | src/server.ts:228-234 | the loop appends exactly the frames of `Fanout` |
| `Lobby.Session.ClaimLowestFree` | src/server.ts:52-58 | the loop returns the lowest free slot and marks only that slot taken |
| `Lobby.Session.OnConnection` | src/server.ts:261-283 | the connection handler, equal to `ConnectionStep` |
| `Lobby.Session.Join` | src/server.ts:288-295 | the `join` case, equal to `JoinStep` |
| `Lobby.Session.SelectCharacter` | src/server.ts:296-314 | the `characterSelection` case on the array, equal to `SelectionStep` |
| `Lobby.Session.Chat` | src/server.ts:315-320 | the `chat` case, equal to `ChatStep` |
| `Lobby.Session.OnMessage` | src/server.ts:285-325 | the message handler, equal to `MessageStep` |
| `Lobby.Session.Depart` | src/server.ts:328-342 | the departure part of the close handler, equal to `Depart` |
| `Lobby.Session.HaltLobbyCountdown` | src/server.ts:344-351 | the cancellation part of the close handler |
| `Lobby.Session.OnClose` | src/server.ts:327-352 | the close handler, equal to `CloseStep` |
| `Lobby.Session.OnPong` | src/server.ts:360-362 | `heartbeat`, equal to `PongStep` |
| `Lobby.Session.PingSweep` | src/server.ts:364-372 | the ping loop with its early return, equal to `SweepStep` |
| `Lobby.Session.ShuffleRoles` | src/server.ts:119-126 | the in-place swap loop leaves the array equal to `Shuffled` of its old contents |
| `Lobby.Session.AssignRoles` | src/server.ts:128-144 | the loop gives the roster `DealtRoster` and appends `Channel` to each role channel, leaving the rest alone |
| `Lobby.Session.Start` | src/server.ts:84-104 | `Game.start`, equal to `StartStep` |
| `Lobby.Session.OpenSelection` | src/server.ts:151-167 | the PreGame case with its reveal loop, equal to `OpenSelection` |
| `Lobby.Session.Announce` | src/server.ts:168-204 | entering a timed phase with its announcement and duration |
| `Lobby.Session.EnterNextPhase` | src/server.ts:150-216 | the switch of `cyclePhase` |
| `Lobby.Session.CyclePhase` | src/server.ts:146-222 | `cyclePhase`, equal to `CyclePhaseStep` |
| `Lobby.Session.CountDown` | src/server.ts:238-254 | `countDown`, equal to `CountDownStep` |
| `EchoServer.SweepClearsFlag` | server.js:30-36 | after its visit no client is marked alive, and its state is unchanged or terminated |
| `EchoServer.AnsweringClientSurvives` | server.js:5-7 | a client that answers every ping stays open and is pinged once per interval |
| `EchoServer.MissedIntervalTerminates` | server.js:29-37 | a client that lets an interval pass without answering is terminated by the sweep that ends it |
| `EchoServer.TerminatedStaysClosed` | server.js:5-7 | a terminated client stays terminated whatever it answers later |
| `EchoServer.Server.OnConnection` | server.js:17-19 | a new connection joins the client list, open and alive |
| `EchoServer.Server.OnPong` | server.js:5-7 | a pong sets the flag again |
| `EchoServer.Server.Broadcast` | server.js:9-15 | the loop sends the frame to every OPEN client, in order |
| `EchoServer.Server.OnMessage` | server.js:20-26 | a frame is echoed unchanged to every open client, the sender included, and to nobody else |
| `EchoServer.Server.Sweep` | server.js:29-37 | every client is visited: those with a clear flag are terminated, the others are probed, and no other socket changes |
| `Backoff.GenerateWaitTime` | src/app.ts:141-154 | the doubling loop plus clamp equals the `Math.pow` ceiling of app.js for every k >= 0; a negative k gives 0; the result lies in 0..30000 ms |
| `Backoff.Pow2Monotone` | app.js:102 | powers of two grow with the exponent |
| `Backoff.CeilingMonotone` | app.js:101-108 | the ceiling never shrinks with more attempts |
| `Backoff.CeilingStrictlyIncreasing` | app.js:101-108 | the ceiling strictly increases from attempt 0 to attempt 5 |
| `Backoff.CeilingFirstValues` | src/app.ts:144-151 | the ceiling is 0 ms for k = 0 and 1000 ms for k = 1 |
| `Backoff.CeilingSaturates` | app.js:101-108 | from k = 5 on, the ceiling is the 30000 ms cap |
| `Backoff.Reconnector.constructor` | src/app.ts:21 | `connectionAttempts` starts at 1 |
| `Backoff.Reconnector.OnOpen` | src/app.ts:32-33 | an open resets it to 1 |
| `Backoff.Reconnector.OnClose` | src/app.ts:122 | a close computes the ceiling for the current count, which lies between 1000 and 30000 ms |
| `Backoff.Reconnector.OnRetry` | src/app.ts:123-124 | each reconnect adds one, so the count is always at least 1 |

## Left out

- Transport. The `ws` library is reduced to one record per socket: its ready state, its `isAlive` flag and its ping count.
  - Sends append to the global log.
  - `close()` moves an OPEN socket to CLOSING. The close event marks it CLOSED. `terminate()` marks it CLOSED. Port binding, the `error` handler and the close handshake are not modelled.
- JSON. Inbound frames arrive already parsed, one variant per `type`; outbound frames are a datatype.
  - Frames that `JSON.parse` rejects, and frames whose fields have other JSON types than the handlers expect, are outside the model. Some of these make the source throw. Others are coerced: a numeric `username` is joined into the text, and a string `index` selects that slot and is echoed as a string.
  - The chat handler re-broadcasts the parsed object with any extra fields the client sent. The model keeps only `type` and `message`.
- Timers. `setInterval`/`clearInterval` become the `ticking` flag, and each firing of the timer is one explicit call. No wall-clock time is modelled.
- Randomness. `Math.random` in `shuffleRoles` becomes the oracle sequence `js`. Only the permutation property is claimed. The shuffle swaps with any position, so its distribution is not uniform.
  - The random factor `Math.random() * waitTime` of the clients is left out: `GenerateWaitTime` returns the ceiling of the wait.
- `LobbyState.CountDownStep`, `Lobby.Session.CountDown`: require `CanDeal`, which says that when character selection runs out the roster still has a player for each of the three roles.
  - This is the only case the model does not cover. After a departure during character selection, `assignRoles` reads `players[2]`, which does not exist, and throws.
  - `RoundProps.DepartureDuringSelection` shows that this state is reachable from the invariant.
- `LobbyState.PongStep`: handles pongs from roster members only. In the source the pong listener stays on a player's socket after the player leaves. That socket is closed, so the difference cannot be seen.
- `EchoServer.Server`: has no event for a client that closes its own connection. Only the sweep's `terminate` ends an open socket.
  - A terminated client stays in the client list. The `ws` library would delete it from `serv.clients` on its close event. It is never sent a frame, because it is not OPEN, and a later sweep terminates it again, which changes nothing.
- `Backoff.PowCeiling`: takes k >= 0. app.js is only called with `connectionAttempts`, which is at least 1, and for negative k `Math.pow` gives a fraction.
  - Double-precision arithmetic is not modelled. Up to k = 46 the doubles are exact: (2^k - 1) * 125 is below 2^53, and the remaining factor 8 of 1000 is a power of two.
  - From k = 47 the product rounds, because its odd part needs more than 53 bits, and from k = 54 even 2^k - 1 rounds to 2^k. The product overflows to Infinity from k = 1015, and 2^k itself from k = 1024.
  - Every such value is far above 30000, and so is Infinity, so the clamp gives 30000. The integer model also gives 30000 for every k >= 5, so the two agree on the ceilings.
- `LobbyState.ChatBody`, `LobbyProps.ChatEffect`: truncate the chat text to 300 Unicode scalar values. `substring(0, 300)` in src/server.ts counts UTF-16 code units.
  - Text outside the Basic Multilingual Plane, such as an emoji, is one value here and two code units in the source. A chat of 200 emoji keeps 150 of them in the source and all 200 in the model.
  - The source can also cut a surrogate pair in half, which a Dafny string cannot express.
- Client code. The close-code lookup tables, `Player.sendMessage`, the DOM and console logging of src/app.ts and app.js are not modelled. src/game.ts is not part of this model.
