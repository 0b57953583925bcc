# Codenames room server, modelled in Dafny

This project models the game engine of a multiplayer Codenames server. A
registry holds rooms under six-character codes. Each room has:

- a roster of connections (players), each with a team and a role;
- the game state of one board: 25 word cards, scores, timers, per-team clue
  lists and a winner;
- lifecycle flags: started, paused, and whether the timer loop is running.

Socket events arrive one at a time, and each handler checks its guards and
then updates the room in place.

Modules (one file each):

- `types.dfy` (`Types`): the records of the server (player, card, clue,
  settings, the game state) and the per-team pairs `scores`, `timers` and
  `clueHistory`.
- `board.dfy` (`Board`): `generateBoard` as a function. The lemma
  `GenerateBoardSpec` gives the size of the board, the colours and the
  initial scores, turn, phase, timers and clue lists. Other lemmas give the
  exact colour counts of a full board and show that no word is repeated.
- `room_ids.dfy` (`RoomIds`): `generateRoomId` as a loop over six random draws,
  plus the ASCII upper-casing of a typed code.
- `roster.dfy` (`Roster`): the `find`/`findIndex`/`splice` operations the
  handlers apply to the player list and the clue lists, as functions with
  contracts. It also has a reference definition of a connection leaving a
  room, proved equal to the `splice` the handler does.
- `turns.dfy` (`Turns`): the turn state machine on game-state values:
  - the functions `switchTurn`, the effect of an accepted reveal, the
    clue-to-guess step of `endTurn`, and one timer tick;
  - the invariant `Consistent` that all of these keep (each score is its
    initial value minus the revealed cards of its colour; the clue phase has
    both timers at 0; the guess phase has the other team's timer at 0; a
    winner exists exactly when a score reached 0 or the assassin was
    revealed);
  - `Monotone`: revealed cards stay revealed, the first-turn flag only goes
    from true to false, and a winner stays once set;
  - lemmas about sequences of ticks.
- `rooms.dfy` (`Rooms`): the class `Room`. It holds the fields the handlers
  update, and each per-room handler is a method. Its `ensures` tie the new
  state to the functions of `Turns`/`Roster`, and `Valid()` is preserved:
  the game is `Consistent`, the timer runs exactly while the game is
  started, and no connection is listed twice in the roster.
- `registry.dfy` (`Registry`): the class `RoomRegistry`, holding the `rooms`
  map, with the `createRoom`, `joinRoom` and `disconnect` handlers.

Randomness becomes parameters:

- the sorted-by-random-comparator copies of the word list and of the colour
  list become any reorderings (multiset-equal sequences);
- the starting team becomes a parameter;
- the six `Math.random()` draws of a room code become reals in [0, 1);
- the traitor draw becomes an index into the eligible players.

`Date.now()` gives a clue its id and timestamp; both become parameters.

Behaviour of `server.js` worth knowing:

- The room-code alphabet has 32 symbols: the letters without I and O, and
  the digits 2-9.
- A generated code that collides with an existing room is dropped with no
  reply, and no other code is drawn.
- A language with fewer than 25 words yields a smaller board. It is not an
  error, and the scores still start at 9 and 8.
- `endTurn` does not check for a winner, so a won game can still pass turns
  and start guess timers.
- The timer tick switches the turn on the tick after the timer reaches 0.
  A timer set to V switches on tick V + 1.
- `startGame` has no guard: it restarts the timer loop, even in a started
  or won game.

## Model

| member | source | states |
|---|---|---|
| `Board.GenerateBoardSpec` | server.js:50-97 | The board has min(25, number of words of the language) cards. Card i is unrevealed, has index i, and carries the i-th shuffled word (a catalog word of that language) and the i-th shuffled colour. The colours used come from the pool. Starting and current team are the drawn team, in the clue phase, with the first-turn flag set and no winner. Scores start at 9 for the starting team and 8 for the other. Both timers are 0 and both clue lists are empty. |
| `Board.PoolCounts` | server.js:62-67 | The colour pool has 25 entries: 1 black, 9 of the starting team, 8 of the other team, 7 neutral. |
| `Board.PoolTeamCount` | server.js:62-85 | Each team's colour occurs in the pool as often as that team's initial score. |
| `Board.RepeatCount` | server.js:64-66 | `Array(n).fill(x)` holds x exactly n times and nothing else. |
| `Board.LanguageWords` | server.js:52 | The filtered list holds exactly the catalog entries of the requested language, each as often as the catalog holds it, so its length is the number of such entries. It is no longer than the catalog. |
| `Board.Deal` | server.js:72-77 | One card per selected word, in order: word i gets colour i, is unrevealed, and has index i. The cards use no colour more often than the colour list holds it. |
| `Board.ShuffledFromLanguage` | server.js:52-56 | Every word of the shuffled list is a catalog entry of the requested language. |
| `Board.FullBoardColours` | server.js:54-77 | With at least 25 words in the language, the board has exactly 25 cards, of which 1 is black, 9 belong to the starting team, 8 to the other team and 7 are neutral. |
| `Board.BoardWordsDistinct` | server.js:55-77 | If the language's catalog entries have distinct words, no word appears twice on the board. |
| `RoomIds.AlphabetUnambiguous` | server.js:42 | The alphabet has 32 symbols, all upper-case letters or digits, none of them I, O, 0 or 1. |
| `RoomIds.Pick` | server.js:45 | `Math.floor(Math.random() * 32)` is a valid position in the alphabet. |
| `RoomIds.IdShape` | server.js:41-48 | A code built from six draws has length 6, and every character is an unambiguous alphabet symbol. |
| `RoomIds.GenerateRoomId` | server.js:41-48 | The loop returns a 6-character code of alphabet symbols, one per draw, in order. |
| `RoomIds.Upper` | server.js:104 | Upper-casing keeps the length and turns each letter a-z into the same letter A-Z. Every other character is kept. |
| `RoomIds.UpperIdempotent` | server.js:104 | Upper-casing an upper-cased code changes nothing. |
| `RoomIds.GeneratedIdIsUpper` | server.js:104 | A generated code is already upper case. |
| `Roster.FindIndex` | server.js:374 | `findIndex` returns the first position satisfying the predicate, or none if no position does. |
| `Roster.RemoveAt` | server.js:376 | `splice(i, 1)` removes exactly element i and keeps the others in order. |
| `Roster.PlayerIndex` | server.js:374 | The position of the first player with the connection's id, or none if the connection is not in the room. |
| `Roster.FindPlayer` | server.js:162 | `find` yields a player exactly when the connection is in the room, and then the first player with that id. |
| `Roster.WithoutIsSplice` | server.js:374-376 | The recursive definition of leaving equals `splice` at the `findIndex` of the connection, and leaves the roster unchanged when the connection is absent. |
| `Roster.WithoutEffect` | server.js:374-376 | An absent connection leaves the roster unchanged, and a present one shortens it by exactly one. |
| `Roster.WithoutShrinks` | server.js:374-376 | Leaving adds nobody: the new roster is a sub-multiset of the old one. |
| `Roster.WithoutKeepsUnique` | server.js:374-376 | Leaving keeps the connection ids of a roster distinct. |
| `Roster.LeaveRemovesPlayer` | server.js:373-378 | A connection listed at most once is no longer in the room after it leaves. |
| `Roster.TeamPlayers` | server.js:276 | The traitor candidates are exactly the players on the blue or red team. |
| `Roster.ClueIndex` | server.js:228 | The position of the first clue with the id, or none if no clue has it. |
| `Roster.EditedClues` | server.js:213-216 | Only the text of the first clue with the id changes. Ids, timestamps, order and every other clue are kept, and an unknown id changes nothing. |
| `Roster.DeletedClues` | server.js:227-230 | Exactly the first clue with the id is removed and the rest keep their order. An unknown id changes nothing. |
| `Turns.RevealedOfUpdate` | server.js:318-321 | Revealing one card adds one to the revealed count of its colour and changes no other colour's count. |
| `Turns.GeneratedBoardConsistent` | server.js:71-96 | A freshly generated game state satisfies the room invariant. |
| `Turns.MonotoneTransitive` | server.js:303-417 | Moving forward is transitive: cards stay revealed, the first-turn flag stays off, and the winner stays. |
| `Turns.SwitchTurnEffect` | server.js:386-398 | The other team gets the turn, in the clue phase, with both timers 0. The first-turn flag survives only if the turn goes back to the starting team. Cards, scores, winner and clues are unchanged, and the invariant holds. |
| `Turns.FirstTurnEndsAfterTwoSwitches` | server.js:395-397 | After both teams have had a turn, the first-turn flag is off and the starting team plays again. |
| `Turns.BeginGuessEffect` | server.js:355-358 | Ending a clue phase starts the guess phase for the same team. Its timer is 120 on the first guess turn and 60 otherwise, and the other timer stays 0. |
| `Turns.RevealEffect` | server.js:318-336 | The chosen card is revealed and no other card changes. Only the score of the card's own colour drops, by one. The assassin makes the other team win. Otherwise blue at 0 wins, then red at 0. A wrong card with no winner passes the turn, and a right card keeps team, phase, timers and first-turn flag. |
| `Turns.RevealKeepsConsistent` | server.js:318-336 | An accepted reveal keeps the invariant and moves the game forward. |
| `Turns.TickKeepsConsistent` | server.js:404-417 | A tick keeps the invariant and moves the game forward. |
| `Turns.TickInert` | server.js:404-407 | A tick does nothing in the clue phase or once there is a winner. |
| `Turns.CountDown` | server.js:409-411 | In a guess phase with no winner, k ticks (k at most the timer) only lower the current team's timer by k. |
| `Turns.TimerExpiry` | server.js:407-416 | A timer at V reaches 0 after V ticks without a turn change, and the turn switches on tick V + 1. |
| `Rooms.Room.constructor` | server.js:119-137 | The new room holds the generated board and the settings. Its only player is the creator, a spectator named Host with the host flag. There is no traitor, and it is not started, paused or timed. |
| `Rooms.Room.Join` | server.js:161-173 | A connection already in the room only has its name changed, and the roster does not grow. A new connection is appended as a non-host spectator. |
| `Rooms.Room.Leave` | server.js:374-376 | The roster becomes the reference definition of the connection leaving. A roster with distinct ids keeps them distinct and no longer lists the connection. |
| `Rooms.Room.SubmitClue` | server.js:189-205 | With a non-empty text from a spymaster of the current team, exactly one clue is appended to that team's list. Otherwise nothing changes. |
| `Rooms.Room.EditClue` | server.js:207-219 | With a non-empty text from a spymaster, that spymaster's team list becomes the edited list and nothing else changes. Otherwise nothing changes. |
| `Rooms.Room.DeleteClue` | server.js:221-233 | From a spymaster, that spymaster's team list loses its first clue with the id. Otherwise nothing changes. |
| `Rooms.Room.UpdateSettings` | server.js:236-243 | Anyone can replace the settings. |
| `Rooms.Room.StartGame` | server.js:245-253 | The room is started and unpaused, and its timer loop runs. |
| `Rooms.Room.PauseGame` | server.js:255-261 | The pause flag is toggled. |
| `Rooms.Room.ResetGame` | server.js:263-289 | The game is a fresh board, not started or paused, with the timer stopped. With traitor mode and at least six players, the traitor is the drawn team player, or stays as it was if nobody is on a team. Otherwise the traitor is cleared. |
| `Rooms.Room.DrawTraitor` | server.js:275-285 | With traitor mode and at least six players, the traitor is the drawn team player, or stays as it was if nobody is on a team. Otherwise the traitor is cleared. |
| `Rooms.Room.SwitchTeam` | server.js:291-301 | The caller's entry takes the given team and role, and an unknown caller changes nothing. |
| `Rooms.Room.SwitchTurn` | server.js:386-398 | The room's game becomes the switched-turn state. |
| `Rooms.Room.RevealCard` | server.js:303-340 | The game becomes the reveal of the card exactly when every guard holds: no winner, started, unpaused, guess phase, an unrevealed card, and an operative of the current team. Otherwise it is unchanged. The invariant is kept and the game only moves forward. |
| `Rooms.Room.ApplyReveal` | server.js:318-336 | The step-by-step updates of an accepted reveal give the reveal of the card. |
| `Rooms.Room.EndTurn` | server.js:342-369 | The method does nothing unless the game is started and unpaused. In the clue phase, a spymaster of the current team starts the guess phase. In the guess phase, any member of the current team switches the turn. The winner is not checked. The invariant is kept. |
| `Rooms.Room.Tick` | server.js:403-417 | In a started, unpaused room the game takes one timer tick. Otherwise it is unchanged. The invariant is kept. |
| `Registry.RoomRegistry.constructor` | server.js:39 | The registry starts empty. |
| `Registry.RoomRegistry.CreateRoom` | server.js:102-149 | A taken typed code is answered with an error and a taken generated code with no reply, both leaving the registry unchanged. Otherwise exactly one fresh room is filed under the code, holding the new board and the creator as the only player, a host spectator. |
| `Registry.RoomRegistry.JoinRoom` | server.js:151-186 | An unknown code is answered with an error and changes nothing. Otherwise the code's room gets the join and every other room is untouched. Only rosters can change. |
| `Registry.RoomRegistry.Disconnect` | server.js:371-384 | The connection leaves every room, and exactly the rooms left empty are removed from the registry. No remaining room lists the connection. Only rosters change, and every remaining room stays valid. |
| `Registry.RoomRegistry.AddRoom` | server.js:119-137 | A free code gets one fresh room holding the board and the settings, with the creator as the only player, a host spectator. Every other room stays filed as it was. |
| `Registry.RoomRegistry.LeaveAll` | server.js:373-383 | Every room loses the connection, then exactly the non-empty rooms are kept. |
| `Registry.LeaveEach` | server.js:373-377 | The loop over the rooms gives every room the roster without the connection. |

## Left out

- Express, Socket.IO, CORS and `server.listen` (server.js:1-18, 422-425): transport, not game logic.
- Every `emit` broadcast. Handlers return a `Reply` only where the caller gets an answer or an error.
- Loading the word files (server.js:20-36): the catalog is a parameter of the registry.
- `Math.random`: the two shuffles, the starting team, the code characters and the traitor draw are parameters. The bias of `sort(() => 0.5 - Math.random())` is not modelled; any reordering is allowed.
- `Date.now()`: the clue id and timestamp are parameters of `SubmitClue`.
- `setInterval`/`clearInterval` scheduling: the interval handle is the flag `timerActive`, and one firing of the callback is `Tick`. Timing and interleaving are not modelled. Clearing the interval of a deleted room is modelled by removing the room from the registry.
- `console.log`, and the `log: []` field of the game state, which nothing reads.
- The `rooms.get(roomId)` lookup at the top of the per-room handlers: a missing room makes them do nothing, and a found room gets the `Room` method.
- Team and role are enumerations. The source stores whatever strings the client sends, and the spectator role is called `Watcher` here.
- Upper-casing covers only the ASCII letters a-z. JavaScript `toUpperCase` is Unicode-wide.
- The `rooms.forEach` loop visits rooms in insertion order. `Registry.LeaveEach` visits them in any order, which gives the same result because each room's step touches only that room.
- `Rooms.Room.RevealCard`: the card index must be on the board once the guards before the lookup pass. The source reads `cards[cardIndex]` unchecked, and an off-board index throws, which the model excludes.
- `Rooms.Room.EditClue`: a spymaster sending a non-empty text must be on a team. The source reads the clue list of the player's team, which does not exist for a spectator, and the handler would throw.
- `Rooms.Room.DeleteClue`: a spymaster must be on a team, for the same reason as `EditClue`.
- public/client.js is not part of this model: it is browser rendering and input.
