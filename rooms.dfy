/**
 * One room of the server: its roster, its game state and its lifecycle
 * flags, updated in place by the socket handlers. Each method is the body of
 * one handler after the room has been looked up by id; `Tick` is the body of
 * the room's interval callback. `timerActive` stands for the interval handle.
 */
module Rooms {
  import opened Types
  import opened Board
  import opened Turns
  import opened Roster

  /** The reveal guards that come before the card lookup (server.js:305-309). */
  predicate RevealReachesCard(g: GameState, started: bool, paused: bool) {
    g.winner == None && started && !paused && g.phase == GuessPhase
  }

  /**
   * Every guard of `revealCard` holds (server.js:305-316): no winner yet, the
   * game started and unpaused, the guess phase, an unrevealed card, and an
   * operative of the current team asking.
   */
  predicate RevealAccepted(g: GameState, started: bool, paused: bool, players: seq<Player>, sid: string, i: int) {
    RevealReachesCard(g, started, paused) && 0 <= i < |g.cards| && !g.cards[i].revealed &&
    Acts(players, sid, g.currentTeam, Operative)
  }

  /** The guards of `submitClue` (server.js:191-193). */
  predicate ClueAccepted(g: GameState, players: seq<Player>, sid: string, word: string) {
    word != "" && Acts(players, sid, g.currentTeam, Spymaster)
  }

  /** The team whose clue list a spymaster edits; the roster puts the spymaster on a team. */
  function SpymasterTeam(players: seq<Player>, sid: string): Team
    requires ActsAsSpymaster(players, sid) && FindPlayer(players, sid).value.side.On?
  {
    FindPlayer(players, sid).value.side.team
  }

  class Room {
    const id: string
    var players: seq<Player>
    var game: GameState
    var settings: Settings
    var traitor: Option<string>
    var gameStarted: bool
    var isPaused: bool
    var timerActive: bool

    /** The game is consistent, the timer runs exactly while the game is started, and no connection is listed twice. */
    ghost predicate Valid()
      reads this
    {
      Consistent(game) && (timerActive <==> gameStarted) && UniqueIds(players)
    }

    /** The room `createRoom` registers, with its creator as host (server.js:117-137). */
    constructor (id: string, settings: Settings, game: GameState, host: string)
      requires Consistent(game)
      ensures Valid()
      ensures this.id == id && this.settings == settings && this.game == game
      ensures players == [Player(host, "Host", Spectator, Watcher, true)]
      ensures traitor == None && !gameStarted && !isPaused && !timerActive
    {
      this.id := id;
      this.settings := settings;
      this.game := game;
      players := [Player(host, "Host", Spectator, Watcher, true)];
      traitor := None;
      gameStarted := false;
      isPaused := false;
      timerActive := false;
    }

    /**
     * `joinRoom` once the room is found (server.js:161-173): a connection
     * already in the room is renamed, any other is added as a spectator.
     */
    method Join(sid: string, name: string)
      requires Valid()
      modifies this`players
      ensures Valid()
      ensures match PlayerIndex(old(players), sid)
        case Some(i) => players == old(players)[i := old(players)[i].(name := name)]
        case None => players == old(players) + [Player(sid, name, Spectator, Watcher, false)]
    {
      var index := PlayerIndex(players, sid);
      if index.None? {
        players := players + [Player(sid, name, Spectator, Watcher, false)];
      } else {
        var i := index.value;
        players := players[i := players[i].(name := name)];
      }
    }

    /** The roster part of `disconnect` (server.js:374-376). */
    method Leave(sid: string)
      modifies this`players
      ensures players == Without(old(players), sid)
      ensures UniqueIds(old(players)) ==> UniqueIds(players) && FindPlayer(players, sid).None?
    {
      if UniqueIds(players) {
        WithoutKeepsUnique(players, sid);
        LeaveRemovesPlayer(players, sid);
      }
      WithoutIsSplice(players, sid);
      var index := PlayerIndex(players, sid);
      if index.Some? {
        players := RemoveAt(players, index.value);
      }
    }

    /**
     * `submitClue` (server.js:189-205): a spymaster of the current team
     * appends a clue with a non-empty text to that team's list.
     */
    method SubmitClue(sid: string, word: string, clueId: string, now: int)
      requires Valid()
      modifies this`game
      ensures Valid()
      ensures var t := old(game).currentTeam;
        if ClueAccepted(old(game), players, sid, word) then
          game == old(game).(clueHistory := old(game).clueHistory.Set(t, old(game).clueHistory.Get(t) + [Clue(clueId, word, now)]))
        else game == old(game)
    {
      if word == "" {
        return;
      }
      var actor := FindPlayer(players, sid);
      if actor.None? || actor.value.role != Spymaster || actor.value.side != On(game.currentTeam) {
        return;
      }
      var team := actor.value.side.team;
      var clue := Clue(clueId, word, now);
      game := game.(clueHistory := game.clueHistory.Set(team, game.clueHistory.Get(team) + [clue]));
    }

    /**
     * `editClue` (server.js:207-219): a spymaster changes the text of the
     * first clue with that id in its own team's list. The source reads the
     * list of the spymaster's team without a check (a spectator has none, and
     * the handler would throw), so a spymaster must be on a team.
     */
    method EditClue(sid: string, clueId: string, newText: string)
      requires Valid()
      requires newText != "" && ActsAsSpymaster(players, sid) ==> FindPlayer(players, sid).value.side.On?
      modifies this`game
      ensures Valid()
      ensures if newText != "" && ActsAsSpymaster(players, sid) then
          var t := SpymasterTeam(players, sid);
          game == old(game).(clueHistory := old(game).clueHistory.Set(t, EditedClues(old(game).clueHistory.Get(t), clueId, newText)))
        else game == old(game)
    {
      if newText == "" {
        return;
      }
      var actor := FindPlayer(players, sid);
      if actor.None? || actor.value.role != Spymaster {
        return;
      }
      var team := actor.value.side.team;
      var teamClues := game.clueHistory.Get(team);
      var index := ClueIndex(teamClues, clueId);
      if index.Some? {
        var i := index.value;
        game := game.(clueHistory := game.clueHistory.Set(team, teamClues[i := teamClues[i].(text := newText)]));
      }
    }

    /**
     * `deleteClue` (server.js:221-233): a spymaster removes the first clue
     * with that id from its own team's list; as for `editClue`, a spymaster
     * must be on a team.
     */
    method DeleteClue(sid: string, clueId: string)
      requires Valid()
      requires ActsAsSpymaster(players, sid) ==> FindPlayer(players, sid).value.side.On?
      modifies this`game
      ensures Valid()
      ensures if ActsAsSpymaster(players, sid) then
          var t := SpymasterTeam(players, sid);
          game == old(game).(clueHistory := old(game).clueHistory.Set(t, DeletedClues(old(game).clueHistory.Get(t), clueId)))
        else game == old(game)
    {
      var actor := FindPlayer(players, sid);
      if actor.None? || actor.value.role != Spymaster {
        return;
      }
      var team := actor.value.side.team;
      var teamClues := game.clueHistory.Get(team);
      var index := ClueIndex(teamClues, clueId);
      if index.Some? {
        game := game.(clueHistory := game.clueHistory.Set(team, RemoveAt(teamClues, index.value)));
      }
    }

    /** `updateSettings` (server.js:236-243): any connection may replace the settings. */
    method UpdateSettings(s: Settings)
      requires Valid()
      modifies this`settings
      ensures Valid()
      ensures settings == s
    {
      settings := s;
    }

    /** `startGame` (server.js:245-253): started, unpaused, timer loop (re)started. */
    method StartGame()
      requires Valid()
      modifies this`gameStarted, this`isPaused, this`timerActive
      ensures Valid()
      ensures gameStarted && !isPaused && timerActive
    {
      gameStarted := true;
      isPaused := false;
      timerActive := true;
    }

    /** `pauseGame` (server.js:255-261): toggles the pause flag, started or not. */
    method PauseGame()
      requires Valid()
      modifies this`isPaused
      ensures Valid()
      ensures isPaused == !old(isPaused)
    {
      isPaused := !isPaused;
    }

    /**
     * `resetGame` (server.js:263-289): a new board for the current language,
     * the room back to not started and unpaused with its timer stopped, and
     * the traitor drawn among the team players when traitor mode is on and
     * the room has at least six players. `pick` is the random draw among the
     * eligible players. When traitor mode applies but nobody is on a team
     * the previous traitor is kept, as in the source.
     */
    method ResetGame(catalog: seq<WordEntry>, shuffled: seq<WordEntry>, colours: seq<CardType>,
                     start: Team, pick: nat)
      requires Valid()
      requires IsShuffleOf(shuffled, LanguageWords(catalog, settings.gameLanguage))
      requires IsShuffleOf(colours, ColourPool(start))
      requires settings.traitorMode && |players| >= 6 && |TeamPlayers(players)| > 0 ==>
        pick < |TeamPlayers(players)|
      modifies this`game, this`gameStarted, this`isPaused, this`timerActive, this`traitor
      ensures Valid()
      ensures game == GenerateBoard(catalog, settings.gameLanguage, shuffled, colours, start)
      ensures !gameStarted && !isPaused && !timerActive
      ensures traitor ==
        if settings.traitorMode && |players| >= 6 then
          (if |TeamPlayers(players)| > 0 then Some(TeamPlayers(players)[pick].id) else old(traitor))
        else None
    {
      var board := GenerateBoard(catalog, settings.gameLanguage, shuffled, colours, start);
      GeneratedBoardConsistent(catalog, settings.gameLanguage, shuffled, colours, start);
      gameStarted := false;
      game := board;
      isPaused := false;
      timerActive := false;
      DrawTraitor(pick);
    }

    /**
     * The traitor draw of `resetGame` (server.js:275-285): with traitor mode
     * on and at least six players, the `pick`-th team player; nobody on a
     * team keeps the previous traitor; otherwise no traitor.
     */
    method DrawTraitor(pick: nat)
      requires settings.traitorMode && |players| >= 6 && |TeamPlayers(players)| > 0 ==>
        pick < |TeamPlayers(players)|
      modifies this`traitor
      ensures traitor ==
        if settings.traitorMode && |players| >= 6 then
          (if |TeamPlayers(players)| > 0 then Some(TeamPlayers(players)[pick].id) else old(traitor))
        else None
    {
      if settings.traitorMode && |players| >= 6 {
        var eligible := TeamPlayers(players);
        if |eligible| > 0 {
          traitor := Some(eligible[pick].id);
        }
      } else {
        traitor := None;
      }
    }

    /** `switchTeam` (server.js:291-301): the caller's entry takes the given team and role. */
    method SwitchTeam(sid: string, side: Side, role: Role)
      requires Valid()
      modifies this`players
      ensures Valid()
      ensures match PlayerIndex(old(players), sid)
        case Some(i) => players == old(players)[i := old(players)[i].(side := side, role := role)]
        case None => players == old(players)
    {
      var index := PlayerIndex(players, sid);
      if index.Some? {
        var i := index.value;
        players := players[i := players[i].(side := side, role := role)];
      }
    }

    /** `switchTurn(room)` (server.js:386-398), step by step on the room's game. */
    method SwitchTurn()
      modifies this`game
      ensures game == Turns.SwitchTurn(old(game))
    {
      var next := game.currentTeam.Other();
      game := game.(currentTeam := next);
      game := game.(phase := CluePhase);
      game := game.(timers := PerTeam(0, 0));
      if game.currentTeam != game.startingTeam {
        game := game.(firstGuessTurn := false);
      }
    }

    /**
     * `revealCard` (server.js:303-340). The source reads the card without a
     * bounds check once the first guards pass (an index off the board would
     * throw), so the index must be on the board there.
     */
    method RevealCard(sid: string, cardIndex: int)
      requires Valid()
      requires RevealReachesCard(game, gameStarted, isPaused) ==> 0 <= cardIndex < |game.cards|
      modifies this`game
      ensures Valid()
      ensures Monotone(old(game), game)
      ensures if RevealAccepted(old(game), gameStarted, isPaused, players, sid, cardIndex)
        then game == Reveal(old(game), cardIndex)
        else game == old(game)
    {
      if game.winner.Some? || !gameStarted || isPaused {
        return;
      }
      if game.phase != GuessPhase {
        return;
      }
      var card := game.cards[cardIndex];
      if card.revealed {
        return;
      }
      var actor := FindPlayer(players, sid);
      if actor.None? || actor.value.side != On(game.currentTeam) || actor.value.role != Operative {
        return;
      }
      RevealKeepsConsistent(game, cardIndex);
      ApplyReveal(cardIndex);
    }

    /** The effect part of `revealCard` (server.js:318-336), once every guard has passed. */
    method ApplyReveal(i: nat)
      requires Valid() && i < |game.cards| && !game.cards[i].revealed
      requires game.winner == None && game.phase == GuessPhase
      modifies this`game
      ensures game == Reveal(old(game), i)
    {
      ghost var before := game;
      var card := game.cards[i];
      game := game.(cards := game.cards[i := card.(revealed := true)]);
      if card.kind == Agent(Blue) {
        game := game.(scores := game.scores.(blue := game.scores.blue - 1));
      }
      if card.kind == Agent(Red) {
        game := game.(scores := game.scores.(red := game.scores.red - 1));
      }
      assert game.scores == if card.kind.Agent? then before.scores.Set(card.kind.team, before.scores.Get(card.kind.team) - 1)
                            else before.scores;
      if card.kind == Black {
        game := game.(winner := Some(game.currentTeam.Other()));
      } else if game.scores.blue == 0 {
        game := game.(winner := Some(Blue));
      } else if game.scores.red == 0 {
        game := game.(winner := Some(Red));
      }
      if game.winner.None? && card.kind != Agent(game.currentTeam) {
        SwitchTurn();
      }
    }

    /**
     * `endTurn` (server.js:342-369). In the clue phase a spymaster of the
     * current team starts the guess phase; in the guess phase any member of
     * the current team passes the turn. A winner does not stop it.
     */
    method EndTurn(sid: string)
      requires Valid()
      modifies this`game
      ensures Valid()
      ensures Monotone(old(game), game)
      ensures var g := old(game);
        if !gameStarted || isPaused then game == g
        else if g.phase == CluePhase && Acts(players, sid, g.currentTeam, Spymaster) then game == BeginGuess(g)
        else if g.phase == GuessPhase && IsMember(players, sid, g.currentTeam) then game == Turns.SwitchTurn(g)
        else game == g
    {
      if !gameStarted || isPaused {
        return;
      }
      var actor := FindPlayer(players, sid);
      if actor.None? {
        return;
      }
      var isCurrentTeam := actor.value.side == On(game.currentTeam);
      if game.phase == CluePhase {
        if isCurrentTeam && actor.value.role == Spymaster {
          BeginGuessEffect(game);
          game := game.(phase := GuessPhase);
          var duration := if game.firstGuessTurn then FirstGuessSeconds else GuessSeconds;
          game := game.(timers := game.timers.Set(game.currentTeam, duration));
        }
      } else if game.phase == GuessPhase {
        if isCurrentTeam {
          SwitchTurnEffect(game);
          SwitchTurn();
        }
      }
    }

    /**
     * One firing of the room's interval (server.js:404-417): nothing unless
     * the game is started, unpaused and without a winner; in the guess phase
     * the current team's timer counts down, and a tick that finds it at 0
     * passes the turn.
     */
    method Tick()
      requires Valid()
      modifies this`game
      ensures Valid()
      ensures Monotone(old(game), game)
      ensures game == if gameStarted && !isPaused then TickGame(old(game)) else old(game)
    {
      if !gameStarted || isPaused || game.winner.Some? {
        return;
      }
      TickKeepsConsistent(game);
      if game.phase == GuessPhase {
        var team := game.currentTeam;
        if game.timers.Get(team) > 0 {
          game := game.(timers := game.timers.Set(team, game.timers.Get(team) - 1));
        } else {
          SwitchTurn();
        }
      }
    }
  }
}
