/**
 * Values exchanged by the room server: teams, roles, cards, clues, players,
 * room settings and the per-room game state that a board generation builds
 * and the turn handlers update.
 */
module Types {

  datatype Option<T> = None | Some(value: T)

  /** A playing team ('blue' or 'red'). */
  datatype Team = Blue | Red {
    /** The team that is not this one. */
    function Other(): (t: Team)
      ensures t != this
    {
      if this == Blue then Red else Blue
    }
  }

  /** The `team` field of a player: one of the two teams, or 'spectator'. */
  datatype Side = On(team: Team) | Spectator

  /** The `role` field of a player; `Watcher` is the string 'spectator'. */
  datatype Role = Spymaster | Operative | Watcher

  /** The `type` of a card: 'blue', 'red', 'neutral' or 'black' (the assassin). */
  datatype CardType = Agent(team: Team) | Neutral | Black

  datatype Phase = CluePhase | GuessPhase

  /** One entry of the word catalog: a word and its language tag (`type`). */
  datatype WordEntry = WordEntry(word: string, language: string)

  datatype Card = Card(word: string, kind: CardType, revealed: bool, index: nat)

  datatype Clue = Clue(id: string, text: string, timestamp: int)

  datatype Player = Player(id: string, name: string, side: Side, role: Role, isHost: bool)

  datatype Settings = Settings(gameLanguage: string, traitorMode: bool)

  /** An object with one entry per team, such as `scores`, `timers` or `clueHistory`. */
  datatype PerTeam<T> = PerTeam(blue: T, red: T) {
    function Get(t: Team): T {
      if t == Blue then blue else red
    }

    function Set(t: Team, v: T): (r: PerTeam<T>)
      ensures r.Get(t) == v && r.Get(t.Other()) == Get(t.Other())
    {
      if t == Blue then this.(blue := v) else this.(red := v)
    }
  }

  /** The `gameState` record of a room. */
  datatype GameState = GameState(
    cards: seq<Card>,
    startingTeam: Team,
    currentTeam: Team,
    phase: Phase,
    firstGuessTurn: bool,
    scores: PerTeam<int>,
    timers: PerTeam<nat>,
    clueHistory: PerTeam<seq<Clue>>,
    winner: Option<Team>)
}
