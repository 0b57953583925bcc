/**
 * The turn state machine of one room, on game-state values: `switchTurn`,
 * the effect of an accepted card reveal, the clue-to-guess step of
 * `endTurn`, and one tick of the room timer. `Consistent` is the invariant
 * every one of them keeps; `Monotone` relates a state to any later state of
 * the same board.
 */
module Turns {
  import opened Types
  import opened Board

  /** Guess-phase durations in seconds: the first guess turn of a game, and every later one. */
  const FirstGuessSeconds: nat := 120
  const GuessSeconds: nat := 60

  /** Number of revealed cards of colour `k`. */
  function RevealedOf(cards: seq<Card>, k: CardType): nat {
    if cards == [] then 0
    else (if cards[0].revealed && cards[0].kind == k then 1 else 0) + RevealedOf(cards[1..], k)
  }

  /** Revealing card `i` adds one to the revealed count of its own colour and nothing else. */
  lemma {:induction false} RevealedOfUpdate(cards: seq<Card>, i: nat, k: CardType)
    requires i < |cards| && !cards[i].revealed
    ensures RevealedOf(cards[i := cards[i].(revealed := true)], k) ==
      RevealedOf(cards, k) + (if cards[i].kind == k then 1 else 0)
  {
    var updated := cards[i := cards[i].(revealed := true)];
    if i == 0 {
      assert updated[1..] == cards[1..];
    } else {
      RevealedOfUpdate(cards[1..], i - 1, k);
      assert updated[1..] == cards[1..][i - 1 := cards[i].(revealed := true)];
    }
  }

  /** A team's score is its initial score less its revealed cards. */
  predicate ScoreTracks(g: GameState, t: Team) {
    g.scores.Get(t) == InitialScore(g.startingTeam, t) - RevealedOf(g.cards, Agent(t))
  }

  /** The invariant of a room's game state between handler calls. */
  predicate Consistent(g: GameState) {
    (forall i :: 0 <= i < |g.cards| ==> g.cards[i].index == i) &&
    ScoreTracks(g, Blue) && ScoreTracks(g, Red) &&
    g.scores.blue >= 0 && g.scores.red >= 0 &&
    (g.phase == CluePhase ==> g.timers == PerTeam(0, 0)) &&
    (g.phase == GuessPhase ==> g.timers.Get(g.currentTeam.Other()) == 0) &&
    (g.winner == None ==> g.scores.blue > 0 && g.scores.red > 0 && RevealedOf(g.cards, Black) == 0) &&
    (g.winner.Some? ==> g.scores.Get(g.winner.value) == 0 || RevealedOf(g.cards, Black) > 0)
  }

  lemma {:induction false} NoneRevealed(cards: seq<Card>, k: CardType)
    requires forall i :: 0 <= i < |cards| ==> !cards[i].revealed
    ensures RevealedOf(cards, k) == 0
  {
    if cards != [] {
      NoneRevealed(cards[1..], k);
    }
  }

  /** A freshly generated board is consistent. */
  lemma GeneratedBoardConsistent(catalog: seq<WordEntry>, language: string, shuffled: seq<WordEntry>,
                                 colours: seq<CardType>, start: Team)
    requires IsShuffleOf(shuffled, LanguageWords(catalog, language))
    requires IsShuffleOf(colours, ColourPool(start))
    ensures Consistent(GenerateBoard(catalog, language, shuffled, colours, start))
  {
    var g := GenerateBoard(catalog, language, shuffled, colours, start);
    GenerateBoardSpec(catalog, language, shuffled, colours, start);
    NoneRevealed(g.cards, Agent(Blue));
    NoneRevealed(g.cards, Agent(Red));
    NoneRevealed(g.cards, Black);
  }

  /**
   * `g'` is a later state of the same board: same cards in the same places,
   * nothing un-revealed, the first-turn flag never switched back on and a
   * winner, once set, kept.
   */
  predicate Monotone(g: GameState, g': GameState) {
    |g'.cards| == |g.cards| &&
    (forall i :: 0 <= i < |g.cards| ==>
      g'.cards[i].word == g.cards[i].word && g'.cards[i].kind == g.cards[i].kind &&
      g'.cards[i].index == g.cards[i].index && (g.cards[i].revealed ==> g'.cards[i].revealed)) &&
    g'.startingTeam == g.startingTeam &&
    (g'.firstGuessTurn ==> g.firstGuessTurn) &&
    (g.winner.Some? ==> g'.winner == g.winner)
  }

  lemma MonotoneTransitive(g0: GameState, g1: GameState, g2: GameState)
    requires Monotone(g0, g1) && Monotone(g1, g2)
    ensures Monotone(g0, g2)
  {
  }

  /** `switchTurn(room)` (server.js:386-398). */
  function SwitchTurn(g: GameState): GameState {
    var next := g.currentTeam.Other();
    g.(currentTeam := next, phase := CluePhase, timers := PerTeam(0, 0),
       firstGuessTurn := if next != g.startingTeam then false else g.firstGuessTurn)
  }

  /**
   * A switch hands the turn to the other team in its clue phase with both
   * timers stopped; the first-turn flag is cleared once the turn leaves the
   * starting team, and nothing else changes.
   */
  lemma SwitchTurnEffect(g: GameState)
    requires Consistent(g)
    ensures var r := SwitchTurn(g);
      r.currentTeam != g.currentTeam && r.phase == CluePhase && r.timers == PerTeam(0, 0) &&
      (r.firstGuessTurn <==> g.firstGuessTurn && r.currentTeam == g.startingTeam) &&
      r.cards == g.cards && r.scores == g.scores && r.winner == g.winner &&
      r.clueHistory == g.clueHistory && Consistent(r) && Monotone(g, r)
  {
  }

  /** Once the starting team has had its turn the first-turn flag is off for good. */
  lemma FirstTurnEndsAfterTwoSwitches(g: GameState)
    requires g.currentTeam == g.startingTeam
    ensures !SwitchTurn(SwitchTurn(g)).firstGuessTurn
    ensures SwitchTurn(SwitchTurn(g)).currentTeam == g.startingTeam
  {
  }

  /** The clue-to-guess step of `endTurn` (server.js:355-358). */
  function BeginGuess(g: GameState): GameState {
    var duration := if g.firstGuessTurn then FirstGuessSeconds else GuessSeconds;
    g.(phase := GuessPhase, timers := g.timers.Set(g.currentTeam, duration))
  }

  /**
   * Ending a clue phase starts the current team's guess timer at 120 seconds
   * on the first guess turn and 60 afterwards; the other timer stays 0.
   */
  lemma BeginGuessEffect(g: GameState)
    requires Consistent(g) && g.phase == CluePhase
    ensures var r := BeginGuess(g);
      r.phase == GuessPhase && r.currentTeam == g.currentTeam &&
      r.timers.Get(g.currentTeam) == (if g.firstGuessTurn then 120 else 60) &&
      r.timers.Get(g.currentTeam.Other()) == 0 &&
      Consistent(r) && Monotone(g, r)
  {
  }

  /** The effect of an accepted `revealCard` on card `i` (server.js:318-336). */
  function Reveal(g: GameState, i: nat): GameState
    requires i < |g.cards|
  {
    var card := g.cards[i];
    var scores := if card.kind.Agent? then g.scores.Set(card.kind.team, g.scores.Get(card.kind.team) - 1)
                  else g.scores;
    var winner := if card.kind == Black then Some(g.currentTeam.Other())
                  else if scores.blue == 0 then Some(Blue)
                  else if scores.red == 0 then Some(Red)
                  else g.winner;
    var revealed := g.(cards := g.cards[i := card.(revealed := true)], scores := scores, winner := winner);
    if winner == None && card.kind != Agent(g.currentTeam) then SwitchTurn(revealed) else revealed
  }

  /**
   * What an accepted reveal does: the card is revealed and no other card
   * changes; only the score of the card's own colour drops, by one; the
   * assassin makes the other team win; otherwise a team at 0 wins, blue
   * checked first; a wrong card without a winner passes the turn, and a
   * right card keeps team, phase and timers.
   */
  lemma RevealEffect(g: GameState, i: nat)
    requires i < |g.cards| && !g.cards[i].revealed && g.winner == None
    ensures var r := Reveal(g, i); var k := g.cards[i].kind;
      |r.cards| == |g.cards| && r.cards[i] == g.cards[i].(revealed := true) &&
      (forall j :: 0 <= j < |g.cards| && j != i ==> r.cards[j] == g.cards[j]) &&
      r.scores.Get(Blue) == g.scores.Get(Blue) - (if k == Agent(Blue) then 1 else 0) &&
      r.scores.Get(Red) == g.scores.Get(Red) - (if k == Agent(Red) then 1 else 0) &&
      (k == Black ==> r.winner == Some(g.currentTeam.Other())) &&
      (k != Black ==> r.winner == if r.scores.blue == 0 then Some(Blue)
                                  else if r.scores.red == 0 then Some(Red) else None) &&
      (r.winner == None && k != Agent(g.currentTeam) ==> r.currentTeam == g.currentTeam.Other() && r.phase == CluePhase) &&
      (r.winner.Some? || k == Agent(g.currentTeam) ==>
         r.currentTeam == g.currentTeam && r.phase == g.phase && r.timers == g.timers &&
         r.firstGuessTurn == g.firstGuessTurn)
  {
  }

  /** An accepted reveal keeps the game consistent and moves it forward. */
  lemma RevealKeepsConsistent(g: GameState, i: nat)
    requires Consistent(g) && i < |g.cards| && !g.cards[i].revealed
    requires g.winner == None && g.phase == GuessPhase
    ensures Consistent(Reveal(g, i)) && Monotone(g, Reveal(g, i))
  {
    var card := g.cards[i];
    var cards' := g.cards[i := card.(revealed := true)];
    RevealedOfUpdate(g.cards, i, Agent(Blue));
    RevealedOfUpdate(g.cards, i, Agent(Red));
    RevealedOfUpdate(g.cards, i, Black);
    var r := Reveal(g, i);
    assert r.cards == cards';
  }

  /** One tick of the room timer on the game (server.js:404-417). */
  function TickGame(g: GameState): GameState {
    if g.winner.Some? then g
    else if g.phase == GuessPhase then
      var team := g.currentTeam;
      if g.timers.Get(team) > 0 then g.(timers := g.timers.Set(team, g.timers.Get(team) - 1))
      else SwitchTurn(g)
    else g
  }

  /** A tick keeps the game consistent and moves it forward. */
  lemma TickKeepsConsistent(g: GameState)
    requires Consistent(g)
    ensures Consistent(TickGame(g)) && Monotone(g, TickGame(g))
  {
  }

  /** A tick does nothing in the clue phase or once there is a winner. */
  lemma TickInert(g: GameState)
    requires g.phase == CluePhase || g.winner.Some?
    ensures TickGame(g) == g
  {
  }

  /** `n` consecutive ticks with no other event between them. */
  function Ticks(g: GameState, n: nat): GameState {
    if n == 0 then g else TickGame(Ticks(g, n - 1))
  }

  /** The current team's guess timer at `v`. */
  function WithTimer(g: GameState, v: nat): GameState {
    g.(timers := g.timers.Set(g.currentTeam, v))
  }

  /**
   * During a guess phase without a winner, `k` ticks with `k` at most the
   * current team's timer only count that timer down by `k`.
   */
  lemma {:induction false} CountDown(g: GameState, k: nat)
    requires g.winner == None && g.phase == GuessPhase
    requires k <= g.timers.Get(g.currentTeam)
    ensures Ticks(g, k) == WithTimer(g, g.timers.Get(g.currentTeam) - k)
  {
    if k > 0 {
      CountDown(g, k - 1);
    } else {
      assert WithTimer(g, g.timers.Get(g.currentTeam)) == g;
    }
  }

  /**
   * A guess timer that stands at `v` reaches 0 after `v` ticks without any
   * change of turn, and the turn switches on tick `v + 1`.
   */
  lemma TimerExpiry(g: GameState)
    requires g.winner == None && g.phase == GuessPhase
    ensures var v := g.timers.Get(g.currentTeam);
      Ticks(g, v).phase == GuessPhase && Ticks(g, v).currentTeam == g.currentTeam &&
      Ticks(g, v).timers.Get(g.currentTeam) == 0 &&
      Ticks(g, v + 1) == SwitchTurn(WithTimer(g, 0))
  {
    var v := g.timers.Get(g.currentTeam);
    CountDown(g, v);
  }
}
