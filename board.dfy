/**
 * Board generation (`generateBoard`): filter the word catalog to one
 * language, take the first 25 words of a shuffle of them, and label the
 * cards with a shuffle of the 25-colour pool (1 assassin, 9 cards of the
 * starting team, 8 of the other team, 7 neutral).
 *
 * The two shuffles and the choice of the starting team are random in the
 * server; here they are parameters, constrained only to be reorderings of
 * what the server shuffles.
 */
module Board {
  import opened Types

  const BoardSize: nat := 25
  /** Cards of the starting team, of the second team and neutral cards on a board. */
  const StartingCount: nat := 9
  const SecondCount: nat := 8
  const NeutralCount: nat := 7

  function Min(a: int, b: int): int {
    if a <= b then a else b
  }

  /** `n` copies of `x`. */
  function Repeat<T>(x: T, n: nat): seq<T> {
    seq(n, _ => x)
  }

  lemma {:induction false} RepeatCount<T>(x: T, n: nat, y: T)
    ensures multiset(Repeat(x, n))[y] == if x == y then n else 0
  {
    if n > 0 {
      RepeatCount(x, n - 1, y);
      assert Repeat(x, n) == [x] + Repeat(x, n - 1);
    }
  }

  /** The colour list before it is shuffled (server.js:62-67). */
  function ColourPool(start: Team): seq<CardType> {
    [Black] + Repeat(Agent(start), StartingCount) + Repeat(Agent(start.Other()), SecondCount)
      + Repeat(Neutral, NeutralCount)
  }

  /** The score a team starts with: 9 for the starting team, 8 for the other. */
  function InitialScore(start: Team, t: Team): int {
    if t == start then StartingCount else SecondCount
  }

  lemma PoolSize(start: Team)
    ensures |ColourPool(start)| == BoardSize
  {
  }

  /** How often each colour occurs in the pool. */
  lemma PoolCount(start: Team, y: CardType)
    ensures multiset(ColourPool(start))[y] ==
      (if y == Black then 1 else 0) + (if y == Agent(start) then StartingCount else 0) +
      (if y == Agent(start.Other()) then SecondCount else 0) + (if y == Neutral then NeutralCount else 0)
  {
    RepeatCount(Agent(start), StartingCount, y);
    RepeatCount(Agent(start.Other()), SecondCount, y);
    RepeatCount(Neutral, NeutralCount, y);
  }

  /** The pool holds 25 colours: 1 black, 9 of the starting team, 8 of the other, 7 neutral. */
  lemma PoolCounts(start: Team)
    ensures |ColourPool(start)| == BoardSize
    ensures multiset(ColourPool(start))[Black] == 1
    ensures multiset(ColourPool(start))[Agent(start)] == 9
    ensures multiset(ColourPool(start))[Agent(start.Other())] == 8
    ensures multiset(ColourPool(start))[Neutral] == 7
  {
    PoolCount(start, Black);
    PoolCount(start, Agent(start));
    PoolCount(start, Agent(start.Other()));
    PoolCount(start, Neutral);
  }

  /** Each team's colour occurs in the pool as often as the team's initial score. */
  lemma PoolTeamCount(start: Team, t: Team)
    ensures multiset(ColourPool(start))[Agent(t)] == InitialScore(start, t)
  {
    PoolCount(start, Agent(t));
  }

  /** The catalog entries tagged with `language`, in catalog order (server.js:52). */
  function LanguageWords(catalog: seq<WordEntry>, language: string): (r: seq<WordEntry>)
    ensures |r| <= |catalog|
    ensures forall w :: w in r <==> w in catalog && w.language == language
    ensures forall w :: multiset(r)[w] == if w.language == language then multiset(catalog)[w] else 0
  {
    if catalog == [] then []
    else
      var rest := LanguageWords(catalog[1..], language);
      assert catalog == [catalog[0]] + catalog[1..];
      assert forall w :: w in catalog <==> w == catalog[0] || w in catalog[1..];
      if catalog[0].language == language then [catalog[0]] + rest else rest
  }

  /** `s` is a reordering of `t` (what a sort with a random comparator yields). */
  predicate IsShuffleOf<T(==)>(s: seq<T>, t: seq<T>) {
    multiset(s) == multiset(t)
  }

  /** The colours of a list of cards, in card order. */
  function Kinds(cards: seq<Card>): seq<CardType> {
    seq(|cards|, i requires 0 <= i < |cards| => cards[i].kind)
  }

  /**
   * The cards dealt from the selected words (server.js:72-77), labelled in
   * order with the shuffled colours: they use no colour more often than the
   * colour list holds it.
   */
  function Deal(words: seq<WordEntry>, colours: seq<CardType>): (cards: seq<Card>)
    requires |words| <= |colours|
    ensures |cards| == |words|
    ensures forall i :: 0 <= i < |words| ==> cards[i] == Card(words[i].word, colours[i], false, i)
    ensures multiset(Kinds(cards)) <= multiset(colours)
  {
    var cards := seq(|words|, i requires 0 <= i < |words| => Card(words[i].word, colours[i], false, i));
    assert Kinds(cards) == colours[..|words|];
    assert colours == colours[..|words|] + colours[|words|..];
    cards
  }

  /**
   * `generateBoard(language)` (server.js:50-97). `shuffled` is the shuffle of
   * the language's words, `colours` the shuffle of the colour pool and
   * `start` the starting team. `GenerateBoardSpec` states what it builds.
   */
  function GenerateBoard(catalog: seq<WordEntry>, language: string, shuffled: seq<WordEntry>,
                         colours: seq<CardType>, start: Team): GameState
    requires IsShuffleOf(shuffled, LanguageWords(catalog, language))
    requires IsShuffleOf(colours, ColourPool(start))
  {
    ShuffleLength(colours, ColourPool(start));
    PoolSize(start);
    GameState(
      cards := Deal(shuffled[..Min(BoardSize, |shuffled|)], colours),
      startingTeam := start,
      currentTeam := start,
      phase := CluePhase,
      firstGuessTurn := true,
      scores := PerTeam(InitialScore(start, Blue), InitialScore(start, Red)),
      timers := PerTeam(0, 0),
      clueHistory := PerTeam([], []),
      winner := None)
  }

  /**
   * What `generateBoard` builds. When the language has fewer than 25 words
   * the board is that much smaller, while the scores still start at 9 and 8.
   */
  lemma GenerateBoardSpec(catalog: seq<WordEntry>, language: string, shuffled: seq<WordEntry>,
                          colours: seq<CardType>, start: Team)
    requires IsShuffleOf(shuffled, LanguageWords(catalog, language))
    requires IsShuffleOf(colours, ColourPool(start))
    ensures var g := GenerateBoard(catalog, language, shuffled, colours, start);
      |g.cards| == Min(BoardSize, |LanguageWords(catalog, language)|) &&
      |g.cards| <= |shuffled| && |g.cards| <= |colours| &&
      (forall i :: 0 <= i < |g.cards| ==>
        g.cards[i].index == i && !g.cards[i].revealed && WordEntry(g.cards[i].word, language) in catalog &&
        g.cards[i].word == shuffled[i].word && g.cards[i].kind == colours[i]) &&
      multiset(Kinds(g.cards)) <= multiset(ColourPool(start)) &&
      g.startingTeam == start && g.currentTeam == start &&
      g.phase == CluePhase && g.firstGuessTurn && g.winner == None &&
      (forall t :: g.scores.Get(t) == InitialScore(start, t)) &&
      g.timers == PerTeam(0, 0) && g.clueHistory == PerTeam([], [])
  {
    ShuffleLength(shuffled, LanguageWords(catalog, language));
    ShuffleLength(colours, ColourPool(start));
    PoolSize(start);
    ShuffledFromLanguage(catalog, language, shuffled);
  }

  /** Every shuffled word is a catalog entry of the requested language. */
  lemma ShuffledFromLanguage(catalog: seq<WordEntry>, language: string, shuffled: seq<WordEntry>)
    requires IsShuffleOf(shuffled, LanguageWords(catalog, language))
    ensures forall i :: 0 <= i < |shuffled| ==> WordEntry(shuffled[i].word, language) in catalog
  {
    forall i | 0 <= i < |shuffled| ensures WordEntry(shuffled[i].word, language) in catalog {
      assert shuffled[i] in multiset(shuffled);
      assert shuffled[i] in LanguageWords(catalog, language);
    }
  }

  lemma ShuffleLength<T>(s: seq<T>, t: seq<T>)
    requires IsShuffleOf(s, t)
    ensures |s| == |t|
  {
    assert |multiset(s)| == |multiset(t)|;
  }

  /**
   * With at least 25 words in the language the board has 25 cards whose
   * colours are exactly the pool: 1 black, 9 of the starting team, 8 of the
   * other team and 7 neutral.
   */
  lemma FullBoardColours(catalog: seq<WordEntry>, language: string, shuffled: seq<WordEntry>,
                         colours: seq<CardType>, start: Team)
    requires IsShuffleOf(shuffled, LanguageWords(catalog, language))
    requires IsShuffleOf(colours, ColourPool(start))
    requires |LanguageWords(catalog, language)| >= BoardSize
    ensures var g := GenerateBoard(catalog, language, shuffled, colours, start);
      |g.cards| == BoardSize &&
      multiset(Kinds(g.cards))[Black] == 1 &&
      multiset(Kinds(g.cards))[Agent(start)] == 9 &&
      multiset(Kinds(g.cards))[Agent(start.Other())] == 8 &&
      multiset(Kinds(g.cards))[Neutral] == 7
  {
    var g := GenerateBoard(catalog, language, shuffled, colours, start);
    GenerateBoardSpec(catalog, language, shuffled, colours, start);
    ShuffleLength(shuffled, LanguageWords(catalog, language));
    ShuffleLength(colours, ColourPool(start));
    PoolSize(start);
    assert Kinds(g.cards) == colours;
    var m := multiset(ColourPool(start));
    PoolCounts(start);
    assert multiset(Kinds(g.cards)) == m;
  }


  /**
   * When the language's catalog entries carry pairwise distinct words, no
   * word appears twice on a generated board.
   */
  lemma BoardWordsDistinct(catalog: seq<WordEntry>, language: string, shuffled: seq<WordEntry>,
                           colours: seq<CardType>, start: Team)
    requires IsShuffleOf(shuffled, LanguageWords(catalog, language))
    requires IsShuffleOf(colours, ColourPool(start))
    requires DistinctWords(LanguageWords(catalog, language))
    ensures var g := GenerateBoard(catalog, language, shuffled, colours, start);
      forall i, j :: 0 <= i < j < |g.cards| ==> g.cards[i].word != g.cards[j].word
  {
    var g := GenerateBoard(catalog, language, shuffled, colours, start);
    GenerateBoardSpec(catalog, language, shuffled, colours, start);
    var lw := LanguageWords(catalog, language);
    forall i, j | 0 <= i < j < |g.cards| ensures g.cards[i].word != g.cards[j].word {
      assert shuffled[i] in multiset(lw) && shuffled[j] in multiset(lw);
      var a :| 0 <= a < |lw| && lw[a] == shuffled[i];
      OccursOnce(lw, a);
      if shuffled[i] == shuffled[j] {
        TwoPositions(shuffled, i, j);
      }
    }
  }

  /** No two entries of `s` carry the same word. */
  predicate DistinctWords(s: seq<WordEntry>) {
    forall i, j :: 0 <= i < j < |s| ==> s[i].word != s[j].word
  }

  /** Two positions of a sequence holding the same value count it twice. */
  lemma TwoPositions<T>(s: seq<T>, i: nat, j: nat)
    requires i < j < |s| && s[i] == s[j]
    ensures multiset(s)[s[i]] >= 2
  {
    assert s == s[..i] + [s[i]] + s[i + 1..j] + [s[j]] + s[j + 1..];
  }

  /** In a list of distinct words every entry is counted once. */
  lemma OccursOnce(s: seq<WordEntry>, a: nat)
    requires a < |s| && DistinctWords(s)
    ensures multiset(s)[s[a]] == 1
  {
    var rest := s[..a] + s[a + 1..];
    assert s == s[..a] + [s[a]] + s[a + 1..];
    assert multiset(s) == multiset(rest) + multiset{s[a]};
    forall k | 0 <= k < |rest| ensures rest[k] != s[a] {
      if k < a {
        assert rest[k] == s[k];
      } else {
        assert rest[k] == s[k + 1];
      }
    }
    assert s[a] !in multiset(rest);
  }
}
