/**
 * The per-room player list and the per-team clue lists: lookups by id
 * (`find`/`findIndex`) and the in-place edits the handlers make to the first
 * match (`splice`, field writes).
 */
module Roster {
  import opened Types

  /** `findIndex`: the first position whose element satisfies `p`. */
  function FindIndex<T>(s: seq<T>, p: T -> bool): (r: Option<nat>)
    ensures r.Some? ==> r.value < |s| && p(s[r.value]) && forall j :: 0 <= j < r.value ==> !p(s[j])
    ensures r.None? ==> forall j :: 0 <= j < |s| ==> !p(s[j])
  {
    if s == [] then None
    else if p(s[0]) then Some(0)
    else match FindIndex(s[1..], p)
      case Some(k) => Some(k + 1)
      case None => None
  }

  /** `splice(i, 1)`: the list without its `i`-th element, the others in order. */
  function RemoveAt<T>(s: seq<T>, i: nat): (r: seq<T>)
    requires i < |s|
    ensures |r| == |s| - 1
    ensures forall j :: 0 <= j < i ==> r[j] == s[j]
    ensures forall j :: i <= j < |r| ==> r[j] == s[j + 1]
  {
    s[..i] + s[i + 1..]
  }

  /** Position of the first player whose connection id is `sid`. */
  function PlayerIndex(players: seq<Player>, sid: string): (r: Option<nat>)
    ensures r.Some? ==> r.value < |players| && players[r.value].id == sid
    ensures r.Some? ==> forall j :: 0 <= j < r.value ==> players[j].id != sid
    ensures r.None? ==> forall j :: 0 <= j < |players| ==> players[j].id != sid
  {
    FindIndex(players, (p: Player) => p.id == sid)
  }

  /** `players.find(p => p.id === socket.id)`: the first player with that id. */
  function FindPlayer(players: seq<Player>, sid: string): (r: Option<Player>)
    ensures r.Some? <==> exists j :: 0 <= j < |players| && players[j].id == sid
    ensures r.Some? ==> r.value.id == sid
    ensures r.Some? ==>
      exists j :: 0 <= j < |players| && r.value == players[j] && (forall m :: 0 <= m < j ==> players[m].id != sid)
  {
    match PlayerIndex(players, sid)
    case Some(i) => Some(players[i])
    case None => None
  }

  /** No connection id occurs twice in a roster (`joinRoom` looks a connection up before adding it). */
  predicate UniqueIds(players: seq<Player>) {
    forall i, j :: 0 <= i < j < |players| ==> players[i].id != players[j].id
  }

  /** The acting connection is a spymaster (of any side). */
  predicate ActsAsSpymaster(players: seq<Player>, sid: string) {
    var p := FindPlayer(players, sid);
    p.Some? && p.value.role == Spymaster
  }

  /** The acting connection is a player of `team` with role `role`. */
  predicate Acts(players: seq<Player>, sid: string, team: Team, role: Role) {
    var p := FindPlayer(players, sid);
    p.Some? && p.value.side == On(team) && p.value.role == role
  }

  /** The acting connection belongs to `team`, whatever its role. */
  predicate IsMember(players: seq<Player>, sid: string, team: Team) {
    var p := FindPlayer(players, sid);
    p.Some? && p.value.side == On(team)
  }

  /**
   * The roster after connection `sid` leaves (server.js:374-376): its first
   * entry is removed, every other player stays in order.
   */
  function Without(players: seq<Player>, sid: string): seq<Player> {
    if players == [] then []
    else if players[0].id == sid then players[1..]
    else [players[0]] + Without(players[1..], sid)
  }

  /**
   * `Without` is what the handler does: `splice` at the `findIndex` of the
   * connection, and nothing when it is not in the room.
   */
  lemma {:induction false} WithoutIsSplice(players: seq<Player>, sid: string)
    ensures Without(players, sid) ==
      match PlayerIndex(players, sid)
      case Some(i) => RemoveAt(players, i)
      case None => players
  {
    if players == [] {
    } else if players[0].id == sid {
      assert PlayerIndex(players, sid) == Some(0);
    } else {
      WithoutIsSplice(players[1..], sid);
      SkipFirst(players, sid);
    }
  }

  /** One step of `WithoutIsSplice`: a first player with another id shifts the index by one. */
  lemma SkipFirst(players: seq<Player>, sid: string)
    requires players != [] && players[0].id != sid
    ensures PlayerIndex(players, sid) ==
      match PlayerIndex(players[1..], sid)
      case Some(i) => Some(i + 1)
      case None => None
    ensures PlayerIndex(players[1..], sid).Some? ==>
      RemoveAt(players, PlayerIndex(players[1..], sid).value + 1) ==
      [players[0]] + RemoveAt(players[1..], PlayerIndex(players[1..], sid).value)
    ensures players == [players[0]] + players[1..]
  {
    var rest := players[1..];
    match PlayerIndex(rest, sid)
    case Some(i) =>
      assert players[i + 1] == rest[i];
      assert RemoveAt(players, i + 1) == [players[0]] + RemoveAt(rest, i);
    case None =>
  }

  /** A connection not in the room leaves it unchanged; one in it makes it one shorter. */
  lemma WithoutEffect(players: seq<Player>, sid: string)
    ensures FindPlayer(players, sid).None? ==> Without(players, sid) == players
    ensures FindPlayer(players, sid).Some? ==> |Without(players, sid)| == |players| - 1
  {
    WithoutIsSplice(players, sid);
  }

  /** Leaving keeps the ids of a roster distinct. */
  lemma WithoutKeepsUnique(players: seq<Player>, sid: string)
    requires UniqueIds(players)
    ensures UniqueIds(Without(players, sid))
  {
    WithoutIsSplice(players, sid);
  }

  /** Leaving only removes: every player left was already in the room. */
  lemma WithoutShrinks(players: seq<Player>, sid: string)
    ensures multiset(Without(players, sid)) <= multiset(players)
  {
    WithoutIsSplice(players, sid);
    match PlayerIndex(players, sid)
    case Some(i) =>
      assert players == players[..i] + [players[i]] + players[i + 1..];
    case None =>
  }

  /** A connection present at most once is absent once it has left. */
  lemma LeaveRemovesPlayer(players: seq<Player>, sid: string)
    requires forall i, j :: 0 <= i < j < |players| && players[i].id == sid ==> players[j].id != sid
    ensures FindPlayer(Without(players, sid), sid).None?
  {
    WithoutIsSplice(players, sid);
    var r := Without(players, sid);
    match PlayerIndex(players, sid)
    case None =>
    case Some(i) =>
      forall j | 0 <= j < |r| ensures r[j].id != sid {
        if j >= i {
          assert r[j] == players[j + 1];
        }
      }
  }

  /** The players on a team, in roster order: those eligible to be the traitor (server.js:276). */
  function TeamPlayers(players: seq<Player>): (r: seq<Player>)
    ensures |r| <= |players|
    ensures forall p :: p in r <==> p in players && p.side.On?
  {
    if players == [] then []
    else
      var rest := TeamPlayers(players[1..]);
      assert forall p :: p in players <==> p == players[0] || p in players[1..];
      if players[0].side.On? then [players[0]] + rest else rest
  }

  /** Position of the first clue with id `clueId`. */
  function ClueIndex(clues: seq<Clue>, clueId: string): (r: Option<nat>)
    ensures r.Some? ==> r.value < |clues| && clues[r.value].id == clueId
    ensures r.Some? ==> forall j :: 0 <= j < r.value ==> clues[j].id != clueId
    ensures r.None? ==> forall j :: 0 <= j < |clues| ==> clues[j].id != clueId
  {
    FindIndex(clues, (c: Clue) => c.id == clueId)
  }

  /**
   * `editClue` on one team's list (server.js:213-216): the text of the first
   * clue with id `clueId` becomes `text`; ids, timestamps, order and every
   * other clue are kept.
   */
  function EditedClues(clues: seq<Clue>, clueId: string, text: string): (r: seq<Clue>)
    ensures |r| == |clues|
    ensures forall j :: 0 <= j < |r| ==> r[j].id == clues[j].id && r[j].timestamp == clues[j].timestamp
    ensures ClueIndex(clues, clueId).None? ==> r == clues
    ensures ClueIndex(clues, clueId).Some? ==>
      var i := ClueIndex(clues, clueId).value;
      r[i].text == text && forall j :: 0 <= j < |r| && j != i ==> r[j] == clues[j]
  {
    match ClueIndex(clues, clueId)
    case Some(i) => clues[i := clues[i].(text := text)]
    case None => clues
  }

  /**
   * `deleteClue` on one team's list (server.js:227-230): the first clue with
   * id `clueId` is removed and the others keep their order.
   */
  function DeletedClues(clues: seq<Clue>, clueId: string): (r: seq<Clue>)
    ensures ClueIndex(clues, clueId).None? ==> r == clues
    ensures ClueIndex(clues, clueId).Some? ==>
      var i := ClueIndex(clues, clueId).value;
      |r| == |clues| - 1 && r == clues[..i] + clues[i + 1..]
    ensures multiset(r) <= multiset(clues)
  {
    match ClueIndex(clues, clueId)
    case Some(i) =>
      assert clues == clues[..i] + [clues[i]] + clues[i + 1..];
      RemoveAt(clues, i)
    case None => clues
  }
}
