/**
 * The room registry (the server's `rooms` map from room code to room) and
 * the handlers that create, join and leave rooms. The other handlers look
 * their room up with `rooms.get(roomId)` and do nothing when it is missing;
 * what they do to a room they find is the corresponding `Room` method.
 */
module Registry {
  import opened Types
  import opened Board
  import opened Turns
  import opened Roster
  import opened RoomIds
  import opened Rooms

  /** What the handler sends back to the calling connection. */
  datatype Reply = RoomJoined(roomId: string) | ErrorMessage(message: string) | NoReply

  /** The code `createRoom` settles on: the requested one upper-cased, or a generated one. */
  function ChosenId(requested: string, draws: seq<real>): (id: string)
    requires ValidDraws(draws)
    ensures |id| > 0
  {
    if requested != "" then Upper(requested) else IdFromDraws(draws)
  }

  class RoomRegistry {
    /** The word catalog loaded at start-up. */
    const catalog: seq<WordEntry>
    var rooms: map<string, Room>

    /** Every room is filed under its own code and is itself valid. */
    ghost predicate Valid()
      reads this, rooms.Values
    {
      forall k :: k in rooms ==> rooms[k].id == k && rooms[k].Valid()
    }

    constructor (catalog: seq<WordEntry>)
      ensures Valid() && this.catalog == catalog && rooms == map[]
    {
      this.catalog := catalog;
      rooms := map[];
    }

    /**
     * `createRoom` (server.js:102-149). A requested code is upper-cased and a
     * taken one is refused with an error; an empty request draws a code, and
     * a drawn code that is taken drops the request without a reply. Otherwise
     * one fresh room is filed under the code with its creator as host.
     * `draws`, `shuffled`, `colours` and `start` are the random choices.
     */
    method CreateRoom(sid: string, requested: string, settings: Settings, draws: seq<real>,
                      shuffled: seq<WordEntry>, colours: seq<CardType>, start: Team)
      returns (reply: Reply)
      requires Valid()
      requires ValidDraws(draws)
      requires IsShuffleOf(shuffled, LanguageWords(catalog, settings.gameLanguage))
      requires IsShuffleOf(colours, ColourPool(start))
      modifies this`rooms
      ensures Valid()
      ensures var id := ChosenId(requested, draws);
        if id in old(rooms) then
          rooms == old(rooms) &&
          reply == (if requested != "" then ErrorMessage("Room already exists") else NoReply)
        else
          reply == RoomJoined(id) && rooms.Keys == old(rooms).Keys + {id} &&
          (forall k :: k in old(rooms) ==> rooms[k] == old(rooms)[k]) &&
          fresh(rooms[id]) &&
          rooms[id].players == [Player(sid, "Host", Spectator, Watcher, true)] &&
          rooms[id].game == GenerateBoard(catalog, settings.gameLanguage, shuffled, colours, start) &&
          rooms[id].settings == settings && rooms[id].traitor == None &&
          !rooms[id].gameStarted && !rooms[id].isPaused && !rooms[id].timerActive
    {
      var finalId: string;
      if requested != "" {
        finalId := Upper(requested);
      } else {
        finalId := GenerateRoomId(draws);
      }
      if finalId in rooms {
        if requested != "" {
          reply := ErrorMessage("Room already exists");
        } else {
          reply := NoReply;
        }
        return;
      }
      GeneratedBoardConsistent(catalog, settings.gameLanguage, shuffled, colours, start);
      var game := GenerateBoard(catalog, settings.gameLanguage, shuffled, colours, start);
      AddRoom(finalId, sid, settings, game);
      reply := RoomJoined(finalId);
    }

    /** The room `createRoom` files under a free code, with its creator as host (server.js:119-137). */
    method AddRoom(id: string, sid: string, settings: Settings, game: GameState)
      requires Valid() && id !in rooms && Consistent(game)
      modifies this`rooms
      ensures Valid()
      ensures rooms.Keys == old(rooms).Keys + {id} && (forall k :: k in old(rooms) ==> rooms[k] == old(rooms)[k])
      ensures fresh(rooms[id]) && rooms[id].players == [Player(sid, "Host", Spectator, Watcher, true)]
      ensures rooms[id].game == game && rooms[id].settings == settings && rooms[id].traitor == None
      ensures !rooms[id].gameStarted && !rooms[id].isPaused && !rooms[id].timerActive
    {
      var room := new Room(id, settings, game, sid);
      rooms := rooms[id := room];
    }

    /**
     * `joinRoom` (server.js:151-186): an unknown code is answered with an
     * error and changes nothing; otherwise the room's roster is updated by
     * `Room.Join`.
     */
    method JoinRoom(sid: string, roomId: string, name: string) returns (reply: Reply)
      requires Valid()
      modifies rooms.Values`players
      ensures Valid()
      ensures var key := Upper(roomId);
        if key !in rooms then
          reply == ErrorMessage("Room not found") &&
          forall r :: r in rooms.Values ==> r.players == old(r.players)
        else
          reply == RoomJoined(key) &&
          (forall r :: r in rooms.Values && r != rooms[key] ==> r.players == old(r.players)) &&
          match PlayerIndex(old(rooms[key].players), sid)
          case Some(i) => rooms[key].players == old(rooms[key].players)[i := old(rooms[key].players)[i].(name := name)]
          case None => rooms[key].players == old(rooms[key].players) + [Player(sid, name, Spectator, Watcher, false)]
      ensures forall r :: r in rooms.Values ==> r.game == old(r.game) && r.settings == old(r.settings)
    {
      var key := Upper(roomId);
      if key !in rooms {
        reply := ErrorMessage("Room not found");
        return;
      }
      var room := rooms[key];
      room.Join(sid, name);
      reply := RoomJoined(key);
    }

    /**
     * `disconnect` (server.js:371-384): the connection leaves every room it
     * is in, and every room left without players is removed, which also
     * stops its timer.
     */
    method Disconnect(sid: string)
      requires Valid()
      modifies this`rooms, rooms.Values`players
      ensures Valid()
      ensures forall k :: k in old(rooms) ==> old(rooms)[k].players == Without(old(rooms[k].players), sid)
      ensures rooms == map k | k in old(rooms) && old(rooms)[k].players != [] :: old(rooms)[k]
      ensures forall k :: k in old(rooms) ==> old(rooms)[k].game == old(rooms[k].game)
      ensures forall k :: k in rooms ==> FindPlayer(rooms[k].players, sid).None?
    {
      LeaveAll(sid);
      forall k | k in rooms ensures rooms[k].id == k && rooms[k].Valid() && FindPlayer(rooms[k].players, sid).None? {
        assert old(rooms[k].Valid());
        WithoutKeepsUnique(old(rooms[k].players), sid);
        LeaveRemovesPlayer(old(rooms[k].players), sid);
      }
    }

    /** The `rooms.forEach` loop of `disconnect`: every room loses the connection, then the empty ones go. */
    method LeaveAll(sid: string)
      modifies this`rooms, rooms.Values`players
      ensures forall k :: k in old(rooms) ==> old(rooms)[k].players == Without(old(rooms[k].players), sid)
      ensures rooms == map k | k in old(rooms) && old(rooms)[k].players != [] :: old(rooms)[k]
    {
      var all := rooms;
      LeaveEach(all.Values, sid);
      forall k | k in all ensures all[k].players == Without(old(all[k].players), sid) {
        assert all[k] in all.Values;
      }
      rooms := map k | k in all && all[k].players != [] :: all[k];
    }
  }

  /** The connection leaves each room of `rs` (server.js:373-377), one room at a time. */
  method LeaveEach(rs: set<Room>, sid: string)
    modifies rs`players
    ensures forall r :: r in rs ==> r.players == Without(old(r.players), sid)
  {
    var pending := rs;
    while pending != {}
      invariant pending <= rs
      invariant forall r :: r in pending ==> r.players == old(r.players)
      invariant forall r :: r in rs && r !in pending ==> r.players == Without(old(r.players), sid)
      decreases pending
    {
      var r :| r in pending;
      r.Leave(sid);
      pending := pending - {r};
    }
  }
}
