/** Who is typing in a room: typing events replace each other, and entries expire lazily. */
module Typing {
  import opened Wrappers

  datatype TypingUser = TypingUser(userID: string, name: string, deadline: int)

  type Room = map<string, TypingUser>
  type Rooms = map<string, Room>

  /** How long a typing event holds: 30 seconds, in nanoseconds. */
  const TIMEOUT := 30_000_000_000

  function RoomOf(rooms: Rooms, room: string): Room {
    if room in rooms then rooms[room] else map[]
  }

  /** What a typing event says: exactly these users type, until the timeout. */
  function Announced(users: seq<string>, now: int, names: string -> string): Room {
    map u | u in users :: TypingUser(u, names(u), now + TIMEOUT)
  }

  function Unexpired(r: Room, now: int): Room {
    map u | u in r && now <= r[u].deadline :: r[u]
  }

  /** `cleanupExpired` on all rooms' state. */
  function Cleaned(rooms: Rooms, room: string, now: int): Rooms {
    if room in rooms then rooms[room := Unexpired(rooms[room], now)] else rooms
  }

  ghost predicate Keyed(rooms: Rooms) {
    forall room, u :: room in rooms && u in rooms[room] ==> rooms[room][u].userID == u
  }

  /** `users` lists the entries of a room but for the own user, each once. */
  ghost predicate Lists(users: seq<TypingUser>, r: Room, me: string) {
    && (forall i, j :: 0 <= i < j < |users| ==> users[i].userID != users[j].userID)
    && (forall i :: 0 <= i < |users| ==> users[i].userID in r && r[users[i].userID] == users[i] && users[i].userID != me)
    && (forall u :: u in r && u != me ==> r[u] in users)
  }

  lemma AnnouncedMore(base: Room, users: seq<string>, i: nat, now: int, names: string -> string)
    requires i < |users|
    ensures base + Announced(users[..i + 1], now, names) ==
            (base + Announced(users[..i], now, names))[users[i] := TypingUser(users[i], names(users[i]), now + TIMEOUT)]
  {
  }

  lemma SetKeepsKeyed(rooms: Rooms, room: string, r: Room)
    requires Keyed(rooms) && forall u :: u in r ==> r[u].userID == u
    ensures Keyed(rooms[room := r])
  {
  }

  class TypingTracker {
    const currentUser: string
    var rooms: Rooms

    constructor (currentUser: string)
      ensures this.currentUser == currentUser && rooms == map[]
    {
      this.currentUser := currentUser;
      rooms := map[];
    }

    method SetTyping(room: string, user: string, name: string, typing: bool, timeout: int, now: int)
      modifies this
      ensures rooms == old(rooms)[room :=
                if typing then RoomOf(old(rooms), room)[user := TypingUser(user, name, now + timeout)]
                else RoomOf(old(rooms), room) - {user}]
    {
      if room !in rooms {
        rooms := rooms[room := map[]];
      }
      if !typing {
        rooms := rooms[room := rooms[room] - {user}];
      } else {
        rooms := rooms[room := rooms[room][user := TypingUser(user, name, now + timeout)]];
      }
    }

    method CleanupExpired(room: string, now: int)
      modifies this
      ensures rooms == Cleaned(old(rooms), room, now)
    {
      if room !in rooms {
        return;
      }
      var todo := rooms[room].Keys;
      while todo != {}
        invariant room in rooms && room in old(rooms) && todo <= old(rooms)[room].Keys
        invariant forall u :: u in rooms[room] <==> u in old(rooms)[room] && (u in todo || now <= old(rooms)[room][u].deadline)
        invariant forall u :: u in rooms[room] ==> rooms[room][u] == old(rooms)[room][u]
        invariant rooms == old(rooms)[room := rooms[room]]
        decreases todo
      {
        var id :| id in todo;
        if now > rooms[room][id].deadline {
          rooms := rooms[room := rooms[room] - {id}];
        }
        todo := todo - {id};
      }
      assert rooms[room] == Unexpired(old(rooms)[room], now);
    }

    /** The users of a room, own user excepted, in the order of the map. */
    method GetTypingUsersForRoom(room: string, now: int) returns (users: seq<TypingUser>)
      requires Keyed(rooms)
      modifies this
      ensures rooms == Cleaned(old(rooms), room, now) && Keyed(rooms)
      ensures Lists(users, RoomOf(rooms, room), currentUser)
    {
      CleanupExpired(room, now);
      users := [];
      if room !in rooms {
        return;
      }
      var r := rooms[room];
      var todo := r.Keys;
      while todo != {}
        invariant todo <= r.Keys
        invariant forall i, j :: 0 <= i < j < |users| ==> users[i].userID != users[j].userID
        invariant forall i :: 0 <= i < |users| ==>
                    users[i].userID in r && users[i].userID !in todo && r[users[i].userID] == users[i] && users[i].userID != currentUser
        invariant forall u :: u in r && u !in todo && u != currentUser ==> r[u] in users
        decreases todo
      {
        var id :| id in todo;
        if r[id].userID != currentUser {
          users := users + [r[id]];
        }
        todo := todo - {id};
      }
    }

    /** As above, names only; the ghost result says whose. */
    method GetTypingUsers(room: string, now: int) returns (names: seq<string>, ghost users: seq<TypingUser>)
      requires Keyed(rooms)
      modifies this
      ensures rooms == Cleaned(old(rooms), room, now) && Keyed(rooms)
      ensures Lists(users, RoomOf(rooms, room), currentUser)
      ensures |names| == |users| && forall i :: 0 <= i < |users| ==> names[i] == users[i].name
    {
      var us := GetTypingUsersForRoom(room, now);
      users, names := us, [];
      for i := 0 to |us|
        invariant |names| == i && forall k :: 0 <= k < i ==> names[k] == us[k].name
      {
        names := names + [us[i].name];
      }
    }

    /** The sync handler of a typing event; `names` are the display names of the users. */
    method OnTyping(room: string, users: seq<string>, names: string -> string, now: int)
      requires Keyed(rooms)
      modifies this
      ensures Keyed(rooms)
      ensures RoomOf(rooms, room) == Announced(users, now, names)
      ensures forall other :: other != room ==> RoomOf(rooms, other) == RoomOf(old(rooms), other)
    {
      StartAll(room, users, names, now);
      StopOthers(room, users, now);
    }

    /** The first half of the handler: everyone the event names types. */
    method StartAll(room: string, users: seq<string>, names: string -> string, now: int)
      requires Keyed(rooms)
      modifies this
      ensures Keyed(rooms)
      ensures forall other :: other != room ==> RoomOf(rooms, other) == RoomOf(old(rooms), other)
      ensures RoomOf(rooms, room) == RoomOf(old(rooms), room) + Announced(users, now, names)
    {
      ghost var base := RoomOf(rooms, room);
      for i := 0 to |users|
        invariant rooms == if i == 0 then old(rooms) else old(rooms)[room := base + Announced(users[..i], now, names)]
      {
        AnnouncedMore(base, users, i, now, names);
        assert RoomOf(rooms, room) == base + Announced(users[..i], now, names);
        SetTyping(room, users[i], names(users[i]), true, TIMEOUT, now);
      }
      assert users[..|users|] == users;
      SetKeepsKeyed(old(rooms), room, base + Announced(users, now, names));
    }

    /** The second half of the handler: everyone in the room whom the event does not name stops. */
    method StopOthers(room: string, users: seq<string>, now: int)
      requires Keyed(rooms)
      modifies this
      ensures Keyed(rooms)
      ensures forall other :: other != room ==> RoomOf(rooms, other) == RoomOf(old(rooms), other)
      ensures RoomOf(rooms, room) == map u | u in RoomOf(old(rooms), room) && u in users :: RoomOf(old(rooms), room)[u]
    {
      var todo := (if room in rooms then rooms[room] else map[]).Keys;
      while todo != {}
        invariant todo <= RoomOf(old(rooms), room).Keys
        invariant forall other :: other != room ==> RoomOf(rooms, other) == RoomOf(old(rooms), other)
        invariant forall u :: u in RoomOf(rooms, room) <==> u in RoomOf(old(rooms), room) && (u in todo || u in users)
        invariant forall u :: u in RoomOf(rooms, room) ==> RoomOf(rooms, room)[u] == RoomOf(old(rooms), room)[u]
        invariant Keyed(rooms)
        decreases todo
      {
        var existing :| existing in todo;
        var isStillTyping := false;
        for i := 0 to |users|
          invariant isStillTyping <==> existing in users[..i]
        {
          if users[i] == existing {
            isStillTyping := true;
            break;
          }
        }
        if !isStillTyping {
          SetTyping(room, existing, "", false, 0, now);
        }
        todo := todo - {existing};
      }
    }
  }

  // ---------------------------------------------------------------- histories

  datatype Event =
    | Typed(room: string, users: seq<string>, at: int)     // a typing event arrives
    | Asked(room: string, at: int)                          // someone asks, or listeners are notified

  function After(rooms: Rooms, e: Event, names: string -> string): Rooms {
    match e
    case Typed(room, users, at) => rooms[room := Announced(users, at, names)]
    case Asked(room, at) => Cleaned(rooms, room, at)
  }

  function AfterAll(history: seq<Event>, names: string -> string): Rooms {
    if history == [] then map[] else After(AfterAll(history[..|history| - 1], names), history[|history| - 1], names)
  }

  predicate Monotone(history: seq<Event>) {
    forall i, j :: 0 <= i <= j < |history| ==> history[i].at <= history[j].at
  }

  /** The latest typing event of a room. */
  function Latest(history: seq<Event>, room: string): Option<Event> {
    if history == [] then None
    else
      var e := history[|history| - 1];
      if e.Typed? && e.room == room then Some(e) else Latest(history[..|history| - 1], room)
  }

  /** What the tracker knows of a room: part of what the latest event announced, all of it until the
      timeout. */
  ghost predicate Reflects(r: Room, latest: Option<Event>, now: int, names: string -> string) {
    match latest
    case None => r == map[]
    case Some(Asked(_, _)) => false
    case Some(Typed(_, users, at)) =>
      && (forall u :: u in r ==> u in users && r[u] == TypingUser(u, names(u), at + TIMEOUT))
      && (now <= at + TIMEOUT ==> forall u :: u in users ==> u in r)
  }

  lemma {:induction false} HistoryReflected(history: seq<Event>, room: string, now: int, names: string -> string)
    requires Monotone(history) && forall i :: 0 <= i < |history| ==> history[i].at <= now
    ensures Reflects(RoomOf(AfterAll(history, names), room), Latest(history, room), now, names)
    ensures Latest(history, room).Some? ==> Latest(history, room).value.Typed?
    decreases |history|
  {
    if history != [] {
      var before, e := history[..|history| - 1], history[|history| - 1];
      HistoryReflected(before, room, now, names);
      HistoryReflected(before, room, e.at, names);
    }
  }

  /** Whatever lazy clean-ups ran in between: at time `t` the room shows exactly the users of its latest
      typing event, up to the timeout of that event, and nobody afterwards. */
  lemma {:induction false} ShownAre(history: seq<Event>, room: string, t: int, names: string -> string)
    requires Monotone(history) && forall i :: 0 <= i < |history| ==> history[i].at <= t
    ensures var shown := RoomOf(Cleaned(AfterAll(history, names), room, t), room);
            var latest := Latest(history, room);
            var until := if latest.Some? then latest.value.at + 30_000_000_000 else 0;
      && (forall u :: u in shown <==> latest.Some? && latest.value.Typed? && t <= until && u in latest.value.users)
      && (forall u :: u in shown ==> shown[u] == TypingUser(u, names(u), until))
  {
    HistoryReflected(history, room, t, names);
  }
}
