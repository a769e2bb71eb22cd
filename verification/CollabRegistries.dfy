/** The registries of open connections (service.go). */
module CollabRegistries {

  type Counts = map<string, nat>

  /** Connections by room, and by user and room. */
  datatype Registry = Registry(active: Counts, userRooms: map<string, Counts>)

  /** A connection that has been counted. `handle` numbers its editor release
      closure, which has not run while it is open. */
  datatype Connection = Connection(musicId: int, epoch: int, room: string, username: string, handle: nat, open: bool)

  function CountOf(counts: Counts, room: string): nat {
    if room in counts then counts[room] else 0
  }

  function PairCount(userRooms: map<string, Counts>, username: string, room: string): nat {
    if username in userRooms then CountOf(userRooms[username], room) else 0
  }

  function Decremented(counts: Counts, room: string): Counts {
    if CountOf(counts, room) <= 1 then counts - {room} else counts[room := counts[room] - 1]
  }

  function Track(reg: Registry, room: string, username: string): Registry {
    var rooms := if username in reg.userRooms then reg.userRooms[username] else map[];
    Registry(reg.active[room := CountOf(reg.active, room) + 1],
             reg.userRooms[username := rooms[room := CountOf(rooms, room) + 1]])
  }

  function Untrack(reg: Registry, room: string, username: string): Registry {
    Registry(Decremented(reg.active, room),
             if username !in reg.userRooms then reg.userRooms
             else
               var rooms := Decremented(reg.userRooms[username], room);
               if rooms == map[] then reg.userRooms - {username} else reg.userRooms[username := rooms])
  }

  // ---- counting ----

  function InRoom(connections: seq<Connection>, room: string): nat {
    if connections == [] then 0
    else InRoom(connections[1..], room) + (if connections[0].room == room then 1 else 0)
  }

  function OfUser(connections: seq<Connection>, username: string, room: string): nat {
    if connections == [] then 0
    else OfUser(connections[1..], username, room)
         + (if connections[0].room == room && connections[0].username == username then 1 else 0)
  }

  lemma {:induction false} CountsSplit(a: seq<Connection>, b: seq<Connection>, username: string, room: string)
    ensures InRoom(a + b, room) == InRoom(a, room) + InRoom(b, room)
    ensures OfUser(a + b, username, room) == OfUser(a, username, room) + OfUser(b, username, room)
  {
    if a == [] {
      assert a + b == b;
    } else {
      assert (a + b)[1..] == a[1..] + b && (a + b)[0] == a[0];
      CountsSplit(a[1..], b, username, room);
    }
  }

  lemma CountsOne(c: Connection, username: string, room: string)
    ensures InRoom([c], room) == if c.room == room then 1 else 0
    ensures OfUser([c], username, room) == if c.room == room && c.username == username then 1 else 0
  {
    assert [c][1..] == [];
  }

  lemma CountsWithout(connections: seq<Connection>, index: nat, username: string, room: string)
    requires index < |connections|
    ensures var rest, c := connections[..index] + connections[index + 1..], connections[index];
            && InRoom(connections, room) == InRoom(rest, room) + (if c.room == room then 1 else 0)
            && OfUser(connections, username, room)
               == OfUser(rest, username, room) + (if c.room == room && c.username == username then 1 else 0)
  {
    var c := connections[index];
    assert connections == connections[..index] + ([c] + connections[index + 1..]);
    CountsSplit(connections[..index], [c] + connections[index + 1..], username, room);
    CountsSplit([c], connections[index + 1..], username, room);
    CountsOne(c, username, room);
    CountsSplit(connections[..index], connections[index + 1..], username, room);
  }

  ghost function Pick(users: set<string>): (u: string)
    requires users != {}
    ensures u in users
  {
    var u :| u in users;
    u
  }

  /** Sum over a set of users of their count for one room. */
  ghost function UserSum(userRooms: map<string, Counts>, users: set<string>, room: string): nat
    decreases |users|
  {
    if users == {} then 0
    else
      var u := Pick(users);
      PairCount(userRooms, u, room) + UserSum(userRooms, users - {u}, room)
  }

  lemma {:induction false} UserSumPick(userRooms: map<string, Counts>, users: set<string>, u: string, room: string)
    requires u in users
    ensures UserSum(userRooms, users, room) == PairCount(userRooms, u, room) + UserSum(userRooms, users - {u}, room)
    decreases |users|
  {
    var v := Pick(users);
    if v != u {
      UserSumPick(userRooms, users - {v}, u, room);
      UserSumPick(userRooms, users - {u}, v, room);
      assert users - {v} - {u} == users - {u} - {v};
    }
  }

  /** Changing one user's rooms changes the sum by that user's change. */
  lemma {:induction false} UserSumChange(before: map<string, Counts>, after: map<string, Counts>, users: set<string>, u: string, room: string)
    requires forall v :: v in users && v != u ==> PairCount(after, v, room) == PairCount(before, v, room)
    ensures u in users ==>
              UserSum(after, users, room) + PairCount(before, u, room) == UserSum(before, users, room) + PairCount(after, u, room)
    ensures u !in users ==> UserSum(after, users, room) == UserSum(before, users, room)
    decreases |users|
  {
    if users != {} {
      var v :| v in users;
      UserSumPick(before, users, v, room);
      UserSumPick(after, users, v, room);
      UserSumChange(before, after, users - {v}, u, room);
    }
  }

  lemma {:induction false} UserSumExtend(userRooms: map<string, Counts>, users: set<string>, more: set<string>, room: string)
    requires users <= more && forall v :: v in more - users ==> PairCount(userRooms, v, room) == 0
    ensures UserSum(userRooms, more, room) == UserSum(userRooms, users, room)
    decreases |more|
  {
    var rest := more - users;
    assert more == users + rest;
    if rest != {} {
      var v := Pick(rest);
      UserSumPick(userRooms, more, v, room);
      UserSumExtend(userRooms, users, more - {v}, room);
    } else {
      assert users + rest == users;
    }
  }

  ghost function RoomSum(reg: Registry, room: string): nat {
    UserSum(reg.userRooms, reg.userRooms.Keys, room)
  }

  ghost predicate SumLaw(reg: Registry) {
    forall room :: CountOf(reg.active, room) == RoomSum(reg, room)
  }

  lemma TrackCounts(reg: Registry, room: string, username: string)
    ensures var reg' := Track(reg, room, username);
            && (forall r :: CountOf(reg'.active, r) == CountOf(reg.active, r) + (if r == room then 1 else 0))
            && (forall u, r :: PairCount(reg'.userRooms, u, r)
                               == PairCount(reg.userRooms, u, r) + (if u == username && r == room then 1 else 0))
  {}

  function Less(n: nat): nat {
    if n == 0 then 0 else n - 1
  }

  lemma DecrementedCounts(counts: Counts, room: string)
    ensures forall r :: CountOf(Decremented(counts, room), r) == if r == room then Less(CountOf(counts, r)) else CountOf(counts, r)
  {}

  lemma UntrackCounts(reg: Registry, room: string, username: string)
    ensures var reg' := Untrack(reg, room, username);
            && (forall r :: CountOf(reg'.active, r) == if r == room then Less(CountOf(reg.active, r)) else CountOf(reg.active, r))
            && (forall u, r :: PairCount(reg'.userRooms, u, r)
                               == if u == username && r == room then Less(PairCount(reg.userRooms, u, r)) else PairCount(reg.userRooms, u, r))
  {
    DecrementedCounts(reg.active, room);
    if username in reg.userRooms {
      DecrementedCounts(reg.userRooms[username], room);
      assert forall r :: CountOf(map[], r) == 0;
    }
  }

  /** Both registries count these connections. */
  ghost predicate Counted(reg: Registry, connections: seq<Connection>) {
    && (forall room :: CountOf(reg.active, room) == InRoom(connections, room))
    && (forall u, room :: PairCount(reg.userRooms, u, room) == OfUser(connections, u, room))
  }

  lemma TrackKeepsCounted(reg: Registry, connections: seq<Connection>, c: Connection)
    requires Counted(reg, connections)
    ensures Counted(Track(reg, c.room, c.username), connections + [c])
  {
    TrackCounts(reg, c.room, c.username);
    forall room ensures InRoom(connections + [c], room) == InRoom(connections, room) + (if room == c.room then 1 else 0) {
      CountsSplit(connections, [c], "", room);
      CountsOne(c, "", room);
    }
    forall u, room
      ensures OfUser(connections + [c], u, room)
           == OfUser(connections, u, room) + (if room == c.room && u == c.username then 1 else 0)
    {
      CountsSplit(connections, [c], u, room);
      CountsOne(c, u, room);
    }
  }

  lemma UntrackKeepsCounted(reg: Registry, connections: seq<Connection>, index: nat)
    requires Counted(reg, connections) && index < |connections|
    ensures var c := connections[index];
            Counted(Untrack(reg, c.room, c.username), connections[..index] + connections[index + 1..])
  {
    var c, rest := connections[index], connections[..index] + connections[index + 1..];
    UntrackCounts(reg, c.room, c.username);
    forall room ensures InRoom(connections, room) == InRoom(rest, room) + (if c.room == room then 1 else 0) {
      CountsWithout(connections, index, "", room);
    }
    forall u, room
      ensures OfUser(connections, u, room) == OfUser(rest, u, room) + (if c.room == room && c.username == u then 1 else 0)
    {
      CountsWithout(connections, index, u, room);
    }
  }

  /** Closing a connection does not change where it is counted. */
  lemma {:induction false} ClosingKeepsCounts(connections: seq<Connection>, index: nat, username: string, room: string)
    requires index < |connections|
    ensures var closed := connections[index := connections[index].(open := false)];
            InRoom(closed, room) == InRoom(connections, room) && OfUser(closed, username, room) == OfUser(connections, username, room)
  {
    var closed := connections[index := connections[index].(open := false)];
    if index == 0 {
      assert closed[1..] == connections[1..];
    } else {
      assert closed[1..] == connections[1..][index - 1 := connections[index].(open := false)];
      ClosingKeepsCounts(connections[1..], index - 1, username, room);
    }
  }

  predicate Positive(counts: Counts) {
    forall room :: room in counts ==> counts[room] > 0
  }

  /** Nothing is kept for rooms and users without connections. */
  predicate Tight(reg: Registry) {
    && Positive(reg.active)
    && forall u :: u in reg.userRooms ==> reg.userRooms[u] != map[] && Positive(reg.userRooms[u])
  }

  lemma TrackKeepsTight(reg: Registry, room: string, username: string)
    requires Tight(reg)
    ensures Tight(Track(reg, room, username))
  {
    var rooms := Track(reg, room, username).userRooms[username];
    assert room in rooms;
  }

  lemma DecrementedIsPositive(counts: Counts, room: string)
    requires Positive(counts)
    ensures Positive(Decremented(counts, room))
  {}

  lemma UntrackKeepsTight(reg: Registry, room: string, username: string)
    requires Tight(reg)
    ensures Tight(Untrack(reg, room, username))
  {
    DecrementedIsPositive(reg.active, room);
    if username in reg.userRooms {
      DecrementedIsPositive(reg.userRooms[username], room);
    }
  }

  lemma {:induction false} SomeoneIsThere(connections: seq<Connection>, username: string, room: string)
    ensures InRoom(connections, room) > 0 <==> exists i :: 0 <= i < |connections| && connections[i].room == room
    ensures OfUser(connections, username, room) > 0
       <==> exists i :: 0 <= i < |connections| && connections[i].room == room && connections[i].username == username
  {
    if connections != [] {
      var rest := connections[1..];
      SomeoneIsThere(rest, username, room);
      assert forall i :: 0 <= i < |rest| ==> rest[i] == connections[i + 1];
      assert forall i :: 0 < i < |connections| ==> connections[i] == rest[i - 1];
    }
  }

  /** A room is listed exactly while it has a connection, and under a user
      exactly while that user has one there. */
  lemma ListedExactly(reg: Registry, connections: seq<Connection>, username: string, room: string)
    requires Counted(reg, connections) && Tight(reg)
    ensures room in reg.active <==> exists i :: 0 <= i < |connections| && connections[i].room == room
    ensures username in reg.userRooms && room in reg.userRooms[username]
       <==> exists i :: 0 <= i < |connections| && connections[i].room == room && connections[i].username == username
    ensures username in reg.userRooms <==> exists i :: 0 <= i < |connections| && connections[i].username == username
  {
    SomeoneIsThere(connections, username, room);
    assert CountOf(reg.active, room) == InRoom(connections, room);
    assert PairCount(reg.userRooms, username, room) == OfUser(connections, username, room);
    if username in reg.userRooms {
      var r :| r in reg.userRooms[username];
      SomeoneIsThere(connections, username, r);
      assert PairCount(reg.userRooms, username, r) == OfUser(connections, username, r);
    }
    if i :| 0 <= i < |connections| && connections[i].username == username {
      SomeoneIsThere(connections, username, connections[i].room);
      assert PairCount(reg.userRooms, username, connections[i].room) == OfUser(connections, username, connections[i].room);
    }
  }

  /** Registries that count the same connections agree: active[room] is the
      sum over all users. */
  lemma CountedMeansSum(reg: Registry, connections: seq<Connection>, room: string)
    requires Counted(reg, connections)
    ensures CountOf(reg.active, room) == RoomSum(reg, room)
  {
    var users := reg.userRooms.Keys + set i | 0 <= i < |connections| :: connections[i].username;
    SumOfConnections(reg, connections, users, room);
    forall v | v in users - reg.userRooms.Keys ensures PairCount(reg.userRooms, v, room) == 0 {}
    UserSumExtend(reg.userRooms, reg.userRooms.Keys, users, room);
  }

  lemma {:induction false} SumOfConnections(reg: Registry, connections: seq<Connection>, users: set<string>, room: string)
    requires forall i :: 0 <= i < |connections| ==> connections[i].username in users
    requires forall u :: PairCount(reg.userRooms, u, room) == OfUser(connections, u, room)
    ensures UserSum(reg.userRooms, users, room) == InRoom(connections, room)
    decreases |connections|
  {
    if connections == [] {
      SumOfZeros(reg.userRooms, users, room);
    } else {
      var c := connections[0];
      var fewer := OneLess(connections, users, room);
      var reg' := reg.(userRooms := fewer);
      SumOfConnections(reg', connections[1..], users, room);
      UserSumChange(fewer, reg.userRooms, users, c.username, room);
    }
  }

  lemma {:induction false} SumOfZeros(userRooms: map<string, Counts>, users: set<string>, room: string)
    requires forall u :: u in users ==> PairCount(userRooms, u, room) == 0
    ensures UserSum(userRooms, users, room) == 0
    decreases |users|
  {
    if users != {} {
      var v :| v in users;
      UserSumPick(userRooms, users, v, room);
      SumOfZeros(userRooms, users - {v}, room);
    }
  }

  /** A registry holding the counts of all but the first connection. */
  ghost function OneLess(connections: seq<Connection>, users: set<string>, room: string): (r: map<string, Counts>)
    requires connections != [] && forall i :: 0 <= i < |connections| ==> connections[i].username in users
    ensures forall u :: PairCount(r, u, room) == OfUser(connections[1..], u, room)
  {
    var r: map<string, Counts> := map u | u in users :: map[room := OfUser(connections[1..], u, room)];
    assert forall u :: u !in users ==> OfUser(connections[1..], u, room) == 0 by {
      forall u | u !in users ensures OfUser(connections[1..], u, room) == 0 {
        Absent0(connections[1..], u, room);
      }
    }
    r
  }

  lemma {:induction false} Absent0(connections: seq<Connection>, username: string, room: string)
    requires forall i :: 0 <= i < |connections| ==> connections[i].username != username
    ensures OfUser(connections, username, room) == 0
  {
    if connections != [] {
      Absent0(connections[1..], username, room);
    }
  }

  /** On its own, untrack keeps the sum law exactly when the pair was tracked or
      the room had no connection at all: ServeHTTP must not call it otherwise. */
  lemma UntrackKeepsSumExactlyWhenTracked(reg: Registry, room: string, username: string)
    requires SumLaw(reg)
    ensures SumLaw(Untrack(reg, room, username))
       <==> PairCount(reg.userRooms, username, room) > 0 || CountOf(reg.active, room) == 0
  {
    var reg' := Untrack(reg, room, username);
    UntrackCounts(reg, room, username);
    var users := reg.userRooms.Keys + {username};
    forall r ensures RoomSum(reg, r) == UserSum(reg.userRooms, users, r) && RoomSum(reg', r) == UserSum(reg'.userRooms, users, r) {
      UserSumExtend(reg.userRooms, reg.userRooms.Keys, users, r);
      UserSumExtend(reg'.userRooms, reg'.userRooms.Keys, users, r);
    }
    forall r ensures UserSum(reg'.userRooms, users, r) + PairCount(reg.userRooms, username, r)
                  == UserSum(reg.userRooms, users, r) + PairCount(reg'.userRooms, username, r)
    {
      UserSumChange(reg.userRooms, reg'.userRooms, users, username, r);
    }
    assert CountOf(reg.active, room) == RoomSum(reg, room);
    UserSumPick(reg.userRooms, users, username, room);
    if PairCount(reg.userRooms, username, room) > 0 || CountOf(reg.active, room) == 0 {
      forall r ensures CountOf(reg'.active, r) == RoomSum(reg', r) {
        assert CountOf(reg.active, r) == RoomSum(reg, r);
      }
    } else {
      assert CountOf(reg'.active, room) != RoomSum(reg', room);
    }
  }
}
