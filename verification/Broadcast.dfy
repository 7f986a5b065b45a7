/** The in-memory adapter (broadcast.go): rooms of connections, changed in place. What a room holds is given by
    `Members`; with no empty room kept, that determines the whole map. */
module Broadcast {

  /** Connections go by an id, unique among the connections of the adapter. */
  type Rooms<C> = map<string, set<C>>

  function Members<C(==)>(rooms: Rooms<C>, room: string): set<C> {
    if room in rooms then rooms[room] else {}
  }

  /** No room is kept without a connection in it. */
  ghost predicate Tidy<C>(rooms: Rooms<C>) {
    forall room :: room in rooms ==> rooms[room] != {}
  }

  function Joined<C(==)>(rooms: Rooms<C>, room: string, c: C): Rooms<C> {
    rooms[room := Members(rooms, room) + {c}]
  }

  function Left<C(==)>(rooms: Rooms<C>, room: string, c: C): Rooms<C> {
    if Members(rooms, room) - {c} == {} then rooms - {room} else rooms[room := rooms[room] - {c}]
  }

  function LeftAll<C(==)>(rooms: Rooms<C>, c: C): Rooms<C> {
    map room | room in rooms && rooms[room] - {c} != {} :: rooms[room] - {c}
  }

  function Cleared<C(==)>(rooms: Rooms<C>, room: string): Rooms<C> { rooms - {room} }

  /** The membership each change leaves, room by room. */
  lemma ChangesMembers<C>(rooms: Rooms<C>, room: string, c: C, r: string)
    requires Tidy(rooms)
    ensures Tidy(Joined(rooms, room, c)) && Tidy(Left(rooms, room, c))
    ensures Tidy(LeftAll(rooms, c)) && Tidy(Cleared(rooms, room))
    ensures Members(Joined(rooms, room, c), r) == Members(rooms, r) + (if r == room then {c} else {})
    ensures Members(Left(rooms, room, c), r) == Members(rooms, r) - (if r == room then {c} else {})
    ensures Members(LeftAll(rooms, c), r) == Members(rooms, r) - {c}
    ensures Members(Cleared(rooms, room), r) == if r == room then {} else Members(rooms, r)
  {
    assert r in rooms ==> r in LeftAll(rooms, c) || rooms[r] - {c} == {};
  }

  /** Two tidy maps with the same membership are the same map. */
  lemma SameMembers<C>(a: Rooms<C>, b: Rooms<C>)
    requires Tidy(a) && Tidy(b) && forall r :: Members(a, r) == Members(b, r)
    ensures a == b
  {
    forall r ensures r in a <==> r in b {
      assert Members(a, r) == Members(b, r);
    }
    forall r | r in a ensures a[r] == b[r] {
      assert Members(a, r) == Members(b, r);
    }
  }

  /** A copy of an event for a connection, by way of one of its rooms. */
  type Target<C> = (string, C)

  /** Those an event for one room reaches. */
  function RoomTargets<C(==)>(rooms: Rooms<C>, room: string): set<Target<C>> {
    set c | c in Members(rooms, room) :: (room, c)
  }

  /** Those an event for all rooms reaches: a connection once for each of its rooms. */
  function AllTargets<C(==)>(rooms: Rooms<C>): set<Target<C>> {
    set room, c | room in rooms && c in rooms[room] :: (room, c)
  }

  lemma TargetsAreMembers<C>(rooms: Rooms<C>, room: string, x: Target<C>)
    ensures x in RoomTargets(rooms, room) <==> x.0 == room && x.1 in Members(rooms, room)
    ensures x in AllTargets(rooms) <==> x.1 in Members(rooms, x.0)
  {
  }

  function TargetsIn<C(==)>(rooms: Rooms<C>, names: set<string>): set<Target<C>> {
    set room, c | room in names && room in rooms && c in rooms[room] :: (room, c)
  }

  lemma OneMoreRoom<C>(rooms: Rooms<C>, names: set<string>, room: string)
    requires room !in names
    ensures multiset(TargetsIn(rooms, names + {room}))
         == multiset(TargetsIn(rooms, names)) + multiset(RoomTargets(rooms, room))
  {
    var (a, b) := (TargetsIn(rooms, names), RoomTargets(rooms, room));
    assert a !! b;
    assert TargetsIn(rooms, names + {room}) == a + b;
  }

  class Adapter<C(==)> {
    var rooms: Rooms<C>
    var emitted: multiset<Target<C>>

    ghost predicate Valid()
      reads this
    {
      Tidy(rooms)
    }

    constructor ()
      ensures Valid() && rooms == map[] && emitted == multiset{}
    {
      rooms, emitted := map[], multiset{};
    }

    method Join(room: string, c: C)
      requires Valid()
      modifies this`rooms
      ensures Valid() && rooms == Joined(old(rooms), room, c)
    {
      if room !in rooms {
        rooms := rooms[room := {}];
      }
      rooms := rooms[room := rooms[room] + {c}];
    }

    method Leave(room: string, c: C)
      requires Valid()
      modifies this`rooms
      ensures Valid() && rooms == Left(old(rooms), room, c)
    {
      if room in rooms {
        DeleteFrom(room, c);
      }
    }

    /** Takes a connection out of a room, and the room away once it is empty. */
    method DeleteFrom(room: string, c: C)
      requires room in rooms
      modifies this`rooms
      ensures rooms == Left(old(rooms), room, c)
    {
      rooms := rooms[room := rooms[room] - {c}];
      if rooms[room] == {} {
        rooms := rooms - {room};
      }
    }

    method LeaveAll(c: C)
      requires Valid()
      modifies this`rooms
      ensures Valid() && rooms == LeftAll(old(rooms), c)
    {
      var todo := rooms.Keys;
      while todo != {}
        invariant todo <= rooms.Keys <= old(rooms).Keys
        invariant forall r :: r in old(rooms) ==>
                    Members(rooms, r) == if r in todo then old(rooms)[r] else old(rooms)[r] - {c}
        invariant Tidy(rooms)
        decreases todo
      {
        var room :| room in todo;
        ghost var before := rooms;
        DeleteFrom(room, c);
        todo := todo - {room};
        forall r | r in old(rooms)
          ensures Members(rooms, r) == if r in todo then old(rooms)[r] else old(rooms)[r] - {c}
        {
          assert Members(before, r) == if r in todo + {room} then old(rooms)[r] else old(rooms)[r] - {c};
          ChangesMembers(before, room, c, r);
        }
      }
      forall r ensures Members(rooms, r) == Members(LeftAll(old(rooms), c), r) {
        ChangesMembers(old(rooms), r, c, r);
      }
      ChangesMembers(old(rooms), "", c, "");
      SameMembers(rooms, LeftAll(old(rooms), c));
    }

    method Clear(room: string)
      requires Valid()
      modifies this`rooms
      ensures Valid() && rooms == Cleared(old(rooms), room)
      ensures forall r :: Members(rooms, r) == if r == room then {} else Members(old(rooms), r)
    {
      rooms := rooms - {room};
    }

    /** One `Emit` for each connection in the room. */
    method Send(room: string)
      requires Valid()
      modifies this`emitted
      ensures emitted == old(emitted) + multiset(RoomTargets(rooms, room))
    {
      var todo := Members(rooms, room);
      ghost var done: set<Target<C>> := {};
      while todo != {}
        invariant todo <= Members(rooms, room)
        invariant done == set c | c in Members(rooms, room) - todo :: (room, c)
        invariant emitted == old(emitted) + multiset(done)
        decreases todo
      {
        var c :| c in todo;
        emitted := emitted + multiset{(room, c)};
        done := done + {(room, c)};
        todo := todo - {c};
      }
      assert done == RoomTargets(rooms, room);
    }

    /** One `Emit` for each connection in each room. */
    method SendAll()
      requires Valid()
      modifies this`emitted
      ensures emitted == old(emitted) + multiset(AllTargets(rooms))
    {
      var todo := rooms.Keys;
      while todo != {}
        invariant todo <= rooms.Keys
        invariant emitted == old(emitted) + multiset(TargetsIn(rooms, rooms.Keys - todo))
        decreases todo
      {
        var room :| room in todo;
        OneMoreRoom(rooms, rooms.Keys - todo, room);
        assert rooms.Keys - (todo - {room}) == rooms.Keys - todo + {room};
        Send(room);
        todo := todo - {room};
      }
      assert TargetsIn(rooms, rooms.Keys) == AllTargets(rooms);
    }

    method Len(room: string) returns (n: nat)
      ensures n == |Members(rooms, room)|
    {
      n := if room in rooms then |rooms[room]| else 0;
    }

    method AllRooms() returns (names: set<string>)
      requires Valid()
      ensures forall r :: r in names <==> Members(rooms, r) != {}
    {
      names := rooms.Keys;
    }

    method RoomsOf(c: C) returns (names: set<string>)
      ensures forall r :: r in names <==> c in Members(rooms, r)
    {
      names := {};
      var todo := rooms.Keys;
      while todo != {}
        invariant todo <= rooms.Keys
        invariant forall r :: r in names <==> r in rooms.Keys - todo && c in rooms[r]
        decreases todo
      {
        var room :| room in todo;
        if c in rooms[room] {
          names := names + {room};
        }
        todo := todo - {room};
      }
    }
  }
}
