/** The room collection and the REST room handlers. A failed database call
    is an input flag; the `name` field's `trim` setter applies both to the
    stored document and to the `findOne({ name })` filter. */
module RoomStore {
  import opened Common
  import opened Models
  import opened Sequences
  import Validator

  /** Code-point order on strings, which is the order of the store's binary
      string comparison. */
  predicate LexLeq(a: string, b: string)
    decreases |a|
  {
    a == [] || (b != [] && (a[0] < b[0] || (a[0] == b[0] && LexLeq(a[1..], b[1..]))))
  }

  lemma {:induction false} LexLeqTotal(a: string, b: string)
    ensures LexLeq(a, b) || LexLeq(b, a)
    decreases |a|
  {
    if a != [] && b != [] && a[0] == b[0] {
      LexLeqTotal(a[1..], b[1..]);
    }
  }

  lemma {:induction false} LexLeqTransitive(a: string, b: string, c: string)
    requires LexLeq(a, b) && LexLeq(b, c)
    ensures LexLeq(a, c)
    decreases |a|
  {
    if a != [] && b != [] && c != [] && a[0] == b[0] && b[0] == c[0] {
      LexLeqTransitive(a[1..], b[1..], c[1..]);
    }
  }

  lemma {:induction false} LexLeqAntisymmetric(a: string, b: string)
    requires LexLeq(a, b) && LexLeq(b, a)
    ensures a == b
    decreases |a|
  {
    if a != [] && b != [] {
      LexLeqAntisymmetric(a[1..], b[1..]);
      assert a == [a[0]] + a[1..] && b == [b[0]] + b[1..];
    }
  }

  /** `.sort({ name: 1 })`. */
  predicate NameNoLater(a: Room, b: Room) {
    LexLeq(a.name, b.name)
  }

  lemma NameOrderTotal()
    ensures Total(NameNoLater)
  {
    forall a: Room, b: Room ensures NameNoLater(a, b) || NameNoLater(b, a) {
      LexLeqTotal(a.name, b.name);
    }
  }

  /** The listing is ordered by name between any two positions, not only
      between neighbours. */
  lemma AllRoomsOrdered(s: seq<Room>, i: int, j: int)
    requires 0 <= i <= j < |SortBy(s, NameNoLater)|
    ensures LexLeq(SortBy(s, NameNoLater)[i].name, SortBy(s, NameNoLater)[j].name)
  {
    NameOrderTotal();
    SortBySorted(s, NameNoLater);
    forall a: Room, b: Room, c: Room | NameNoLater(a, b) && NameNoLater(b, c)
      ensures NameNoLater(a, c)
    {
      LexLeqTransitive(a.name, b.name, c.name);
    }
    forall a: Room ensures NameNoLater(a, a) {
      LexLeqTotal(a.name, a.name);
    }
    SortedPairwise(SortBy(s, NameNoLater), NameNoLater, i, j);
  }

  predicate NameTaken(rooms: seq<Room>, name: string) {
    exists i :: 0 <= i < |rooms| && rooms[i].name == name
  }

  /** The document `createRoom` builds: `is_private: isPrivate || false`. */
  function RequestedRoom(name: string, description: Option<string>, isPrivate: Option<bool>): (r: Room)
    ensures r.name == Trim(name)
    ensures r.isPrivate <==> isPrivate == Some(true)
  {
    NewRoom(name, description, Some(isPrivate == Some(true)))
  }

  /** The route validator admits names the schema refuses. A room whose
      name passed `validateCreateRoom` saves exactly when its trimmed name
      has at least 3 characters and its trimmed description at most 200 (the
      validator's 50 bounds the trimmed name too, and it never looks at the
      description); so one or two characters pass the validator and fail the
      schema. Conversely a schema-valid name of at most 50 characters always
      passes the validator. */
  lemma ValidatorLooserThanSchema(name: string, description: Option<string>, isPrivate: Option<bool>)
    ensures Validator.ValidateCreateRoom(Some(name)).Next? ==>
              (RoomValid(RequestedRoom(name, description, isPrivate)) <==>
                 3 <= |Trim(name)|
                 && (description.Some? ==> |Trim(description.value)| <= 200))
    ensures (RoomValid(RequestedRoom(name, None, None)) && |name| <= Validator.MaxRoomNameLength)
              ==> Validator.ValidateCreateRoom(Some(name)).Next?
    ensures 1 <= |name| <= 2 ==>
              Validator.ValidateCreateRoom(Some(name)).Next? && !RoomValid(RequestedRoom(name, None, None))
  {
  }

  /** Every stored room passed the schema, and names are unique (the
      `unique` index). */
  ghost predicate RoomsValid(rooms: seq<Room>) {
    && (forall i :: 0 <= i < |rooms| ==> RoomValid(rooms[i]))
    && (forall i, j :: 0 <= i < j < |rooms| ==> rooms[i].name != rooms[j].name)
  }

  /** Adding a schema-valid room under an unused name keeps names unique. */
  lemma AppendKeepsRoomsValid(rooms: seq<Room>, room: Room)
    requires RoomsValid(rooms) && RoomValid(room) && !NameTaken(rooms, room.name)
    ensures RoomsValid(rooms + [room])
  {
  }

  class RoomStore {
    var rooms: seq<Room>

    ghost predicate Valid()
      reads this
    {
      RoomsValid(rooms)
    }

    constructor ()
      ensures Valid() && rooms == []
    {
      rooms := [];
    }

    /** `getAllRooms`: every room, ordered by name, or 500. */
    method GetAllRooms(dbOk: bool) returns (r: Response<seq<Room>>)
      ensures !dbOk ==> r == Response(500, "Server error", None)
      ensures dbOk ==> r.status == 200 && r.data.Some?
      ensures dbOk ==> Sorted(r.data.value, NameNoLater)
      ensures dbOk ==> multiset(r.data.value) == multiset(rooms)
    {
      if !dbOk {
        return Response(500, "Server error", None);
      }
      NameOrderTotal();
      SortBySorted(rooms, NameNoLater);
      r := Response(200, "", Some(SortBy(rooms, NameNoLater)));
    }

    /** `createRoom`: 400 when the (trimmed) name is taken; otherwise the
        room is saved when it passes the schema, and every failure,
        including a schema violation, answers 500. */
    method CreateRoom(name: string, description: Option<string>, isPrivate: Option<bool>,
                      dbOk: bool) returns (r: Response<Room>)
      requires Valid()
      modifies this
      ensures Valid()
      ensures !dbOk ==> r == Response(500, "Server error", None)
      ensures dbOk && NameTaken(old(rooms), Trim(name)) ==>
                r == Response(400, "Room already exists", None)
      ensures dbOk && !NameTaken(old(rooms), Trim(name)) ==>
                var room := RequestedRoom(name, description, isPrivate);
                r == if RoomValid(room) then Response(201, "Room created successfully", Some(room))
                     else Response(500, "Server error", None)
      ensures r.status == 201 ==> rooms == old(rooms) + [r.data.value]
      ensures r.status != 201 ==> rooms == old(rooms)
    {
      if !dbOk {
        return Response(500, "Server error", None);
      }
      var room := RequestedRoom(name, description, isPrivate);
      if NameTaken(rooms, room.name) {
        return Response(400, "Room already exists", None);
      }
      if !RoomValid(room) {
        return Response(500, "Server error", None);
      }
      AppendKeepsRoomsValid(rooms, room);
      rooms := rooms + [room];
      r := Response(201, "Room created successfully", Some(room));
    }
  }
}
