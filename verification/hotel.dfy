/** The hotel's rooms, floors, guests and reservations as the front end and the
    seed script hold them, and the 5 x 4 room grid they all start from. */
module Hotel {
  import opened Text

  const FREE: string := "free"
  const RESERVED: string := "reserved"
  const OCCUPIED: string := "occupied"

  /** The three status texts are different. */
  lemma StatusesDistinct()
    ensures FREE != RESERVED && FREE != OCCUPIED && RESERVED != OCCUPIED
  {
    assert |FREE| != |RESERVED| && |FREE| != |OCCUPIED|;
    assert RESERVED[0] != OCCUPIED[0];
  }

  const FLOOR_COUNT: nat := 5
  const ROOMS_PER_FLOOR: nat := 4

  /** A checked-in guest. A text field the source leaves out, or sets to null or "", is "";
      every reader treats those alike (`x || ''`). */
  datatype Guest = Guest(
    name: string, contact: string, id: string,
    checkIn: string, checkInDate: string, checkInTime: string,
    rate: Option<int>, edited: bool)

  /** Who a room is held for, and from which day. */
  datatype ReservedFor = ReservedFor(name: string, from: string)

  /** One room. `status` is kept as text: any value other than "occupied" or
      "reserved" is shown as free. `None` stands for a null or missing field. */
  datatype Room = Room(
    number: int, status: string, rate: Option<int>,
    guest: Option<Guest>, reservedFor: Option<ReservedFor>)

  /** One entry of the `floors` object: the floor number it is keyed by and its rooms. */
  datatype Floor = Floor(key: nat, rooms: seq<Room>)

  /** A reservation; `room` holds what `Number(form.room)` gave. */
  datatype Reservation = Reservation(name: string, place: string, room: JsNum, date: string)

  /** The state the front desk pages share. */
  datatype Desk = Desk(floors: seq<Floor>, reservations: seq<Reservation>)

  /** `Object.values(floors).flat()`. */
  function AllRooms(floors: seq<Floor>): (r: seq<Room>)
    ensures |floors| == 0 ==> r == []
  {
    if |floors| == 0 then [] else AllRooms(floors[..|floors| - 1]) + floors[|floors| - 1].rooms
  }

  lemma AllRoomsSnoc(floors: seq<Floor>, i: nat)
    requires i < |floors|
    ensures AllRooms(floors[..i + 1]) == AllRooms(floors[..i]) + floors[i].rooms
  {
    assert floors[..i + 1][..i] == floors[..i];
  }

  /** `floors[f].map(g)` for every floor: keys kept, each room replaced by `g` of itself. */
  function MapRooms(floors: seq<Floor>, g: Room -> Room): (r: seq<Floor>)
    ensures SameShape(r, floors)
    ensures forall f, i :: 0 <= f < |r| && 0 <= i < |r[f].rooms| ==> r[f].rooms[i] == g(floors[f].rooms[i])
  {
    seq(|floors|, f requires 0 <= f < |floors| =>
      Floor(floors[f].key, seq(|floors[f].rooms|, i requires 0 <= i < |floors[f].rooms| => g(floors[f].rooms[i]))))
  }

  /** `floors[f][i] = room`, with `f` and `i` positions (0-based). */
  function SetRoom(floors: seq<Floor>, f: nat, i: nat, room: Room): (r: seq<Floor>)
    requires f < |floors| && i < |floors[f].rooms|
    ensures SameShape(r, floors)
    ensures forall g, j :: 0 <= g < |r| && 0 <= j < |r[g].rooms| ==>
      r[g].rooms[j] == (if g == f && j == i then room else floors[g].rooms[j])
  {
    floors[f := Floor(floors[f].key, floors[f].rooms[i := room])]
  }

  /** The position of the floor keyed `key` (`floors[key]`), if there is one. */
  function FloorIndex(floors: seq<Floor>, key: nat): (r: Option<nat>)
    ensures r.Some? ==> r.value < |floors| && floors[r.value].key == key &&
                        (forall f :: 0 <= f < r.value ==> floors[f].key != key)
    ensures r.None? ==> forall f :: 0 <= f < |floors| ==> floors[f].key != key
  {
    if |floors| == 0 then None
    else if floors[0].key == key then Some(0)
    else
      var r := FloorIndex(floors[1..], key);
      if r.Some? then Some(r.value + 1) else None
  }

  /** `reservations.some(r => r.room === number && r.date === date)`. */
  predicate ReservedOn(reservations: seq<Reservation>, number: int, date: string) {
    exists i :: 0 <= i < |reservations| && reservations[i].date == date && StrictEq(reservations[i].room, Num(number))
  }

  /** Only the rooms' contents change: same floor keys, same room counts. */
  predicate SameShape(a: seq<Floor>, b: seq<Floor>) {
    |a| == |b| &&
    forall f :: 0 <= f < |a| ==> a[f].key == b[f].key && |a[f].rooms| == |b[f].rooms|
  }

  /** Room `r` (1-based) of floor `f` (1-based) in a fresh grid. */
  function GridRoom(f: nat, r: nat, rate: Option<int>): Room {
    Room(f * 100 + r, FREE, rate, None, None)
  }

  /** The fresh grid: five floors keyed 1..5 with rooms f*100+1 .. f*100+4, all free. */
  predicate IsEmptyGrid(floors: seq<Floor>, rate: Option<int>) {
    |floors| == FLOOR_COUNT &&
    forall f :: 0 <= f < FLOOR_COUNT ==>
      floors[f].key == f + 1 && |floors[f].rooms| == ROOMS_PER_FLOOR &&
      forall r :: 0 <= r < ROOMS_PER_FLOOR ==> floors[f].rooms[r] == GridRoom(f + 1, r + 1, rate)
  }

  /** The fresh grid as a value. */
  function Grid(rate: Option<int>): (r: seq<Floor>)
    ensures IsEmptyGrid(r, rate)
  {
    seq(FLOOR_COUNT, f requires 0 <= f < FLOOR_COUNT =>
      Floor(f + 1, seq(ROOMS_PER_FLOOR, r requires 0 <= r < ROOMS_PER_FLOOR => GridRoom(f + 1, r + 1, rate))))
  }

  /** There is only one fresh grid for a rate. */
  lemma EmptyGridUnique(floors: seq<Floor>, rate: Option<int>)
    requires IsEmptyGrid(floors, rate)
    ensures floors == Grid(rate)
  {
    var g := Grid(rate);
    forall f | 0 <= f < FLOOR_COUNT
      ensures floors[f] == g[f]
    {
      assert floors[f].rooms == g[f].rooms;
    }
  }

  /** The nested loops that build the fresh grid. */
  method EmptyFloors(rate: Option<int>) returns (floors: seq<Floor>)
    ensures IsEmptyGrid(floors, rate)
  {
    floors := [];
    var f := 1;
    while f <= FLOOR_COUNT
      invariant 1 <= f <= FLOOR_COUNT + 1 && |floors| == f - 1
      invariant forall g :: 0 <= g < f - 1 ==>
        floors[g].key == g + 1 && |floors[g].rooms| == ROOMS_PER_FLOOR &&
        forall r :: 0 <= r < ROOMS_PER_FLOOR ==> floors[g].rooms[r] == GridRoom(g + 1, r + 1, rate)
    {
      var rooms: seq<Room> := [];
      var r := 1;
      while r <= ROOMS_PER_FLOOR
        invariant 1 <= r <= ROOMS_PER_FLOOR + 1 && |rooms| == r - 1
        invariant forall i :: 0 <= i < r - 1 ==> rooms[i] == GridRoom(f, i + 1, rate)
      {
        rooms := rooms + [Room(f * 100 + r, FREE, rate, None, None)];
        r := r + 1;
      }
      floors := floors + [Floor(f, rooms)];
      f := f + 1;
    }
  }

  /** Grid rooms have distinct numbers, and a room's number tells its floor and place:
      the number divided by 100 is the floor, the remainder its position. */
  lemma GridNumbersDistinct(f1: nat, r1: nat, f2: nat, r2: nat, rate: Option<int>)
    requires 1 <= r1 <= 99 && 1 <= r2 <= 99
    ensures GridRoom(f1, r1, rate).number / 100 == f1 && GridRoom(f1, r1, rate).number % 100 == r1
    ensures GridRoom(f1, r1, rate).number == GridRoom(f2, r2, rate).number ==> f1 == f2 && r1 == r2
  {
  }

  /** `String(number)[0]` names the floor of every grid room on floors 1..9 —
      the digit the disk loader uses to find a room's floor. */
  lemma GridFloorDigit(f: nat, r: nat)
    requires 1 <= f <= 9 && 1 <= r <= 99
    ensures IntToString(f * 100 + r)[0] == DigitChar(f)
  {
    var n := f * 100 + r;
    assert n / 10 >= 10;
    assert NatToString(n) == NatToString(n / 10) + [DigitChar(n % 10)];
    assert NatToString(n / 10) == NatToString(n / 100) + [DigitChar((n / 10) % 10)];
    assert n / 10 / 10 == f;
  }
}
