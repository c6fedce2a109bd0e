/** The room summary the owner's live pages derive from a stored state: the
    count of rooms per stored status, and the occupied rooms' guests, latest
    check-in first. The Live Updates page and the public live page compute it
    with the same loops. */
module LiveSummary {
  import opened Text
  import opened Hotel
  import opened Sorting
  import AppRooms

  // ---------------------------------------------------------------------------
  // Counts

  /** The status a room is counted under: its stored status when that is
      "occupied" or "reserved", and "free" for any other text. */
  function StoredStatus(room: Room): (r: string)
    ensures r == OCCUPIED <==> room.status == OCCUPIED
    ensures r == RESERVED <==> room.status == RESERVED
    ensures r == FREE <==> room.status != OCCUPIED && room.status != RESERVED
  {
    StatusesDistinct();
    if room.status == OCCUPIED then OCCUPIED
    else if room.status == RESERVED then RESERVED
    else FREE
  }

  /** The number of rooms counted under `status`. */
  function CountStored(rooms: seq<Room>, status: string): (r: nat)
    ensures r <= |rooms|
  {
    if |rooms| == 0 then 0
    else CountStored(rooms[..|rooms| - 1], status) + (if StoredStatus(rooms[|rooms| - 1]) == status then 1 else 0)
  }

  /** Every room is counted under exactly one of the three statuses. */
  lemma {:induction false} StoredCountsPartition(rooms: seq<Room>)
    ensures CountStored(rooms, FREE) + CountStored(rooms, RESERVED) + CountStored(rooms, OCCUPIED) == |rooms|
    decreases |rooms|
  {
    if |rooms| > 0 {
      StatusesDistinct();
      StoredCountsPartition(rooms[..|rooms| - 1]);
    }
  }

  /** The live pages and the Dashboard count the same rooms as occupied: both go
      by the stored status alone. */
  lemma {:induction false} OccupiedAgreesWithDashboard(rooms: seq<Room>, reservations: seq<Reservation>, today: string)
    ensures CountStored(rooms, OCCUPIED) == AppRooms.CountShown(rooms, OCCUPIED, reservations, today)
    decreases |rooms|
  {
    if |rooms| > 0 {
      OccupiedAgreesWithDashboard(rooms[..|rooms| - 1], reservations, today);
    }
  }

  lemma CountStoredStep(before: seq<Room>, rooms: seq<Room>, i: nat, status: string)
    requires i < |rooms|
    ensures CountStored(before + rooms[..i + 1], status) ==
      CountStored(before + rooms[..i], status) + (if StoredStatus(rooms[i]) == status then 1 else 0)
  {
    var ys := before + rooms[..i];
    assert before + rooms[..i + 1] == ys + [rooms[i]];
    CountStoredSnoc(ys, rooms[i], status);
  }

  lemma CountStoredSnoc(ys: seq<Room>, room: Room, status: string)
    ensures CountStored(ys + [room], status) == CountStored(ys, status) + (if StoredStatus(room) == status then 1 else 0)
  {
    var xs := ys + [room];
    assert xs[..|xs| - 1] == ys;
    assert xs[|xs| - 1] == room;
  }

  /** The inner loop over one floor's rooms, adding to the counts of the rooms `before` it. */
  method CountFloor(rooms: seq<Room>, ghost before: seq<Room>, total0: nat, free0: nat, reserved0: nat, occupied0: nat)
    returns (total: nat, free: nat, reserved: nat, occupied: nat)
    requires total0 == |before| && total0 == free0 + reserved0 + occupied0
    requires free0 == CountStored(before, FREE)
    requires reserved0 == CountStored(before, RESERVED)
    requires occupied0 == CountStored(before, OCCUPIED)
    ensures total == |before + rooms| && total == free + reserved + occupied
    ensures free == CountStored(before + rooms, FREE)
    ensures reserved == CountStored(before + rooms, RESERVED)
    ensures occupied == CountStored(before + rooms, OCCUPIED)
  {
    total, free, reserved, occupied := total0, free0, reserved0, occupied0;
    assert before + rooms[..0] == before;
    var i := 0;
    while i < |rooms|
      invariant 0 <= i <= |rooms|
      invariant total == |before + rooms[..i]| && total == free + reserved + occupied
      invariant free == CountStored(before + rooms[..i], FREE)
      invariant reserved == CountStored(before + rooms[..i], RESERVED)
      invariant occupied == CountStored(before + rooms[..i], OCCUPIED)
    {
      StatusesDistinct();
      CountStoredStep(before, rooms, i, FREE);
      CountStoredStep(before, rooms, i, RESERVED);
      CountStoredStep(before, rooms, i, OCCUPIED);
      total := total + 1;
      if rooms[i].status == OCCUPIED {
        occupied := occupied + 1;
      } else if rooms[i].status == RESERVED {
        reserved := reserved + 1;
      } else {
        free := free + 1;
      }
      i := i + 1;
    }
    assert rooms[..i] == rooms;
  }

  /** The counting loop over every room of every floor. */
  method StatusCounts(floors: seq<Floor>) returns (total: nat, free: nat, reserved: nat, occupied: nat)
    ensures total == |AllRooms(floors)|
    ensures free == CountStored(AllRooms(floors), FREE)
    ensures reserved == CountStored(AllRooms(floors), RESERVED)
    ensures occupied == CountStored(AllRooms(floors), OCCUPIED)
    ensures total == free + reserved + occupied
  {
    total, free, reserved, occupied := 0, 0, 0, 0;
    var f := 0;
    while f < |floors|
      invariant 0 <= f <= |floors|
      invariant total == |AllRooms(floors[..f])| && total == free + reserved + occupied
      invariant free == CountStored(AllRooms(floors[..f]), FREE)
      invariant reserved == CountStored(AllRooms(floors[..f]), RESERVED)
      invariant occupied == CountStored(AllRooms(floors[..f]), OCCUPIED)
    {
      AllRoomsSnoc(floors, f);
      total, free, reserved, occupied := CountFloor(floors[f].rooms, AllRooms(floors[..f]), total, free, reserved, occupied);
      f := f + 1;
    }
    assert floors[..f] == floors;
  }

  // ---------------------------------------------------------------------------
  // Recent check-ins

  /** One entry of the recent list: `{ room: r.number, name: r.guest.name, time: r.guest.checkIn }`. */
  datatype Arrival = Arrival(room: int, name: string, time: string)

  /** An occupied room with a guest in it. */
  predicate Lodged(room: Room) {
    room.status == OCCUPIED && room.guest.Some?
  }

  function ArrivalOf(room: Room): Arrival
    requires room.guest.Some?
  {
    Arrival(room.number, room.guest.value.name, room.guest.value.checkIn)
  }

  /** The entries the push loop gathers from `rooms`, in room order. */
  function Arrivals(rooms: seq<Room>): (r: seq<Arrival>)
    ensures |r| <= |rooms|
  {
    if |rooms| == 0 then []
    else
      var last := rooms[|rooms| - 1];
      Arrivals(rooms[..|rooms| - 1]) + (if Lodged(last) then [ArrivalOf(last)] else [])
  }

  /** The gathered entries are exactly those of the lodged rooms. */
  lemma {:induction false} ArrivalsExactly(rooms: seq<Room>, e: Arrival)
    ensures e in Arrivals(rooms) <==> exists i :: 0 <= i < |rooms| && Lodged(rooms[i]) && e == ArrivalOf(rooms[i])
    decreases |rooms|
  {
    if |rooms| > 0 {
      var init := rooms[..|rooms| - 1];
      ArrivalsExactly(init, e);
      assert forall i :: 0 <= i < |init| ==> init[i] == rooms[i];
      if e in Arrivals(init) {
        var i :| 0 <= i < |init| && Lodged(init[i]) && e == ArrivalOf(init[i]);
        assert Lodged(rooms[i]) && e == ArrivalOf(rooms[i]);
      }
    }
  }

  lemma ArrivalsStep(before: seq<Room>, rooms: seq<Room>, i: nat)
    requires i < |rooms|
    ensures Arrivals(before + rooms[..i + 1]) ==
      Arrivals(before + rooms[..i]) + (if Lodged(rooms[i]) then [ArrivalOf(rooms[i])] else [])
  {
    var xs := before + rooms[..i + 1];
    assert xs[..|xs| - 1] == before + rooms[..i];
  }

  /** `(b.time || '') > (a.time || '')` is false: `a` may stay ahead of `b`. A
      missing check-in time is already "". */
  function NotOlder(a: Arrival, b: Arrival): bool {
    LexLe(b.time, a.time)
  }

  lemma NotOlderTotal()
    ensures Total(NotOlder)
  {
    forall a: Arrival, b: Arrival ensures NotOlder(a, b) || NotOlder(b, a) {
      LexLeTotal(a.time, b.time);
    }
  }

  /** The push loop over every room of every floor, then the sort by time,
      latest first. */
  method RecentCheckins(floors: seq<Floor>) returns (recent: seq<Arrival>)
    ensures multiset(recent) == multiset(Arrivals(AllRooms(floors)))
    ensures Sorted(recent, NotOlder)
  {
    var pushed: seq<Arrival> := [];
    var f := 0;
    while f < |floors|
      invariant 0 <= f <= |floors|
      invariant pushed == Arrivals(AllRooms(floors[..f]))
    {
      AllRoomsSnoc(floors, f);
      ghost var before := AllRooms(floors[..f]);
      var rooms := floors[f].rooms;
      assert before + rooms[..0] == before;
      var i := 0;
      while i < |rooms|
        invariant 0 <= i <= |rooms|
        invariant pushed == Arrivals(before + rooms[..i])
      {
        ArrivalsStep(before, rooms, i);
        var r := rooms[i];
        if r.status == OCCUPIED && r.guest.Some? {
          pushed := pushed + [Arrival(r.number, r.guest.value.name, r.guest.value.checkIn)];
        }
        i := i + 1;
      }
      assert rooms[..i] == rooms;
      f := f + 1;
    }
    assert floors[..f] == floors;
    NotOlderTotal();
    recent := Sort(pushed, NotOlder);
  }

  /** The recent list holds the entry of a room exactly when that room is occupied with a guest. */
  lemma RecentHoldsLodged(floors: seq<Floor>, recent: seq<Arrival>, e: Arrival)
    requires multiset(recent) == multiset(Arrivals(AllRooms(floors)))
    ensures e in recent <==> exists room :: room in AllRooms(floors) && Lodged(room) && e == ArrivalOf(room)
  {
    var rooms := AllRooms(floors);
    assert e in recent <==> e in multiset(recent);
    assert e in Arrivals(rooms) <==> e in multiset(Arrivals(rooms));
    ArrivalsExactly(rooms, e);
  }

  /** In a sorted recent list every entry's time is no later than any entry before it. */
  lemma {:induction false} NewestFirst(recent: seq<Arrival>, i: nat, j: nat)
    requires Sorted(recent, NotOlder) && i <= j < |recent|
    ensures LexLe(recent[j].time, recent[i].time)
    decreases j - i
  {
    if i == j {
      LexLeTotal(recent[i].time, recent[i].time);
    } else {
      NewestFirst(recent, i, j - 1);
      LexLeTransitive(recent[j].time, recent[j - 1].time, recent[i].time);
    }
  }
}
