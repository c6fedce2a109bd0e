/** Rebuilding the state from the storage folder (src/services/diskSync.js):
    a fresh grid at rate 2500, every room a check-in record lists marked
    occupied, the reservation records read back, the rates of the current state
    kept, and where a record written back to the folder goes. Folder listings and
    file reads are given already read; the clock is an input. */
module DiskSync {
  import opened Text
  import opened Json
  import opened Hotel
  import opened Folders
  import opened DualSync
  import DateText

  const DISK_RATE: int := 2500

  /** `makeEmptyFloors()`: five floors of four free rooms at the default rate. */
  method MakeEmptyFloors() returns (floors: seq<Floor>)
    ensures IsEmptyGrid(floors, Some(DISK_RATE))
    ensures floors == Grid(Some(DISK_RATE))
  {
    floors := EmptyFloors(Some(DISK_RATE));
    EmptyGridUnique(floors, Some(DISK_RATE));
  }

  // ---------------------------------------------------------------------------
  // Check-in records

  /** `if (!data) continue`: a record that parsed to something truthy. */
  predicate Readable(v: Visit) {
    v.content.Some? && Truthy(v.content.value)
  }

  /** The rooms a check-in record lists: an array's items, or its one `room`, each through `Number`. */
  function RecordRooms(data: Json): (r: seq<JsNum>)
    ensures Get(data, "room").Some? && Get(data, "room").value.JArr? ==>
      var items := Get(data, "room").value.items;
      |r| == |items| && forall i :: 0 <= i < |items| ==> r[i] == ToNumber(Some(items[i]))
    ensures !(Get(data, "room").Some? && Get(data, "room").value.JArr?) ==> r == [ToNumber(Get(data, "room"))]
  {
    var room := Get(data, "room");
    if room.Some? && room.value.JArr? then ItemNumbers(room.value.items) else [ToNumber(room)]
  }

  /** `String(roomNum)[0]` read as a floor key; `None` when it is not a digit (a sign, or "NaN"). */
  function FloorDigit(n: JsNum): Option<nat> {
    if n.NaN? then None
    else
      var t := IntToString(n.v);
      if IsDigit(t[0]) then Some(t[0] as int - '0' as int) else None
  }

  /** The room's floor exists in a grid-shaped state. */
  predicate OnGrid(n: JsNum) {
    var k := FloorDigit(n);
    k.Some? && 1 <= k.value <= FLOOR_COUNT
  }

  /** `data.rate || r.rate`, read as a number. */
  function GuestRate(data: Json, roomRate: Option<int>): (r: Option<int>)
    ensures !Present(Get(data, "rate")) ==> r == roomRate
    ensures Get(data, "rate") == Some(JNum(0)) ==> r == roomRate
    ensures Present(Get(data, "rate")) && ToNumber(Get(data, "rate")).Num? ==> r == Some(ToNumber(Get(data, "rate")).v)
  {
    var v := Get(data, "rate");
    if !Present(v) then roomRate
    else match ToNumber(v)
      case Num(x) => Some(x)
      case NaN => roomRate
  }

  /** The guest a check-in record puts in a room, with its defaults. */
  function DiskGuest(data: Json, roomRate: Option<int>, nowIso: string): (g: Guest)
    ensures !Present(Get(data, "name")) ==> g.name == "Guest"
    ensures !Present(Get(data, "contact")) ==> g.contact == ""
    ensures !Present(Get(data, "id")) ==> g.id == ""
    ensures !Present(Get(data, "checkIn")) ==> g.checkIn == nowIso
    ensures g.rate == GuestRate(data, roomRate)
  {
    Guest(TextOr(data, "name", "Guest"), TextOr(data, "contact", ""), TextOr(data, "id", ""),
      TextOr(data, "checkIn", nowIso), TextOr(data, "checkInDate", ""), TextOr(data, "checkInTime", ""),
      GuestRate(data, roomRate), Present(Get(data, "edited")))
  }

  /** An entry of `next.guests`: the record's own fields, as they are. */
  datatype GuestEntry = GuestEntry(
    room: JsNum, name: Option<Json>, contact: Option<Json>, id: Option<Json>, checkIn: Option<Json>, edited: bool)

  function Entry(data: Json, n: JsNum): GuestEntry {
    GuestEntry(n, Get(data, "name"), Get(data, "contact"), Get(data, "id"), Get(data, "checkIn"), Present(Get(data, "edited")))
  }

  /** The state being rebuilt: the floors and the guest entries so far. */
  datatype Loaded = Loaded(floors: seq<Floor>, guests: seq<GuestEntry>)

  /** Only statuses and guests change: same shape, same numbers, rates and holds. */
  predicate Relabelled(a: seq<Floor>, b: seq<Floor>) {
    SameShape(a, b) &&
    forall f, i :: 0 <= f < |a| && 0 <= i < |a[f].rooms| ==>
      a[f].rooms[i].number == b[f].rooms[i].number && a[f].rooms[i].rate == b[f].rooms[i].rate &&
      a[f].rooms[i].reservedFor == b[f].rooms[i].reservedFor
  }

  /** The room `data` occupies, given its place. */
  function Occupied(room: Room, data: Json, nowIso: string): Room {
    room.(status := OCCUPIED, guest := Some(DiskGuest(data, room.rate, nowIso)))
  }

  /** `floorArr.map(r => r.number === roomNum ? occupied : r)`. */
  function MarkOccupied(rooms: seq<Room>, data: Json, n: JsNum, nowIso: string): (r: seq<Room>)
    ensures |r| == |rooms|
    ensures forall i :: 0 <= i < |rooms| ==> r[i] == if n == Num(rooms[i].number) then Occupied(rooms[i], data, nowIso) else rooms[i]
  {
    seq(|rooms|, i requires 0 <= i < |rooms| => if n == Num(rooms[i].number) then Occupied(rooms[i], data, nowIso) else rooms[i])
  }

  /** One listed room: its floor updated and a guest entry added, or nothing at
      all when no floor is keyed by the room's first digit. */
  function Occupy(s: Loaded, data: Json, n: JsNum, nowIso: string): (r: Loaded)
    ensures Relabelled(r.floors, s.floors)
  {
    var key := FloorDigit(n);
    if key.None? then s
    else
      var f := FloorIndex(s.floors, key.value);
      if f.None? then s
      else
        var fl := s.floors[f.value];
        Loaded(s.floors[f.value := Floor(fl.key, MarkOccupied(fl.rooms, data, n, nowIso))], s.guests + [Entry(data, n)])
  }

  /** The rooms of one record, in order. */
  function OccupyAll(s: Loaded, data: Json, rooms: seq<JsNum>, nowIso: string): (r: Loaded)
    ensures Relabelled(r.floors, s.floors)
  {
    if |rooms| == 0 then s
    else Occupy(OccupyAll(s, data, rooms[..|rooms| - 1], nowIso), data, rooms[|rooms| - 1], nowIso)
  }

  /** Every readable check-in record of the walk, in order. */
  function CheckIns(s: Loaded, visits: seq<Visit>, nowIso: string): (r: Loaded)
    ensures Relabelled(r.floors, s.floors)
  {
    if |visits| == 0 then s
    else
      var prev := CheckIns(s, visits[..|visits| - 1], nowIso);
      var v := visits[|visits| - 1];
      if Readable(v) then OccupyAll(prev, v.content.value, RecordRooms(v.content.value), nowIso) else prev
  }

  /** The floors are keyed 1..5 and hold the grid's room numbers in place. */
  predicate GridShaped(floors: seq<Floor>) {
    |floors| == FLOOR_COUNT &&
    forall f :: 0 <= f < FLOOR_COUNT ==>
      floors[f].key == f + 1 && |floors[f].rooms| == ROOMS_PER_FLOOR &&
      forall i :: 0 <= i < ROOMS_PER_FLOOR ==> floors[f].rooms[i].number == (f + 1) * 100 + i + 1
  }

  /** In a grid-shaped state, the floor keyed `k` is at position `k - 1`, and only keys 1..5 exist. */
  lemma GridFloorIndex(floors: seq<Floor>, k: nat)
    requires GridShaped(floors)
    ensures 1 <= k <= FLOOR_COUNT ==> FloorIndex(floors, k) == Some(k - 1)
    ensures !(1 <= k <= FLOOR_COUNT) ==> FloorIndex(floors, k).None?
  {
    if 1 <= k <= FLOOR_COUNT {
      assert floors[k - 1].key == k;
    }
  }

  /** Room `i` of floor `f` of a grid-shaped state reads its floor from its first digit. */
  lemma GridRoomDigit(f: nat, i: nat)
    requires f < FLOOR_COUNT && i < ROOMS_PER_FLOOR
    ensures FloorDigit(Num((f + 1) * 100 + i + 1)) == Some(f + 1)
  {
    GridFloorDigit(f + 1, i + 1);
  }

  /** One listed room changes the room with that number and no other. */
  lemma OccupyEffect(s: Loaded, data: Json, n: JsNum, nowIso: string, f: nat, i: nat)
    requires GridShaped(s.floors) && f < FLOOR_COUNT && i < ROOMS_PER_FLOOR
    ensures var room := s.floors[f].rooms[i];
      Occupy(s, data, n, nowIso).floors[f].rooms[i] == if n == Num(room.number) then Occupied(room, data, nowIso) else room
  {
    var room := s.floors[f].rooms[i];
    var r := Occupy(s, data, n, nowIso);
    if n == Num(room.number) {
      GridRoomDigit(f, i);
      GridFloorIndex(s.floors, f + 1);
    } else if FloorDigit(n).Some? {
      GridFloorIndex(s.floors, FloorDigit(n).value);
    }
  }

  /** Which readable record lists `n` last, if any does. */
  function LastLister(visits: seq<Visit>, n: JsNum): (r: Option<Json>)
    ensures r.Some? <==> exists k :: 0 <= k < |visits| && Readable(visits[k]) && n in RecordRooms(visits[k].content.value)
  {
    if |visits| == 0 then None
    else
      var init := visits[..|visits| - 1];
      var v := visits[|visits| - 1];
      assert forall k :: 0 <= k < |init| ==> init[k] == visits[k];
      if Readable(v) && n in RecordRooms(v.content.value) then Some(v.content.value) else LastLister(init, n)
  }

  lemma {:induction false} OccupyAllEffect(s: Loaded, data: Json, rooms: seq<JsNum>, nowIso: string, f: nat, i: nat)
    requires GridShaped(s.floors) && f < FLOOR_COUNT && i < ROOMS_PER_FLOOR
    ensures var room := s.floors[f].rooms[i];
      OccupyAll(s, data, rooms, nowIso).floors[f].rooms[i] == if Num(room.number) in rooms then Occupied(room, data, nowIso) else room
  {
    if |rooms| > 0 {
      var init := rooms[..|rooms| - 1];
      var prev := OccupyAll(s, data, init, nowIso);
      OccupyAllEffect(s, data, init, nowIso, f, i);
      OccupyEffect(prev, data, rooms[|rooms| - 1], nowIso, f, i);
      assert rooms == init + [rooms[|rooms| - 1]];
    }
  }

  /** After the walk, a grid room is occupied by the last readable record that
      lists it, with that record's guest, and a room no record lists is as it was. */
  lemma {:induction false} CheckInsEffect(s: Loaded, visits: seq<Visit>, nowIso: string, f: nat, i: nat)
    requires GridShaped(s.floors) && f < FLOOR_COUNT && i < ROOMS_PER_FLOOR
    ensures var room := s.floors[f].rooms[i];
      CheckIns(s, visits, nowIso).floors[f].rooms[i] ==
        match LastLister(visits, Num(room.number))
        case None => room
        case Some(data) => Occupied(room, data, nowIso)
  {
    if |visits| > 0 {
      var init := visits[..|visits| - 1];
      var v := visits[|visits| - 1];
      var prev := CheckIns(s, init, nowIso);
      CheckInsEffect(s, init, nowIso, f, i);
      if Readable(v) {
        OccupyAllEffect(prev, v.content.value, RecordRooms(v.content.value), nowIso, f, i);
      }
    }
  }

  /** The fresh grid the rebuild starts from, at one room. */
  lemma GridStart(f: nat, i: nat)
    requires f < FLOOR_COUNT && i < ROOMS_PER_FLOOR
    ensures GridShaped(Grid(Some(DISK_RATE)))
    ensures Grid(Some(DISK_RATE))[f].key == f + 1
    ensures Grid(Some(DISK_RATE))[f].rooms[i] == GridRoom(f + 1, i + 1, Some(DISK_RATE))
  {
    assert IsEmptyGrid(Grid(Some(DISK_RATE)), Some(DISK_RATE));
  }

  /** A room not yet occupied becomes occupied exactly when some readable
      record lists its number, and is otherwise left as it was. */
  lemma CheckInsStatus(s: Loaded, visits: seq<Visit>, nowIso: string, f: nat, i: nat)
    requires GridShaped(s.floors) && f < FLOOR_COUNT && i < ROOMS_PER_FLOOR
    requires s.floors[f].rooms[i].status != OCCUPIED
    ensures var room := s.floors[f].rooms[i];
      var after := CheckIns(s, visits, nowIso).floors[f].rooms[i];
      (after.status == OCCUPIED <==> LastLister(visits, Num(room.number)).Some?) &&
      (after.status != OCCUPIED ==> after == room)
  {
    CheckInsEffect(s, visits, nowIso, f, i);
  }

  /** Starting from the fresh grid, a room is occupied exactly when some readable
      check-in record lists its number; every other room stays free. */
  lemma CheckInsOccupy(visits: seq<Visit>, nowIso: string, f: nat, i: nat)
    requires f < FLOOR_COUNT && i < ROOMS_PER_FLOOR
    ensures var after := CheckIns(Loaded(Grid(Some(DISK_RATE)), []), visits, nowIso).floors[f].rooms[i];
      var n := (f + 1) * 100 + i + 1;
      (after.status == OCCUPIED <==>
        exists k :: 0 <= k < |visits| && Readable(visits[k]) && Num(n) in RecordRooms(visits[k].content.value)) &&
      (after.status != OCCUPIED ==> after == GridRoom(f + 1, i + 1, Some(DISK_RATE)))
  {
    var s := Loaded(Grid(Some(DISK_RATE)), []);
    GridStart(f, i);
    FreshRoomOccupied(s, visits, nowIso, f, i);
    FreshRoomKept(s, visits, nowIso, f, i);
  }

  /** `CheckInsStatus` for a room of the fresh grid: occupied exactly when listed. */
  lemma FreshRoomOccupied(s: Loaded, visits: seq<Visit>, nowIso: string, f: nat, i: nat)
    requires GridShaped(s.floors) && f < FLOOR_COUNT && i < ROOMS_PER_FLOOR
    requires s.floors[f].rooms[i] == GridRoom(f + 1, i + 1, Some(DISK_RATE))
    ensures CheckIns(s, visits, nowIso).floors[f].rooms[i].status == OCCUPIED <==>
      LastLister(visits, Num((f + 1) * 100 + i + 1)).Some?
  {
    var room := s.floors[f].rooms[i];
    assert Num(room.number) == Num((f + 1) * 100 + i + 1);
    assert room.status != OCCUPIED by { StatusesDistinct(); }
    CheckInsStatus(s, visits, nowIso, f, i);
  }

  /** `CheckInsStatus` for a room of the fresh grid: left as it was unless occupied. */
  lemma FreshRoomKept(s: Loaded, visits: seq<Visit>, nowIso: string, f: nat, i: nat)
    requires GridShaped(s.floors) && f < FLOOR_COUNT && i < ROOMS_PER_FLOOR
    requires s.floors[f].rooms[i] == GridRoom(f + 1, i + 1, Some(DISK_RATE))
    ensures var after := CheckIns(s, visits, nowIso).floors[f].rooms[i];
      after.status != OCCUPIED ==> after == GridRoom(f + 1, i + 1, Some(DISK_RATE))
  {
    assert s.floors[f].rooms[i].status != OCCUPIED by { StatusesDistinct(); }
    CheckInsStatus(s, visits, nowIso, f, i);
  }

  /** The entries one record adds: one per listed room whose floor exists. */
  lemma {:induction false} OccupyAllGuests(s: Loaded, data: Json, rooms: seq<JsNum>, nowIso: string, e: GuestEntry)
    requires GridShaped(s.floors)
    ensures e in OccupyAll(s, data, rooms, nowIso).guests <==>
      e in s.guests || (e.room in rooms && OnGrid(e.room) && e == Entry(data, e.room))
  {
    if |rooms| > 0 {
      var init := rooms[..|rooms| - 1];
      var last := rooms[|rooms| - 1];
      OccupyAllGuests(s, data, init, nowIso, e);
      OccupyGuests(OccupyAll(s, data, init, nowIso), data, last, nowIso, e);
      assert rooms == init + [last];
    }
  }

  /** The entry one listed room adds, when its floor exists. */
  lemma OccupyGuests(s: Loaded, data: Json, n: JsNum, nowIso: string, e: GuestEntry)
    requires GridShaped(s.floors)
    ensures e in Occupy(s, data, n, nowIso).guests <==> e in s.guests || (e.room == n && OnGrid(n) && e == Entry(data, n))
  {
    if FloorDigit(n).Some? {
      GridFloorIndex(s.floors, FloorDigit(n).value);
    }
  }

  /** `e` is the entry a readable record adds for one of its rooms whose floor exists. */
  predicate EntryFrom(v: Visit, e: GuestEntry) {
    Readable(v) && e.room in RecordRooms(v.content.value) && OnGrid(e.room) && e == Entry(v.content.value, e.room)
  }

  /** The entries the last record of a walk adds. */
  lemma CheckInsGuestsStep(s: Loaded, visits: seq<Visit>, nowIso: string, e: GuestEntry)
    requires GridShaped(s.floors) && |visits| > 0
    ensures e in CheckIns(s, visits, nowIso).guests <==>
      e in CheckIns(s, visits[..|visits| - 1], nowIso).guests || EntryFrom(visits[|visits| - 1], e)
  {
    var v := visits[|visits| - 1];
    if Readable(v) {
      OccupyAllGuests(CheckIns(s, visits[..|visits| - 1], nowIso), v.content.value, RecordRooms(v.content.value), nowIso, e);
    }
  }

  /** `next.guests` holds an entry for every readable record and listed room
      whose floor exists, and nothing else. */
  lemma {:induction false} CheckInsGuests(s: Loaded, visits: seq<Visit>, nowIso: string, e: GuestEntry)
    requires GridShaped(s.floors)
    ensures e in CheckIns(s, visits, nowIso).guests <==>
      e in s.guests || exists k :: 0 <= k < |visits| && EntryFrom(visits[k], e)
  {
    if |visits| > 0 {
      var init := visits[..|visits| - 1];
      CheckInsGuests(s, init, nowIso, e);
      CheckInsGuestsStep(s, visits, nowIso, e);
      EntryFromSplit(visits, init, e);
    }
  }

  /** Some record of a walk adds `e` exactly when some record before the last
      does or the last one does. */
  lemma EntryFromSplit(visits: seq<Visit>, init: seq<Visit>, e: GuestEntry)
    requires |visits| > 0 && init == visits[..|visits| - 1]
    ensures (exists k :: 0 <= k < |visits| && EntryFrom(visits[k], e)) <==>
      (exists k :: 0 <= k < |init| && EntryFrom(init[k], e)) || EntryFrom(visits[|visits| - 1], e)
  {
    ExistsSnoc(visits, init, (v: Visit) => EntryFrom(v, e));
  }

  lemma ExistsSnoc<T>(xs: seq<T>, init: seq<T>, p: T -> bool)
    requires |xs| > 0 && init == xs[..|xs| - 1]
    ensures (exists k :: 0 <= k < |xs| && p(xs[k])) <==> (exists k :: 0 <= k < |init| && p(init[k])) || p(xs[|xs| - 1])
  {
    assert forall k :: 0 <= k < |init| ==> init[k] == xs[k];
  }

  /** The check-in part of the rebuild: a loop over the records, and within each
      over its rooms. */
  method LoadCheckIns(floors0: seq<Floor>, visits: seq<Visit>, nowIso: string) returns (s: Loaded)
    ensures s == CheckIns(Loaded(floors0, []), visits, nowIso)
  {
    s := Loaded(floors0, []);
    var k := 0;
    while k < |visits|
      invariant 0 <= k <= |visits|
      invariant s == CheckIns(Loaded(floors0, []), visits[..k], nowIso)
    {
      assert visits[..k + 1][..k] == visits[..k];
      var v := visits[k];
      if Readable(v) {
        var data := v.content.value;
        var rooms := RecordRooms(data);
        var s0 := s;
        var j := 0;
        while j < |rooms|
          invariant 0 <= j <= |rooms|
          invariant s == OccupyAll(s0, data, rooms[..j], nowIso)
        {
          assert rooms[..j + 1][..j] == rooms[..j];
          s := Occupy(s, data, rooms[j], nowIso);
          j := j + 1;
        }
        assert rooms[..j] == rooms;
      }
      k := k + 1;
    }
    assert visits[..k] == visits;
  }

  // ---------------------------------------------------------------------------
  // Reservation records

  /** A reservation record read back: room through `Number`, name "Guest", place ""
      and date the folder name when missing. */
  function DiskReservation(data: Json, day: string): (r: Reservation)
    ensures !Present(Get(data, "name")) ==> r.name == "Guest"
    ensures !Present(Get(data, "place")) ==> r.place == ""
    ensures !Present(Get(data, "date")) ==> r.date == day
    ensures Present(Get(data, "date")) ==> r.date == ToText(Get(data, "date").value)
    ensures r.room == ToNumber(Get(data, "room"))
  {
    Reservation(TextOr(data, "name", "Guest"), TextOr(data, "place", ""), ToNumber(Get(data, "room")), TextOr(data, "date", day))
  }

  /** The reservations of the readable records, in walk order. */
  function ReservationsOf(visits: seq<Visit>): (r: seq<Reservation>)
    ensures |r| <= |visits|
    ensures forall x :: x in r <==>
      exists k :: 0 <= k < |visits| && Readable(visits[k]) && x == DiskReservation(visits[k].content.value, visits[k].dir)
  {
    if |visits| == 0 then []
    else
      var init := visits[..|visits| - 1];
      var v := visits[|visits| - 1];
      assert forall k :: 0 <= k < |init| ==> init[k] == visits[k];
      ReservationsOf(init) + if Readable(v) then [DiskReservation(v.content.value, v.dir)] else []
  }

  method LoadReservations(visits: seq<Visit>) returns (res: seq<Reservation>)
    ensures res == ReservationsOf(visits)
  {
    res := [];
    var k := 0;
    while k < |visits|
      invariant 0 <= k <= |visits|
      invariant res == ReservationsOf(visits[..k])
    {
      assert visits[..k + 1][..k] == visits[..k];
      if Readable(visits[k]) {
        res := res + [DiskReservation(visits[k].content.value, visits[k].dir)];
      }
      k := k + 1;
    }
    assert visits[..k] == visits;
  }

  // ---------------------------------------------------------------------------
  // The whole rebuild

  /** The rebuilt state: floors, guest entries and reservations. */
  datatype Hydrated = Hydrated(floors: seq<Floor>, guests: seq<GuestEntry>, reservations: seq<Reservation>)

  /** `hydrateStateFromDisk(currentState)`. `connected` says whether a base folder
      is set; the two listings are the `Checkins` and `Reservations` folders;
      `currentFloors` are the current state's floors, when it has any. Only `.json`
      files (any case) in directories are read. */
  method HydrateStateFromDisk(
    connected: bool, checkinDirs: seq<DirEntry>, reservationDirs: seq<DirEntry>,
    currentFloors: Option<seq<Floor>>, nowIso: string) returns (r: Option<Hydrated>)
    ensures !connected ==> r.None?
    ensures connected ==> (r.Some? &&
      var loaded := CheckIns(Loaded(Grid(Some(DISK_RATE)), []), Visits(checkinDirs, AllDirs, true), nowIso);
      r.value.guests == loaded.guests &&
      r.value.floors == (if currentFloors.Some? then MergeRates(loaded.floors, currentFloors.value) else loaded.floors) &&
      r.value.reservations == ReservationsOf(Visits(reservationDirs, AllDirs, true)))
  {
    if !connected {
      return None;
    }
    var floors := MakeEmptyFloors();
    var loaded := LoadCheckIns(floors, Visits(checkinDirs, AllDirs, true), nowIso);
    var reservations := LoadReservations(Visits(reservationDirs, AllDirs, true));
    var merged := loaded.floors;
    if currentFloors.Some? {
      merged := MergeRates(merged, currentFloors.value);
    }
    r := Some(Hydrated(merged, loaded.guests, reservations));
  }

  /** End to end: a room of the rebuilt grid is occupied exactly when a readable
      check-in lists it, and its rate is the current state's rate for that room
      when there is one, else the default. */
  lemma HydratedRoom(visits: seq<Visit>, currentFloors: seq<Floor>, nowIso: string, f: nat, i: nat)
    requires f < FLOOR_COUNT && i < ROOMS_PER_FLOOR
    ensures var loaded := CheckIns(Loaded(Grid(Some(DISK_RATE)), []), visits, nowIso);
      var room := MergeRates(loaded.floors, currentFloors)[f].rooms[i];
      var n := (f + 1) * 100 + i + 1;
      var prior := LocalMatch(currentFloors, f + 1, n);
      room.number == n &&
      (room.status == OCCUPIED <==>
        exists k :: 0 <= k < |visits| && Readable(visits[k]) && Num(n) in RecordRooms(visits[k].content.value)) &&
      room.rate == (if prior.Some? && prior.value.rate.Some? then prior.value.rate else Some(DISK_RATE))
  {
    var s := Loaded(Grid(Some(DISK_RATE)), []);
    GridStart(f, i);
    CheckInsOccupy(visits, nowIso, f, i);
    var loaded := CheckIns(s, visits, nowIso);
    var before := loaded.floors[f].rooms[i];
    assert before.number == (f + 1) * 100 + i + 1 && before.rate == Some(DISK_RATE) && loaded.floors[f].key == f + 1;
    MergedRoomAt(loaded.floors, currentFloors, f, i);
  }

  /** The merged room at one place: the rebuilt room with only its rate taken over. */
  lemma MergedRoomAt(remote: seq<Floor>, local: seq<Floor>, f: nat, i: nat)
    requires f < |remote| && i < |remote[f].rooms|
    ensures var before := remote[f].rooms[i];
      var prior := LocalMatch(local, remote[f].key, before.number);
      var room := MergeRates(remote, local)[f].rooms[i];
      room.number == before.number && room.status == before.status &&
      room.rate == (if prior.Some? && prior.value.rate.Some? then prior.value.rate else before.rate)
  {
  }

  // ---------------------------------------------------------------------------
  // Writing a record back

  /** The folder a collection is written to. */
  function CollectionFolder(collection: string): (r: string)
    ensures collection == "reservations" ==> r == "Reservations"
    ensures collection == "checkins" ==> r == "Checkins"
    ensures collection != "reservations" && collection != "checkins" ==> r == collection
  {
    if collection == "reservations" then "Reservations" else if collection == "checkins" then "Checkins" else collection
  }

  /** `doc.date || (doc.checkIn ? doc.checkIn.slice(0, 10) : today)`. */
  function DateFolderOf(doc: Json, todayIso: string): string {
    TextOr(doc, "date", if Present(Get(doc, "checkIn")) then SliceTo(ToText(Get(doc, "checkIn").value), 10) else todayIso)
  }

  /** `(doc.id || `${collection}_${Date.now()}`) + '.json'`. */
  function FileNameOf(doc: Json, collection: string, nowMs: int): (r: string)
    ensures EndsWith(r, ".json")
    ensures Present(Get(doc, "id")) ==> r == ToText(Get(doc, "id").value) + ".json"
    ensures !Present(Get(doc, "id")) ==> r == collection + "_" + IntToString(nowMs) + ".json"
  {
    var stem := TextOr(doc, "id", collection + "_" + IntToString(nowMs));
    var r := stem + ".json";
    assert r[|r| - 5..] == ".json";
    r
  }

  /** What `upsertDiskDoc` answers. */
  datatype UpsertResult = Written(path: string) | WriteFailed

  /** `upsertDiskDoc(collection, doc)`: nothing without a base folder; otherwise the
      record goes to `<folder>/<date>/<file>`. `writeOk` says whether creating the
      folders and writing the file succeed. */
  function UpsertDiskDoc(connected: bool, collection: string, doc: Json, todayIso: string, nowMs: int, writeOk: bool): (r: Option<UpsertResult>)
    ensures !connected <==> r.None?
    ensures connected && !writeOk ==> r == Some(WriteFailed)
    ensures connected && writeOk ==> r.Some? && r.value.Written? && EndsWith(r.value.path, ".json")
  {
    if !connected then None
    else if !writeOk then Some(WriteFailed)
    else
      var file := FileNameOf(doc, collection, nowMs);
      var path := CollectionFolder(collection) + "/" + DateFolderOf(doc, todayIso) + "/" + file;
      assert path[|path| - 5..] == file[|file| - 5..];
      Some(Written(path))
  }

  /** When none of its parts holds a slash, the written path splits back into the
      collection's folder, the date folder and the file name. */
  lemma UpsertPathParts(collection: string, doc: Json, todayIso: string, nowMs: int)
    requires '/' !in CollectionFolder(collection) && '/' !in DateFolderOf(doc, todayIso) && '/' !in FileNameOf(doc, collection, nowMs)
    ensures Split(UpsertDiskDoc(true, collection, doc, todayIso, nowMs, true).value.path, '/') ==
      [CollectionFolder(collection), DateFolderOf(doc, todayIso), FileNameOf(doc, collection, nowMs)]
  {
    var a, b, c := CollectionFolder(collection), DateFolderOf(doc, todayIso), FileNameOf(doc, collection, nowMs);
    assert a + "/" + b + "/" + c == a + ['/'] + b + ['/'] + c;
    DateText.SplitThree(a, b, c, '/');
  }
}
