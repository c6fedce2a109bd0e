/** The room pages of src/App.jsx: the built-in default state, the Dashboard
    counts and layout, the Floors page (its overlay and `updateRoom`) and the
    Check-in form's submit. */
module AppRooms {
  import opened Text
  import opened Hotel
  import opened ListView
  import opened Json
  import DiskSync
  import Folders

  // ---------------------------------------------------------------------------
  // Default state

  /** The sample guest of the default state: no rate, checked in at `now`. */
  function SampleGuest(name: string, contact: string, id: string, now: string): Guest {
    Guest(name, contact, id, now, "", "", None, false)
  }

  /** `generateDefault()`: the empty grid (no rate), then room 102 reserved for
      A. Kumar and rooms 203 and 301 occupied. `now` is the check-in time. */
  method GenerateDefault(now: string) returns (floors: seq<Floor>)
    ensures |floors| == FLOOR_COUNT
    ensures forall f :: 0 <= f < FLOOR_COUNT ==>
      floors[f].key == f + 1 && |floors[f].rooms| == ROOMS_PER_FLOOR &&
      forall i :: 0 <= i < ROOMS_PER_FLOOR ==> floors[f].rooms[i].number == (f + 1) * 100 + i + 1
    ensures forall f, i :: 0 <= f < FLOOR_COUNT && 0 <= i < ROOMS_PER_FLOOR ==>
      var room := floors[f].rooms[i];
      var n := room.number;
      room.rate.None? &&
      (n == 102 ==> room.status == RESERVED && room.guest.None? && room.reservedFor == Some(ReservedFor("A. Kumar", "2025-08-15"))) &&
      (n == 203 ==> room.status == OCCUPIED && room.reservedFor.None? && room.guest == Some(SampleGuest("Ravi", "9876543210", "ID123", now))) &&
      (n == 301 ==> room.status == OCCUPIED && room.reservedFor.None? && room.guest == Some(SampleGuest("Priya", "9345678123", "DL998", now))) &&
      (n != 102 && n != 203 && n != 301 ==> room == GridRoom(f + 1, i + 1, None))
  {
    floors := EmptyFloors(None);
    floors := SetRoom(floors, 0, 1, floors[0].rooms[1].(status := RESERVED, reservedFor := Some(ReservedFor("A. Kumar", "2025-08-15"))));
    floors := SetRoom(floors, 1, 2, floors[1].rooms[2].(status := OCCUPIED, guest := Some(SampleGuest("Ravi", "9876543210", "ID123", now))));
    floors := SetRoom(floors, 2, 0, floors[2].rooms[0].(status := OCCUPIED, guest := Some(SampleGuest("Priya", "9345678123", "DL998", now))));
  }

  // ---------------------------------------------------------------------------
  // Dashboard

  /** How the Dashboard counts a room: occupied first, then reserved when a
      reservation for it is dated today, otherwise free. */
  function DashboardStatus(room: Room, reservations: seq<Reservation>, today: string): (r: string)
    ensures r == OCCUPIED <==> room.status == OCCUPIED
    ensures r == RESERVED <==> room.status != OCCUPIED && ReservedOn(reservations, room.number, today)
    ensures r == FREE <==> room.status != OCCUPIED && !ReservedOn(reservations, room.number, today)
  {
    if room.status == OCCUPIED then OCCUPIED
    else if ReservedOn(reservations, room.number, today) then RESERVED
    else FREE
  }

  /** The number of rooms the Dashboard counts under `status`. */
  function CountShown(rooms: seq<Room>, status: string, reservations: seq<Reservation>, today: string): (r: nat)
    ensures r <= |rooms|
  {
    if |rooms| == 0 then 0
    else
      var last := if DashboardStatus(rooms[|rooms| - 1], reservations, today) == status then 1 else 0;
      CountShown(rooms[..|rooms| - 1], status, reservations, today) + last
  }

  /** The three counts partition the rooms. */
  lemma {:induction false} CountsPartition(rooms: seq<Room>, reservations: seq<Reservation>, today: string)
    ensures CountShown(rooms, FREE, reservations, today) + CountShown(rooms, RESERVED, reservations, today) +
      CountShown(rooms, OCCUPIED, reservations, today) == |rooms|
    decreases |rooms|
  {
    if |rooms| > 0 {
      CountsPartition(rooms[..|rooms| - 1], reservations, today);
    }
  }

  /** A room stored as occupied is counted as occupied whatever the reservations
      say, so the occupied count does not depend on them. */
  lemma {:induction false} OccupiedCountIgnoresReservations(rooms: seq<Room>, a: seq<Reservation>, b: seq<Reservation>, today: string)
    ensures CountShown(rooms, OCCUPIED, a, today) == CountShown(rooms, OCCUPIED, b, today)
    decreases |rooms|
  {
    if |rooms| > 0 {
      OccupiedCountIgnoresReservations(rooms[..|rooms| - 1], a, b, today);
    }
  }

  /** Counting one more room of a floor adds one to the count of its status. */
  lemma CountStep(before: seq<Room>, rooms: seq<Room>, i: nat, status: string, reservations: seq<Reservation>, today: string)
    requires i < |rooms|
    ensures CountShown(before + rooms[..i + 1], status, reservations, today) ==
      CountShown(before + rooms[..i], status, reservations, today) +
      (if DashboardStatus(rooms[i], reservations, today) == status then 1 else 0)
  {
    var xs := before + rooms[..i + 1];
    assert xs[..|xs| - 1] == before + rooms[..i];
  }

  /** The inner loop over one floor's rooms, adding to the counts of the rooms `before` it. */
  method CountFloor(rooms: seq<Room>, ghost before: seq<Room>, reservations: seq<Reservation>, today: string,
                    total0: nat, free0: nat, reserved0: nat, occupied0: nat)
    returns (total: nat, free: nat, reserved: nat, occupied: nat)
    requires total0 == |before| && total0 == free0 + reserved0 + occupied0
    requires free0 == CountShown(before, FREE, reservations, today)
    requires reserved0 == CountShown(before, RESERVED, reservations, today)
    requires occupied0 == CountShown(before, OCCUPIED, reservations, today)
    ensures total == |before + rooms| && total == free + reserved + occupied
    ensures free == CountShown(before + rooms, FREE, reservations, today)
    ensures reserved == CountShown(before + rooms, RESERVED, reservations, today)
    ensures occupied == CountShown(before + rooms, OCCUPIED, reservations, today)
  {
    total, free, reserved, occupied := total0, free0, reserved0, occupied0;
    assert before + rooms[..0] == before;
    var i := 0;
    while i < |rooms|
      invariant 0 <= i <= |rooms|
      invariant total == |before + rooms[..i]| && total == free + reserved + occupied
      invariant free == CountShown(before + rooms[..i], FREE, reservations, today)
      invariant reserved == CountShown(before + rooms[..i], RESERVED, reservations, today)
      invariant occupied == CountShown(before + rooms[..i], OCCUPIED, reservations, today)
    {
      var r := rooms[i];
      StatusesDistinct();
      CountStep(before, rooms, i, FREE, reservations, today);
      CountStep(before, rooms, i, RESERVED, reservations, today);
      CountStep(before, rooms, i, OCCUPIED, reservations, today);
      total := total + 1;
      var isReservedToday := ReservedOn(reservations, r.number, today);
      if r.status == OCCUPIED {
        occupied := occupied + 1;
      } else if isReservedToday {
        reserved := reserved + 1;
      } else {
        free := free + 1;
      }
      i := i + 1;
    }
    assert rooms[..i] == rooms;
  }

  /** The Dashboard's counting loop over every room of every floor. */
  method DashboardCounts(floors: seq<Floor>, reservations: seq<Reservation>, today: string)
    returns (total: nat, free: nat, reserved: nat, occupied: nat)
    ensures total == |AllRooms(floors)|
    ensures free == CountShown(AllRooms(floors), FREE, reservations, today)
    ensures reserved == CountShown(AllRooms(floors), RESERVED, reservations, today)
    ensures occupied == CountShown(AllRooms(floors), OCCUPIED, reservations, today)
    ensures total == free + reserved + occupied
  {
    total, free, reserved, occupied := 0, 0, 0, 0;
    var f := 0;
    while f < |floors|
      invariant 0 <= f <= |floors|
      invariant total == |AllRooms(floors[..f])| && total == free + reserved + occupied
      invariant free == CountShown(AllRooms(floors[..f]), FREE, reservations, today)
      invariant reserved == CountShown(AllRooms(floors[..f]), RESERVED, reservations, today)
      invariant occupied == CountShown(AllRooms(floors[..f]), OCCUPIED, reservations, today)
    {
      AllRoomsSnoc(floors, f);
      total, free, reserved, occupied :=
        CountFloor(floors[f].rooms, AllRooms(floors[..f]), reservations, today, total, free, reserved, occupied);
      f := f + 1;
    }
    assert floors[..f] == floors;
  }

  /** The Dashboard layout's view of one room: a free room with a reservation
      dated today is drawn as reserved. */
  function OverlayRoom(room: Room, reservations: seq<Reservation>, today: string): (r: Room)
    ensures r == room.(status := r.status)
    ensures r.status != room.status ==> room.status == FREE && r.status == RESERVED
    ensures r.status == RESERVED <==>
      room.status == RESERVED || (room.status == FREE && ReservedOn(reservations, room.number, today))
  {
    if room.status == FREE && ReservedOn(reservations, room.number, today) then room.(status := RESERVED) else room
  }

  /** The Dashboard's `layoutFloors`: every room through `OverlayRoom`. */
  function LayoutOverlay(floors: seq<Floor>, reservations: seq<Reservation>, today: string): (r: seq<Floor>)
    ensures SameShape(r, floors)
    ensures forall f, i :: 0 <= f < |r| && 0 <= i < |r[f].rooms| ==>
      r[f].rooms[i] == OverlayRoom(floors[f].rooms[i], reservations, today)
    ensures forall f, i :: 0 <= f < |r| && 0 <= i < |r[f].rooms| ==>
      var before, after := floors[f].rooms[i], r[f].rooms[i];
      after == before.(status := after.status) &&
      (after.status == RESERVED <==>
        before.status == RESERVED || (before.status == FREE && ReservedOn(reservations, before.number, today)))
  {
    MapRooms(floors, (room: Room) => OverlayRoom(room, reservations, today))
  }

  /** The layout and the counts disagree on one case only: a room stored as
      reserved with no reservation today is drawn reserved but counted free. */
  lemma LayoutAgreesWithCounts(room: Room, reservations: seq<Reservation>, today: string)
    requires room.status == FREE || room.status == RESERVED || room.status == OCCUPIED
    ensures OverlayRoom(room, reservations, today).status == DashboardStatus(room, reservations, today) <==>
      !(room.status == RESERVED && !ReservedOn(reservations, room.number, today))
  {
  }

  /** On the Dashboard's layout, every room is drawn with the status it is
      counted under, except a room stored as reserved with no reservation today. */
  lemma LayoutAgreesWithDashboard(floors: seq<Floor>, reservations: seq<Reservation>, today: string, f: nat, i: nat)
    requires f < |floors| && i < |floors[f].rooms|
    requires var st := floors[f].rooms[i].status; st == FREE || st == RESERVED || st == OCCUPIED
    ensures var room := floors[f].rooms[i];
      LayoutOverlay(floors, reservations, today)[f].rooms[i].status == DashboardStatus(room, reservations, today) <==>
      !(room.status == RESERVED && !ReservedOn(reservations, room.number, today))
  {
    LayoutAgreesWithCounts(floors[f].rooms[i], reservations, today);
  }

  // ---------------------------------------------------------------------------
  // Floors page

  /** The first of `reservations` dated `date` for room `number` (`find`). */
  function FirstBooking(reservations: seq<Reservation>, number: int, date: string): (r: Option<Reservation>)
    ensures r.Some? <==> ReservedOn(reservations, number, date)
    ensures r.Some? ==> r.value in reservations && r.value.date == date && StrictEq(r.value.room, Num(number))
  {
    if |reservations| == 0 then None
    else if reservations[0].date == date && StrictEq(reservations[0].room, Num(number)) then Some(reservations[0])
    else
      var r := FirstBooking(reservations[1..], number, date);
      assert forall i :: 1 <= i < |reservations| ==> reservations[i] == reservations[1..][i - 1];
      r
  }

  /** The Floors page's view of one room: as on the Dashboard, and a room drawn
      reserved also shows whom the first of today's reservations holds it for. */
  function FloorViewRoom(room: Room, reservations: seq<Reservation>, today: string): (r: Room)
    ensures r.number == room.number && r.rate == room.rate && r.guest == room.guest
    ensures r.status == OverlayRoom(room, reservations, today).status
    ensures r.status != room.status ==>
      exists b :: b in reservations && b.date == today && StrictEq(b.room, Num(room.number)) &&
        r.reservedFor == Some(ReservedFor(b.name, b.date))
    ensures r.status == room.status ==> r == room
  {
    var b := FirstBooking(reservations, room.number, today);
    if b.Some? && room.status == FREE then
      room.(status := RESERVED, reservedFor := Some(ReservedFor(b.value.name, b.value.date)))
    else room
  }

  /** The Floors page's `floor`: floor `key`'s rooms as the page draws them;
      `None` when the floors have no such key. */
  function FloorView(floors: seq<Floor>, key: nat, reservations: seq<Reservation>, today: string): (r: Option<seq<Room>>)
    ensures r.Some? <==> FloorIndex(floors, key).Some?
    ensures r.Some? ==> var rooms := floors[FloorIndex(floors, key).value].rooms;
      |r.value| == |rooms| &&
      forall i :: 0 <= i < |rooms| ==> r.value[i] == FloorViewRoom(rooms[i], reservations, today)
  {
    match FloorIndex(floors, key)
    case None => None
    case Some(f) =>
      var rooms := floors[f].rooms;
      Some(seq(|rooms|, i requires 0 <= i < |rooms| => FloorViewRoom(rooms[i], reservations, today)))
  }

  /** The fields a room patch sets (`{ ...r, ...patch }`). */
  datatype RoomPatch = RoomPatch(status: string, guest: Option<Guest>, reservedFor: Option<ReservedFor>)

  function ApplyPatch(room: Room, p: RoomPatch): Room {
    room.(status := p.status, guest := p.guest, reservedFor := p.reservedFor)
  }

  /** `updateRoom(number, patch)` on floor `key`: the rooms of that floor with
      that number are patched; nothing else changes. `None` when there is no
      floor `key` (the source throws). */
  function UpdateRoom(floors: seq<Floor>, key: nat, number: int, p: RoomPatch): (r: Option<seq<Floor>>)
    ensures r.None? <==> FloorIndex(floors, key).None?
    ensures r.Some? ==> SameShape(r.value, floors)
    ensures r.Some? ==> forall f, i :: 0 <= f < |floors| && 0 <= i < |floors[f].rooms| ==>
      var before := floors[f].rooms[i];
      r.value[f].rooms[i] ==
        (if f == FloorIndex(floors, key).value && before.number == number then ApplyPatch(before, p) else before)
  {
    match FloorIndex(floors, key)
    case None => None
    case Some(k) =>
      var rooms := floors[k].rooms;
      Some(floors[k := Floor(key, seq(|rooms|, i requires 0 <= i < |rooms| =>
        if rooms[i].number == number then ApplyPatch(rooms[i], p) else rooms[i]))])
  }

  /** Patching the same room twice with one patch is patching it once. */
  lemma UpdateRoomIdempotent(floors: seq<Floor>, key: nat, number: int, p: RoomPatch)
    requires UpdateRoom(floors, key, number, p).Some?
    ensures var once := UpdateRoom(floors, key, number, p).value;
      UpdateRoom(once, key, number, p) == Some(once)
  {
    var once := UpdateRoom(floors, key, number, p).value;
    var k := FloorIndex(floors, key).value;
    assert FloorIndex(once, key) == Some(k) by {
      assert once[k].key == key;
      assert forall f :: 0 <= f < k ==> once[f].key == floors[f].key;
    }
    var twice := UpdateRoom(once, key, number, p).value;
    assert |twice| == |once|;
    forall f | 0 <= f < |once|
      ensures twice[f] == once[f]
    {
      assert twice[f].key == once[f].key;
      assert |twice[f].rooms| == |once[f].rooms|;
      forall i | 0 <= i < |once[f].rooms|
        ensures twice[f].rooms[i] == once[f].rooms[i]
      {
        assert once[f].rooms[i].number == floors[f].rooms[i].number;
      }
    }
    assert twice == once;
  }

  /** The patch of the Floors page's Check-In button on a reserved room: the
      room becomes occupied by the person it was held for (or "Guest"). */
  function CheckInReservedPatch(selected: Room, now: string): (r: RoomPatch)
    ensures r.status == OCCUPIED && r.reservedFor.None?
    ensures r.guest.Some? && r.guest.value.name != "" && r.guest.value.checkIn == now
    ensures selected.reservedFor.Some? && selected.reservedFor.value.name != "" ==>
      r.guest.value.name == selected.reservedFor.value.name
  {
    var name := if selected.reservedFor.Some? && selected.reservedFor.value.name != "" then selected.reservedFor.value.name else "Guest";
    RoomPatch(OCCUPIED, Some(Guest(name, "", "", now, "", "", None, false)), None)
  }

  // ---------------------------------------------------------------------------
  // Check-in

  /** The Check-in form's fields as typed. */
  datatype CheckInForm = CheckInForm(name: string, contact: string, room: string, rate: string)

  /** A reservation dated `date` for the room `Number(form.room)` gave. */
  predicate BookingFor(b: Reservation, room: JsNum, date: string) {
    StrictEq(b.room, room) && b.date == date
  }

  /** The guest the form checks in at `now`, with rate `Number(form.rate) || 0`. */
  function FormGuest(form: CheckInForm, now: string): Guest {
    Guest(form.name, form.contact, "", now, "", "", Some(OrZero(NumberOf(form.rate))), false)
  }

  /** `submit`: with no room chosen nothing changes; otherwise every room whose
      number is `Number(form.room)` becomes occupied by the form's guest, and
      when a reservation for that room is dated today all such reservations
      are dropped, keeping the others in order. */
  function CheckInSubmit(d: Desk, form: CheckInForm, now: string, today: string): (r: Desk)
    ensures form.room == "" ==> r == d
    ensures form.room != "" ==> SameShape(r.floors, d.floors)
    ensures form.room != "" ==> forall f, i :: 0 <= f < |d.floors| && 0 <= i < |d.floors[f].rooms| ==>
      var before := d.floors[f].rooms[i];
      r.floors[f].rooms[i] ==
        (if StrictEq(Num(before.number), NumberOf(form.room))
         then before.(status := OCCUPIED, guest := Some(FormGuest(form, now)))
         else before)
    ensures IsSubsequence(r.reservations, d.reservations)
    ensures form.room != "" ==> forall b :: b in r.reservations <==>
      b in d.reservations && !BookingFor(b, NumberOf(form.room), today)
  {
    IsSubsequenceRefl(d.reservations);
    if form.room == "" then d
    else
      var n := NumberOf(form.room);
      var floors := MapRooms(d.floors, (room: Room) =>
        if StrictEq(Num(room.number), n) then room.(status := OCCUPIED, guest := Some(FormGuest(form, now))) else room);
      var matched := exists b :: b in d.reservations && BookingFor(b, n, today);
      var reservations := if matched then Filter(d.reservations, (b: Reservation) => !BookingFor(b, n, today)) else d.reservations;
      Desk(floors, reservations)
  }

  /** After checking a guest into room `n`, that room is counted as occupied and
      no reservation holds it for today. */
  lemma CheckInOccupies(d: Desk, form: CheckInForm, now: string, today: string, n: int, f: nat, i: nat)
    requires form.room != "" && NumberOf(form.room) == Num(n)
    requires f < |d.floors| && i < |d.floors[f].rooms| && d.floors[f].rooms[i].number == n
    ensures var after := CheckInSubmit(d, form, now, today);
      DashboardStatus(after.floors[f].rooms[i], after.reservations, today) == OCCUPIED &&
      !ReservedOn(after.reservations, n, today)
  {
    var after := CheckInSubmit(d, form, now, today);
    forall k | 0 <= k < |after.reservations|
      ensures !(after.reservations[k].date == today && StrictEq(after.reservations[k].room, Num(n)))
    {
      assert after.reservations[k] in after.reservations;
    }
  }

  /** The record `saveCheckinData` writes after a check-in: the form's name,
      contact and room as typed, the check-in time and `Number(form.rate) || 0`. */
  function CheckinRecord(form: CheckInForm, nowIso: string): Json {
    JObj([("name", JStr(form.name)), ("contact", JStr(form.contact)), ("room", JStr(form.room)),
          ("checkIn", JStr(nowIso)), ("rate", JNum(OrZero(NumberOf(form.rate))))])
  }

  /** A folder whose visits include the check-in record for room `n` is read
      back by the disk loader with room `n` occupied: the check-in survives a
      reload from disk. */
  lemma SavedCheckinOccupies(form: CheckInForm, now: string, visits: seq<Folders.Visit>, nowIso: string, f: nat, i: nat, k: nat)
    requires f < FLOOR_COUNT && i < ROOMS_PER_FLOOR
    requires NumberOf(form.room) == Num((f + 1) * 100 + i + 1)
    requires k < |visits| && visits[k].content == Some(CheckinRecord(form, now))
    ensures DiskSync.CheckIns(DiskSync.Loaded(Grid(Some(DiskSync.DISK_RATE)), []), visits, nowIso).floors[f].rooms[i].status == OCCUPIED
  {
    RecordRoomIsTyped(form, now);
    ListedVisit(visits, k, CheckinRecord(form, now), NumberOf(form.room));
    DiskSync.CheckInsOccupy(visits, nowIso, f, i);
  }

  /** A visit holding a truthy record that lists `room` is a readable visit listing it. */
  lemma ListedVisit(visits: seq<Folders.Visit>, k: nat, data: Json, room: JsNum)
    requires k < |visits| && visits[k].content == Some(data) && Truthy(data)
    requires room in DiskSync.RecordRooms(data)
    ensures exists k' :: (0 <= k' < |visits| && DiskSync.Readable(visits[k']) &&
                          room in DiskSync.RecordRooms(visits[k'].content.value))
  {
    assert DiskSync.Readable(visits[k]);
  }

  /** The disk loader reads the saved record as listing the room text as typed. */
  lemma RecordRoomIsTyped(form: CheckInForm, now: string)
    ensures DiskSync.RecordRooms(CheckinRecord(form, now)) == [NumberOf(form.room)]
  {
    RoomFieldIsTyped(form, now);
  }

  /** The `room` member of the saved record is the room text as typed. */
  lemma RoomFieldIsTyped(form: CheckInForm, now: string)
    ensures Get(CheckinRecord(form, now), "room") == Some(JStr(form.room))
  {
    var fields := CheckinRecord(form, now).fields;
    assert fields[4].0 != "room" && fields[3].0 != "room" && fields[2].0 == "room";
    assert Lookup(fields, "room") == Lookup(fields[..4], "room");
    assert Lookup(fields[..4], "room") == Lookup(fields[..3], "room");
  }
}
