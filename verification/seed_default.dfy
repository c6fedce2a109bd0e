/** The sample state server/seedDefault.mjs writes to the database: the 5 x 4
    grid at rate 2500, room 102 held for A. Kumar, rooms 202 and 301 occupied,
    and two reservations for today. `now` and `today` stand for the clock's ISO
    time and its first ten characters. */
module SeedDefault {
  import opened Text
  import opened Json
  import opened Hotel

  const SEED_RATE: int := 2500

  /** A seed guest: checked in at `now`, with their own rate. */
  function SeedGuest(name: string, contact: string, id: string, now: string, rate: int): Guest {
    Guest(name, contact, id, now, "", "", Some(rate), false)
  }

  /** The seed's whole state: floors, the two reservations, and empty lists. */
  datatype Seed = Seed(
    floors: seq<Floor>, guests: seq<Guest>, reservations: seq<Reservation>,
    checkouts: seq<Json>, rentPayments: seq<Json>, expenses: seq<Json>)

  /** What every seed room holds, by its number. */
  ghost predicate SeedRooms(floors: seq<Floor>, now: string, today: string) {
    |floors| == FLOOR_COUNT &&
    (forall f :: 0 <= f < FLOOR_COUNT ==>
      floors[f].key == f + 1 && |floors[f].rooms| == ROOMS_PER_FLOOR &&
      forall i :: 0 <= i < ROOMS_PER_FLOOR ==> floors[f].rooms[i].number == (f + 1) * 100 + i + 1) &&
    forall f, i :: 0 <= f < FLOOR_COUNT && 0 <= i < ROOMS_PER_FLOOR ==>
      var room := floors[f].rooms[i];
      var n := room.number;
      room.rate == Some(SEED_RATE) &&
      (n == 102 ==> room.status == RESERVED && room.guest.None? && room.reservedFor == Some(ReservedFor("A. Kumar", today))) &&
      (n == 202 ==> room.status == OCCUPIED && room.reservedFor.None? && room.guest == Some(SeedGuest("Ravi", "9876543210", "ID123", now, 1500))) &&
      (n == 301 ==> room.status == OCCUPIED && room.reservedFor.None? && room.guest == Some(SeedGuest("Priya", "9345678123", "DL998", now, 2000))) &&
      (n != 102 && n != 202 && n != 301 ==> room == GridRoom(f + 1, i + 1, Some(SEED_RATE)))
  }

  /** `generateDefault()` of the seed script. */
  method GenerateSeed(now: string, today: string) returns (s: Seed)
    ensures SeedRooms(s.floors, now, today)
    ensures s.reservations == [Reservation("zzzzz", "1111", Num(101), today), Reservation("xxxxxx", "yyyyyyy", Num(103), today)]
    ensures s.guests == [] && s.checkouts == [] && s.rentPayments == [] && s.expenses == []
  {
    var floors := EmptyFloors(Some(SEED_RATE));
    floors := SetRoom(floors, 0, 1, floors[0].rooms[1].(status := RESERVED, reservedFor := Some(ReservedFor("A. Kumar", today))));
    floors := SetRoom(floors, 1, 1, floors[1].rooms[1].(status := OCCUPIED, guest := Some(SeedGuest("Ravi", "9876543210", "ID123", now, 1500))));
    floors := SetRoom(floors, 2, 0, floors[2].rooms[0].(status := OCCUPIED, guest := Some(SeedGuest("Priya", "9345678123", "DL998", now, 2000))));
    var todayIso := today;
    s := Seed(floors, [],
      [Reservation("zzzzz", "1111", Num(101), todayIso), Reservation("xxxxxx", "yyyyyyy", Num(103), todayIso)],
      [], [], []);
  }

  /** Exactly two rooms of the seed are occupied, 202 and 301, and only 102 is held. */
  lemma SeedOccupied(floors: seq<Floor>, now: string, today: string, f: nat, i: nat)
    requires SeedRooms(floors, now, today)
    requires f < FLOOR_COUNT && i < ROOMS_PER_FLOOR
    ensures floors[f].rooms[i].status == OCCUPIED <==> floors[f].rooms[i].number in {202, 301}
    ensures floors[f].rooms[i].status == RESERVED <==> floors[f].rooms[i].number == 102
  {
    StatusesDistinct();
  }
}
