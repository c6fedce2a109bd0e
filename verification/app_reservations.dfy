/** The Reservations page of the front desk: which rooms can be booked on a
    date, adding a booking and deleting one. */
module AppReservations {
  import opened Text
  import opened Hotel

  /** The numbers of the rooms, in order, that are not occupied and have no
      reservation on `date`. */
  function Available(rooms: seq<Room>, reservations: seq<Reservation>, date: string): (r: seq<int>)
    ensures |r| <= |rooms|
  {
    if |rooms| == 0 then []
    else
      var last := rooms[|rooms| - 1];
      Available(rooms[..|rooms| - 1], reservations, date) +
        (if last.status != OCCUPIED && !ReservedOn(reservations, last.number, date) then [last.number] else [])
  }

  /** A number is offered iff some room with that number is not occupied and no
      reservation holds that number on that date. */
  lemma {:induction false} AvailableExactly(rooms: seq<Room>, reservations: seq<Reservation>, date: string, n: int)
    ensures n in Available(rooms, reservations, date) <==>
      !ReservedOn(reservations, n, date) &&
      exists i :: 0 <= i < |rooms| && rooms[i].number == n && rooms[i].status != OCCUPIED
    decreases |rooms|
  {
    if |rooms| > 0 {
      var k := |rooms| - 1;
      AvailableExactly(rooms[..k], reservations, date, n);
      if exists i :: 0 <= i < |rooms| && rooms[i].number == n && rooms[i].status != OCCUPIED {
        var i :| 0 <= i < |rooms| && rooms[i].number == n && rooms[i].status != OCCUPIED;
        if i < k {
          assert rooms[..k][i] == rooms[i];
        }
      }
      if exists i :: 0 <= i < k && rooms[..k][i].number == n && rooms[..k][i].status != OCCUPIED {
        var i :| 0 <= i < k && rooms[..k][i].number == n && rooms[..k][i].status != OCCUPIED;
        assert rooms[i] == rooms[..k][i];
      }
    }
  }

  lemma AvailableStep(before: seq<Room>, rooms: seq<Room>, i: nat, reservations: seq<Reservation>, date: string)
    requires i < |rooms|
    ensures Available(before + rooms[..i + 1], reservations, date) ==
      Available(before + rooms[..i], reservations, date) +
      (if rooms[i].status != OCCUPIED && !ReservedOn(reservations, rooms[i].number, date) then [rooms[i].number] else [])
  {
    var xs := before + rooms[..i + 1];
    assert xs[..|xs| - 1] == before + rooms[..i];
  }

  /** `updateAvailableRooms(date)`: no list without a date; otherwise the
      numbers of the free-to-book rooms of every floor, in floor order. */
  method UpdateAvailableRooms(floors: seq<Floor>, reservations: seq<Reservation>, date: string)
    returns (rooms: seq<int>)
    ensures date == "" ==> rooms == []
    ensures date != "" ==> rooms == Available(AllRooms(floors), reservations, date)
  {
    if date == "" {
      return [];
    }
    rooms := [];
    var f := 0;
    while f < |floors|
      invariant 0 <= f <= |floors|
      invariant rooms == Available(AllRooms(floors[..f]), reservations, date)
    {
      AllRoomsSnoc(floors, f);
      ghost var before := AllRooms(floors[..f]);
      var floor := floors[f].rooms;
      assert before + floor[..0] == before;
      var i := 0;
      while i < |floor|
        invariant 0 <= i <= |floor|
        invariant rooms == Available(before + floor[..i], reservations, date)
      {
        var room := floor[i];
        AvailableStep(before, floor, i, reservations, date);
        var isOccupied := room.status == OCCUPIED;
        var isReservedThatDate := ReservedOn(reservations, room.number, date);
        if !isOccupied && !isReservedThatDate {
          rooms := rooms + [room.number];
        }
        i := i + 1;
      }
      assert floor[..i] == floor;
      f := f + 1;
    }
    assert floors[..f] == floors;
  }

  /** The booking form; every field is the text of its input. */
  datatype ReservationForm = ReservationForm(name: string, place: string, room: string, date: string)

  /** The form is accepted only when no field is empty. */
  predicate FormComplete(form: ReservationForm) {
    form.name != "" && form.place != "" && form.room != "" && form.date != ""
  }

  /** The reservation a complete form adds: the room field goes through `Number`. */
  function NewReservation(form: ReservationForm): (r: Reservation)
    ensures r.name == form.name && r.place == form.place && r.date == form.date
    ensures r.room == NumberOf(form.room)
  {
    Reservation(form.name, form.place, NumberOf(form.room), form.date)
  }

  /** The list without its `i`-th entry (`splice(i, 1)`). */
  function RemoveAt(s: seq<Reservation>, i: nat): (r: seq<Reservation>)
    requires i < |s|
    ensures |r| == |s| - 1
    ensures multiset(r) + multiset{s[i]} == multiset(s)
    ensures forall k :: 0 <= k < i ==> r[k] == s[k]
    ensures forall k :: i <= k < |r| ==> r[k] == s[k + 1]
  {
    assert s == s[..i] + [s[i]] + s[i + 1..];
    s[..i] + s[i + 1..]
  }

  /** A reservation added to the list is seen by `ReservedOn` for its own room and
      date, and for no other date. */
  lemma ReservedOnAppend(reservations: seq<Reservation>, b: Reservation, n: int, date: string)
    ensures ReservedOn(reservations + [b], n, date) <==>
      ReservedOn(reservations, n, date) || (b.date == date && StrictEq(b.room, Num(n)))
  {
    var xs := reservations + [b];
    if ReservedOn(reservations, n, date) {
      var i :| 0 <= i < |reservations| && reservations[i].date == date && StrictEq(reservations[i].room, Num(n));
      assert xs[i] == reservations[i];
    }
    if b.date == date && StrictEq(b.room, Num(n)) {
      assert xs[|reservations|] == b;
    }
  }

  /** Once a booking for room `n` on `date` is added, `n` is no longer offered on that date. */
  lemma AddedRoomUnavailable(rooms: seq<Room>, reservations: seq<Reservation>, form: ReservationForm, n: int)
    requires NumberOf(form.room) == Num(n)
    ensures n !in Available(rooms, reservations + [NewReservation(form)], form.date)
  {
    ReservedOnAppend(reservations, NewReservation(form), n, form.date);
    AvailableExactly(rooms, reservations + [NewReservation(form)], form.date, n);
  }

  /** A booking on one date does not change what is offered on any other date. */
  lemma {:induction false} OtherDatesUnaffected(rooms: seq<Room>, reservations: seq<Reservation>, b: Reservation, date: string)
    requires b.date != date
    ensures Available(rooms, reservations + [b], date) == Available(rooms, reservations, date)
    decreases |rooms|
  {
    if |rooms| > 0 {
      var k := |rooms| - 1;
      OtherDatesUnaffected(rooms[..k], reservations, b, date);
      ReservedOnAppend(reservations, b, rooms[k].number, date);
    }
  }

  /** The shared reservation list the page pushes to and splices in place. */
  class ReservationBook {
    var reservations: seq<Reservation>

    constructor (initial: seq<Reservation>)
      ensures reservations == initial
    {
      reservations := initial;
    }

    /** `addReservation`: an incomplete form is refused and nothing changes;
        otherwise the new booking goes at the end. */
    method Add(form: ReservationForm) returns (added: bool)
      modifies this
      ensures added <==> FormComplete(form)
      ensures added ==> reservations == old(reservations) + [NewReservation(form)]
      ensures !added ==> reservations == old(reservations)
    {
      if form.name == "" || form.place == "" || form.room == "" || form.date == "" {
        return false;
      }
      var resObj := Reservation(form.name, form.place, NumberOf(form.room), form.date);
      reservations := reservations + [resObj];
      added := true;
    }

    /** `deleteReservation(i)`: a missing entry, or a deletion the user does not
        confirm, changes nothing; otherwise entry `i` is removed. */
    method Delete(i: int, confirmed: bool) returns (deleted: bool)
      modifies this
      ensures deleted <==> 0 <= i < |old(reservations)| && confirmed
      ensures deleted ==> reservations == RemoveAt(old(reservations), i)
      ensures !deleted ==> reservations == old(reservations)
    {
      if !(0 <= i < |reservations|) {
        return false;
      }
      if !confirmed {
        return false;
      }
      reservations := reservations[..i] + reservations[i + 1..];
      deleted := true;
    }
  }
}
