/** The remote view (src/components/RemoteView.jsx): five collections kept up
    to date by subscription handlers, the 5 x 4 room grid coloured from the
    check-ins and today's reservations, and the side lists of the latest
    entries. The subscriptions themselves are left out; what they deliver is
    the `data` passed to `Deliver`. */
module RemoteView {
  import opened Text
  import opened Json
  import opened Hotel
  import opened ListView

  // ---------------------------------------------------------------------------
  // Collections and their handlers

  /** One collection as the page holds it: `Object.entries` of the state
      object, keys in the order they first arrived. */
  type Entries = seq<(string, Json)>

  predicate KeysDistinct(c: Entries) {
    forall i, j :: 0 <= i < j < |c| ==> c[i].0 != c[j].0
  }

  predicate HasKey(c: Entries, key: string) {
    exists i :: 0 <= i < |c| && c[i].0 == key
  }

  /** What a subscription can hand over: keys once each, and only truthy data
      (the realtime service drops empty deliveries). */
  predicate Held(c: Entries) {
    KeysDistinct(c) && forall i :: 0 <= i < |c| ==> Truthy(c[i].1)
  }

  /** With distinct keys, looking a key up finds the one entry holding it. */
  lemma LookupHeld(c: Entries, i: nat)
    requires KeysDistinct(c) && i < |c|
    ensures Lookup(c, c[i].0) == Some(c[i].1)
  {
    var r := Lookup(c, c[i].0);
    assert r.Some?;
    var j :| 0 <= j < |c| && c[j] == (c[i].0, r.value);
    assert j == i;
  }

  /** `prev => ({ ...prev, [key]: data })`: a key already there keeps its
      place and takes the new data; a new key goes last. */
  function Merge(c: Entries, key: string, data: Json): (r: Entries)
    ensures |r| == if HasKey(c, key) then |c| else |c| + 1
    ensures forall i :: 0 <= i < |c| ==> r[i].0 == c[i].0
    ensures forall i :: 0 <= i < |c| && c[i].0 != key ==> r[i] == c[i]
    ensures !HasKey(c, key) ==> r[|c|] == (key, data)
  {
    if HasKey(c, key) then seq(|c|, i requires 0 <= i < |c| => if c[i].0 == key then (key, data) else c[i])
    else c + [(key, data)]
  }

  /** A handler sets exactly one key: afterwards `key` holds `data`, every
      other key holds what it held, no key is lost and none is doubled. */
  lemma MergeSetsOneKey(c: Entries, key: string, data: Json)
    requires KeysDistinct(c)
    ensures KeysDistinct(Merge(c, key, data))
    ensures Lookup(Merge(c, key, data), key) == Some(data)
    ensures forall k :: k != key ==> Lookup(Merge(c, key, data), k) == Lookup(c, k)
    ensures forall k :: HasKey(Merge(c, key, data), k) <==> HasKey(c, k) || k == key
  {
    var r := Merge(c, key, data);
    assert KeysDistinct(r);
    var at: nat :| at < |r| && r[at].0 == key;
    assert r[at] == (key, data);
    LookupHeld(r, at);
    forall k | k != key
      ensures Lookup(r, k) == Lookup(c, k)
    {
      if HasKey(c, k) {
        var i: nat :| i < |c| && c[i].0 == k;
        LookupHeld(c, i);
        LookupHeld(r, i);
      } else {
        assert !HasKey(r, k);
      }
    }
    forall k ensures HasKey(r, k) <==> HasKey(c, k) || k == key {
      if HasKey(c, k) {
        var i: nat :| i < |c| && c[i].0 == k;
        assert r[i].0 == k;
      }
    }
  }

  /** The page's five collections, each updated only by its own handler. */
  class Collections {
    var checkins: Entries
    var reservations: Entries
    var rentPayments: Entries
    var expenses: Entries
    var checkouts: Entries

    predicate Valid()
      reads this
    {
      Held(checkins) && Held(reservations) && Held(rentPayments) && Held(expenses) && Held(checkouts)
    }

    /** The page opens with five empty objects. */
    constructor ()
      ensures Valid()
      ensures checkins == [] && reservations == [] && rentPayments == [] && expenses == [] && checkouts == []
    {
      checkins, reservations, rentPayments, expenses, checkouts := [], [], [], [], [];
    }

    /** A delivery for `key` on the named Gun collection: empty data is
        dropped, otherwise that collection's handler merges it and the other
        four are untouched. A collection the page does not subscribe to
        changes nothing. */
    method Deliver(collection: string, key: string, data: Json)
      modifies this
      requires Valid()
      ensures Valid()
      ensures checkins == if collection == "checkins" && Truthy(data) then Merge(old(checkins), key, data) else old(checkins)
      ensures reservations == if collection == "reservations" && Truthy(data) then Merge(old(reservations), key, data) else old(reservations)
      ensures rentPayments == if collection == "rentCollections" && Truthy(data) then Merge(old(rentPayments), key, data) else old(rentPayments)
      ensures expenses == if collection == "expenses" && Truthy(data) then Merge(old(expenses), key, data) else old(expenses)
      ensures checkouts == if collection == "checkouts" && Truthy(data) then Merge(old(checkouts), key, data) else old(checkouts)
    {
      if !Truthy(data) {
        return;
      }
      if collection == "checkins" {
        MergeKeepsHeld(checkins, key, data);
        checkins := Merge(checkins, key, data);
      } else if collection == "reservations" {
        MergeKeepsHeld(reservations, key, data);
        reservations := Merge(reservations, key, data);
      } else if collection == "rentCollections" {
        MergeKeepsHeld(rentPayments, key, data);
        rentPayments := Merge(rentPayments, key, data);
      } else if collection == "expenses" {
        MergeKeepsHeld(expenses, key, data);
        expenses := Merge(expenses, key, data);
      } else if collection == "checkouts" {
        MergeKeepsHeld(checkouts, key, data);
        checkouts := Merge(checkouts, key, data);
      }
    }
  }

  /** Merging truthy data keeps a collection one the subscriptions can produce. */
  lemma MergeKeepsHeld(c: Entries, key: string, data: Json)
    requires Held(c) && Truthy(data)
    ensures Held(Merge(c, key, data))
  {
    MergeSetsOneKey(c, key, data);
  }

  // ---------------------------------------------------------------------------
  // Room status

  /** The room numbers a check-in lists: `Number` of each item when `room`
      is an array, else `[Number(d.room)]`. */
  function CheckinRooms(d: Json): (r: seq<JsNum>)
    ensures |r| >= 1 || (Get(d, "room").Some? && Get(d, "room").value.JArr?)
  {
    var room := Get(d, "room");
    if room.Some? && room.value.JArr? then ItemNumbers(room.value.items) else [ToNumber(room)]
  }

  /** One check-in marks room `n`: it is truthy and `rooms.includes(n)`. */
  predicate ListsRoom(d: Json, n: int) {
    Truthy(d) && Num(n) in CheckinRooms(d)
  }

  /** `roomHasCheckin(n)`: some check-in lists the room. */
  predicate RoomHasCheckin(checkins: Entries, n: int) {
    exists i :: 0 <= i < |checkins| && ListsRoom(checkins[i].1, n)
  }

  /** `d.date || (d.checkIn ? d.checkIn.slice(0, 10) : null)`. A check-in
      time that is not text is read as its text. */
  function ReservationDate(d: Json): (r: Json)
    ensures Present(Get(d, "date")) ==> r == Get(d, "date").value
    ensures !Present(Get(d, "date")) && !Present(Get(d, "checkIn")) ==> r == JNull
  {
    if Present(Get(d, "date")) then Get(d, "date").value
    else if Present(Get(d, "checkIn")) then JStr(SliceTo(ToText(Get(d, "checkIn").value), 10))
    else JNull
  }

  /** One reservation marks room `n` today: `Number(d.room) === n` and its date `=== today`. */
  predicate ReservedToday(d: Json, n: int, today: string) {
    Truthy(d) && StrictEq(ToNumber(Get(d, "room")), Num(n)) && ReservationDate(d) == JStr(today)
  }

  /** `roomHasReservationToday(n)`. */
  predicate RoomHasReservationToday(reservations: Entries, n: int, today: string) {
    exists i :: 0 <= i < |reservations| && ReservedToday(reservations[i].1, n, today)
  }

  /** The colour a grid cell is painted with. */
  datatype Cell = OccupiedCell | ReservedCell | FreeCell

  /** `occ ? … : resv ? … : …` with `resv = !occ && roomHasReservationToday(num)`. */
  function CellOf(checkins: Entries, reservations: Entries, n: int, today: string): (r: Cell)
    ensures r == OccupiedCell <==> RoomHasCheckin(checkins, n)
    ensures r == ReservedCell <==> !RoomHasCheckin(checkins, n) && RoomHasReservationToday(reservations, n, today)
    ensures r == FreeCell <==> !RoomHasCheckin(checkins, n) && !RoomHasReservationToday(reservations, n, today)
  {
    if RoomHasCheckin(checkins, n) then OccupiedCell
    else if RoomHasReservationToday(reservations, n, today) then ReservedCell
    else FreeCell
  }

  /** A delivered check-in decides the room's colour by itself once it
      lists the room: no reservation can paint the room reserved. */
  lemma CheckinWins(c: Collections, key: string, data: Json, n: int, today: string)
    requires ListsRoom(data, n)
    ensures CellOf(Merge(c.checkins, key, data), c.reservations, n, today) == OccupiedCell
  {
    var r := Merge(c.checkins, key, data);
    if HasKey(c.checkins, key) {
      var i: nat :| i < |c.checkins| && c.checkins[i].0 == key;
      assert r[i] == (key, data);
    } else {
      assert r[|c.checkins|] == (key, data);
    }
  }

  /** After a check-in for `key` arrives, room `n` shows a check-in exactly
      when the new data lists it or a check-in under another key does. */
  lemma MergedCheckin(checkins: Entries, key: string, data: Json, n: int)
    requires KeysDistinct(checkins)
    ensures RoomHasCheckin(Merge(checkins, key, data), n) <==>
      ListsRoom(data, n) || exists i :: 0 <= i < |checkins| && checkins[i].0 != key && ListsRoom(checkins[i].1, n)
  {
    var r := Merge(checkins, key, data);
    if RoomHasCheckin(r, n) {
      var i :| 0 <= i < |r| && ListsRoom(r[i].1, n);
      if i < |checkins| && checkins[i].0 != key {
        assert r[i] == checkins[i];
      } else if i < |checkins| {
        assert r[i] == (key, data);
      } else {
        assert r[i] == (key, data);
      }
    }
    if exists i :: 0 <= i < |checkins| && checkins[i].0 != key && ListsRoom(checkins[i].1, n) {
      var i :| 0 <= i < |checkins| && checkins[i].0 != key && ListsRoom(checkins[i].1, n);
      assert r[i] == checkins[i];
    }
    if ListsRoom(data, n) {
      if HasKey(checkins, key) {
        var i: nat :| i < |checkins| && checkins[i].0 == key;
        assert r[i] == (key, data);
      } else {
        assert r[|checkins|] == (key, data);
      }
    }
  }

  /** A check-in naming its room as a number marks the room. */
  lemma NumberRoomForm(n: int)
    ensures ListsRoom(JObj([("room", JNum(n))]), n)
  {
    var a := JObj([("room", JNum(n))]);
    assert Get(a, "room") == Some(JNum(n));
  }

  /** A check-in naming its room as text marks the room `Number` reads it as,
      such as the room's number written out (`NumberOfIntToString`). */
  lemma TextRoomForm(n: int, s: string)
    requires NumberOf(s) == Num(n)
    ensures ListsRoom(JObj([("room", JStr(s))]), n)
  {
    var b := JObj([("room", JStr(s))]);
    assert Get(b, "room") == Some(JStr(s));
    assert ToNumber(Some(JStr(s))) == NumberOf(s);
    assert CheckinRooms(b) == [NumberOf(s)];
  }

  /** A check-in for several rooms marks each room its array names, as a number or as text. */
  lemma ArrayRoomForm(n: int, items: seq<Json>, j: nat)
    requires j < |items| && (items[j] == JNum(n) || (items[j].JStr? && NumberOf(items[j].s) == Num(n)))
    ensures ListsRoom(JObj([("room", JArr(items))]), n)
  {
    var d := JObj([("room", JArr(items))]);
    assert Get(d, "room") == Some(JArr(items));
    assert ToNumber(Some(items[j])) == Num(n);
    assert CheckinRooms(d)[j] == Num(n);
  }

  /** A reservation dated `today` for the room, or one without a date whose
      check-in time starts with `today`, marks it reserved; a check-in time is
      only looked at when there is no date. */
  lemma ReservationForms(n: int, today: string, rest: string)
    requires |today| == 10
    ensures ReservedToday(JObj([("room", JNum(n)), ("date", JStr(today))]), n, today)
    ensures ReservedToday(JObj([("room", JNum(n)), ("checkIn", JStr(today + rest))]), n, today)
    ensures !ReservedToday(JObj([("room", JNum(n)), ("date", JStr(today + "T")), ("checkIn", JStr(today))]), n, today)
  {
    var a := [("room", JNum(n)), ("date", JStr(today))];
    assert Lookup(a, "date") == Some(JStr(today));
    assert Lookup(a, "room") == Some(JNum(n)) by { assert a[..1][..0] == []; }
    var b := [("room", JNum(n)), ("checkIn", JStr(today + rest))];
    assert Lookup(b, "checkIn") == Some(JStr(today + rest));
    assert Lookup(b, "date") == None;
    assert Lookup(b, "room") == Some(JNum(n)) by { assert b[..1][..0] == []; }
    assert SliceTo(today + rest, 10) == today;
    var c := [("room", JNum(n)), ("date", JStr(today + "T")), ("checkIn", JStr(today))];
    assert Lookup(c, "date") == Some(JStr(today + "T")) by { assert c[..2] == [("room", JNum(n)), ("date", JStr(today + "T"))]; }
    assert today + "T" != today by { assert |today + "T"| == 11; }
  }

  // ---------------------------------------------------------------------------
  // The grid

  /** One floor of the grid: `{ floor: f, rooms }`. */
  datatype GridFloor = GridFloor(floor: int, rooms: seq<int>)

  /** The nested push loops: floors 1..5, rooms `f * 100 + r` for r in 1..4,
      the same numbers as the hotel's fresh grid. */
  method FloorsGrid() returns (floors: seq<GridFloor>)
    ensures |floors| == FLOOR_COUNT
    ensures forall f :: 0 <= f < FLOOR_COUNT ==>
      floors[f].floor == f + 1 && |floors[f].rooms| == ROOMS_PER_FLOOR &&
      forall r :: 0 <= r < ROOMS_PER_FLOOR ==> floors[f].rooms[r] == (f + 1) * 100 + r + 1
    ensures forall f, r :: 0 <= f < FLOOR_COUNT && 0 <= r < ROOMS_PER_FLOOR ==>
      floors[f].floor == Grid(None)[f].key && floors[f].rooms[r] == Grid(None)[f].rooms[r].number
  {
    floors := [];
    var f := 1;
    while f <= 5
      invariant 1 <= f <= 6 && |floors| == f - 1
      invariant forall g :: 0 <= g < f - 1 ==>
        floors[g].floor == g + 1 && |floors[g].rooms| == 4 &&
        forall r :: 0 <= r < 4 ==> floors[g].rooms[r] == (g + 1) * 100 + r + 1
    {
      var rooms: seq<int> := [];
      var r := 1;
      while r <= 4
        invariant 1 <= r <= 5 && |rooms| == r - 1
        invariant forall i :: 0 <= i < r - 1 ==> rooms[i] == f * 100 + i + 1
      {
        rooms := rooms + [f * 100 + r];
        r := r + 1;
      }
      floors := floors + [GridFloor(f, rooms)];
      f := f + 1;
    }
    var g := Grid(None);
    assert IsEmptyGrid(g, None);
  }

  /** `s.slice(-2)`: the last two characters, or all of a shorter text. */
  function LastTwo(s: string): (r: string)
    ensures |r| == if |s| < 2 then |s| else 2
    ensures EndsWith(s, r)
  {
    if |s| <= 2 then s else s[|s| - 2..]
  }

  /** The cell's text: `String(f.floor)` then `pad2(num).slice(-2)`. */
  function Label(floor: int, num: int): string {
    IntToString(floor) + LastTwo(Pad2(IntToString(num)))
  }

  /** The label of room `r` of floor `f` is the room number written out, for
      every floor from 1 up and every position below 100. */
  lemma LabelIsNumber(f: nat, r: nat)
    requires f >= 1 && r <= 99
    ensures Label(f, f * 100 + r) == IntToString(f * 100 + r)
  {
    var n := f * 100 + r;
    HundredsDigits(f, r);
    var tail := [DigitChar(r / 10), DigitChar(r % 10)];
    assert NatToString(n) == NatToString(f) + tail;
    assert Pad2(IntToString(n)) == IntToString(n);
    assert LastTwo(IntToString(n)) == tail;
  }

  lemma HundredsDigits(f: nat, r: nat)
    requires r <= 99
    ensures (f * 100 + r) / 10 == f * 10 + r / 10 && (f * 100 + r) % 10 == r % 10
    ensures (f * 10 + r / 10) / 10 == f && (f * 10 + r / 10) % 10 == r / 10
  {
  }

  // ---------------------------------------------------------------------------
  // Side lists

  /** The most recent entries shown in a side list: `Object.entries(c).slice(-30).reverse()`. */
  const SIDE_ROWS: nat := 30

  function Recent(c: Entries): (r: Entries)
    ensures |r| == if |c| < SIDE_ROWS then |c| else SIDE_ROWS
    ensures forall i :: 0 <= i < |r| ==> r[i] == c[|c| - 1 - i]
  {
    LastReversed(c, SIDE_ROWS)
  }

  /** Data for a key already there is shown in that key's old place. */
  lemma UpdateKeepsPlace(c: Entries, key: string, data: Json, i: nat)
    requires i < |c| && c[i].0 == key && |c| - 1 - i < SIDE_ROWS
    ensures Recent(Merge(c, key, data))[|c| - 1 - i] == (key, data)
  {
    assert HasKey(c, key);
    assert Merge(c, key, data)[i] == (key, data);
  }

  /** A new key that arrives lands at the head of its side list. */
  lemma NewKeyFirst(c: Entries, key: string, data: Json)
    requires !HasKey(c, key)
    ensures Recent(Merge(c, key, data))[0] == (key, data)
  {
    var r := Merge(c, key, data);
    assert |Recent(r)| >= 1;
  }

  /** `(d.date || '').slice(0, 10) === today`. A date that is not text is read as its text. */
  predicate ListedToday(d: Json, today: string) {
    SliceTo(ToText(Or(Get(d, "date"), JStr(""))), 10) == today
  }

  /** The reservations dated today, in arrival order. */
  function DatedToday(reservations: Entries, today: string): (r: Entries)
    ensures forall e :: e in r <==> e in reservations && ListedToday(e.1, today)
  {
    Filter(reservations, (e: (string, Json)) => ListedToday(e.1, today))
  }

  /** Today's reservations as listed: those dated today, the last thirty, newest first. */
  function TodayList(reservations: Entries, today: string): (r: Entries)
    ensures |r| == if |DatedToday(reservations, today)| < SIDE_ROWS then |DatedToday(reservations, today)| else SIDE_ROWS
    ensures forall i :: 0 <= i < |r| ==>
      r[i] == DatedToday(reservations, today)[|DatedToday(reservations, today)| - 1 - i]
    ensures forall e :: e in r ==> e in reservations && ListedToday(e.1, today)
  {
    var dated := DatedToday(reservations, today);
    var r := LastReversed(dated, SIDE_ROWS);
    assert forall i :: 0 <= i < |r| ==> r[i] in dated;
    r
  }

  /** When at most thirty reservations are dated today, the list holds each of them. */
  lemma TodayListComplete(reservations: Entries, today: string, e: (string, Json))
    requires e in reservations && ListedToday(e.1, today)
    requires |DatedToday(reservations, today)| <= SIDE_ROWS
    ensures e in TodayList(reservations, today)
  {
    InReversed(DatedToday(reservations, today), TodayList(reservations, today), e);
  }

  /** Every entry of a list is in its reversal. */
  lemma InReversed(dated: Entries, r: Entries, e: (string, Json))
    requires |r| == |dated| && forall i :: 0 <= i < |r| ==> r[i] == dated[|dated| - 1 - i]
    requires e in dated
    ensures e in r
  {
    var j :| 0 <= j < |dated| && dated[j] == e;
    assert r[|dated| - 1 - j] == e;
  }

  /** The list and the grid agree on a reservation whose date is text of at
      most ten characters. */
  lemma ListAndGridAgree(d: Json, n: int, today: string)
    requires Truthy(d) && StrictEq(ToNumber(Get(d, "room")), Num(n))
    requires Present(Get(d, "date")) && Get(d, "date").value.JStr? && |Get(d, "date").value.s| <= 10
    ensures ListedToday(d, today) <==> ReservedToday(d, n, today)
  {
  }

  /** A reservation whose date carries a time after the day is listed under
      today's reservations, but its room is not painted reserved: the list
      cuts the date to ten characters and the grid compares it whole. */
  lemma LongDateListedNotReserved(n: int, today: string)
    requires |today| == 10
    ensures var d := JObj([("room", JNum(n)), ("date", JStr(today + "T09:00"))]);
      ListedToday(d, today) && !ReservedToday(d, n, today)
  {
    var f := [("room", JNum(n)), ("date", JStr(today + "T09:00"))];
    assert Lookup(f, "date") == Some(JStr(today + "T09:00"));
    assert SliceTo(today + "T09:00", 10) == today;
    assert today + "T09:00" != today by { assert |today + "T09:00"| == 16; }
  }
}
