/** The desk's Accounts page: the rooms a rent can be collected for, filling the
    guest name when a room is picked, and checking and writing the rent and
    expense forms. Storage and the clock are given: whether a folder is
    connected, today's folder name, `Date.now()` and the ISO time text. */
module AppAccounts {
  import opened Text
  import opened Json
  import opened Hotel
  import opened AppLists

  /** An entry of `occupiedRooms`. */
  datatype OccupiedEntry = OccupiedEntry(number: int, guestName: string)

  /** The occupied rooms that have a guest, in floor order. */
  function OccupiedList(rooms: seq<Room>): (r: seq<OccupiedEntry>)
    ensures |r| <= |rooms|
  {
    if |rooms| == 0 then []
    else
      var last := rooms[|rooms| - 1];
      OccupiedList(rooms[..|rooms| - 1]) +
        (if last.status == OCCUPIED && last.guest.Some? then [OccupiedEntry(last.number, last.guest.value.name)] else [])
  }

  /** An entry is listed iff some occupied room with a guest gives it. */
  lemma {:induction false} OccupiedListExactly(rooms: seq<Room>, e: OccupiedEntry)
    ensures e in OccupiedList(rooms) <==>
      exists i :: 0 <= i < |rooms| && rooms[i].status == OCCUPIED && rooms[i].guest.Some? &&
        e == OccupiedEntry(rooms[i].number, rooms[i].guest.value.name)
    decreases |rooms|
  {
    if |rooms| > 0 {
      var k := |rooms| - 1;
      OccupiedListExactly(rooms[..k], e);
      if exists i :: 0 <= i < |rooms| && rooms[i].status == OCCUPIED && rooms[i].guest.Some? &&
          e == OccupiedEntry(rooms[i].number, rooms[i].guest.value.name) {
        var i :| 0 <= i < |rooms| && rooms[i].status == OCCUPIED && rooms[i].guest.Some? &&
          e == OccupiedEntry(rooms[i].number, rooms[i].guest.value.name);
        if i < k {
          assert rooms[..k][i] == rooms[i];
        }
      }
      if exists i :: 0 <= i < k && rooms[..k][i].status == OCCUPIED && rooms[..k][i].guest.Some? &&
          e == OccupiedEntry(rooms[..k][i].number, rooms[..k][i].guest.value.name) {
        var i :| 0 <= i < k && rooms[..k][i].status == OCCUPIED && rooms[..k][i].guest.Some? &&
          e == OccupiedEntry(rooms[..k][i].number, rooms[..k][i].guest.value.name);
        assert rooms[i] == rooms[..k][i];
      }
    }
  }

  lemma OccupiedStep(before: seq<Room>, rooms: seq<Room>, i: nat)
    requires i < |rooms|
    ensures OccupiedList(before + rooms[..i + 1]) == OccupiedList(before + rooms[..i]) +
      (if rooms[i].status == OCCUPIED && rooms[i].guest.Some? then [OccupiedEntry(rooms[i].number, rooms[i].guest.value.name)] else [])
  {
    var xs := before + rooms[..i + 1];
    assert xs[..|xs| - 1] == before + rooms[..i];
  }

  /** The loops that build `occupiedRooms`. */
  method OccupiedRooms(floors: seq<Floor>) returns (list: seq<OccupiedEntry>)
    ensures list == OccupiedList(AllRooms(floors))
  {
    list := [];
    var f := 0;
    while f < |floors|
      invariant 0 <= f <= |floors|
      invariant list == OccupiedList(AllRooms(floors[..f]))
    {
      AllRoomsSnoc(floors, f);
      ghost var before := AllRooms(floors[..f]);
      var rooms := floors[f].rooms;
      assert before + rooms[..0] == before;
      var i := 0;
      while i < |rooms|
        invariant 0 <= i <= |rooms|
        invariant list == OccupiedList(before + rooms[..i])
      {
        var room := rooms[i];
        OccupiedStep(before, rooms, i);
        if room.status == OCCUPIED && room.guest.Some? {
          list := list + [OccupiedEntry(room.number, room.guest.value.name)];
        }
        i := i + 1;
      }
      assert rooms[..i] == rooms;
      f := f + 1;
    }
    assert floors[..f] == floors;
  }

  /** `occupiedRooms.find(r => String(r.number) === roomNo)`, as a position. */
  function FindRoom(list: seq<OccupiedEntry>, roomNo: string): (r: Option<nat>)
    ensures r.Some? ==> r.value < |list| && IntToString(list[r.value].number) == roomNo &&
                        (forall k :: 0 <= k < r.value ==> IntToString(list[k].number) != roomNo)
    ensures r.None? ==> forall k :: 0 <= k < |list| ==> IntToString(list[k].number) != roomNo
  {
    if |list| == 0 then None
    else if IntToString(list[0].number) == roomNo then Some(0)
    else
      var r := FindRoom(list[1..], roomNo);
      if r.Some? then Some(r.value + 1) else None
  }

  /** The rent form; every field is the text of its input. */
  datatype RentForm = RentForm(name: string, room: string, days: string, amount: string, mode: string)

  /** `handleRoomChange(roomNo)`: the room is set, and the name becomes the guest of
      the first listed room with that number, or "" when there is none. */
  function RoomChange(form: RentForm, list: seq<OccupiedEntry>, roomNo: string): (r: RentForm)
    ensures r.room == roomNo && r.days == form.days && r.amount == form.amount && r.mode == form.mode
    ensures FindRoom(list, roomNo).None? ==> r.name == ""
    ensures FindRoom(list, roomNo).Some? ==> r.name == list[FindRoom(list, roomNo).value].guestName
  {
    var found := FindRoom(list, roomNo);
    form.(room := roomNo, name := if found.Some? then list[found.value].guestName else "")
  }

  /** Picking a room that holds a guest fills in that guest's name. */
  lemma PickedRoomNamesItsGuest(floors: seq<Floor>, form: RentForm, room: Room)
    requires room in AllRooms(floors) && room.status == OCCUPIED && room.guest.Some?
    requires forall r :: r in AllRooms(floors) && r.number == room.number ==> r == room
    ensures RoomChange(form, OccupiedList(AllRooms(floors)), IntToString(room.number)).name == room.guest.value.name
  {
    var rooms := AllRooms(floors);
    var list := OccupiedList(rooms);
    var i :| 0 <= i < |rooms| && rooms[i] == room;
    OccupiedListExactly(rooms, OccupiedEntry(room.number, room.guest.value.name));
    var found := FindRoom(list, IntToString(room.number));
    assert found.Some?;
    var e := list[found.value];
    OccupiedListExactly(rooms, e);
    var j :| 0 <= j < |rooms| && rooms[j].status == OCCUPIED && rooms[j].guest.Some? &&
      e == OccupiedEntry(rooms[j].number, rooms[j].guest.value.name);
    IntToStringInjective(e.number, room.number);
    assert rooms[j] == room;
  }

  /** Different numbers have different decimal texts. */
  lemma IntToStringInjective(a: int, b: int)
    requires IntToString(a) == IntToString(b)
    ensures a == b
  {
    NumberOfIntToString(a);
    NumberOfIntToString(b);
  }

  // ---------------------------------------------------------------------------
  // Saving the forms

  /** What a submit does: refuse the form, find no storage, or write one file. */
  datatype Submit =
    | Incomplete
    | InvalidAmount
    | NotConnected
    | Write(folder: seq<string>, fileName: string, record: Json)

  predicate RentComplete(form: RentForm) {
    form.room != "" && form.name != "" && form.days != "" && form.amount != "" && form.mode != ""
  }

  /** The saved rent record: the form's fields and the time of saving. */
  function RentRecord(form: RentForm, nowIso: string): Json {
    JObj([("name", JStr(form.name)), ("room", JStr(form.room)), ("days", JStr(form.days)),
          ("amount", JStr(form.amount)), ("mode", JStr(form.mode)), ("date", JStr(nowIso))])
  }

  /** `submitRent`: an incomplete form is refused; without storage nothing is written;
      otherwise one file named after the guest, the room and the time goes into
      today's RentCollections folder. */
  function SubmitRent(form: RentForm, connected: bool, today: string, now: int, nowIso: string): (r: Submit)
    ensures r.Incomplete? <==> !RentComplete(form)
    ensures r.NotConnected? <==> RentComplete(form) && !connected
    ensures r.Write? <==> RentComplete(form) && connected
    ensures r.Write? ==> r.folder == ["RentCollections", today] && r.record == RentRecord(form, nowIso)
    ensures r.Write? ==> StartsWith(r.fileName, "rent-") && EndsWith(r.fileName, ".json")
  {
    if !RentComplete(form) then Incomplete
    else if !connected then NotConnected
    else
      var fileName := "rent-" + SafeName(form.name) + "-" + form.room + "-" + IntToString(now) + ".json";
      assert fileName[|fileName| - 5..] == ".json";
      Write(["RentCollections", today], fileName, RentRecord(form, nowIso))
  }

  /** The saved record's amount and mode are the form's texts. */
  lemma RentRecordFields(form: RentForm, nowIso: string)
    ensures Get(RentRecord(form, nowIso), "amount") == Some(JStr(form.amount))
    ensures Get(RentRecord(form, nowIso), "mode") == Some(JStr(form.mode))
  {
    var fields := RentRecord(form, nowIso).fields;
    var f5 := fields[..5];
    assert f5[4] == ("mode", JStr(form.mode));
    assert Lookup(fields, "mode") == Lookup(f5, "mode") == Some(JStr(form.mode));
    assert f5[..4][3] == ("amount", JStr(form.amount));
    assert Lookup(fields, "amount") == Lookup(f5, "amount") == Lookup(f5[..4], "amount");
  }

  /** A saved rent row counts `Number(amount) || 0` of the form's amount in the
      Rent Payments total, and the row is shown when that page is filtered to its day
      and its mode. */
  lemma SavedRentIsListed(form: RentForm, today: string, nowIso: string)
    ensures RowAmount(LoadedRow(RentRecord(form, nowIso), today)) == OrZero(NumberOf(form.amount))
    ensures form.mode != "" ==>
      RentKeep(LoadedRow(RentRecord(form, nowIso), today), RentFilters(today, today, form.mode, ""))
  {
    RentRecordFields(form, nowIso);
    if form.mode != "" {
      SavedRentShown(form, today, nowIso);
    }
  }

  /** The saved row passes the Rent Payments filters set to its day and its mode. */
  lemma SavedRentShown(form: RentForm, today: string, nowIso: string)
    requires form.mode != ""
    ensures RentKeep(LoadedRow(RentRecord(form, nowIso), today), RentFilters(today, today, form.mode, ""))
  {
    RentRecordFields(form, nowIso);
    var row := LoadedRow(RentRecord(form, nowIso), today);
    var f := RentFilters(today, today, form.mode, "");
    LexLessIrreflexive(today);
    assert InDateRange(row, f.from, f.to);
    assert TextOr(row.data, "mode", "") == form.mode;
    assert FieldText(row, "mode") == Lower(f.mode);
    assert Trim(f.q) == "";
  }

  datatype ExpenseForm = ExpenseForm(desc: string, amount: string)

  function ExpenseRecord(desc: string, amount: int, nowIso: string): Json {
    JObj([("description", JStr(desc)), ("amount", JNum(amount)), ("date", JStr(nowIso))])
  }

  /** `submitExpense`: both fields are required, the amount must be a number above
      zero, and storage must be connected; then one file goes into today's Expenses folder. */
  function SubmitExpense(form: ExpenseForm, connected: bool, today: string, now: int, nowIso: string): (r: Submit)
    ensures r.Incomplete? <==> form.desc == "" || form.amount == ""
    ensures r.InvalidAmount? <==> !r.Incomplete? && !(NumberOf(form.amount).Num? && NumberOf(form.amount).v > 0)
    ensures r.Write? <==> form.desc != "" && form.amount != "" && NumberOf(form.amount).Num? &&
                           NumberOf(form.amount).v > 0 && connected
    ensures r.Write? ==> r.folder == ["Expenses", today] && r.record == ExpenseRecord(form.desc, NumberOf(form.amount).v, nowIso)
    ensures r.Write? ==> StartsWith(r.fileName, "expense-") && EndsWith(r.fileName, ".json")
  {
    if form.desc == "" || form.amount == "" then Incomplete
    else
      var amountNum := NumberOf(form.amount);
      if amountNum.NaN? || amountNum.v <= 0 then InvalidAmount
      else if !connected then NotConnected
      else
        var fileName := "expense-" + SafeName(form.desc) + "-" + IntToString(now) + ".json";
        assert fileName[|fileName| - 5..] == ".json";
        Write(["Expenses", today], fileName, ExpenseRecord(form.desc, amountNum.v, nowIso))
  }

  /** A saved expense adds its positive amount to the Expenses total. */
  lemma SavedExpenseCounts(form: ExpenseForm, connected: bool, today: string, now: int, nowIso: string)
    requires SubmitExpense(form, connected, today, now, nowIso).Write?
    ensures RowAmount(LoadedRow(SubmitExpense(form, connected, today, now, nowIso).record, today)) > 0
  {
    var r := SubmitExpense(form, connected, today, now, nowIso);
    ExpenseRecordAmount(form.desc, NumberOf(form.amount).v, nowIso);
    assert Get(r.record, "amount") == Some(JNum(NumberOf(form.amount).v));
  }

  /** The `amount` member of a saved expense is the amount given. */
  lemma ExpenseRecordAmount(desc: string, amount: int, nowIso: string)
    ensures Get(ExpenseRecord(desc, amount, nowIso), "amount") == Some(JNum(amount))
  {
    var fields := ExpenseRecord(desc, amount, nowIso).fields;
    assert fields[..2][..1] == [("description", JStr(desc))];
    assert Lookup(fields, "amount") == Lookup(fields[..2], "amount");
  }
}
