/** The Check-out page of src/App.jsx: summing a guest's rent payments over the
    date folders of the stay (`getTotalPayments`), the bill written to the
    checkout record (`moveCheckinToCheckout`) and freeing the room (`doCheckout`). */
module AppCheckout {
  import opened Text
  import opened Json
  import opened Hotel
  import opened Folders
  import opened ListView
  import AppRooms

  // ---------------------------------------------------------------------------
  // Payments during a stay

  /** Reading one rent file throws: its text is not JSON, it is `null`, or its
      room matches and its `name` is a value without a `trim` method. */
  predicate Throws(content: Option<Json>, room: int, name: string) {
    content.None? || content.value.JNull? ||
    (StringOf(Get(content.value, "room")) == IntToString(room) &&
     var n := Get(content.value, "name");
     n.Some? && !n.value.JNull? && !n.value.JStr?)
  }

  /** A rent file that does not throw is the guest's payment: same room text and
      the same name once trimmed and lower-cased. */
  predicate Matches(content: Option<Json>, room: int, name: string) {
    content.Some? &&
    StringOf(Get(content.value, "room")) == IntToString(room) &&
    var n := Get(content.value, "name");
    n.Some? && n.value.JStr? && Lower(Trim(n.value.s)) == Lower(Trim(name))
  }

  /** What one rent file adds to the total: `None` when reading it throws. */
  function PaymentOf(content: Option<Json>, room: int, name: string): (r: Option<int>)
    ensures r.None? <==> Throws(content, room, name)
    ensures r.Some? && r.value != 0 ==> Matches(content, room, name)
  {
    if Throws(content, room, name) then None
    else if Matches(content, room, name) then Some(AmountOf(content.value, "amount"))
    else Some(0)
  }

  /** The running total of a walk and whether a throw has ended it. */
  datatype Walked = Walked(total: int, aborted: bool)

  /** The walk's running total: amounts add up until the first file that throws;
      the `catch` then keeps what was summed so far. */
  function PaymentWalk(visits: seq<Visit>, room: int, name: string): Walked {
    if |visits| == 0 then Walked(0, false)
    else
      var w := PaymentWalk(visits[..|visits| - 1], room, name);
      if w.aborted then w
      else match PaymentOf(visits[|visits| - 1].content, room, name)
        case None => Walked(w.total, true)
        case Some(x) => Walked(w.total + x, false)
  }

  /** The guest's own payments among `visits`. */
  function MatchedSum(visits: seq<Visit>, room: int, name: string): int {
    if |visits| == 0 then 0
    else
      var last := visits[|visits| - 1];
      MatchedSum(visits[..|visits| - 1], room, name) +
        (if Matches(last.content, room, name) then AmountOf(last.content.value, "amount") else 0)
  }

  /** Once a walk has thrown, later files change nothing. */
  lemma {:induction false} AbortedWalkIsFinal(a: seq<Visit>, b: seq<Visit>, room: int, name: string)
    requires PaymentWalk(a, room, name).aborted
    ensures PaymentWalk(a + b, room, name) == PaymentWalk(a, room, name)
    decreases |b|
  {
    if |b| == 0 {
      assert a + b == a;
    } else {
      assert (a + b)[..|a + b| - 1] == a + b[..|b| - 1];
      AbortedWalkIsFinal(a, b[..|b| - 1], room, name);
    }
  }

  /** With no file that throws, the total is exactly the sum of the guest's payments. */
  lemma {:induction false} WalkWithoutThrowIsMatchedSum(visits: seq<Visit>, room: int, name: string)
    requires forall k :: 0 <= k < |visits| ==> !Throws(visits[k].content, room, name)
    ensures PaymentWalk(visits, room, name) == Walked(MatchedSum(visits, room, name), false)
    decreases |visits|
  {
    if |visits| > 0 {
      WalkWithoutThrowIsMatchedSum(visits[..|visits| - 1], room, name);
    }
  }

  /** A throw keeps the guest's payments found before the first file that throws. */
  lemma WalkStopsAtFirstThrow(visits: seq<Visit>, room: int, name: string, k: nat)
    requires k < |visits| && Throws(visits[k].content, room, name)
    requires forall m :: 0 <= m < k ==> !Throws(visits[m].content, room, name)
    ensures PaymentWalk(visits, room, name) == Walked(MatchedSum(visits[..k], room, name), true)
  {
    var before := visits[..k];
    assert forall m :: 0 <= m < |before| ==> before[m] == visits[m];
    WalkWithoutThrowIsMatchedSum(before, room, name);
    var upTo := visits[..k + 1];
    assert upTo == before + [visits[k]];
    assert PaymentOf(visits[k].content, room, name).None?;
    WalkStep(before, visits[k], room, name);
    assert visits == upTo + visits[k + 1..];
    AbortedWalkIsFinal(upTo, visits[k + 1..], room, name);
  }

  /** Reading one more file: the total grows by its payment, or the walk ends. */
  lemma WalkStep(done: seq<Visit>, v: Visit, room: int, name: string)
    requires !PaymentWalk(done, room, name).aborted
    ensures PaymentWalk(done + [v], room, name) ==
      match PaymentOf(v.content, room, name)
      case None => Walked(PaymentWalk(done, room, name).total, true)
      case Some(x) => Walked(PaymentWalk(done, room, name).total + x, false)
  {
    assert (done + [v])[..|done|] == done;
  }

  /** A throw at file `j` of a directory leaves the rest of its files unread. */
  lemma ThrowEndsDirectory(before: seq<Visit>, dir: DirEntry, j: nat, room: int, name: string)
    requires j < |dir.files|
    requires PaymentWalk(before + FileVisits(dir.name, dir.files[..j + 1], false), room, name).aborted
    ensures PaymentWalk(before + FileVisits(dir.name, dir.files, false), room, name) ==
      PaymentWalk(before + FileVisits(dir.name, dir.files[..j + 1], false), room, name)
  {
    var done := before + FileVisits(dir.name, dir.files[..j + 1], false);
    var all := before + FileVisits(dir.name, dir.files, false);
    FileVisitsPrefix(dir.name, dir.files, j + 1, false);
    PrefixAfterSame(before, FileVisits(dir.name, dir.files[..j + 1], false), FileVisits(dir.name, dir.files, false));
    PrefixThenRest(done, all);
    AbortedWalkIsFinal(done, all[|done|..], room, name);
  }

  /** Passing over file `j` of a directory when it is not a `.json` file. */
  lemma FileSkip(before: seq<Visit>, dir: DirEntry, j: nat)
    requires j < |dir.files| && !JsonName(dir.files[j].name, false)
    ensures before + FileVisits(dir.name, dir.files[..j + 1], false) == before + FileVisits(dir.name, dir.files[..j], false)
  {
    FileVisitsSnoc(dir.name, dir.files, j, false);
    assert FileVisits(dir.name, dir.files[..j + 1], false) == FileVisits(dir.name, dir.files[..j], false) + [];
  }

  /** Reading file `j` of a directory when it is a `.json` file. */
  lemma FileRead(before: seq<Visit>, dir: DirEntry, j: nat)
    requires j < |dir.files| && JsonName(dir.files[j].name, false)
    ensures before + FileVisits(dir.name, dir.files[..j + 1], false) ==
      (before + FileVisits(dir.name, dir.files[..j], false)) + [Visit(dir.name, dir.files[j].name, dir.files[j].content)]
  {
    FileVisitsSnoc(dir.name, dir.files, j, false);
  }

  /** Passing over a file that is not a `.json` file leaves the walk as it was. */
  lemma SkipStep(before: seq<Visit>, dir: DirEntry, j: nat, room: int, name: string)
    requires j < |dir.files| && !JsonName(dir.files[j].name, false)
    ensures PaymentWalk(before + FileVisits(dir.name, dir.files[..j + 1], false), room, name) ==
      PaymentWalk(before + FileVisits(dir.name, dir.files[..j], false), room, name)
  {
    FileSkip(before, dir, j);
  }

  /** Reading `.json` file `j` of a directory: its payment is added, or the walk ends. */
  lemma ReadStep(before: seq<Visit>, dir: DirEntry, j: nat, room: int, name: string, total: int)
    requires j < |dir.files| && JsonName(dir.files[j].name, false)
    requires PaymentWalk(before + FileVisits(dir.name, dir.files[..j], false), room, name) == Walked(total, false)
    ensures var x := PaymentOf(dir.files[j].content, room, name);
      PaymentWalk(before + FileVisits(dir.name, dir.files[..j + 1], false), room, name) ==
        if x.None? then Walked(total, true) else Walked(total + x.value, false)
  {
    FileRead(before, dir, j);
    var file := dir.files[j];
    WalkStep(before + FileVisits(dir.name, dir.files[..j], false), Visit(dir.name, file.name, file.content), room, name);
  }

  /** One file of the inner loop: a `.json` file's payment is added, or its
      throw ends the walk; any other file is passed over. */
  method ReadRentFile(dir: DirEntry, j: nat, room: int, name: string, ghost before: seq<Visit>, total: int)
    returns (next: int, thrown: bool)
    requires j < |dir.files|
    requires PaymentWalk(before + FileVisits(dir.name, dir.files[..j], false), room, name) == Walked(total, false)
    ensures PaymentWalk(before + FileVisits(dir.name, dir.files[..j + 1], false), room, name) == Walked(next, thrown)
    ensures thrown ==> next == total
  {
    var file := dir.files[j];
    if !JsonName(file.name, false) {
      SkipStep(before, dir, j, room, name);
      return total, false;
    }
    ReadStep(before, dir, j, room, name, total);
    var amount := PaymentOf(file.content, room, name);
    if amount.None? {
      return total, true;
    }
    return total + amount.value, false;
  }

  /** The inner loop of `getTotalPayments`: the `.json` files of one date
      directory, added to the walk `before` whose total is `total0`. */
  method SumRentFiles(dir: DirEntry, room: int, name: string, ghost before: seq<Visit>, total0: int)
    returns (total: int, thrown: bool)
    requires PaymentWalk(before, room, name) == Walked(total0, false)
    ensures PaymentWalk(before + FileVisits(dir.name, dir.files, false), room, name) == Walked(total, thrown)
  {
    total := total0;
    var j := 0;
    assert before + FileVisits(dir.name, dir.files[..0], false) == before;
    assert PaymentWalk(before + FileVisits(dir.name, dir.files[..0], false), room, name) == Walked(total, false);
    while j < |dir.files|
      invariant 0 <= j <= |dir.files|
      invariant PaymentWalk(before + FileVisits(dir.name, dir.files[..j], false), room, name) == Walked(total, false)
    {
      var next, stop := ReadRentFile(dir, j, room, name, before, total);
      if stop {
        ThrowEndsDirectory(before, dir, j, room, name);
        return total, true;
      }
      total := next;
      j := j + 1;
    }
    assert dir.files[..j] == dir.files;
    return total, false;
  }

  /** `getTotalPayments(checkInDate, room, name, checkOutDate)` over the already
      listed RentCollections folder: date directories inside the stay, their
      `.json` files, a throw ending the walk with the total so far. */
  method GetTotalPayments(dirs: seq<DirEntry>, checkInDate: string, room: int, name: string, checkOutDate: string)
    returns (total: int)
    ensures total == PaymentWalk(Visits(dirs, Between(checkInDate, checkOutDate), false), room, name).total
  {
    var within := Between(checkInDate, checkOutDate);
    total := 0;
    ghost var done: seq<Visit> := [];
    var i := 0;
    while i < |dirs|
      invariant 0 <= i <= |dirs|
      invariant done == Visits(dirs[..i], within, false)
      invariant PaymentWalk(done, room, name) == Walked(total, false)
    {
      var dir := dirs[i];
      VisitsSnoc(dirs, i, within, false);
      if !dir.isDir || LexLess(dir.name, checkInDate) || LexLess(checkOutDate, dir.name) {
        assert Visits(dirs[..i + 1], within, false) == done;
        i := i + 1;
        continue;
      }
      assert Visits(dirs[..i + 1], within, false) == done + FileVisits(dir.name, dir.files, false);
      var thrown;
      total, thrown := SumRentFiles(dir, room, name, done, total);
      done := done + FileVisits(dir.name, dir.files, false);
      if thrown {
        VisitsPrefix(dirs, i + 1, within, false);
        var all := Visits(dirs, within, false);
        PrefixThenRest(done, all);
        AbortedWalkIsFinal(done, all[|done|..], room, name);
        return;
      }
      i := i + 1;
    }
    assert dirs[..i] == dirs;
  }

  // ---------------------------------------------------------------------------
  // The bill

  /** Milliseconds in a day. */
  const DAY_MS: nat := 1000 * 60 * 60 * 24

  /** `Math.ceil(a / d)` for a whole number of milliseconds `a` and `d > 0`. */
  function CeilDiv(a: int, d: nat): (r: int)
    requires d > 0
    ensures (r - 1) * d < a <= r * d
  {
    -((-a) / d)
  }

  /** The fields `moveCheckinToCheckout` adds to the checkout record. */
  datatype Bill = Bill(daysStayed: JsNum, totalRent: JsNum, totalPaid: int, paymentTallyStatus: string)

  /** The bill for a stay. `elapsed` is `now - new Date(data.checkIn)` in
      milliseconds, `None` when the check-in time does not parse (the source
      then computes NaN days). */
  function Billing(elapsed: Option<int>, record: Json, paid: int): (b: Bill)
    ensures elapsed.None? ==> b.daysStayed == NaN && b.totalRent == NaN
    ensures elapsed.Some? ==> b.daysStayed.Num? && b.daysStayed.v >= 1
    ensures elapsed.Some? ==> elapsed.value <= b.daysStayed.v * DAY_MS
    ensures elapsed.Some? ==> b.daysStayed.v == 1 || (b.daysStayed.v - 1) * DAY_MS < elapsed.value
    ensures elapsed.Some? ==> b.totalRent == Num(b.daysStayed.v * AmountOf(record, "rate"))
    ensures b.totalPaid == paid
    ensures b.paymentTallyStatus == "tallied" <==> b.totalRent.Num? && paid >= b.totalRent.v
    ensures b.paymentTallyStatus == "tallied" || b.paymentTallyStatus == "not-tallied"
  {
    match elapsed
    case None => Bill(NaN, NaN, paid, "not-tallied")
    case Some(ms) =>
      var c := CeilDiv(ms, DAY_MS);
      var days := if c > 1 then c else 1;
      var rent := days * AmountOf(record, "rate");
      Bill(Num(days), Num(rent), paid, if paid >= rent then "tallied" else "not-tallied")
  }

  /** A stay of any length is billed at least one day's rate, and paying that
      rent in full or more tallies it. */
  lemma BillingAtLeastOneDay(elapsed: int, record: Json, paid: int)
    requires AmountOf(record, "rate") >= 0
    ensures var b := Billing(Some(elapsed), record, paid);
      b.totalRent.v >= AmountOf(record, "rate") &&
      (paid >= b.totalRent.v <==> b.paymentTallyStatus == "tallied")
  {
    var b := Billing(Some(elapsed), record, paid);
    MulMonotoneRate(b.daysStayed.v, AmountOf(record, "rate"));
  }

  /** The nonlinear step of `BillingAtLeastOneDay`, stated apart so that its
      proof does not depend on the solver finding it. */
  lemma MulMonotoneRate(days: int, rate: int)
    requires days >= 1 && rate >= 0
    ensures days * rate >= rate
  {
  }

  // ---------------------------------------------------------------------------
  // Freeing the room

  /** A room after check-out. */
  function Freed(room: Room): Room {
    room.(status := FREE, guest := None)
  }

  /** Every room numbered `number` freed; the rest as they were. */
  function CheckedOut(floors: seq<Floor>, number: int): (r: seq<Floor>)
    ensures SameShape(r, floors)
    ensures forall f, i :: 0 <= f < |r| && 0 <= i < |r[f].rooms| ==>
      r[f].rooms[i] == (if floors[f].rooms[i].number == number then Freed(floors[f].rooms[i]) else floors[f].rooms[i])
  {
    MapRooms(floors, (room: Room) => if room.number == number then Freed(room) else room)
  }

  /** Checking out a room twice leaves it as checking it out once. */
  lemma CheckedOutIdempotent(floors: seq<Floor>, number: int)
    ensures CheckedOut(CheckedOut(floors, number), number) == CheckedOut(floors, number)
  {
    var once := CheckedOut(floors, number);
    var twice := CheckedOut(once, number);
    forall f | 0 <= f < |once|
      ensures twice[f] == once[f]
    {
      assert twice[f].rooms == once[f].rooms;
    }
  }

  /** After check-out the room is counted free unless a reservation holds it today. */
  lemma CheckedOutNotOccupied(floors: seq<Floor>, number: int, f: nat, i: nat,
                               reservations: seq<Reservation>, today: string)
    requires f < |floors| && i < |floors[f].rooms| && floors[f].rooms[i].number == number
    ensures var room := CheckedOut(floors, number)[f].rooms[i];
      room.status == FREE && room.guest.None? && room.number == number
    ensures AppRooms.DashboardStatus(CheckedOut(floors, number)[f].rooms[i], reservations, today) != OCCUPIED
  {
  }

  /** The rooms of `floors` that `moveCheckinToCheckout` would be called for, in order. */
  predicate SomeMoveFails(floors: seq<Floor>, number: int, moveFails: Room -> bool) {
    exists f, i :: 0 <= f < |floors| && 0 <= i < |floors[f].rooms| &&
      floors[f].rooms[i].number == number && moveFails(floors[f].rooms[i])
  }

  /** `doCheckout(roomNumber)`: each room with that number has its check-in moved
      to the checkouts (`moveFails` says for which rooms that move throws) and is
      freed. A throw abandons the whole update: `None`, the state unchanged. */
  method DoCheckout(floors: seq<Floor>, number: int, moveFails: Room -> bool) returns (r: Option<seq<Floor>>)
    ensures r.None? <==> SomeMoveFails(floors, number, moveFails)
    ensures r.Some? ==> r.value == CheckedOut(floors, number)
  {
    var result: seq<Floor> := [];
    var f := 0;
    while f < |floors|
      invariant 0 <= f <= |floors| && |result| == f
      invariant forall g :: 0 <= g < f ==> result[g] == CheckedOut(floors, number)[g]
      invariant forall g, j :: 0 <= g < f && 0 <= j < |floors[g].rooms| && floors[g].rooms[j].number == number ==>
        !moveFails(floors[g].rooms[j])
    {
      var rooms := floors[f].rooms;
      var updated: seq<Room> := [];
      var i := 0;
      while i < |rooms|
        invariant 0 <= i <= |rooms| && |updated| == i
        invariant forall j :: 0 <= j < i ==> updated[j] == CheckedOut(floors, number)[f].rooms[j]
        invariant forall j :: 0 <= j < i && rooms[j].number == number ==> !moveFails(rooms[j])
      {
        var room := rooms[i];
        if room.number != number {
          updated := updated + [room];
          i := i + 1;
          continue;
        }
        if moveFails(room) {
          assert floors[f].rooms[i] == room;
          return None;
        }
        updated := updated + [Freed(room)];
        i := i + 1;
      }
      assert updated == CheckedOut(floors, number)[f].rooms;
      result := result + [Floor(floors[f].key, updated)];
      f := f + 1;
    }
    assert result == CheckedOut(floors, number);
    return Some(result);
  }
}
