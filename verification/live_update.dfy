/** The public live page (src/LiveUpdate.jsx): the room grid coloured from the
    server's check-ins and reservations, the current-guests card with its search
    and the rent each guest has paid so far, and the choice of sub-page from the
    address. The polled server state and check-in list are inputs. */
module LiveUpdate {
  import opened Text
  import opened Json
  import opened DateText
  import opened Hotel
  import opened ListView
  import opened Sorting

  // ---------------------------------------------------------------------------
  // The check-in day of a check-in document

  /** `normalizeCheckInYmdFromDoc(doc)`. `checkInIso` is what
      `new Date(doc.checkIn).toISOString()` gives, `None` when that throws. */
  function CheckInYmd(doc: Json, checkInIso: Option<string>): (r: string)
    ensures Present(Get(doc, "checkIn")) && checkInIso.Some? ==> r == SliceTo(checkInIso.value, 10)
    ensures !(Present(Get(doc, "checkIn")) && checkInIso.Some?) ==>
      var d := TextOr(doc, "checkInDate", "");
      (r == "" || IsYmd(r)) &&
      (IsYmd(d) ==> r == d) &&
      (IsSlashDmy(d) ==> var p := Split(d, '/'); Split(r, '-') == [p[2], p[1], p[0]]) &&
      (!IsYmd(d) && !IsSlashDmy(d) ==> r == "")
  {
    if Present(Get(doc, "checkIn")) && checkInIso.Some? then SliceTo(checkInIso.value, 10)
    else
      var d := TextOr(doc, "checkInDate", "");
      if !Present(Get(doc, "checkInDate")) then
        assert !IsYmd(d) && !IsSlashDmy(d) by { assert Split("", '/') == [""] && Split("", '-') == [""]; }
        ""
      else
        match DisplayToYmd(d)
        case Some(y) => y
        case None => ""
  }

  // ---------------------------------------------------------------------------
  // The rooms a document lists

  /** `String(value || '').split(',').map(s => Number(s.trim()))`. */
  function PieceNumbers(value: Option<Json>): (r: seq<JsNum>)
    ensures var pieces := Split(TextOrEmpty(value), ',');
      |r| == |pieces| && forall i :: 0 <= i < |pieces| ==> r[i] == NumberOf(Trim(pieces[i]))
  {
    var pieces := Split(TextOrEmpty(value), ',');
    seq(|pieces|, i requires 0 <= i < |pieces| => NumberOf(Trim(pieces[i])))
  }

  /** `.filter(Boolean)` on numbers: the non-zero ones in order, as integers. */
  function NonZero(ns: seq<JsNum>): (r: seq<int>)
    ensures forall x :: x in r <==> Num(x) in ns && x != 0
    ensures |r| <= |ns|
  {
    if |ns| == 0 then []
    else
      var init := NonZero(ns[..|ns| - 1]);
      var last := ns[|ns| - 1];
      assert ns == ns[..|ns| - 1] + [last];
      if NumTruthy(last) then init + [last.v] else init
  }

  /** The integers as numbers. */
  function Nums(xs: seq<int>): (r: seq<JsNum>)
    ensures |r| == |xs|
    ensures forall i :: 0 <= i < |xs| ==> r[i] == Num(xs[i])
  {
    seq(|xs|, i requires 0 <= i < |xs| => Num(xs[i]))
  }

  /** The rooms of a check-in, as the occupancy loop reads them: an array's items
      as they are, otherwise the non-zero numbers of the comma-separated text. */
  function CheckInRooms(room: Option<Json>): seq<JsNum> {
    if room.Some? && room.value.JArr? then ItemNumbers(room.value.items)
    else Nums(NonZero(PieceNumbers(room)))
  }

  /** The rooms of a reservation: an array's items, otherwise the single room
      unless it is null or missing. */
  function ReservationRooms(room: Option<Json>): seq<JsNum> {
    if room.Some? && room.value.JArr? then ItemNumbers(room.value.items)
    else if room.Some? && !room.value.JNull? then [ToNumber(room)]
    else []
  }

  /** The elements of a list, as a set. */
  function SetOf(xs: seq<JsNum>): (r: set<JsNum>)
    ensures forall x :: x in r <==> x in xs
  {
    if |xs| == 0 then {}
    else
      assert xs == xs[..|xs| - 1] + [xs[|xs| - 1]];
      SetOf(xs[..|xs| - 1]) + {xs[|xs| - 1]}
  }

  /** Every room some document of `docs` lists under `room`. */
  function RoomUnion(docs: seq<Json>, rooms: Option<Json> -> seq<JsNum>): (r: set<JsNum>)
    ensures forall x :: x in r <==> exists i :: 0 <= i < |docs| && x in rooms(Get(docs[i], "room"))
  {
    if |docs| == 0 then {}
    else
      var init := docs[..|docs| - 1];
      var r := RoomUnion(init, rooms) + SetOf(rooms(Get(docs[|docs| - 1], "room")));
      assert forall i :: 0 <= i < |init| ==> init[i] == docs[i];
      r
  }

  /** One document's rooms added to a set, one at a time. */
  method AddAll(s0: set<JsNum>, rooms: seq<JsNum>) returns (s: set<JsNum>)
    ensures s == s0 + SetOf(rooms)
  {
    s := s0;
    var j := 0;
    while j < |rooms|
      invariant 0 <= j <= |rooms|
      invariant s == s0 + SetOf(rooms[..j])
    {
      assert rooms[..j + 1][..j] == rooms[..j];
      s := s + {rooms[j]};
      j := j + 1;
    }
    assert rooms[..j] == rooms;
  }

  /** The union of every document's rooms, built document by document. */
  method CollectRooms(docs: seq<Json>, rooms: Option<Json> -> seq<JsNum>) returns (s: set<JsNum>)
    ensures s == RoomUnion(docs, rooms)
  {
    s := {};
    var i := 0;
    while i < |docs|
      invariant 0 <= i <= |docs|
      invariant s == RoomUnion(docs[..i], rooms)
    {
      assert docs[..i + 1][..i] == docs[..i];
      s := AddAll(s, rooms(Get(docs[i], "room")));
      i := i + 1;
    }
    assert docs[..i] == docs;
  }

  /** `occupiedRooms`: every room some check-in lists. */
  method OccupiedRooms(checkins: seq<Json>) returns (s: set<JsNum>)
    ensures forall x :: x in s <==> exists i :: 0 <= i < |checkins| && x in CheckInRooms(Get(checkins[i], "room"))
  {
    s := CollectRooms(checkins, CheckInRooms);
  }

  /** `reservedRooms`: every room some reservation names. */
  method ReservedRooms(reservations: seq<Json>) returns (s: set<JsNum>)
    ensures forall x :: x in s <==> exists i :: 0 <= i < |reservations| && x in ReservationRooms(Get(reservations[i], "room"))
  {
    s := CollectRooms(reservations, ReservationRooms);
  }

  // ---------------------------------------------------------------------------
  // The rooms key: the listed rooms, ascending, joined by "_"

  /** The numbers `roomsKeyOf` starts from, before `.filter(Boolean)`. */
  function KeyNumbers(value: Option<Json>): seq<JsNum> {
    if value.Some? && value.value.JArr? then ItemNumbers(value.value.items) else PieceNumbers(value)
  }

  /** The decimal texts of the integers. */
  function Numerals(xs: seq<int>): (r: seq<string>)
    ensures |r| == |xs|
    ensures forall i :: 0 <= i < |xs| ==> r[i] == IntToString(xs[i])
  {
    seq(|xs|, i requires 0 <= i < |xs| => IntToString(xs[i]))
  }

  /** `roomsKeyOf(value)`: the non-zero room numbers, ascending, joined by "_";
      "" exactly when there are none. */
  function RoomsKeyOf(value: Option<Json>): (r: string)
    ensures r == "" <==> NonZero(KeyNumbers(value)) == []
  {
    IntLeTotal();
    var xs := Sort(NonZero(KeyNumbers(value)), IntLe);
    JoinNonEmpty(Numerals(xs), "_");
    Join(Numerals(xs), "_")
  }

  /** Joining at least one non-empty part gives a non-empty text. */
  lemma {:induction false} JoinNonEmpty(parts: seq<string>, sep: string)
    requires forall i :: 0 <= i < |parts| ==> parts[i] != ""
    ensures Join(parts, sep) == "" <==> |parts| == 0
  {
  }

  /** The decimal text of an integer has no comma and reads back as itself. */
  lemma NumeralPiece(x: int)
    ensures ',' !in IntToString(x)
    ensures NumberOf(Trim(IntToString(x))) == Num(x)
  {
    var s := IntToString(x);
    if x < 0 {
      var d := NatToString(-x);
      DigitsHaveNo(d, ',');
      assert s == "-" + d && s[1..] == d;
      TrimOfNumeral(s);
    } else {
      DigitsHaveNo(s, ',');
      TrimOfNumeral(s);
    }
    NumberOfIntToString(x);
  }

  /** Non-zero integers survive `.filter(Boolean)` unchanged. */
  lemma {:induction false} NonZeroOfNums(xs: seq<int>)
    requires forall i :: 0 <= i < |xs| ==> xs[i] != 0
    ensures NonZero(Nums(xs)) == xs
  {
    if |xs| > 0 {
      var init := xs[..|xs| - 1];
      NonZeroOfNums(init);
      assert Nums(xs)[..|xs| - 1] == Nums(init);
      assert xs == init + [xs[|xs| - 1]];
    }
  }

  /** A comma-separated text of integers reads back as those integers. */
  lemma PiecesOfNumerals(ys: seq<int>)
    requires |ys| >= 1
    ensures PieceNumbers(Some(JStr(Join(Numerals(ys), ",")))) == Nums(ys)
  {
    var parts := Numerals(ys);
    forall i | 0 <= i < |parts|
      ensures ',' !in parts[i]
    {
      NumeralPiece(ys[i]);
    }
    SplitJoin(parts, ',');
    var v := Some(JStr(Join(parts, ",")));
    assert Split(TextOrEmpty(v), ',') == parts;
    forall i | 0 <= i < |ys|
      ensures NumberOf(Trim(parts[i])) == Num(ys[i])
    {
      NumeralPiece(ys[i]);
    }
    PiecesRead(v, parts, ys);
  }

  /** Pieces that each read as the matching number give those numbers. */
  lemma PiecesRead(v: Option<Json>, parts: seq<string>, ys: seq<int>)
    requires Split(TextOrEmpty(v), ',') == parts && |parts| == |ys|
    requires forall i :: 0 <= i < |ys| ==> NumberOf(Trim(parts[i])) == Num(ys[i])
    ensures PieceNumbers(v) == Nums(ys)
  {
  }

  /** An array of non-zero numbers keeps all of them. */
  lemma ArrayNumbers(xs: seq<int>)
    requires forall i :: 0 <= i < |xs| ==> xs[i] != 0
    ensures NonZero(KeyNumbers(Some(JArr(seq(|xs|, i requires 0 <= i < |xs| => JNum(xs[i])))))) == xs
  {
    var arr := Some(JArr(seq(|xs|, i requires 0 <= i < |xs| => JNum(xs[i]))));
    assert KeyNumbers(arr) == Nums(xs);
    NonZeroOfNums(xs);
  }

  /** A comma-separated text of non-zero numbers keeps all of them; an empty text has none. */
  lemma TextNumbers(ys: seq<int>)
    requires forall i :: 0 <= i < |ys| ==> ys[i] != 0
    ensures NonZero(KeyNumbers(Some(JStr(Join(Numerals(ys), ","))))) == ys
  {
    var text := Some(JStr(Join(Numerals(ys), ",")));
    if |ys| == 0 {
      assert KeyNumbers(text) == [Num(0)] by {
        assert Join(Numerals(ys), ",") == "";
        assert Split("", ',') == [""];
      }
      assert NonZero([Num(0)]) == [];
    } else {
      PiecesOfNumerals(ys);
      NonZeroOfNums(ys);
    }
  }

  /** The key does not depend on how the rooms are written: an array of non-zero
      room numbers and a comma-separated text of the same rooms, in any order,
      give the same key. */
  lemma RoomsKeyIgnoresForm(xs: seq<int>, ys: seq<int>)
    requires forall i :: 0 <= i < |xs| ==> xs[i] != 0
    requires multiset(xs) == multiset(ys)
    ensures RoomsKeyOf(Some(JArr(seq(|xs|, i requires 0 <= i < |xs| => JNum(xs[i])))))
         == RoomsKeyOf(Some(JStr(Join(Numerals(ys), ","))))
  {
    forall i | 0 <= i < |ys|
      ensures ys[i] != 0
    {
      assert ys[i] in multiset(xs);
    }
    ArrayNumbers(xs);
    TextNumbers(ys);
    IntLeTotal();
    AscendingUnique(Sort(xs, IntLe), Sort(ys, IntLe));
  }

  /** The decimal text of an integer has no underscore. */
  lemma NumeralNoUnderscore(x: int)
    ensures '_' !in IntToString(x)
  {
    if x < 0 {
      var d := NatToString(-x);
      DigitsHaveNo(d, '_');
      assert IntToString(x) == "-" + d;
    } else {
      DigitsHaveNo(IntToString(x), '_');
    }
  }

  /** Different integer lists have different decimal texts. */
  lemma NumeralsInjective(xs: seq<int>, ys: seq<int>)
    requires Numerals(xs) == Numerals(ys)
    ensures xs == ys
  {
    forall i | 0 <= i < |xs|
      ensures xs[i] == ys[i]
    {
      NumberOfIntToString(xs[i]);
      NumberOfIntToString(ys[i]);
    }
  }

  /** Two room values get the same key exactly when they list the same non-zero
      rooms, each as often: the approximate index never mixes different room sets. */
  lemma RoomsKeySameRooms(v1: Option<Json>, v2: Option<Json>)
    ensures RoomsKeyOf(v1) == RoomsKeyOf(v2) <==>
      multiset(NonZero(KeyNumbers(v1))) == multiset(NonZero(KeyNumbers(v2)))
  {
    var a, b := NonZero(KeyNumbers(v1)), NonZero(KeyNumbers(v2));
    IntLeTotal();
    var xa, xb := Sort(a, IntLe), Sort(b, IntLe);
    assert RoomsKeyOf(v1) == Join(Numerals(xa), "_");
    assert RoomsKeyOf(v2) == Join(Numerals(xb), "_");
    if multiset(a) == multiset(b) {
      AscendingUnique(xa, xb);
    }
    if RoomsKeyOf(v1) == RoomsKeyOf(v2) && a != [] {
      assert b != [];
      forall i | 0 <= i < |xa|
        ensures '_' !in Numerals(xa)[i]
      {
        NumeralNoUnderscore(xa[i]);
      }
      forall i | 0 <= i < |xb|
        ensures '_' !in Numerals(xb)[i]
      {
        NumeralNoUnderscore(xb[i]);
      }
      SplitJoin(Numerals(xa), '_');
      SplitJoin(Numerals(xb), '_');
      NumeralsInjective(xa, xb);
    }
  }

  // ---------------------------------------------------------------------------
  // The payments index and what each guest has paid

  /** Where one payment is booked: under name and check-in day, under name and
      rooms, or nowhere. */
  datatype Slot = Exact(key: string) | Approx(key: string) | Unindexed

  /** `(p.name || "").trim().toLowerCase()`. */
  function NameKey(p: Json): string { Lower(Trim(TextOr(p, "name", ""))) }

  /** `(p.checkInYmd || "").slice(0, 10)`. */
  function CheckInKey(p: Json): string { SliceTo(TextOr(p, "checkInYmd", ""), 10) }

  function SlotOf(p: Json): Slot {
    if NameKey(p) != "" && CheckInKey(p) != "" then Exact(NameKey(p) + "::" + CheckInKey(p))
    else if NameKey(p) != "" && RoomsKeyOf(Get(p, "room")) != "" then Approx(NameKey(p) + "::" + RoomsKeyOf(Get(p, "room")))
    else Unindexed
  }

  /** The total of the payments booked under `s`. */
  function SlotSum(ps: seq<Json>, s: Slot): int {
    if |ps| == 0 then 0
    else SlotSum(ps[..|ps| - 1], s) + (if SlotOf(ps[|ps| - 1]) == s then AmountOf(ps[|ps| - 1], "amount") else 0)
  }

  /** The slots some payment is booked under. */
  function Slots(ps: seq<Json>): set<Slot> {
    if |ps| == 0 then {} else Slots(ps[..|ps| - 1]) + {SlotOf(ps[|ps| - 1])}
  }

  /** A slot no payment is booked under totals 0. */
  lemma {:induction false} SlotSumOutside(ps: seq<Json>, s: Slot)
    requires s !in Slots(ps)
    ensures SlotSum(ps, s) == 0
  {
    if |ps| > 0 {
      SlotSumOutside(ps[..|ps| - 1], s);
    }
  }

  /** The slot of one map's key: `exact` holds name-and-day keys, `approx` name-and-rooms keys. */
  function SlotFor(exactMap: bool, k: string): Slot {
    if exactMap then Exact(k) else Approx(k)
  }

  /** One map holds, for each key, the total of the payments booked under it, and no other key. */
  ghost predicate Totals(ps: seq<Json>, m: map<string, int>, exactMap: bool) {
    (forall k :: k in m <==> SlotFor(exactMap, k) in Slots(ps)) &&
    (forall k :: k in m ==> m[k] == SlotSum(ps, SlotFor(exactMap, k)))
  }

  ghost predicate IndexHolds(ps: seq<Json>, exact: map<string, int>, approx: map<string, int>) {
    Totals(ps, exact, true) && Totals(ps, approx, false)
  }

  /** `m.set(k, (m.get(k) || 0) + amount)`. */
  function Book(m: map<string, int>, k: string, amount: int): map<string, int> {
    m[k := (if k in m then m[k] else 0) + amount]
  }

  /** The map after one payment: booked into when the payment's slot belongs to it. */
  function After(m: map<string, int>, exactMap: bool, s: Slot, amount: int): map<string, int> {
    if s != Unindexed && s == SlotFor(exactMap, s.key) then Book(m, s.key, amount) else m
  }

  lemma TotalsStep(ps: seq<Json>, i: nat, m: map<string, int>, exactMap: bool)
    requires i < |ps| && Totals(ps[..i], m, exactMap)
    ensures Totals(ps[..i + 1], After(m, exactMap, SlotOf(ps[i]), AmountOf(ps[i], "amount")), exactMap)
  {
    var pre, p := ps[..i], ps[i];
    assert ps[..i + 1] == pre + [p];
    SlotsSnoc(pre, p);
    forall t
      ensures SlotSum(pre + [p], t) == SlotSum(pre, t) + (if SlotOf(p) == t then AmountOf(p, "amount") else 0)
    {
      SlotSumSnoc(pre, p, t);
    }
    TotalsAdd(pre, pre + [p], m, exactMap, SlotOf(p), AmountOf(p, "amount"));
  }

  /** One more payment adds its slot. */
  lemma SlotsSnoc(pre: seq<Json>, p: Json)
    ensures Slots(pre + [p]) == Slots(pre) + {SlotOf(p)}
  {
    assert (pre + [p])[..|pre|] == pre;
  }

  /** One more payment adds its amount to its own slot only. */
  lemma SlotSumSnoc(pre: seq<Json>, p: Json, t: Slot)
    ensures SlotSum(pre + [p], t) == SlotSum(pre, t) + (if SlotOf(p) == t then AmountOf(p, "amount") else 0)
  {
    assert (pre + [p])[..|pre|] == pre;
  }

  /** Booking `amount` under slot `s` keeps a map's totals when the payments
      gain exactly that slot and that amount. */
  lemma TotalsAdd(pre: seq<Json>, cur: seq<Json>, m: map<string, int>, exactMap: bool, s: Slot, amount: int)
    requires Totals(pre, m, exactMap)
    requires Slots(cur) == Slots(pre) + {s}
    requires forall t :: SlotSum(cur, t) == SlotSum(pre, t) + (if s == t then amount else 0)
    ensures Totals(cur, After(m, exactMap, s, amount), exactMap)
  {
    var m' := After(m, exactMap, s, amount);
    if s != Unindexed && s == SlotFor(exactMap, s.key) {
      assert m' == Book(m, s.key, amount);
      forall k
        ensures (k in m' <==> SlotFor(exactMap, k) in Slots(cur)) &&
                (k in m' ==> m'[k] == SlotSum(cur, SlotFor(exactMap, k)))
      {
        if k == s.key {
          if s !in Slots(pre) {
            SlotSumOutside(pre, s);
          }
        } else {
          assert SlotFor(exactMap, k) != s;
        }
      }
    } else {
      assert m' == m;
      forall k
        ensures (k in m' <==> SlotFor(exactMap, k) in Slots(cur)) &&
                (k in m' ==> m'[k] == SlotSum(cur, SlotFor(exactMap, k)))
      {
        assert SlotFor(exactMap, k) != s;
      }
    }
  }

  /** `paymentsIndex`: the exact and approximate totals of the rent payments. */
  method PaymentsIndex(ps: seq<Json>) returns (exact: map<string, int>, approx: map<string, int>)
    ensures IndexHolds(ps, exact, approx)
  {
    exact, approx := map[], map[];
    var i := 0;
    while i < |ps|
      invariant 0 <= i <= |ps|
      invariant IndexHolds(ps[..i], exact, approx)
    {
      var amount := AmountOf(ps[i], "amount");
      var s := SlotOf(ps[i]);
      TotalsStep(ps, i, exact, true);
      TotalsStep(ps, i, approx, false);
      if s.Exact? {
        exact := Book(exact, s.key, amount);
      } else if s.Approx? {
        approx := Book(approx, s.key, amount);
      }
      i := i + 1;
    }
    assert ps[..i] == ps;
  }

  /** The guest's name key: `(ci.name || 'Guest').trim().toLowerCase()`. */
  function GuestKey(ci: Json): string { Lower(Trim(TextOr(ci, "name", "Guest"))) }

  /** `paidSoFar` for one guest card with name key `name`, check-in day `cinYmd`
      and rooms key `rk`: the exact total when there is a non-zero one, else the
      total under name and rooms. */
  function PaidSoFar(exact: map<string, int>, approx: map<string, int>, name: string, cinYmd: string, rk: string): int {
    var k := name + "::" + cinYmd;
    var k2 := name + "::" + rk;
    var paid := if name != "" && cinYmd != "" && k in exact then exact[k] else 0;
    if paid == 0 && name != "" && rk != "" then (if k2 in approx then approx[k2] else 0) else paid
  }

  /** What a guest card shows as paid is the total of the payments with the guest's
      name and check-in day, or, when that is 0, of those with the guest's name and
      rooms and no check-in day. */
  lemma PaidSoFarFromPayments(ps: seq<Json>, exact: map<string, int>, approx: map<string, int>, name: string, cinYmd: string, rk: string)
    requires IndexHolds(ps, exact, approx)
    ensures var e := if name != "" && cinYmd != "" then SlotSum(ps, Exact(name + "::" + cinYmd)) else 0;
      PaidSoFar(exact, approx, name, cinYmd, rk) ==
        if e != 0 then e
        else if name != "" && rk != "" then SlotSum(ps, Approx(name + "::" + rk))
        else 0
  {
    var k := name + "::" + cinYmd;
    var k2 := name + "::" + rk;
    assert SlotFor(true, k) == Exact(k) && SlotFor(false, k2) == Approx(k2);
    if k !in exact {
      SlotSumOutside(ps, Exact(k));
    }
    if k2 !in approx {
      SlotSumOutside(ps, Approx(k2));
    }
  }

  // ---------------------------------------------------------------------------
  // The current-guests search

  /** The search callback: a blank query keeps every guest; otherwise the trimmed,
      lower-cased query must occur in the lower-cased name or in the room text. */
  predicate GuestMatches(query: string, ci: Json) {
    var q := Lower(Trim(query));
    q == "" || Contains(Lower(TextOr(ci, "name", "")), q) || Contains(ListText(Get(ci, "room")), q)
  }

  /** The guests the card lists for a search. */
  function GuestFilter(checkins: seq<Json>, query: string): (r: seq<Json>)
    ensures IsSubsequence(r, checkins)
    ensures forall ci :: ci in r <==> ci in checkins && GuestMatches(query, ci)
    ensures Trim(query) == "" ==> r == checkins
  {
    var keep := (ci: Json) => GuestMatches(query, ci);
    if Trim(query) == "" then
      assert Lower(Trim(query)) == "";
      FilterAll(checkins, keep);
      Filter(checkins, keep)
    else Filter(checkins, keep)
  }

  // ---------------------------------------------------------------------------
  // The room grid

  /** A room's status on the grid: occupied beats reserved, and anything else is free. */
  function GridStatus(n: int, occupied: set<JsNum>, reserved: set<JsNum>): (r: string)
    ensures r == OCCUPIED <==> Num(n) in occupied
    ensures r == RESERVED <==> Num(n) !in occupied && Num(n) in reserved
    ensures r == FREE <==> Num(n) !in occupied && Num(n) !in reserved
  {
    StatusesDistinct();
    if Num(n) in occupied then OCCUPIED else if Num(n) in reserved then RESERVED else FREE
  }

  function NumberLe(a: Room, b: Room): bool { a.number <= b.number }

  lemma NumberLeTotal()
    ensures Total(NumberLe)
  {
  }

  /** `{ ...r, status }`. */
  function Overlay(r: Room, occupied: set<JsNum>, reserved: set<JsNum>): Room {
    r.(status := GridStatus(r.number, occupied, reserved))
  }

  /** `sorted.map(r => ({ ...r, status }))`. */
  function OverlayAll(rooms: seq<Room>, occupied: set<JsNum>, reserved: set<JsNum>): (r: seq<Room>)
    ensures |r| == |rooms|
    ensures forall i :: 0 <= i < |rooms| ==> r[i] == Overlay(rooms[i], occupied, reserved)
  {
    seq(|rooms|, i requires 0 <= i < |rooms| => Overlay(rooms[i], occupied, reserved))
  }

  /** Overlaying a sorted rearrangement of a floor's rooms keeps the order and shows every room. */
  lemma ShownRooms(rooms: seq<Room>, sorted: seq<Room>, occupied: set<JsNum>, reserved: set<JsNum>)
    requires Sorted(sorted, NumberLe) && multiset(sorted) == multiset(rooms)
    ensures var shown := OverlayAll(sorted, occupied, reserved);
      (forall i :: 0 < i < |shown| ==> shown[i - 1].number <= shown[i].number) &&
      (forall i :: 0 <= i < |shown| ==> exists x :: x in rooms && shown[i] == Overlay(x, occupied, reserved)) &&
      (forall x :: x in rooms ==> Overlay(x, occupied, reserved) in shown)
  {
    var shown := OverlayAll(sorted, occupied, reserved);
    forall i | 0 <= i < |shown|
      ensures sorted[i] in rooms
    {
      assert sorted[i] in multiset(rooms);
    }
    forall x | x in rooms
      ensures Overlay(x, occupied, reserved) in shown
    {
      assert x in multiset(sorted);
      var j :| 0 <= j < |sorted| && sorted[j] == x;
      assert shown[j] == Overlay(x, occupied, reserved);
    }
  }

  /** One floor of the grid: its rooms sorted by number, each with its live status.
      Every room of the floor is shown, and nothing else. */
  function ShowFloor(fl: Floor, occupied: set<JsNum>, reserved: set<JsNum>): (r: Floor)
    ensures r.key == fl.key && |r.rooms| == |fl.rooms|
    ensures forall i :: 0 < i < |r.rooms| ==> r.rooms[i - 1].number <= r.rooms[i].number
    ensures forall i :: 0 <= i < |r.rooms| ==> exists x :: x in fl.rooms && r.rooms[i] == Overlay(x, occupied, reserved)
    ensures forall x :: x in fl.rooms ==> Overlay(x, occupied, reserved) in r.rooms
  {
    NumberLeTotal();
    var sorted := Sort(fl.rooms, NumberLe);
    ShownRooms(fl.rooms, sorted, occupied, reserved);
    Floor(fl.key, OverlayAll(sorted, occupied, reserved))
  }

  /** `roomsByFloor`: every floor of the layout shown in turn. */
  method RoomsByFloor(floors: seq<Floor>, occupied: set<JsNum>, reserved: set<JsNum>) returns (out: seq<Floor>)
    ensures |out| == |floors|
    ensures forall f :: 0 <= f < |out| ==> out[f] == ShowFloor(floors[f], occupied, reserved)
  {
    out := [];
    var f := 0;
    while f < |floors|
      invariant 0 <= f <= |floors| && |out| == f
      invariant forall g :: 0 <= g < f ==> out[g] == ShowFloor(floors[g], occupied, reserved)
    {
      var shown := ShowFloor(floors[f], occupied, reserved);
      out := out + [shown];
      f := f + 1;
    }
  }

  /** A grid room is shown occupied exactly when some check-in lists it, and
      reserved exactly when none does and some reservation names it. */
  lemma GridFromDocuments(checkins: seq<Json>, reservations: seq<Json>, r: Room)
    ensures var o := RoomUnion(checkins, CheckInRooms);
      var s := RoomUnion(reservations, ReservationRooms);
      var occ := exists i :: 0 <= i < |checkins| && Num(r.number) in CheckInRooms(Get(checkins[i], "room"));
      var res := exists i :: 0 <= i < |reservations| && Num(r.number) in ReservationRooms(Get(reservations[i], "room"));
      (Overlay(r, o, s).status == OCCUPIED <==> occ) &&
      (Overlay(r, o, s).status == RESERVED <==> !occ && res) &&
      (Overlay(r, o, s).status == FREE <==> !occ && !res)
  {
  }

  // ---------------------------------------------------------------------------
  // The sub-page

  /** `path.split('/').pop()`. */
  function LastSegment(path: string): (r: string)
    ensures '/' !in r
  {
    var parts := Split(path, '/');
    parts[|parts| - 1]
  }

  /** Splitting around one separator splits each side. */
  lemma {:induction false} SplitAround(a: string, c: char, b: string)
    ensures Split(a + [c] + b, c) == Split(a, c) + Split(b, c)
  {
    if |a| == 0 {
      SplitFirst(a, c, b);
    } else {
      assert (a + [c] + b)[1..] == a[1..] + [c] + b;
      SplitAround(a[1..], c, b);
    }
  }

  datatype SubPage = ReservationsPage | CheckoutPage | RentPaymentPage | ExpensesPage | NoSubPage

  /** The page `renderSubpage` shows for an address. */
  function SubPageOf(path: string): SubPage {
    var sub := LastSegment(path);
    if sub == "reservations" then ReservationsPage
    else if sub == "checkout" then CheckoutPage
    else if sub == "rentpayment" then RentPaymentPage
    else if sub == "expenses" then ExpensesPage
    else NoSubPage
  }

  /** The segment after the last slash is the last segment. */
  lemma LastAfterSlash(prefix: string, seg: string)
    requires '/' !in seg
    ensures LastSegment(prefix + "/" + seg) == seg
  {
    SplitAround(prefix, '/', seg);
    SplitNoSeparator(seg, '/');
  }

  /** The last path segment picks the page, whatever precedes it; a trailing slash picks none. */
  lemma SubPageByLastSegment(prefix: string)
    ensures SubPageOf(prefix + "/reservations") == ReservationsPage
    ensures SubPageOf(prefix + "/checkout") == CheckoutPage
    ensures SubPageOf(prefix + "/rentpayment") == RentPaymentPage
    ensures SubPageOf(prefix + "/expenses") == ExpensesPage
    ensures SubPageOf(prefix + "/") == NoSubPage
  {
    LastAfterSlash(prefix, "reservations");
    assert prefix + "/reservations" == prefix + "/" + "reservations";
    LastAfterSlash(prefix, "checkout");
    assert prefix + "/checkout" == prefix + "/" + "checkout";
    LastAfterSlash(prefix, "rentpayment");
    assert prefix + "/rentpayment" == prefix + "/" + "rentpayment";
    LastAfterSlash(prefix, "expenses");
    assert prefix + "/expenses" == prefix + "/" + "expenses";
    LastAfterSlash(prefix, "");
    assert prefix + "/" == prefix + "/" + "";
  }
}
