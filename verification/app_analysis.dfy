/** The desk's Analysis page: folder names read as dates, the date range, the
    totals gathered over the RentCollections and Expenses folders (income,
    expense, by payment mode, by day and by room), today's entries, and the five
    rooms that brought in most. Both folders are given already read; a walk visits
    their JSON files in the order `Folders.Visits` gives. */
module AppAnalysis {
  import opened Text
  import opened Json
  import opened DateText
  import opened DateUtils
  import opened Folders
  import opened ListView
  import opened Sorting

  // ---------------------------------------------------------------------------
  // Folder names and the date range

  /** The folder a `displayDate` names is normalised to the `ymd` of the same day. */
  lemma DisplayFolderNormalizes(d: CalendarDate)
    requires Valid(d) && FourDigitYear(d)
    ensures NormalizeFolderDate(DisplayDate(d)) == Some(Ymd(d))
  {
    var y, m, day := Year(d), Month(d), Day(d);
    FourDigits(d.year);
    Pad2Digits(d.month0 + 1);
    Pad2Digits(d.day);
    DigitsHaveNo(y, '-');
    DigitsHaveNo(m, '-');
    DigitsHaveNo(day, '-');
    SplitThree(day, m, y, '-');
    var p := Split(DisplayDate(d), '-');
    assert p == [day, m, y];
    assert !IsYmd(DisplayDate(d));
    assert Pad2(m) == m && Pad2(day) == day;
    assert DayFirstToYmd(p) == y + "-" + m + "-" + day;
  }

  /** An empty bound does not restrict, and each non-empty bound is itself in range. */
  lemma InRangeBounds(name: string, from: string, to: string)
    ensures from == "" && to == "" ==> InRange(name, from, to)
    ensures from != "" && (to == "" || LexLe(from, to)) ==> InRange(from, from, to)
    ensures to != "" && (from == "" || LexLe(from, to)) ==> InRange(to, from, to)
  {
    LexLessIrreflexive(from);
    LexLessIrreflexive(to);
  }

  /** On full-date folder names, the text range test is the calendar range test. */
  lemma InRangeIsDateRange(name: string, from: string, to: string)
    requires IsYmd(name) && IsYmd(from) && IsYmd(to)
    ensures InRange(name, from, to) <==> YmdValue(from) <= YmdValue(name) <= YmdValue(to)
  {
    YmdTextOrderIsDateOrder(name, from);
    YmdTextOrderIsDateOrder(to, name);
  }

  // ---------------------------------------------------------------------------
  // What one visited file contributes

  /** Reading this file throws: `JSON.parse` fails, or the content is `null` and
      `data.amount` is read from it. */
  predicate Unreadable(v: Visit) {
    v.content.None? || v.content.value.JNull?
  }

  predicate AnyUnreadable(vs: seq<Visit>) {
    exists i :: 0 <= i < |vs| && Unreadable(vs[i])
  }

  /** `Number(data.amount) || 0`. */
  function Amount(v: Visit): int {
    if v.content.None? then 0 else AmountOf(v.content.value, "amount")
  }

  /** The key `modeAgg[data.mode]` reads: `String(data.mode)`, or "" when `data.mode` is not truthy. */
  function ModeKey(v: Visit): string {
    if v.content.Some? && Present(Get(v.content.value, "mode")) then ToText(Get(v.content.value, "mode").value) else ""
  }

  /** `String(data.room || "")`. */
  function RoomKey(v: Visit): string {
    if v.content.None? then "" else TextOr(v.content.value, "room", "")
  }

  /** The amounts of the files whose mode key is `m`. */
  function ModeSum(vs: seq<Visit>, m: string): int {
    if |vs| == 0 then 0
    else ModeSum(vs[..|vs| - 1], m) + (if ModeKey(vs[|vs| - 1]) == m then Amount(vs[|vs| - 1]) else 0)
  }

  /** The amounts of the files found in the folder named `d`. */
  function DaySum(vs: seq<Visit>, d: string): int {
    if |vs| == 0 then 0
    else DaySum(vs[..|vs| - 1], d) + (if vs[|vs| - 1].dir == d then Amount(vs[|vs| - 1]) else 0)
  }

  /** The amounts of the files whose room key is `k`. */
  function RoomSum(vs: seq<Visit>, k: string): int {
    if |vs| == 0 then 0
    else RoomSum(vs[..|vs| - 1], k) + (if RoomKey(vs[|vs| - 1]) == k then Amount(vs[|vs| - 1]) else 0)
  }

  /** The folder names the files were found in. */
  function Dirs(vs: seq<Visit>): (r: set<string>)
    ensures forall d :: d in r <==> exists i :: 0 <= i < |vs| && vs[i].dir == d
  {
    if |vs| == 0 then {}
    else
      var init := vs[..|vs| - 1];
      assert forall i :: 0 <= i < |init| ==> init[i] == vs[i];
      Dirs(init) + {vs[|vs| - 1].dir}
  }

  /** The room keys of the files. */
  function RoomKeys(vs: seq<Visit>): set<string> {
    if |vs| == 0 then {} else RoomKeys(vs[..|vs| - 1]) + {RoomKey(vs[|vs| - 1])}
  }

  /** The first `i + 1` files are the first `i` and then file `i`. */
  lemma PrefixStep(vs: seq<Visit>, i: nat)
    requires i < |vs|
    ensures |vs[..i + 1]| == i + 1 && vs[..i + 1][..i] == vs[..i] && vs[..i + 1][i] == vs[i]
  {
  }

  /** A folder no file was found in has nothing summed for it. */
  lemma {:induction false} DaySumOutside(vs: seq<Visit>, d: string)
    requires d !in Dirs(vs)
    ensures DaySum(vs, d) == 0
    decreases |vs|
  {
    if |vs| > 0 {
      var init := vs[..|vs| - 1];
      assert Dirs(vs) == Dirs(init) + {vs[|vs| - 1].dir};
      DaySumOutside(init, d);
    }
  }

  /** A room key no file gave has nothing summed for it. */
  lemma {:induction false} RoomSumOutside(vs: seq<Visit>, k: string)
    requires k !in RoomKeys(vs)
    ensures RoomSum(vs, k) == 0
    decreases |vs|
  {
    if |vs| > 0 {
      RoomSumOutside(vs[..|vs| - 1], k);
    }
  }

  lemma UnreadableStep(vs: seq<Visit>, i: nat)
    requires i < |vs| && !AnyUnreadable(vs[..i]) && !Unreadable(vs[i])
    ensures !AnyUnreadable(vs[..i + 1])
  {
    forall j | 0 <= j < i + 1
      ensures !Unreadable(vs[j])
    {
      if j < i {
        assert vs[..i][j] == vs[j];
      }
    }
    assert forall j :: 0 <= j < i + 1 ==> vs[..i + 1][j] == vs[j];
  }

  // ---------------------------------------------------------------------------
  // The loops

  /** A day's income and expense. */
  datatype DayTotals = DayTotals(income: int, expense: int)

  /** What `dayAgg[d]` holds, `{ income: 0, expense: 0 }` when it has no entry yet. */
  function Before(daily: map<string, DayTotals>, d: string): DayTotals {
    if d in daily then daily[d] else DayTotals(0, 0)
  }

  /** `modeAgg[data.mode] += amount` when `data.mode` names one of the tallied modes. */
  function AddMode(modeAgg: map<string, int>, v: Visit): (r: map<string, int>)
    ensures r.Keys == modeAgg.Keys
  {
    var key := ModeKey(v);
    if key != "" && key in modeAgg then modeAgg[key := modeAgg[key] + Amount(v)] else modeAgg
  }

  /** `dayAgg[dateName].income += amount`, creating the entry first. */
  function AddIncome(daily: map<string, DayTotals>, d: string, amount: int): (r: map<string, DayTotals>)
    ensures r.Keys == daily.Keys + {d}
  {
    daily[d := Before(daily, d).(income := Before(daily, d).income + amount)]
  }

  /** `dayAgg[dateName].expense += amount`, creating the entry first. */
  function AddExpense(daily: map<string, DayTotals>, d: string, amount: int): (r: map<string, DayTotals>)
    ensures r.Keys == daily.Keys + {d}
  {
    daily[d := Before(daily, d).(expense := Before(daily, d).expense + amount)]
  }

  /** `if (roomKey) roomAgg[roomKey] = (roomAgg[roomKey] || 0) + amount`. */
  function AddRoom(byRoom: map<string, int>, k: string, amount: int): (r: map<string, int>)
    ensures r.Keys == if k == "" then byRoom.Keys else byRoom.Keys + {k}
  {
    if k == "" then byRoom else byRoom[k := (if k in byRoom then byRoom[k] else 0) + amount]
  }

  /** `modeAgg` after the files `ws`. */
  ghost predicate ModeTotals(ws: seq<Visit>, modeAgg: map<string, int>) {
    modeAgg.Keys == {"Cash", "GPay"} && forall m :: m in modeAgg ==> modeAgg[m] == ModeSum(ws, m)
  }

  /** `dayAgg` after the rent files `ws`. */
  ghost predicate IncomeDays(ws: seq<Visit>, daily: map<string, DayTotals>) {
    daily.Keys == Dirs(ws) &&
    forall d :: d in daily ==> daily[d] == DayTotals(DaySum(ws, d), 0)
  }

  /** `roomAgg` after the files `ws`. */
  ghost predicate RoomTotals(ws: seq<Visit>, byRoom: map<string, int>) {
    byRoom.Keys == RoomKeys(ws) - {""} &&
    forall k :: k in byRoom ==> byRoom[k] == RoomSum(ws, k)
  }

  /** What the rent loop holds after the first `i` files. */
  ghost predicate RentSoFar(vs: seq<Visit>, i: nat, inc: int, modeAgg: map<string, int>,
                            daily: map<string, DayTotals>, byRoom: map<string, int>)
    requires i <= |vs|
  {
    inc == Sum(vs[..i], Amount) && ModeTotals(vs[..i], modeAgg) &&
    IncomeDays(vs[..i], daily) && RoomTotals(vs[..i], byRoom)
  }

  lemma ModeTotalsStep(vs: seq<Visit>, i: nat, modeAgg: map<string, int>)
    requires i < |vs| && ModeTotals(vs[..i], modeAgg)
    ensures ModeTotals(vs[..i + 1], AddMode(modeAgg, vs[i]))
  {
    var v := vs[i];
    var after := AddMode(modeAgg, v);
    assert vs[..i + 1] == vs[..i] + [v];
    forall m | m in after
      ensures after[m] == ModeSum(vs[..i + 1], m)
    {
      ModeSumSnoc(vs[..i], v, m);
    }
  }

  /** One more file adds its amount to the sum of its own mode only. */
  lemma ModeSumSnoc(before: seq<Visit>, v: Visit, m: string)
    ensures ModeSum(before + [v], m) == ModeSum(before, m) + (if ModeKey(v) == m then Amount(v) else 0)
  {
    assert (before + [v])[..|before|] == before;
  }

  /** The two mode totals, written as the map `modeAgg` is. */
  lemma ModeTotalsMap(ws: seq<Visit>, modeAgg: map<string, int>)
    requires ModeTotals(ws, modeAgg)
    ensures modeAgg == map["Cash" := ModeSum(ws, "Cash"), "GPay" := ModeSum(ws, "GPay")]
  {
    assert "Cash" in modeAgg && "GPay" in modeAgg;
  }

  lemma IncomeDaysStep(vs: seq<Visit>, i: nat, daily: map<string, DayTotals>)
    requires i < |vs| && IncomeDays(vs[..i], daily)
    ensures IncomeDays(vs[..i + 1], AddIncome(daily, vs[i].dir, Amount(vs[i])))
  {
    var v := vs[i];
    PrefixStep(vs, i);
    var nd := AddIncome(daily, v.dir, Amount(v));
    forall d | d in nd
      ensures nd[d] == DayTotals(DaySum(vs[..i + 1], d), 0)
    {
      if d == v.dir && d !in daily {
        DaySumOutside(vs[..i], d);
      }
    }
  }

  lemma RoomTotalsStep(vs: seq<Visit>, i: nat, byRoom: map<string, int>)
    requires i < |vs| && RoomTotals(vs[..i], byRoom)
    ensures RoomTotals(vs[..i + 1], AddRoom(byRoom, RoomKey(vs[i]), Amount(vs[i])))
  {
    var k := RoomKey(vs[i]);
    PrefixStep(vs, i);
    var nr := AddRoom(byRoom, k, Amount(vs[i]));
    forall k' | k' in nr
      ensures nr[k'] == RoomSum(vs[..i + 1], k')
    {
      if k' == k && k !in byRoom {
        RoomSumOutside(vs[..i], k);
      }
    }
  }

  lemma RentStep(vs: seq<Visit>, i: nat, inc: int, modeAgg: map<string, int>,
                 daily: map<string, DayTotals>, byRoom: map<string, int>)
    requires i < |vs| && RentSoFar(vs, i, inc, modeAgg, daily, byRoom)
    ensures RentSoFar(vs, i + 1, inc + Amount(vs[i]), AddMode(modeAgg, vs[i]),
                      AddIncome(daily, vs[i].dir, Amount(vs[i])), AddRoom(byRoom, RoomKey(vs[i]), Amount(vs[i])))
  {
    PrefixStep(vs, i);
    ModeTotalsStep(vs, i, modeAgg);
    IncomeDaysStep(vs, i, daily);
    RoomTotalsStep(vs, i, byRoom);
  }

  /** The rent loop: every amount goes to the income, to its payment mode when that
      is Cash or GPay, to its day, and to its room when it names one. The first
      unreadable file throws and ends the whole load. */
  method RentLoop(vs: seq<Visit>)
    returns (ok: bool, inc: int, modeAgg: map<string, int>, daily: map<string, DayTotals>, byRoom: map<string, int>)
    ensures ok <==> !AnyUnreadable(vs)
    ensures ok ==> inc == Sum(vs, Amount)
    ensures ok ==> modeAgg == map["Cash" := ModeSum(vs, "Cash"), "GPay" := ModeSum(vs, "GPay")]
    ensures ok ==> daily.Keys == Dirs(vs)
    ensures ok ==> forall d :: d in daily ==> daily[d] == DayTotals(DaySum(vs, d), 0)
    ensures ok ==> byRoom.Keys == RoomKeys(vs) - {""}
    ensures ok ==> forall k :: k in byRoom ==> byRoom[k] == RoomSum(vs, k)
  {
    inc := 0;
    modeAgg := map["Cash" := 0, "GPay" := 0];
    daily := map[];
    byRoom := map[];
    var i := 0;
    while i < |vs|
      invariant 0 <= i <= |vs|
      invariant !AnyUnreadable(vs[..i])
      invariant RentSoFar(vs, i, inc, modeAgg, daily, byRoom)
    {
      var v := vs[i];
      if v.content.None? || v.content.value.JNull? {
        assert Unreadable(vs[i]);
        return false, inc, modeAgg, daily, byRoom;
      }
      RentStep(vs, i, inc, modeAgg, daily, byRoom);
      UnreadableStep(vs, i);
      var data := v.content.value;
      var amount := AmountOf(data, "amount");
      inc := inc + amount;
      modeAgg := AddMode(modeAgg, v);
      daily := AddIncome(daily, v.dir, amount);
      byRoom := AddRoom(byRoom, TextOr(data, "room", ""), amount);
      i := i + 1;
    }
    assert vs[..i] == vs;
    ModeTotalsMap(vs, modeAgg);
    ok := true;
  }

  /** What the expense loop holds after the first `i` files, on top of the rent loop's days. */
  ghost predicate ExpenseSoFar(vs: seq<Visit>, i: nat, daily0: map<string, DayTotals>, exp: int,
                               daily: map<string, DayTotals>)
    requires i <= |vs|
  {
    exp == Sum(vs[..i], Amount) &&
    daily.Keys == daily0.Keys + Dirs(vs[..i]) &&
    forall d :: d in daily ==>
      daily[d] == DayTotals(Before(daily0, d).income, Before(daily0, d).expense + DaySum(vs[..i], d))
  }

  lemma ExpenseStep(vs: seq<Visit>, i: nat, daily0: map<string, DayTotals>, exp: int, daily: map<string, DayTotals>)
    requires i < |vs| && ExpenseSoFar(vs, i, daily0, exp, daily)
    ensures ExpenseSoFar(vs, i + 1, daily0, exp + Amount(vs[i]), AddExpense(daily, vs[i].dir, Amount(vs[i])))
  {
    var v := vs[i];
    PrefixStep(vs, i);
    var nd := AddExpense(daily, v.dir, Amount(v));
    forall d | d in nd
      ensures nd[d] == DayTotals(Before(daily0, d).income, Before(daily0, d).expense + DaySum(vs[..i + 1], d))
    {
      ExpenseDay(vs, i, daily0, exp, daily, d);
    }
  }

  lemma ExpenseDay(vs: seq<Visit>, i: nat, daily0: map<string, DayTotals>, exp: int, daily: map<string, DayTotals>,
                   d: string)
    requires i < |vs| && ExpenseSoFar(vs, i, daily0, exp, daily)
    requires d in AddExpense(daily, vs[i].dir, Amount(vs[i]))
    ensures AddExpense(daily, vs[i].dir, Amount(vs[i]))[d] ==
      DayTotals(Before(daily0, d).income, Before(daily0, d).expense + DaySum(vs[..i + 1], d))
  {
    PrefixStep(vs, i);
    if d == vs[i].dir && d !in daily {
      DaySumOutside(vs[..i], d);
    }
  }

  /** The expense loop: every amount goes to the expense total and to its day. */
  method ExpenseLoop(vs: seq<Visit>, daily0: map<string, DayTotals>)
    returns (ok: bool, exp: int, daily: map<string, DayTotals>)
    ensures ok <==> !AnyUnreadable(vs)
    ensures ok ==> exp == Sum(vs, Amount)
    ensures ok ==> daily.Keys == daily0.Keys + Dirs(vs)
    ensures ok ==> forall d :: d in daily ==>
      daily[d] == DayTotals(Before(daily0, d).income, Before(daily0, d).expense + DaySum(vs, d))
  {
    exp := 0;
    daily := daily0;
    var i := 0;
    assert vs[..0] == [];
    while i < |vs|
      invariant 0 <= i <= |vs|
      invariant !AnyUnreadable(vs[..i])
      invariant ExpenseSoFar(vs, i, daily0, exp, daily)
    {
      var v := vs[i];
      if v.content.None? || v.content.value.JNull? {
        assert Unreadable(vs[i]);
        return false, exp, daily;
      }
      ExpenseStep(vs, i, daily0, exp, daily);
      UnreadableStep(vs, i);
      var amount := AmountOf(v.content.value, "amount");
      exp := exp + amount;
      daily := AddExpense(daily, v.dir, amount);
      i := i + 1;
    }
    assert vs[..i] == vs;
    ok := true;
  }

  /** The records of today's files, or `None` when one of them does not parse. */
  function Records(vs: seq<Visit>): (r: Option<seq<Json>>)
    ensures r.Some? <==> forall i :: 0 <= i < |vs| ==> vs[i].content.Some?
    ensures r.Some? ==> |r.value| == |vs| && forall i :: 0 <= i < |vs| ==> r.value[i] == vs[i].content.value
  {
    if |vs| == 0 then Some([])
    else
      var init := vs[..|vs| - 1];
      var last := vs[|vs| - 1];
      var r := Records(init);
      assert forall i :: 0 <= i < |init| ==> init[i] == vs[i];
      if r.Some? && last.content.Some? then Some(r.value + [last.content.value]) else None
  }

  /** `getTodayRent` / `getTodayExpenses`: the records of the folders named for today. */
  method TodayList(vs: seq<Visit>) returns (ok: bool, list: seq<Json>)
    ensures ok <==> Records(vs).Some?
    ensures ok ==> list == Records(vs).value
  {
    list := [];
    var i := 0;
    while i < |vs|
      invariant 0 <= i <= |vs|
      invariant Records(vs[..i]) == Some(list)
    {
      assert vs[..i + 1][..i] == vs[..i];
      if vs[i].content.None? {
        assert !(Records(vs).Some?);
        return false, list;
      }
      list := list + [vs[i].content.value];
      i := i + 1;
    }
    assert vs[..i] == vs;
    ok := true;
  }

  /** Everything the page shows after a load. */
  datatype Analysis = Analysis(
    income: int, expense: int, byMode: map<string, int>,
    daily: map<string, DayTotals>, byRoom: map<string, int>,
    todayRent: seq<Json>, todayExpenses: seq<Json>)

  /** `loadData`: today's lists, then the rent loop, then the expense loop, all
      within the date range; an unreadable file anywhere ends the load with nothing
      shown. */
  method LoadAnalysis(rentDirs: seq<DirEntry>, expDirs: seq<DirEntry>, from: string, to: string, today: string)
    returns (r: Option<Analysis>)
    ensures var rv, ev := Visits(rentDirs, Range(from, to), false), Visits(expDirs, Range(from, to), false);
      r.None? <==>
        Records(Visits(rentDirs, OnDay(today), false)).None? || Records(Visits(expDirs, OnDay(today), false)).None? ||
        AnyUnreadable(rv) || AnyUnreadable(ev)
    ensures r.Some? ==> var rv, ev := Visits(rentDirs, Range(from, to), false), Visits(expDirs, Range(from, to), false);
      r.value.income == Sum(rv, Amount) && r.value.expense == Sum(ev, Amount) &&
      r.value.byMode == map["Cash" := ModeSum(rv, "Cash"), "GPay" := ModeSum(rv, "GPay")] &&
      r.value.daily.Keys == Dirs(rv) + Dirs(ev) &&
      (forall d :: d in r.value.daily ==> r.value.daily[d] == DayTotals(DaySum(rv, d), DaySum(ev, d))) &&
      r.value.byRoom.Keys == RoomKeys(rv) - {""} &&
      (forall k :: k in r.value.byRoom ==> r.value.byRoom[k] == RoomSum(rv, k)) &&
      r.value.todayRent == Records(Visits(rentDirs, OnDay(today), false)).value &&
      r.value.todayExpenses == Records(Visits(expDirs, OnDay(today), false)).value
  {
    var okRent, tRent := TodayList(Visits(rentDirs, OnDay(today), false));
    if !okRent {
      return None;
    }
    var okExp, tExp := TodayList(Visits(expDirs, OnDay(today), false));
    if !okExp {
      return None;
    }
    var rv := Visits(rentDirs, Range(from, to), false);
    var ok, inc, modeAgg, daily, byRoom := RentLoop(rv);
    if !ok {
      return None;
    }
    var ev := Visits(expDirs, Range(from, to), false);
    var ok2, exp, daily2 := ExpenseLoop(ev, daily);
    if !ok2 {
      return None;
    }
    forall d | d in daily2
      ensures daily2[d] == DayTotals(DaySum(rv, d), DaySum(ev, d))
    {
      if d !in daily {
        DaySumOutside(rv, d);
      }
    }
    r := Some(Analysis(inc, exp, modeAgg, daily2, byRoom, tRent, tExp));
  }

  /** Only days inside the range get a bar on the chart. */
  lemma DailyWithinRange(rentDirs: seq<DirEntry>, expDirs: seq<DirEntry>, from: string, to: string, d: string)
    requires d in Dirs(Visits(rentDirs, Range(from, to), false)) + Dirs(Visits(expDirs, Range(from, to), false))
    ensures InRange(d, from, to)
  {
    var rv, ev := Visits(rentDirs, Range(from, to), false), Visits(expDirs, Range(from, to), false);
    if d in Dirs(rv) {
      var i :| 0 <= i < |rv| && rv[i].dir == d;
      assert rv[i] in rv;
    } else {
      var i :| 0 <= i < |ev| && ev[i].dir == d;
      assert ev[i] in ev;
    }
  }

  // ---------------------------------------------------------------------------
  // The five best rooms

  /** `(a, b) => b[1] - a[1]`: larger totals first. */
  function MoreFirst(a: (string, int), b: (string, int)): bool {
    a.1 >= b.1
  }

  lemma MoreFirstTotal()
    ensures Total(MoreFirst)
  {
  }

  /** In a list sorted larger-first, an earlier entry is never smaller than a later one. */
  lemma {:induction false} SortedMoreFirst(xs: seq<(string, int)>, i: nat, j: nat)
    requires Sorted(xs, MoreFirst) && i <= j < |xs|
    ensures xs[i].1 >= xs[j].1
    decreases j - i
  {
    if i < j {
      SortedMoreFirst(xs, i + 1, j);
      assert MoreFirst(xs[i], xs[i + 1]);
    }
  }

  /** `topRooms`: the room totals sorted larger-first and cut to five. No room left
      out took more than any room kept. */
  function TopRooms(entries: seq<(string, int)>): (r: seq<(string, int)>)
    ensures |r| == if |entries| < 5 then |entries| else 5
    ensures Sorted(r, MoreFirst)
    ensures forall x :: x in r ==> x in entries
    ensures forall x, y :: x in entries && x !in r && y in r ==> x.1 <= y.1
    ensures multiset(r) <= multiset(entries)
  {
    MoreFirstTotal();
    var sorted := Sort(entries, MoreFirst);
    TopOfSorted(entries, sorted, 5);
    Take(sorted, 5)
  }

  /** The first `n` of the totals sorted larger-first: part of the totals, and
      no total left out is larger than one kept. */
  lemma TopOfSorted(entries: seq<(string, int)>, sorted: seq<(string, int)>, n: nat)
    requires multiset(sorted) == multiset(entries) && Sorted(sorted, MoreFirst)
    ensures multiset(Take(sorted, n)) <= multiset(entries)
    ensures forall x :: x in Take(sorted, n) ==> x in entries
    ensures forall x, y :: x in entries && x !in Take(sorted, n) && y in Take(sorted, n) ==> x.1 <= y.1
  {
    var r := Take(sorted, n);
    assert sorted == r + sorted[|r|..];
    assert multiset(sorted) == multiset(r) + multiset(sorted[|r|..]);
    forall x, y | x in entries && x !in r && y in r
      ensures x.1 <= y.1
    {
      assert x in multiset(sorted);
      var j :| 0 <= j < |sorted| && sorted[j] == x;
      var i :| 0 <= i < |r| && r[i] == y;
      assert sorted[i] == r[i];
      SortedMoreFirst(sorted, i, j);
    }
    forall x | x in r
      ensures x in entries
    {
      assert x in multiset(r);
      assert x in multiset(entries);
    }
  }
}
