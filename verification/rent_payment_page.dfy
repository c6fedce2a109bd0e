/** The live view's Rent Payments page: the payments become rows with a date
    text and a room text, the rows are narrowed by an inclusive date range, a
    payment mode and a search, totalled, and shown ten to a page. The base order
    (newest first, by `Date` parsing) is taken as given. */
module RentPaymentPage {
  import opened Text
  import opened Json
  import opened DateText
  import opened ListView

  const PAGE_SIZE: nat := 10

  /** A payment with the two fields `rows` adds to it: `_date` and `_roomStr`. */
  datatype Row = Row(data: Json, date: string, roomStr: string)

  /** One entry of `rows`: `_date = r.date || r.month || ''`, and the room list
      joined with ", " (or the room itself). */
  function RowOf(p: Json): (r: Row)
    ensures r.data == p
    ensures Present(Get(p, "date")) ==> r.date == ToText(Get(p, "date").value)
    ensures !Present(Get(p, "date")) && Present(Get(p, "month")) ==> r.date == ToText(Get(p, "month").value)
    ensures !Present(Get(p, "date")) && !Present(Get(p, "month")) ==> r.date == ""
    ensures Get(p, "room").Some? && Get(p, "room").value.JArr? ==> r.roomStr == JoinItems(Get(p, "room").value.items, ", ")
    ensures Present(Get(p, "room")) && !Get(p, "room").value.JArr? ==> r.roomStr == ToText(Get(p, "room").value)
    ensures !Present(Get(p, "room")) ==> r.roomStr == ""
  {
    Row(p, TextOr(p, "date", TextOr(p, "month", "")), ListText(Get(p, "room")))
  }

  /** `rows`: one row per payment, in the base order. */
  function Rows(base: seq<Json>): (r: seq<Row>)
    ensures |r| == |base|
    ensures forall i :: 0 <= i < |base| ==> r[i] == RowOf(base[i])
  {
    seq(|base|, i requires 0 <= i < |base| => RowOf(base[i]))
  }

  /** The page's inputs: the date range, the mode, the search text and the page number. */
  datatype Controls = Controls(from: string, to: string, mode: string, q: string, page: int)

  /** The text a search looks in: name, room, date, days, amount and mode, joined
      by spaces and lower-cased. */
  function Haystack(r: Row): string {
    Lower(Join([TextOr(r.data, "name", ""), r.roomStr, r.date, TextOr(r.data, "days", ""),
      TextOr(r.data, "amount", ""), TextOr(r.data, "mode", "")], " "))
  }

  /** The first ten characters of `_date` lie within the bounds; an empty bound does not restrict. */
  predicate InRange(r: Row, from: string, to: string) {
    WithinBounds(SliceTo(r.date, 10), from, to)
  }

  /** "All" keeps every mode; any other choice is compared without regard to case. */
  predicate ModeMatches(r: Row, mode: string) {
    mode == "All" || Lower(TextOr(r.data, "mode", "")) == Lower(mode)
  }

  /** A blank search keeps every row; otherwise the trimmed, lower-cased query is in the haystack. */
  predicate SearchMatches(r: Row, q: string) {
    var s := Lower(Trim(q));
    s == "" || Contains(Haystack(r), s)
  }

  predicate Keep(r: Row, c: Controls) {
    InRange(r, c.from, c.to) && ModeMatches(r, c.mode) && SearchMatches(r, c.q)
  }

  /** The filter callback for the inputs `c`. */
  function Keeping(c: Controls): Row -> bool {
    (x: Row) => Keep(x, c)
  }

  /** The rows the inputs `c` leave out. */
  function Dropping(c: Controls): Row -> bool {
    (x: Row) => !Keep(x, c)
  }

  /** `filtered`: the rows passing every input, in their order. */
  function Filtered(rows: seq<Row>, c: Controls): (r: seq<Row>)
    ensures IsSubsequence(r, rows)
    ensures forall x :: x in r <==> x in rows && Keep(x, c)
  {
    Filter(rows, Keeping(c))
  }

  /** `Number(r.amount) || 0`. */
  function RowAmount(r: Row): int {
    AmountOf(r.data, "amount")
  }

  /** What the page shows for the payments `base` under the inputs `c`. */
  function Page(base: seq<Json>, c: Controls): (v: PageView<Row>)
    ensures v.total == Sum(Filtered(Rows(base), c), RowAmount)
    ensures v.totalPages >= 1
    ensures c.page >= 1 ==> |v.rows| <= PAGE_SIZE
    ensures forall x :: x in v.rows ==> x in Rows(base) && Keep(x, c)
  {
    View(Filtered(Rows(base), c), RowAmount, c.page, PAGE_SIZE)
  }

  /** Cleared inputs let every row through. */
  lemma ClearedKeeps(x: Row)
    ensures Keep(x, Controls("", "", "All", "", 1))
  {
    assert Trim("") == "";
  }

  /** `clearFilters()`: every input back to its start, so that every row is
      listed and the first page is shown. */
  function ClearFilters(c: Controls): (r: Controls)
    ensures r.from == "" && r.to == "" && r.mode == "All" && r.q == "" && r.page == 1
    ensures forall rows :: Filtered(rows, r) == rows
  {
    var r := Controls("", "", "All", "", 1);
    forall rows ensures Filtered(rows, r) == rows {
      forall i | 0 <= i < |rows| ensures Keeping(r)(rows[i]) {
        ClearedKeeps(rows[i]);
      }
      FilterAll(rows, Keeping(r));
    }
    r
  }

  /** After `clearFilters()` the page shows the first ten payments and the total of all of them. */
  lemma ClearedPage(base: seq<Json>, c: Controls)
    ensures Page(base, ClearFilters(c)).rows == Take(Rows(base), PAGE_SIZE)
    ensures Page(base, ClearFilters(c)).total == Sum(Rows(base), RowAmount)
  {
    var rows := Rows(base);
    assert Filtered(rows, ClearFilters(c)) == rows;
  }

  /** The total of the listed rows and the total of the rows the inputs drop make
      the total of all rows. */
  lemma TotalSplits(base: seq<Json>, c: Controls)
    ensures Page(base, c).total + Sum(Filter(Rows(base), Dropping(c)), RowAmount) ==
      Sum(Rows(base), RowAmount)
  {
    SumFilterPartition(Rows(base), Keeping(c), Dropping(c), RowAmount);
  }

  /** With full dates on both sides, the date range is the calendar range. */
  lemma RangeIsCalendarRange(r: Row, from: string, to: string)
    requires IsYmd(from) && IsYmd(to) && IsYmd(SliceTo(r.date, 10))
    ensures InRange(r, from, to) <==>
      YmdValue(from) <= YmdValue(SliceTo(r.date, 10)) <= YmdValue(to)
  {
    BoundsAreCalendar(SliceTo(r.date, 10), from, to);
  }

  /** A row is found by any query occurring in its lower-cased name, room text or mode. */
  lemma SearchFinds(r: Row, q: string)
    requires var s := Lower(Trim(q));
      Contains(Lower(TextOr(r.data, "name", "")), s) || Contains(Lower(r.roomStr), s) ||
      Contains(Lower(TextOr(r.data, "mode", "")), s)
    ensures SearchMatches(r, q)
  {
    var s := Lower(Trim(q));
    var parts := [TextOr(r.data, "name", ""), r.roomStr, r.date, TextOr(r.data, "days", ""),
      TextOr(r.data, "amount", ""), TextOr(r.data, "mode", "")];
    var k := if Contains(Lower(parts[0]), s) then 0 else if Contains(Lower(parts[1]), s) then 1 else 5;
    ContainsInJoin(parts, " ", k, s);
    assert Haystack(r) == Lower(Join(parts, " "));
  }

  /** The mode choice is compared without regard to case. */
  lemma ModeIgnoresCase(r: Row, mode: string)
    requires mode != "All" && Lower(mode) != "All"
    ensures ModeMatches(r, mode) <==> ModeMatches(r, Lower(mode))
  {
    LowerIdempotent(mode);
  }
}
