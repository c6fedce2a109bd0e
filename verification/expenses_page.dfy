/** The live view's Expenses page: the expenses become rows with a date text, a
    description and an amount, the rows are narrowed by an inclusive date range
    and a search, totalled, and shown ten to a page. The base order (newest
    first, by `Date` parsing) is taken as given. */
module ExpensesPage {
  import opened Text
  import opened Json
  import opened DateText
  import opened ListView

  const PAGE_SIZE: nat := 10

  /** An expense with the fields `rows` adds to it: `_date`, `_desc` and `_amt`. */
  datatype Row = Row(data: Json, date: string, desc: string, amt: int)

  /** One entry of `rows`: `_date = date || ''`, `_desc = description || category
      || note || ''` and `_amt = Number(amount) || 0`. */
  function RowOf(e: Json): (r: Row)
    ensures r.data == e && r.amt == AmountOf(e, "amount")
    ensures r.date == TextOrEmpty(Get(e, "date"))
    ensures Present(Get(e, "description")) ==> r.desc == ToText(Get(e, "description").value)
    ensures !Present(Get(e, "description")) && Present(Get(e, "category")) ==> r.desc == ToText(Get(e, "category").value)
    ensures !Present(Get(e, "description")) && !Present(Get(e, "category")) ==> r.desc == TextOrEmpty(Get(e, "note"))
  {
    Row(e, TextOr(e, "date", ""), TextOr(e, "description", TextOr(e, "category", TextOr(e, "note", ""))),
      AmountOf(e, "amount"))
  }

  /** `rows`: one row per expense, in the base order. */
  function Rows(base: seq<Json>): (r: seq<Row>)
    ensures |r| == |base|
    ensures forall i :: 0 <= i < |base| ==> r[i] == RowOf(base[i])
  {
    seq(|base|, i requires 0 <= i < |base| => RowOf(base[i]))
  }

  /** The page's inputs: the date range, the search text and the page number. */
  datatype Controls = Controls(from: string, to: string, q: string, page: int)

  /** The text a search looks in: description, date and amount, joined by spaces
      and lower-cased. */
  function Haystack(r: Row): string {
    Lower(Join([r.desc, r.date, IntToString(r.amt)], " "))
  }

  predicate SearchMatches(r: Row, q: string) {
    var s := Lower(Trim(q));
    s == "" || Contains(Haystack(r), s)
  }

  /** The first ten characters of `_date` lie within the bounds, and the search matches. */
  predicate Keep(r: Row, c: Controls) {
    WithinBounds(SliceTo(r.date, 10), c.from, c.to) && SearchMatches(r, c.q)
  }

  /** The filter callback for the inputs `c`. */
  function Keeping(c: Controls): Row -> bool {
    (x: Row) => Keep(x, c)
  }

  /** The rows the inputs `c` leave out. */
  function Dropping(c: Controls): Row -> bool {
    (x: Row) => !Keep(x, c)
  }

  /** `filtered`: the rows passing every input, in their order. */
  function Filtered(rows: seq<Row>, c: Controls): (r: seq<Row>)
    ensures IsSubsequence(r, rows)
    ensures forall x :: x in r <==> x in rows && Keep(x, c)
  {
    Filter(rows, Keeping(c))
  }

  /** `Number(r._amt) || 0`, which is `_amt` itself. */
  function RowAmount(r: Row): int {
    OrZero(Num(r.amt))
  }

  /** What the page shows for the expenses `base` under the inputs `c`. */
  function Page(base: seq<Json>, c: Controls): (v: PageView<Row>)
    ensures v.total == Sum(Filtered(Rows(base), c), RowAmount)
    ensures v.totalPages >= 1
    ensures c.page >= 1 ==> |v.rows| <= PAGE_SIZE
    ensures forall x :: x in v.rows ==> x in Rows(base) && Keep(x, c)
  {
    View(Filtered(Rows(base), c), RowAmount, c.page, PAGE_SIZE)
  }

  /** `Number(amount) || 0` of an expense record. */
  function ExpenseAmount(e: Json): int {
    AmountOf(e, "amount")
  }

  /** Summing `_amt` over the rows is summing `Number(amount) || 0` over the expenses. */
  lemma {:induction false} TotalIsAmounts(base: seq<Json>)
    ensures Sum(Rows(base), RowAmount) == Sum(base, ExpenseAmount)
  {
    if |base| > 0 {
      var init := base[..|base| - 1];
      TotalIsAmounts(init);
      assert Rows(base)[..|base| - 1] == Rows(init);
    }
  }

  /** Cleared inputs let every row through. */
  lemma ClearedKeeps(x: Row)
    ensures Keep(x, Controls("", "", "", 1))
  {
    assert Trim("") == "";
  }

  /** `clearFilters()`: every input back to its start, so that every row is
      listed and the first page is shown. */
  function ClearFilters(c: Controls): (r: Controls)
    ensures r.from == "" && r.to == "" && r.q == "" && r.page == 1
    ensures forall rows :: Filtered(rows, r) == rows
  {
    var r := Controls("", "", "", 1);
    forall rows ensures Filtered(rows, r) == rows {
      forall i | 0 <= i < |rows| ensures Keeping(r)(rows[i]) {
        ClearedKeeps(rows[i]);
      }
      FilterAll(rows, Keeping(r));
    }
    r
  }

  /** After `clearFilters()` the page shows the first ten expenses and the total of all of them. */
  lemma ClearedPage(base: seq<Json>, c: Controls)
    ensures Page(base, ClearFilters(c)).rows == Take(Rows(base), PAGE_SIZE)
    ensures Page(base, ClearFilters(c)).total == Sum(Rows(base), RowAmount)
  {
    var rows := Rows(base);
    assert Filtered(rows, ClearFilters(c)) == rows;
  }

  /** The listed total and the total of the rows the inputs drop make the total of all rows. */
  lemma TotalSplits(base: seq<Json>, c: Controls)
    ensures Page(base, c).total + Sum(Filter(Rows(base), Dropping(c)), RowAmount) ==
      Sum(Rows(base), RowAmount)
  {
    SumFilterPartition(Rows(base), Keeping(c), Dropping(c), RowAmount);
  }

  /** With full dates on both sides, the date range is the calendar range. */
  lemma RangeIsCalendarRange(r: Row, c: Controls)
    requires IsYmd(c.from) && IsYmd(c.to) && IsYmd(SliceTo(r.date, 10)) && Trim(c.q) == ""
    ensures Keep(r, c) <==> YmdValue(c.from) <= YmdValue(SliceTo(r.date, 10)) <= YmdValue(c.to)
  {
    BoundsAreCalendar(SliceTo(r.date, 10), c.from, c.to);
  }

  /** An expense is found by any query occurring in its lower-cased description or date. */
  lemma SearchFinds(r: Row, q: string)
    requires var s := Lower(Trim(q)); Contains(Lower(r.desc), s) || Contains(Lower(r.date), s)
    ensures SearchMatches(r, q)
  {
    var s := Lower(Trim(q));
    var parts := [r.desc, r.date, IntToString(r.amt)];
    if Contains(Lower(parts[0]), s) {
      ContainsInJoin(parts, " ", 0, s);
    } else {
      ContainsInJoin(parts, " ", 1, s);
    }
  }
}
