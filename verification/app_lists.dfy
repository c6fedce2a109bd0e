/** The desk's Rent Payments and Expenses pages: the rows loaded from the
    RentCollections and Expenses folders, narrowed by the filter inputs, totalled
    and cut into pages of 20. */
module AppLists {
  import opened Text
  import opened Json
  import opened ListView
  import opened DateText

  const PAGE_SIZE: nat := 20

  /** A loaded row: the file's JSON spread into a row, and its date folder's name. */
  datatype LoadedRow = LoadedRow(data: Json, dateFolder: string)

  /** `Number(r.amount) || 0`. */
  function RowAmount(r: LoadedRow): int {
    AmountOf(r.data, "amount")
  }

  /** `String(r[key] || "")`, lower-cased. */
  function FieldText(r: LoadedRow, key: string): string {
    Lower(TextOr(r.data, key, ""))
  }

  /** The inclusive date range on the folder name; an empty bound does not restrict. */
  predicate InDateRange(r: LoadedRow, from: string, to: string) {
    WithinBounds(r.dateFolder, from, to)
  }

  // ---------------------------------------------------------------------------
  // Rent Payments

  datatype RentFilters = RentFilters(from: string, to: string, mode: string, q: string)

  /** The row passes every filter input of the Rent Payments page. */
  predicate RentKeep(r: LoadedRow, f: RentFilters) {
    InDateRange(r, f.from, f.to) &&
    (f.mode == "All" || FieldText(r, "mode") == Lower(f.mode)) &&
    (Trim(f.q) == "" ||
      var s := Lower(Trim(f.q));
      Contains(FieldText(r, "name"), s) || Contains(FieldText(r, "room"), s) || Contains(Lower(r.dateFolder), s))
  }

  /** The page's `filtered`: the date, mode and search filters applied one after another. */
  function RentFiltered(all: seq<LoadedRow>, f: RentFilters): (r: seq<LoadedRow>)
    ensures IsSubsequence(r, all)
    ensures forall x :: x in r <==> x in all && RentKeep(x, f)
  {
    var s := Lower(Trim(f.q));
    var byFrom := FilterIf(all, f.from != "", (x: LoadedRow) => LexLe(f.from, x.dateFolder));
    var byTo := FilterIf(byFrom, f.to != "", (x: LoadedRow) => LexLe(x.dateFolder, f.to));
    var byMode := FilterIf(byTo, f.mode != "All", (x: LoadedRow) => FieldText(x, "mode") == Lower(f.mode));
    var bySearch := FilterIf(byMode, Trim(f.q) != "", (x: LoadedRow) =>
      Contains(FieldText(x, "name"), s) || Contains(FieldText(x, "room"), s) || Contains(Lower(x.dateFolder), s));
    IsSubsequenceTransitive(byTo, byFrom, all);
    IsSubsequenceTransitive(byMode, byTo, all);
    IsSubsequenceTransitive(bySearch, byMode, all);
    bySearch
  }

  /** `clearFilters()`: the inputs that let every row through. */
  function ClearedRentFilters(): (f: RentFilters)
    ensures forall all :: RentFiltered(all, f) == all
  {
    var f := RentFilters("", "", "All", "");
    assert Trim("") == "";
    assert forall all :: RentFiltered(all, f) == all by {
      forall all ensures RentFiltered(all, f) == all {
        assert FilterIf(all, false, (x: LoadedRow) => LexLe(f.from, x.dateFolder)) == all;
      }
    }
    f
  }

  /** The Rent Payments page's total, page count and page `page` of the filtered rows. */
  function RentPage(all: seq<LoadedRow>, f: RentFilters, page: int): (v: PageView<LoadedRow>)
    ensures v.total == Sum(RentFiltered(all, f), RowAmount)
    ensures v.totalPages == TotalPages(|RentFiltered(all, f)|, PAGE_SIZE)
    ensures page >= 1 ==> |v.rows| <= PAGE_SIZE
    ensures forall x :: x in v.rows ==> x in all && RentKeep(x, f)
    ensures 1 <= page <= v.totalPages ==> var rows := RentFiltered(all, f);
      v.rows == rows[(page - 1) * PAGE_SIZE..SliceIndex((page - 1) * PAGE_SIZE + PAGE_SIZE, |rows|)]
    ensures page > v.totalPages ==> v.rows == []
  {
    View(RentFiltered(all, f), RowAmount, page, PAGE_SIZE)
  }

  // ---------------------------------------------------------------------------
  // Expenses

  datatype ExpenseFilters = ExpenseFilters(from: string, to: string, q: string)

  /** The row passes every filter input of the Expenses page. */
  predicate ExpenseKeep(r: LoadedRow, f: ExpenseFilters) {
    InDateRange(r, f.from, f.to) &&
    (Trim(f.q) == "" ||
      var s := Lower(Trim(f.q));
      Contains(FieldText(r, "description"), s) || Contains(Lower(r.dateFolder), s))
  }

  function ExpenseFiltered(all: seq<LoadedRow>, f: ExpenseFilters): (r: seq<LoadedRow>)
    ensures IsSubsequence(r, all)
    ensures forall x :: x in r <==> x in all && ExpenseKeep(x, f)
  {
    var s := Lower(Trim(f.q));
    var byFrom := FilterIf(all, f.from != "", (x: LoadedRow) => LexLe(f.from, x.dateFolder));
    var byTo := FilterIf(byFrom, f.to != "", (x: LoadedRow) => LexLe(x.dateFolder, f.to));
    var bySearch := FilterIf(byTo, Trim(f.q) != "", (x: LoadedRow) =>
      Contains(FieldText(x, "description"), s) || Contains(Lower(x.dateFolder), s));
    IsSubsequenceTransitive(byTo, byFrom, all);
    IsSubsequenceTransitive(bySearch, byTo, all);
    bySearch
  }

  /** The Expenses page's total, page count and page `page` of the filtered rows. */
  function ExpensePage(all: seq<LoadedRow>, f: ExpenseFilters, page: int): (v: PageView<LoadedRow>)
    ensures v.total == Sum(ExpenseFiltered(all, f), RowAmount)
    ensures v.totalPages == TotalPages(|ExpenseFiltered(all, f)|, PAGE_SIZE)
    ensures page >= 1 ==> |v.rows| <= PAGE_SIZE
    ensures forall x :: x in v.rows ==> x in all && ExpenseKeep(x, f)
    ensures 1 <= page <= v.totalPages ==> var rows := ExpenseFiltered(all, f);
      v.rows == rows[(page - 1) * PAGE_SIZE..SliceIndex((page - 1) * PAGE_SIZE + PAGE_SIZE, |rows|)]
    ensures page > v.totalPages ==> v.rows == []
  {
    View(ExpenseFiltered(all, f), RowAmount, page, PAGE_SIZE)
  }

  /** Narrowing the list never makes a non-negative total grow. */
  lemma NarrowerTotalNoLarger(all: seq<LoadedRow>, f: RentFilters)
    requires forall i :: 0 <= i < |all| ==> RowAmount(all[i]) >= 0
    ensures Sum(RentFiltered(all, f), RowAmount) <= Sum(all, RowAmount)
  {
    SubsequenceSumNoLarger(RentFiltered(all, f), all, RowAmount);
  }
}
