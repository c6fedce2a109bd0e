/** The live view's Check-outs page: the check-outs newest first, narrowed by a
    search, a date range on the check-out date (or the check-in date) and the
    payment tally status. `parse` stands for the `Date` fallback of the date
    normaliser: what `new Date(s).toISOString().slice(0, 10)` gives for `s`,
    or "" when the date is invalid. */
module CheckoutPage {
  import opened Text
  import opened Json
  import opened DateText
  import opened ListView

  /** `all`: `(data.checkouts || data.checkoutsList || []).slice().reverse()`. */
  function AllCheckouts(data: Json): (r: seq<Json>)
    ensures Present(Get(data, "checkouts")) ==> r == Reverse(ArrayItems(Get(data, "checkouts")))
    ensures !Present(Get(data, "checkouts")) ==> r == Reverse(ArrayItems(Get(data, "checkoutsList")))
  {
    if Present(Get(data, "checkouts")) then Reverse(ArrayItems(Get(data, "checkouts")))
    else Reverse(ArrayItems(Get(data, "checkoutsList")))
  }

  /** `ymdFromDisplay(dstr)`: "" for a falsy value; the text itself when it is a
      full date; `DD/MM/YYYY` turned around; otherwise the `Date` fallback. */
  function YmdFromDisplay(d: Option<Json>, parse: string -> string): (r: string)
    ensures !Present(d) ==> r == ""
    ensures Present(d) && IsYmd(ToText(d.value)) ==> r == ToText(d.value)
    ensures Present(d) && IsSlashDmy(ToText(d.value)) ==>
      IsYmd(r) && var p := Split(ToText(d.value), '/'); Split(r, '-') == [p[2], p[1], p[0]]
    ensures Present(d) && !IsYmd(ToText(d.value)) && !IsSlashDmy(ToText(d.value)) ==> r == parse(ToText(d.value))
  {
    if !Present(d) then ""
    else
      match DisplayToYmd(ToText(d.value))
      case Some(y) => y
      case None => parse(ToText(d.value))
  }

  /** A full date the normaliser gives is kept as it is when normalised again. */
  lemma YmdFromDisplayIdempotent(d: Option<Json>, parse: string -> string)
    requires IsYmd(YmdFromDisplay(d, parse))
    ensures YmdFromDisplay(Some(JStr(YmdFromDisplay(d, parse))), parse) == YmdFromDisplay(d, parse)
  {
    var r := YmdFromDisplay(d, parse);
    assert r != "" by { assert Split("", '-') == [""]; }
  }

  /** `coYmd`: the normalised check-out date, or else the normalised check-in date. */
  function RangeDate(c: Json, parse: string -> string): (r: string)
    ensures YmdFromDisplay(Get(c, "checkOutDate"), parse) != "" ==> r == YmdFromDisplay(Get(c, "checkOutDate"), parse)
    ensures YmdFromDisplay(Get(c, "checkOutDate"), parse) == "" ==> r == YmdFromDisplay(Get(c, "checkInDate"), parse)
  {
    var out := YmdFromDisplay(Get(c, "checkOutDate"), parse);
    if out != "" then out else YmdFromDisplay(Get(c, "checkInDate"), parse)
  }

  /** `c.name || c.guest?.name || ''`. */
  function GuestName(c: Json): string {
    if Present(Get(c, "name")) then ToText(Get(c, "name").value)
    else
      var g := Get(c, "guest");
      if g.Some? then TextOrEmpty(Get(g.value, "name")) else ""
  }

  /** The room text: an array joined with ", ", else `c.room || c.rooms || ''`. */
  function RoomStr(c: Json): string {
    var room := Get(c, "room");
    if room.Some? && room.value.JArr? then JoinItems(room.value.items, ", ")
    else TextOr(c, "room", TextOr(c, "rooms", ""))
  }

  /** `[c.checkInDate, c.checkOutDate].filter(Boolean).join(' ')`, lower-cased. */
  function DatesText(c: Json): string {
    var ci := Get(c, "checkInDate");
    var co := Get(c, "checkOutDate");
    Lower(Join((if Present(ci) then [ToText(ci.value)] else []) + (if Present(co) then [ToText(co.value)] else []), " "))
  }

  /** The search text: the lower-cased name, the room text as it is, the lower-cased
      phone and the lower-cased dates, joined by spaces. */
  function Haystack(c: Json): string {
    Join([Lower(GuestName(c)), RoomStr(c), Lower(TextOr(c, "contact", "")), DatesText(c)], " ")
  }

  /** The payment filter's choice: "all", "tallied" or "not-tallied". */
  datatype Controls = Controls(searchQuery: string, from: string, to: string, payment: string)

  /** The stored status compared by the tally filter. */
  predicate Tallied(c: Json) {
    Lower(TextOr(c, "paymentTallyStatus", "")) == "tallied"
  }

  predicate SearchMatches(c: Json, q: string) {
    var s := Lower(Trim(q));
    s == "" || Contains(Haystack(c), s)
  }

  /** A record without a date the normaliser accepts is never dropped by the range. */
  predicate DateMatches(c: Json, from: string, to: string, parse: string -> string) {
    var d := RangeDate(c, parse);
    d == "" || WithinBounds(d, from, to)
  }

  predicate TallyMatches(c: Json, payment: string) {
    (payment != "tallied" || Tallied(c)) && (payment != "not-tallied" || !Tallied(c))
  }

  predicate Keep(c: Json, k: Controls, parse: string -> string) {
    SearchMatches(c, k.searchQuery) && DateMatches(c, k.from, k.to, parse) && TallyMatches(c, k.payment)
  }

  /** The filter callback for the inputs `k`. */
  function Keeping(k: Controls, parse: string -> string): Json -> bool {
    (c: Json) => Keep(c, k, parse)
  }

  /** `filtered`: the check-outs passing every input, in their order. */
  function Filtered(all: seq<Json>, k: Controls, parse: string -> string): (r: seq<Json>)
    ensures IsSubsequence(r, all)
    ensures forall c :: c in r <==> c in all && Keep(c, k, parse)
  {
    Filter(all, Keeping(k, parse))
  }

  /** "tallied" and "not-tallied" split what "all" lists between them: together
      they hold as many records, and each listed record is in exactly one. */
  lemma TallySplits(all: seq<Json>, k: Controls, parse: string -> string)
    ensures var whole := Filtered(all, k.(payment := "all"), parse);
      var yes := Filtered(all, k.(payment := "tallied"), parse);
      var no := Filtered(all, k.(payment := "not-tallied"), parse);
      |yes| + |no| == |whole| &&
      forall c :: c in whole <==> (c in yes) != (c in no)
  {
    var whole := Keeping(k.(payment := "all"), parse);
    var yes := Keeping(k.(payment := "tallied"), parse);
    var no := Keeping(k.(payment := "not-tallied"), parse);
    FilterSplitCount(all, whole, yes, no);
  }

  /** A check-out with no usable date is kept or dropped by the search and the tally
      filter alone, whatever the range. */
  lemma UndatedIgnoresRange(c: Json, k: Controls, parse: string -> string)
    requires RangeDate(c, parse) == ""
    ensures Keep(c, k, parse) <==> SearchMatches(c, k.searchQuery) && TallyMatches(c, k.payment)
  {
  }

  /** Between full dates the range is the calendar range on the check-out date,
      when that date is a full date. */
  lemma RangeUsesCheckOut(c: Json, from: string, to: string, parse: string -> string)
    requires IsYmd(from) && IsYmd(to)
    requires Present(Get(c, "checkOutDate")) && IsYmd(ToText(Get(c, "checkOutDate").value))
    ensures DateMatches(c, from, to, parse) <==>
      YmdValue(from) <= YmdValue(ToText(Get(c, "checkOutDate").value)) <= YmdValue(to)
  {
    var d := ToText(Get(c, "checkOutDate").value);
    assert d != "" by { assert Split("", '-') == [""]; }
    BoundsAreCalendar(d, from, to);
  }

  /** A check-out is found by any query in its lower-cased guest name, phone or dates. */
  lemma SearchFinds(c: Json, q: string)
    requires var s := Lower(Trim(q));
      Contains(Lower(GuestName(c)), s) || Contains(Lower(TextOr(c, "contact", "")), s) || Contains(DatesText(c), s)
    ensures SearchMatches(c, q)
  {
    var s := Lower(Trim(q));
    var parts := [Lower(GuestName(c)), RoomStr(c), Lower(TextOr(c, "contact", "")), DatesText(c)];
    if Contains(parts[0], s) {
      ContainsInJoinRaw(parts, " ", 0, s);
    } else if Contains(parts[2], s) {
      ContainsInJoinRaw(parts, " ", 2, s);
    } else {
      ContainsInJoinRaw(parts, " ", 3, s);
    }
  }
}
