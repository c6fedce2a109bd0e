/** The live view's Reservations page: the reservations newest first, narrowed
    by a search over name, place, room and date. */
module ReservationsPage {
  import opened Text
  import opened Json
  import opened ListView

  /** `list`: `(data.reservations || []).slice().reverse()`. */
  function List(data: Json): (r: seq<Json>)
    ensures r == Reverse(ArrayItems(Get(data, "reservations")))
    ensures forall x :: x in r <==> x in ArrayItems(Get(data, "reservations"))
  {
    ReverseSameElements(ArrayItems(Get(data, "reservations")));
    Reverse(ArrayItems(Get(data, "reservations")))
  }

  /** The search callback for a non-blank query `s`: the lower-cased name or place,
      or the room or date text as it is, contains `s`. */
  predicate Matches(r: Json, s: string) {
    Contains(Lower(TextOr(r, "name", "")), s) || Contains(Lower(TextOr(r, "place", "")), s) ||
    Contains(TextOr(r, "room", ""), s) || Contains(TextOr(r, "date", ""), s)
  }

  /** The filter callback for the query `q`. */
  function Matching(q: string): Json -> bool {
    (r: Json) => Matches(r, Lower(Trim(q)))
  }

  /** `filtered`: the whole list for a blank query, otherwise the matching reservations in order. */
  function Filtered(list: seq<Json>, q: string): (r: seq<Json>)
    ensures IsSubsequence(r, list) && |r| <= |list|
    ensures Trim(q) == "" ==> r == list
    ensures Trim(q) != "" ==> forall x :: x in r <==> x in list && Matches(x, Lower(Trim(q)))
  {
    if Lower(Trim(q)) == "" then
      IsSubsequenceRefl(list);
      list
    else Filter(list, Matching(q))
  }

  /** Every reservation that the query names by its room is found. */
  lemma RoomFound(list: seq<Json>, q: string, i: nat)
    requires i < |list| && Trim(q) != ""
    requires Contains(TextOr(list[i], "room", ""), Lower(Trim(q)))
    ensures list[i] in Filtered(list, q)
  {
  }

  /** A longer query never finds more: what a query extended at its end keeps, the query kept too. */
  lemma {:induction false} LongerQueryNarrows(r: Json, s: string, more: string)
    requires Matches(r, s + more)
    ensures Matches(r, s)
  {
    var t := s + more;
    if Contains(Lower(TextOr(r, "name", "")), t) {
      ContainsPrefix(Lower(TextOr(r, "name", "")), s, more);
    } else if Contains(Lower(TextOr(r, "place", "")), t) {
      ContainsPrefix(Lower(TextOr(r, "place", "")), s, more);
    } else if Contains(TextOr(r, "room", ""), t) {
      ContainsPrefix(TextOr(r, "room", ""), s, more);
    } else {
      ContainsPrefix(TextOr(r, "date", ""), s, more);
    }
  }
}
