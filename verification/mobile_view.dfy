/** The phone-sized overview (src/components/MobileView.jsx): the current
    guests and reservations from the in-memory state, the latest rent payments
    and expenses read from the storage folder, one search box over all four
    lists, and the search for a guest's scanned ID among the scanned
    documents. Folder contents are given already read. */
module MobileView {
  import opened Text
  import opened Json
  import opened Hotel
  import opened Sorting
  import opened ListView
  import opened Folders
  import LiveSummary

  // ---------------------------------------------------------------------------
  // Names for the scanned-document search

  /** `String(name || '').replace(/[^\w\-]+/g, '_').toLowerCase()`. */
  function SafeNameForSearch(name: Option<Json>): (r: string)
    ensures !Present(name) ==> r == ""
    ensures forall i :: 0 <= i < |r| ==> IsNameChar(r[i]) && !('A' <= r[i] <= 'Z')
    ensures Lower(r) == r
  {
    var s := SafeName(TextOrEmpty(name));
    LowerIdempotent(s);
    Lower(s)
  }

  /** A name already made of lower-case letters, digits, `_` and `-` is its own
      search name, so making a search name twice changes nothing more. */
  lemma SafeNameForSearchKeeps(s: string)
    requires s != ""
    requires forall i :: 0 <= i < |s| ==> IsNameChar(s[i]) && !('A' <= s[i] <= 'Z')
    ensures SafeNameForSearch(Some(JStr(s))) == s
  {
    SafeNameKeepsSafe(s);
  }

  /** In a search name each run of unsafe characters is one `_`, with the text
      on either side made safe and lower-cased as it stands. */
  lemma SafeNameForSearchReplacesRun(a: string, u: string, b: string)
    requires a == [] || IsNameChar(a[|a| - 1])
    requires u != [] && AllUnsafe(u)
    requires b == [] || IsNameChar(b[0])
    ensures SafeNameForSearch(Some(JStr(a + u + b))) == Lower(SafeName(a)) + "_" + Lower(SafeName(b))
  {
    var s := a + u + b;
    assert |s| > 0;
    assert TextOrEmpty(Some(JStr(s))) == s;
    SafeNameReplacesRun(a, u, b);
    var x, y := SafeName(a), SafeName(b);
    assert SafeNameForSearch(Some(JStr(s))) == Lower(x + "_" + y);
    LowerAppend(x + "_", y);
    LowerAppend(x, "_");
    assert Lower("_") == "_";
  }

  lemma SafeNameForSearchIdempotent(name: Option<Json>)
    requires SafeNameForSearch(name) != ""
    ensures SafeNameForSearch(Some(JStr(SafeNameForSearch(name)))) == SafeNameForSearch(name)
  {
    SafeNameForSearchKeeps(SafeNameForSearch(name));
  }

  // ---------------------------------------------------------------------------
  // Current guests

  /** One entry of `currentGuests`. */
  datatype GuestCard = GuestCard(name: string, contact: string, id: string, rooms: seq<int>, checkIn: string)

  /** The card of an occupied room: the guest's name, phone and id, the room
      alone as its room list, and `checkIn || checkInDate || ''`. */
  function CardOf(room: Room): (c: GuestCard)
    requires room.guest.Some?
    ensures c.rooms == [room.number] && c.name == room.guest.value.name
    ensures c.checkIn == (if room.guest.value.checkIn != "" then room.guest.value.checkIn else room.guest.value.checkInDate)
  {
    var g := room.guest.value;
    GuestCard(g.name, g.contact, g.id, [room.number], if g.checkIn != "" then g.checkIn else g.checkInDate)
  }

  /** The cards the push loop gathers from `rooms`, in room order. */
  function Cards(rooms: seq<Room>): (r: seq<GuestCard>)
    ensures |r| <= |rooms|
  {
    if |rooms| == 0 then []
    else
      var last := rooms[|rooms| - 1];
      Cards(rooms[..|rooms| - 1]) + (if LiveSummary.Lodged(last) then [CardOf(last)] else [])
  }

  /** The current guests are the live pages' recent check-ins, one for one and
      in the same order: the same rooms and names. */
  lemma {:induction false} CardsMatchArrivals(rooms: seq<Room>)
    ensures |Cards(rooms)| == |LiveSummary.Arrivals(rooms)|
    ensures forall i :: 0 <= i < |Cards(rooms)| ==>
      Cards(rooms)[i].rooms == [LiveSummary.Arrivals(rooms)[i].room] &&
      Cards(rooms)[i].name == LiveSummary.Arrivals(rooms)[i].name
    decreases |rooms|
  {
    if |rooms| > 0 {
      CardsMatchArrivals(rooms[..|rooms| - 1]);
    }
  }

  /** A card is listed exactly for each occupied room with a guest. */
  lemma {:induction false} CardsExactly(rooms: seq<Room>, c: GuestCard)
    ensures c in Cards(rooms) <==>
      exists i :: 0 <= i < |rooms| && LiveSummary.Lodged(rooms[i]) && c == CardOf(rooms[i])
    decreases |rooms|
  {
    if |rooms| > 0 {
      var init := rooms[..|rooms| - 1];
      CardsExactly(init, c);
      assert forall i :: 0 <= i < |init| ==> init[i] == rooms[i];
      if c in Cards(init) {
        var i :| 0 <= i < |init| && LiveSummary.Lodged(init[i]) && c == CardOf(init[i]);
        assert LiveSummary.Lodged(rooms[i]) && c == CardOf(rooms[i]);
      }
    }
  }

  lemma CardsStep(before: seq<Room>, rooms: seq<Room>, i: nat)
    requires i < |rooms|
    ensures Cards(before + rooms[..i + 1]) ==
      Cards(before + rooms[..i]) + (if LiveSummary.Lodged(rooms[i]) then [CardOf(rooms[i])] else [])
  {
    var xs := before + rooms[..i + 1];
    assert xs[..|xs| - 1] == before + rooms[..i];
  }

  /** The loop that builds `currentGuests` over every room of every floor. */
  method CurrentGuests(floors: seq<Floor>) returns (guests: seq<GuestCard>)
    ensures guests == Cards(AllRooms(floors))
  {
    guests := [];
    var f := 0;
    while f < |floors|
      invariant 0 <= f <= |floors|
      invariant guests == Cards(AllRooms(floors[..f]))
    {
      AllRoomsSnoc(floors, f);
      ghost var before := AllRooms(floors[..f]);
      var rooms := floors[f].rooms;
      assert before + rooms[..0] == before;
      var i := 0;
      while i < |rooms|
        invariant 0 <= i <= |rooms|
        invariant guests == Cards(before + rooms[..i])
      {
        CardsStep(before, rooms, i);
        var r := rooms[i];
        if r.status == OCCUPIED && r.guest.Some? {
          var g := r.guest.value;
          guests := guests + [GuestCard(g.name, g.contact, g.id, [r.number], if g.checkIn != "" then g.checkIn else g.checkInDate)];
        }
        i := i + 1;
      }
      assert rooms[..i] == rooms;
      f := f + 1;
    }
    assert floors[..f] == floors;
  }

  // ---------------------------------------------------------------------------
  // The search box

  /** `q.trim().toLowerCase()` is blank, or one of the item's values, as
      `String(v || '')` lower-cased, contains it. */
  predicate SearchFilter(values: seq<string>, query: string) {
    var q := Lower(Trim(query));
    q == "" || exists i :: 0 <= i < |values| && Contains(Lower(values[i]), q)
  }

  /** `String(n || '')` for a number. */
  function NumberText(n: JsNum): string {
    if NumTruthy(n) then IntToString(n.v) else ""
  }

  /** The values of a guest card: name, phone, id, the room list (`String([n])`
      is the number's digits) and the check-in text. */
  function CardValues(c: GuestCard): seq<string> {
    [c.name, c.contact, c.id, Join(seq(|c.rooms|, i requires 0 <= i < |c.rooms| => IntToString(c.rooms[i])), ","), c.checkIn]
  }

  /** The values of `{ name, room, date, place }` of a reservation. */
  function ReservationValues(r: Reservation): seq<string> {
    [r.name, NumberText(r.room), r.date, r.place]
  }

  /** A guest card is found by its room number. */
  lemma CardFoundByRoom(room: Room, query: string)
    requires room.guest.Some?
    requires Lower(Trim(query)) == IntToString(room.number)
    ensures SearchFilter(CardValues(CardOf(room)), query)
  {
    var c := CardOf(room);
    var q := IntToString(room.number);
    assert CardValues(c)[3] == q by {
      assert seq(1, i requires 0 <= i < 1 => IntToString(c.rooms[i])) == [q];
    }
    NumberTextIsLower(room.number);
    assert Contains(Lower(CardValues(c)[3]), q) by {
      assert q <= q;
    }
  }

  /** A number written out has no capital letters. */
  lemma NumberTextIsLower(n: int)
    ensures Lower(IntToString(n)) == IntToString(n)
  {
    var q := IntToString(n);
    forall i | 0 <= i < |q|
      ensures LowerChar(q[i]) == q[i]
    {
      if n < 0 && i > 0 {
        assert q[i] == NatToString(-n)[i - 1];
      }
    }
  }

  // ---------------------------------------------------------------------------
  // Rent payments and expenses from the storage folder

  /** A record read from a date directory with the directory's name added: `{ ...data, _dateFolder }`. */
  datatype FolderRow = FolderRow(data: Json, dateFolder: string)

  /** The rows the loop pushes for the files it reads, in walk order: every
      parsed file, with its directory's name. */
  function RowsOf(visits: seq<Visit>): (r: seq<FolderRow>)
    ensures |r| <= |visits|
  {
    if |visits| == 0 then []
    else
      var v := visits[|visits| - 1];
      RowsOf(visits[..|visits| - 1]) + (if v.content.Some? then [FolderRow(v.content.value, v.dir)] else [])
  }

  /** A row is read for exactly each parsed file the walk reaches. */
  lemma {:induction false} RowsExactly(visits: seq<Visit>, row: FolderRow)
    ensures row in RowsOf(visits) <==>
      Visit(row.dateFolder, "", Some(row.data)) in seq(|visits|, i requires 0 <= i < |visits| => Visit(visits[i].dir, "", visits[i].content))
    decreases |visits|
  {
    if |visits| > 0 {
      var init := visits[..|visits| - 1];
      RowsExactly(init, row);
      var all := seq(|visits|, i requires 0 <= i < |visits| => Visit(visits[i].dir, "", visits[i].content));
      assert all[..|init|] == seq(|init|, i requires 0 <= i < |init| => Visit(init[i].dir, "", init[i].content));
      assert all == all[..|init|] + [all[|init|]];
    }
  }

  /** Entry `j` of a date directory adds a row when it is a parsed `.json` file. */
  lemma RowsStep(before: seq<Visit>, dir: DirEntry, j: nat)
    requires j < |dir.files|
    ensures var file := dir.files[j];
      RowsOf(before + FileVisits(dir.name, dir.files[..j + 1], false)) ==
        RowsOf(before + FileVisits(dir.name, dir.files[..j], false)) +
        (if JsonName(file.name, false) && file.content.Some? then [FolderRow(file.content.value, dir.name)] else [])
  {
    FileVisitsSnoc(dir.name, dir.files, j, false);
    var vs := before + FileVisits(dir.name, dir.files[..j + 1], false);
    if JsonName(dir.files[j].name, false) {
      assert vs[..|vs| - 1] == before + FileVisits(dir.name, dir.files[..j], false);
    } else {
      assert vs == before + FileVisits(dir.name, dir.files[..j], false);
    }
  }

  /** The inner loop over one date directory's entries: each parsed `.json`
      file adds a row. */
  method ReadDateDirectory(rows0: seq<FolderRow>, ghost before: seq<Visit>, dir: DirEntry) returns (rows: seq<FolderRow>)
    requires rows0 == RowsOf(before)
    ensures rows == RowsOf(before + FileVisits(dir.name, dir.files, false))
  {
    rows := rows0;
    assert before + FileVisits(dir.name, dir.files[..0], false) == before;
    var j := 0;
    while j < |dir.files|
      invariant 0 <= j <= |dir.files|
      invariant rows == RowsOf(before + FileVisits(dir.name, dir.files[..j], false))
    {
      var file := dir.files[j];
      RowsStep(before, dir, j);
      if JsonName(file.name, false) && file.content.Some? {
        rows := rows + [FolderRow(file.content.value, dir.name)];
      }
      j := j + 1;
    }
    assert dir.files[..j] == dir.files;
  }

  /** The loop over the date directories of a collection folder. */
  method LoadRows(dirs: seq<DirEntry>) returns (rows: seq<FolderRow>)
    ensures rows == RowsOf(Visits(dirs, AllDirs, false))
  {
    rows := [];
    var d := 0;
    while d < |dirs|
      invariant 0 <= d <= |dirs|
      invariant rows == RowsOf(Visits(dirs[..d], AllDirs, false))
    {
      VisitsSnoc(dirs, d, AllDirs, false);
      if dirs[d].isDir {
        assert KeepDir(AllDirs, dirs[d].name);
        rows := ReadDateDirectory(rows, Visits(dirs[..d], AllDirs, false), dirs[d]);
      } else {
        assert Visits(dirs[..d], AllDirs, false) + [] == Visits(dirs[..d], AllDirs, false);
      }
      d := d + 1;
    }
    assert dirs[..d] == dirs;
  }

  /** `(b._dateFolder || '').localeCompare(a._dateFolder || '')` is not positive:
      `a` may stay ahead of `b`. Folder names are compared character by character. */
  function FolderNotOlder(a: FolderRow, b: FolderRow): bool {
    LexLe(b.dateFolder, a.dateFolder)
  }

  lemma FolderNotOlderTotal()
    ensures Total(FolderNotOlder)
  {
    forall a: FolderRow, b: FolderRow ensures FolderNotOlder(a, b) || FolderNotOlder(b, a) {
      LexLeTotal(a.dateFolder, b.dateFolder);
    }
  }

  const LOADED_ROWS: nat := 200
  const SHOWN_ROWS: nat := 50

  /** What the page keeps of the rows read: the 200 with the latest folder names. */
  function Latest(rows: seq<FolderRow>): (r: seq<FolderRow>)
    ensures |r| <= LOADED_ROWS && (|rows| >= LOADED_ROWS ==> |r| == LOADED_ROWS) && (|rows| < LOADED_ROWS ==> |r| == |rows|)
    ensures multiset(r) <= multiset(rows)
    ensures Sorted(r, FolderNotOlder)
    ensures forall i, j :: 0 <= i < |r| && 0 <= j < |rows| && LexLess(r[i].dateFolder, rows[j].dateFolder) ==> rows[j] in r
  {
    FolderNotOlderTotal();
    var sorted := Sort(rows, FolderNotOlder);
    TakeLatest(rows, sorted, LOADED_ROWS);
    Take(sorted, LOADED_ROWS)
  }

  /** The first `n` rows of the rows sorted latest first: part of the rows,
      and holding every row whose folder is later than one of theirs. */
  lemma TakeLatest(rows: seq<FolderRow>, sorted: seq<FolderRow>, n: nat)
    requires multiset(sorted) == multiset(rows) && Sorted(sorted, FolderNotOlder)
    ensures multiset(Take(sorted, n)) <= multiset(rows)
    ensures var r := Take(sorted, n);
      forall i, j :: 0 <= i < |r| && 0 <= j < |rows| && LexLess(r[i].dateFolder, rows[j].dateFolder) ==> rows[j] in r
  {
    var r := Take(sorted, n);
    assert sorted == r + sorted[|r|..];
    assert multiset(sorted) == multiset(r) + multiset(sorted[|r|..]);
    forall i, j | 0 <= i < |r| && 0 <= j < |rows| && LexLess(r[i].dateFolder, rows[j].dateFolder)
      ensures rows[j] in r
    {
      assert rows[j] in multiset(sorted);
      var k :| 0 <= k < |sorted| && sorted[k] == rows[j];
      if k >= |r| {
        SortedNotOlder(sorted, i, k);
        assert false;
      }
    }
  }

  /** In a list sorted latest first, no later entry has a later folder name. */
  lemma {:induction false} SortedNotOlder(rows: seq<FolderRow>, i: nat, j: nat)
    requires Sorted(rows, FolderNotOlder) && i <= j < |rows|
    ensures !LexLess(rows[i].dateFolder, rows[j].dateFolder)
    decreases j - i
  {
    if i == j {
      LexLessIrreflexive(rows[i].dateFolder);
    } else {
      SortedNotOlder(rows, i, j - 1);
      LexLeTransitive(rows[j].dateFolder, rows[j - 1].dateFolder, rows[i].dateFolder);
    }
  }

  /** The values of a row: those of the record's own members (an array's items,
      a string's characters) and then the folder name, each as `String(v || '')`. */
  function RowValues(row: FolderRow): seq<string> {
    var own := match row.data
      case JObj(fields) => seq(|fields|, i requires 0 <= i < |fields| => TextOrEmpty(Some(fields[i].1)))
      case JArr(items) => seq(|items|, i requires 0 <= i < |items| => TextOrEmpty(Some(items[i])))
      case JStr(s) => seq(|s|, i requires 0 <= i < |s| => [s[i]])
      case _ => [];
    own + [row.dateFolder]
  }

  /** The search callback for the rows. */
  function RowMatching(query: string): FolderRow -> bool {
    (row: FolderRow) => SearchFilter(RowValues(row), query)
  }

  /** `rows.filter(searchFilter).slice(0, 50)`: at most fifty rows, each one
      passing the search, in their order; as many as pass when fewer than fifty do. */
  function Shown(rows: seq<FolderRow>, query: string): (r: seq<FolderRow>)
    ensures |r| <= SHOWN_ROWS
    ensures forall row :: row in r ==> row in rows && SearchFilter(RowValues(row), query)
    ensures |Filter(rows, RowMatching(query))| <= SHOWN_ROWS ==> r == Filter(rows, RowMatching(query))
    ensures |Filter(rows, RowMatching(query))| >= SHOWN_ROWS ==> |r| == SHOWN_ROWS
    ensures r == Filter(rows, RowMatching(query))[..|r|]
    ensures IsSubsequence(r, rows)
  {
    var passing := Filter(rows, RowMatching(query));
    var r := Take(passing, SHOWN_ROWS);
    assert forall row :: row in r ==> row in passing;
    PrefixIsSubsequence(passing, |r|);
    IsSubsequenceTransitive(r, passing, rows);
    r
  }

  /** A row is found by its folder name. */
  lemma RowFoundByFolder(row: FolderRow, query: string)
    requires Lower(Trim(query)) == Lower(row.dateFolder)
    ensures SearchFilter(RowValues(row), query)
  {
    var v := RowValues(row);
    var q := Lower(row.dateFolder);
    assert v[|v| - 1] == row.dateFolder;
    assert q[0..|q|] == q;
  }

  // ---------------------------------------------------------------------------
  // The scanned-document search

  /** An entry of the scanned-documents folder: a file, or a directory with its entries. */
  datatype Node = FileNode(name: string) | DirNode(name: string, children: seq<Node>)

  /** The file names in the order a depth-first walk meets them. */
  function FileOrder(entries: seq<Node>): seq<string>
    decreases entries
  {
    if |entries| == 0 then []
    else
      var first := entries[0];
      assert first in entries;
      (match first
       case FileNode(n) => [n]
       case DirNode(_, children) => FileOrder(children)) + FileOrder(entries[1..])
  }

  lemma {:induction false} FileOrderSnoc(entries: seq<Node>, i: nat)
    requires i < |entries|
    ensures FileOrder(entries[..i + 1]) == FileOrder(entries[..i]) + NodeFiles(entries[i])
    decreases i
  {
    if i > 0 {
      FileOrderSnoc(entries[1..], i - 1);
      assert entries[1..][..i] == entries[..i + 1][1..];
      assert entries[1..][..i - 1] == entries[..i][1..];
    }
  }

  /** The first name containing `safe`, lower-cased. */
  function FirstMatch(names: seq<string>, safe: string): (r: Option<string>)
    ensures r.Some? ==>
      exists i :: 0 <= i < |names| && names[i] == r.value && Contains(Lower(names[i]), safe) &&
        forall k :: 0 <= k < i ==> !Contains(Lower(names[k]), safe)
    ensures r.None? ==> forall k :: 0 <= k < |names| ==> !Contains(Lower(names[k]), safe)
  {
    if |names| == 0 then None
    else if Contains(Lower(names[0]), safe) then Some(names[0])
    else
      var r := FirstMatch(names[1..], safe);
      if r.Some? then
        var i :| 0 <= i < |names[1..]| && names[1..][i] == r.value && Contains(Lower(names[1..][i]), safe) &&
          forall k :: 0 <= k < i ==> !Contains(Lower(names[1..][k]), safe);
        assert names[i + 1] == r.value;
        r
      else r
  }

  lemma {:induction false} FirstMatchAppend(a: seq<string>, b: seq<string>, safe: string)
    ensures FirstMatch(a + b, safe) == if FirstMatch(a, safe).Some? then FirstMatch(a, safe) else FirstMatch(b, safe)
    decreases |a|
  {
    if |a| > 0 {
      FirstMatchAppend(a[1..], b, safe);
      assert (a + b)[1..] == a[1..] + b;
    } else {
      assert a + b == b;
    }
  }

  /** The file names of one entry in walk order: a file's own name, or the
      files of a directory. */
  function NodeFiles(n: Node): seq<string> {
    match n
    case FileNode(name) => [name]
    case DirNode(_, children) => FileOrder(children)
  }

  /** Once a file among the first `i` entries matches, the rest of the walk does not matter. */
  lemma StopEarly(dir: seq<Node>, i: nat, safe: string)
    requires i <= |dir| && FirstMatch(FileOrder(dir[..i]), safe).Some?
    ensures FirstMatch(FileOrder(dir), safe) == FirstMatch(FileOrder(dir[..i]), safe)
  {
    FileOrderSplit(dir, i);
    FirstMatchAppend(FileOrder(dir[..i]), FileOrder(dir[i..]), safe);
  }

  /** While nothing matched, the walk's answer after one more entry is that entry's. */
  lemma ScanStep(dir: seq<Node>, i: nat, safe: string)
    requires i < |dir| && FirstMatch(FileOrder(dir[..i]), safe).None?
    ensures FirstMatch(FileOrder(dir[..i + 1]), safe) == FirstMatch(NodeFiles(dir[i]), safe)
  {
    FileOrderSnoc(dir, i);
    FirstMatchAppend(FileOrder(dir[..i]), NodeFiles(dir[i]), safe);
  }

  /** A file entry matches exactly when its own lower-cased name contains `safe`. */
  lemma FileNodeMatch(name: string, safe: string)
    ensures FirstMatch(NodeFiles(FileNode(name)), safe) == if Contains(Lower(name), safe) then Some(name) else None
  {
    assert [name][1..] == [];
  }

  /** `recurse(dir)` with the outer `found` passed in and returned: the walk
      stops at the first file, in walk order, whose lower-cased name contains
      `safe`, and does nothing once a file was found. */
  method Recurse(dir: seq<Node>, safe: string, found: Option<string>) returns (result: Option<string>)
    ensures found.Some? ==> result == found
    ensures found.None? ==> result == FirstMatch(FileOrder(dir), safe)
    decreases dir
  {
    result := found;
    var i := 0;
    while i < |dir|
      invariant 0 <= i <= |dir|
      invariant found.Some? ==> result == found
      invariant found.None? ==> result == FirstMatch(FileOrder(dir[..i]), safe)
    {
      if result.Some? {
        if found.None? {
          StopEarly(dir, i, safe);
        }
        return;
      }
      ScanStep(dir, i, safe);
      match dir[i] {
        case DirNode(_, children) =>
          assert dir[i] in dir;
          result := Recurse(children, safe, None);
        case FileNode(name) =>
          FileNodeMatch(name, safe);
          if Contains(Lower(name), safe) {
            result := Some(name);
            StopEarly(dir, i + 1, safe);
            return;
          }
      }
      i := i + 1;
    }
    assert dir[..i] == dir;
  }

  /** The walk order of a folder is that of its first entries, then that of the rest. */
  lemma {:induction false} FileOrderSplit(entries: seq<Node>, i: nat)
    requires i <= |entries|
    ensures FileOrder(entries) == FileOrder(entries[..i]) + FileOrder(entries[i..])
    decreases i
  {
    if i > 0 {
      FileOrderSplit(entries[1..], i - 1);
      assert entries[1..][..i - 1] == entries[..i][1..];
      assert entries[1..][i - 1..] == entries[i..];
    } else {
      assert entries[..0] == [];
      assert entries[0..] == entries;
    }
  }

  /** `openScannedForGuest(guest)`: the scanned document for the guest's search
      name, if there is one. */
  method FindScanned(root: seq<Node>, guestName: Option<Json>) returns (found: Option<string>)
    ensures found == FirstMatch(FileOrder(root), SafeNameForSearch(guestName))
  {
    var safe := SafeNameForSearch(guestName);
    found := Recurse(root, safe, None);
  }
}
