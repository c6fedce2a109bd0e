/** The storage folder as the pages walk it: a collection folder (such as
    RentCollections or Expenses) holds one directory per date, each holding
    JSON files. Directory listings and file reads are given already read,
    in listing order; a file whose text is not JSON has no content. */
module Folders {
  import opened Text
  import opened Json
  import opened DateText

  /** A file in a date directory; `content` is `None` when `JSON.parse` would throw. */
  datatype FileEntry = FileEntry(name: string, content: Option<Json>)

  /** An entry of a collection folder: its name, whether it is a directory, and its files. */
  datatype DirEntry = DirEntry(name: string, isDir: bool, files: seq<FileEntry>)

  /** One JSON file reached by a walk, with the name of the directory it was found in. */
  datatype Visit = Visit(dir: string, file: string, content: Option<Json>)

  /** Which date directories a walk enters. */
  datatype DirFilter =
    | AllDirs
      /** `name < lo || name > hi` skips: both bounds always apply. */
    | Between(lo: string, hi: string)
      /** The Analysis page's `inRange`: an empty bound does not restrict. */
    | Range(from: string, to: string)
      /** The Analysis page's walk for today's entries: the folder name normalised is `day`. */
    | OnDay(day: string)

  /** The Analysis page's `inRange(dateName)`: inclusive, and an empty bound is no bound. */
  predicate InRange(name: string, from: string, to: string) {
    !(from != "" && LexLess(name, from)) && !(to != "" && LexLess(to, name))
  }

  predicate KeepDir(f: DirFilter, name: string) {
    match f
    case AllDirs => true
    case Between(lo, hi) => !(LexLess(name, lo) || LexLess(hi, name))
    case Range(from, to) => InRange(name, from, to)
    case OnDay(day) => NormalizeFolderDate(name) == Some(day)
  }

  /** `name.endsWith('.json')`, or on the lower-cased name when `lowerExt`. */
  predicate JsonName(name: string, lowerExt: bool) {
    EndsWith(if lowerExt then Lower(name) else name, ".json")
  }

  /** The JSON files of one directory, in listing order. */
  function FileVisits(dir: string, files: seq<FileEntry>, lowerExt: bool): (r: seq<Visit>)
    ensures |r| <= |files|
    ensures forall v :: v in r ==> v.dir == dir && JsonName(v.file, lowerExt)
  {
    if |files| == 0 then []
    else
      var last := files[|files| - 1];
      FileVisits(dir, files[..|files| - 1], lowerExt) +
        (if JsonName(last.name, lowerExt) then [Visit(dir, last.name, last.content)] else [])
  }

  /** Every JSON file the walk reaches: directories in order, then their files in order. */
  function Visits(dirs: seq<DirEntry>, f: DirFilter, lowerExt: bool): (r: seq<Visit>)
    ensures forall v :: v in r ==> KeepDir(f, v.dir) && JsonName(v.file, lowerExt)
  {
    if |dirs| == 0 then []
    else
      var last := dirs[|dirs| - 1];
      Visits(dirs[..|dirs| - 1], f, lowerExt) +
        (if last.isDir && KeepDir(f, last.name) then FileVisits(last.name, last.files, lowerExt) else [])
  }

  /** `v` is the `j`-th file of the `i`-th entry, a JSON file in a directory the filter enters. */
  predicate FoundAt(dirs: seq<DirEntry>, f: DirFilter, lowerExt: bool, v: Visit, i: int, j: int) {
    0 <= i < |dirs| && 0 <= j < |dirs[i].files| &&
    dirs[i].isDir && KeepDir(f, dirs[i].name) && JsonName(dirs[i].files[j].name, lowerExt) &&
    v == Visit(dirs[i].name, dirs[i].files[j].name, dirs[i].files[j].content)
  }

  /** A walk reaches exactly the JSON files of the entered directories: a file is
      visited iff it is a JSON file in a directory that passes the filter. */
  lemma VisitsExactly(dirs: seq<DirEntry>, f: DirFilter, lowerExt: bool, v: Visit)
    ensures v in Visits(dirs, f, lowerExt) <==> exists i, j :: FoundAt(dirs, f, lowerExt, v, i, j)
  {
    if v in Visits(dirs, f, lowerExt) {
      VisitsSound(dirs, f, lowerExt, v);
    }
    if exists i, j :: FoundAt(dirs, f, lowerExt, v, i, j) {
      var i, j :| FoundAt(dirs, f, lowerExt, v, i, j);
      VisitsComplete(dirs, f, lowerExt, v, i, j);
    }
  }

  /** Every visited file is a JSON file of an entered directory. */
  lemma {:induction false} VisitsSound(dirs: seq<DirEntry>, f: DirFilter, lowerExt: bool, v: Visit)
    requires v in Visits(dirs, f, lowerExt)
    ensures exists i, j :: FoundAt(dirs, f, lowerExt, v, i, j)
    decreases |dirs|
  {
    var n := |dirs| - 1;
    var last := dirs[n];
    if v in Visits(dirs[..n], f, lowerExt) {
      VisitsSound(dirs[..n], f, lowerExt, v);
      var i, j :| FoundAt(dirs[..n], f, lowerExt, v, i, j);
      assert FoundAt(dirs, f, lowerExt, v, i, j);
    } else {
      FileVisitsExactly(last.name, last.files, lowerExt, v);
      var j :| 0 <= j < |last.files| && JsonName(last.files[j].name, lowerExt) &&
        v == Visit(last.name, last.files[j].name, last.files[j].content);
      assert FoundAt(dirs, f, lowerExt, v, n, j);
    }
  }

  /** Every JSON file of an entered directory is visited. */
  lemma {:induction false} VisitsComplete(dirs: seq<DirEntry>, f: DirFilter, lowerExt: bool, v: Visit, i: int, j: int)
    requires FoundAt(dirs, f, lowerExt, v, i, j)
    ensures v in Visits(dirs, f, lowerExt)
    decreases |dirs|
  {
    var n := |dirs| - 1;
    if i < n {
      assert FoundAt(dirs[..n], f, lowerExt, v, i, j);
      VisitsComplete(dirs[..n], f, lowerExt, v, i, j);
    } else {
      FileVisitsExactly(dirs[n].name, dirs[n].files, lowerExt, v);
    }
  }

  lemma {:induction false} FileVisitsExactly(dir: string, files: seq<FileEntry>, lowerExt: bool, v: Visit)
    ensures v in FileVisits(dir, files, lowerExt) <==>
      exists j :: 0 <= j < |files| && JsonName(files[j].name, lowerExt) &&
        v == Visit(dir, files[j].name, files[j].content)
    decreases |files|
  {
    if |files| > 0 {
      var n := |files| - 1;
      FileVisitsExactly(dir, files[..n], lowerExt, v);
      if exists j :: 0 <= j < |files| && JsonName(files[j].name, lowerExt) && v == Visit(dir, files[j].name, files[j].content) {
        var j :| 0 <= j < |files| && JsonName(files[j].name, lowerExt) && v == Visit(dir, files[j].name, files[j].content);
        if j < n {
          assert files[..n][j] == files[j];
        }
      }
    }
  }

  /** Walking one more directory extends the walk by that directory's files. */
  lemma VisitsSnoc(dirs: seq<DirEntry>, i: nat, f: DirFilter, lowerExt: bool)
    requires i < |dirs|
    ensures Visits(dirs[..i + 1], f, lowerExt) == Visits(dirs[..i], f, lowerExt) +
      (if dirs[i].isDir && KeepDir(f, dirs[i].name) then FileVisits(dirs[i].name, dirs[i].files, lowerExt) else [])
  {
    assert dirs[..i + 1][..i] == dirs[..i];
  }

  lemma FileVisitsSnoc(dir: string, files: seq<FileEntry>, j: nat, lowerExt: bool)
    requires j < |files|
    ensures FileVisits(dir, files[..j + 1], lowerExt) == FileVisits(dir, files[..j], lowerExt) +
      (if JsonName(files[j].name, lowerExt) then [Visit(dir, files[j].name, files[j].content)] else [])
  {
    assert files[..j + 1][..j] == files[..j];
  }

  /** Walking two runs of files one after the other visits the first run's files, then the second's. */
  lemma {:induction false} FileVisitsAppend(dir: string, a: seq<FileEntry>, b: seq<FileEntry>, lowerExt: bool)
    ensures FileVisits(dir, a + b, lowerExt) == FileVisits(dir, a, lowerExt) + FileVisits(dir, b, lowerExt)
    decreases |b|
  {
    if |b| == 0 {
      assert a + b == a;
    } else {
      var n := |b| - 1;
      assert (a + b)[..|a + b| - 1] == a + b[..n];
      FileVisitsAppend(dir, a, b[..n], lowerExt);
    }
  }

  /** Walking two runs of entries one after the other visits the first run's files, then the second's. */
  lemma {:induction false} VisitsAppend(a: seq<DirEntry>, b: seq<DirEntry>, f: DirFilter, lowerExt: bool)
    ensures Visits(a + b, f, lowerExt) == Visits(a, f, lowerExt) + Visits(b, f, lowerExt)
    decreases |b|
  {
    if |b| == 0 {
      assert a + b == a;
    } else {
      var n := |b| - 1;
      var init := b[..n];
      assert a + b == (a + init) + [b[n]];
      assert b == init + [b[n]];
      VisitsAppend(a, init, f, lowerExt);
      VisitsOneMore(a + init, b[n], f, lowerExt);
      VisitsOneMore(init, b[n], f, lowerExt);
    }
  }

  /** One more entry adds that entry's JSON files when the walk enters it. */
  lemma VisitsOneMore(dirs: seq<DirEntry>, d: DirEntry, f: DirFilter, lowerExt: bool)
    ensures Visits(dirs + [d], f, lowerExt) == Visits(dirs, f, lowerExt) +
      (if d.isDir && KeepDir(f, d.name) then FileVisits(d.name, d.files, lowerExt) else [])
  {
    assert (dirs + [d])[..|dirs|] == dirs;
  }

  /** A walk over the first `i` entries is a prefix of the whole walk. */
  lemma {:induction false} VisitsPrefix(dirs: seq<DirEntry>, i: nat, f: DirFilter, lowerExt: bool)
    requires i <= |dirs|
    ensures Visits(dirs[..i], f, lowerExt) <= Visits(dirs, f, lowerExt)
    decreases |dirs| - i
  {
    if i == |dirs| {
      assert dirs[..i] == dirs;
    } else {
      VisitsPrefix(dirs, i + 1, f, lowerExt);
      VisitsSnoc(dirs, i, f, lowerExt);
    }
  }

  /** A walk over the first `j` files is a prefix of the walk over all of them. */
  lemma {:induction false} FileVisitsPrefix(dir: string, files: seq<FileEntry>, j: nat, lowerExt: bool)
    requires j <= |files|
    ensures FileVisits(dir, files[..j], lowerExt) <= FileVisits(dir, files, lowerExt)
    decreases |files| - j
  {
    if j == |files| {
      assert files[..j] == files;
    } else {
      FileVisitsPrefix(dir, files, j + 1, lowerExt);
      FileVisitsSnoc(dir, files, j, lowerExt);
    }
  }
}
