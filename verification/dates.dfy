/** The date texts the hotel stores and compares: the full-date form of
    section 5.6 of RFC 3339 (`YYYY-MM-DD`), the folder form `D-M-YYYY` and the
    form `DD/MM/YYYY`, their shape tests (the regular expressions the pages
    use) and the conversions between them. */
module DateText {
  import opened Text

  /** A run of between `lo` and `hi` decimal digits (`\d{lo,hi}`). */
  predicate DigitField(p: string, lo: nat, hi: nat) {
    lo <= |p| <= hi && AllDigits(p)
  }

  /** Three digit runs of the given lengths separated by `sep`. */
  predicate ThreeFields(s: string, sep: char, l0: nat, h0: nat, l1: nat, h1: nat, l2: nat, h2: nat) {
    var p := Split(s, sep);
    |p| == 3 && DigitField(p[0], l0, h0) && DigitField(p[1], l1, h1) && DigitField(p[2], l2, h2)
  }

  /** `/^\d{4}-\d{2}-\d{2}$/`. */
  predicate IsYmd(s: string) { ThreeFields(s, '-', 4, 4, 2, 2, 2, 2) }

  /** `/^\d{2}\/\d{2}\/\d{4}$/`. */
  predicate IsSlashDmy(s: string) { ThreeFields(s, '/', 2, 2, 2, 2, 4, 4) }

  /** `/^\d{1,2}-\d{1,2}-\d{4}$/`. */
  predicate IsDashDmy(s: string) { ThreeFields(s, '-', 1, 2, 1, 2, 4, 4) }

  /** `a + sep + b + sep + c` splits back into its three parts when none holds `sep`. */
  lemma SplitThree(a: string, b: string, c: string, sep: char)
    requires sep !in a && sep !in b && sep !in c
    ensures Split(a + [sep] + b + [sep] + c, sep) == [a, b, c]
  {
    SplitFirst(a, sep, b + [sep] + c);
    SplitFirst(b, sep, c);
    SplitNoSeparator(c, sep);
    assert a + [sep] + b + [sep] + c == a + [sep] + (b + [sep] + c);
  }

  /** A day-first date's three fields, year first and zero padded: `${y}-${m.padStart(2,'0')}-${d.padStart(2,'0')}`. */
  function DayFirstToYmd(parts: seq<string>): (r: string)
    requires |parts| == 3 && DigitField(parts[0], 1, 2) && DigitField(parts[1], 1, 2) && DigitField(parts[2], 4, 4)
    ensures IsYmd(r)
    ensures Split(r, '-') == [parts[2], Pad2(parts[1]), Pad2(parts[0])]
  {
    var y, m, d := parts[2], Pad2(parts[1]), Pad2(parts[0]);
    DigitsHaveNo(y, '-');
    DigitsHaveNo(m, '-');
    DigitsHaveNo(d, '-');
    SplitThree(y, m, d, '-');
    y + "-" + m + "-" + d
  }

  /** The Analysis page's `normalizeFolderDate(name)`: a full date is kept, a
      `D-M-YYYY` folder name is turned into one, anything else has none. */
  function NormalizeFolderDate(name: string): (r: Option<string>)
    ensures r.Some? ==> IsYmd(r.value)
    ensures IsYmd(name) ==> r == Some(name)
    ensures r.None? <==> !IsYmd(name) && !IsDashDmy(name)
  {
    if IsYmd(name) then Some(name)
    else if IsDashDmy(name) then Some(DayFirstToYmd(Split(name, '-')))
    else None
  }

  /** Normalising twice is normalising once. */
  lemma NormalizeIdempotent(name: string)
    requires NormalizeFolderDate(name).Some?
    ensures NormalizeFolderDate(NormalizeFolderDate(name).value) == NormalizeFolderDate(name)
  {
    var r := NormalizeFolderDate(name).value;
    assert IsYmd(r);
  }

  /** The two date shapes the live pages read: a full date is kept, `DD/MM/YYYY`
      becomes `${yyyy}-${mm.padStart(2,'0')}-${dd.padStart(2,'0')}`, any other text has none. */
  function DisplayToYmd(d: string): (r: Option<string>)
    ensures r.Some? ==> IsYmd(r.value)
    ensures IsYmd(d) ==> r == Some(d)
    ensures IsSlashDmy(d) ==> r.Some? && var p := Split(d, '/'); Split(r.value, '-') == [p[2], p[1], p[0]]
    ensures r.None? <==> !IsYmd(d) && !IsSlashDmy(d)
  {
    if IsYmd(d) then
      YmdIsNotSlashDmy(d);
      Some(d)
    else if IsSlashDmy(d) then
      var p := Split(d, '/');
      assert Pad2(p[0]) == p[0] && Pad2(p[1]) == p[1];
      Some(DayFirstToYmd(p))
    else None
  }

  /** The value of a full date read as the number YYYYMMDD. */
  function YmdValue(s: string): nat
    requires IsYmd(s)
  {
    var p := Split(s, '-');
    DigitsValue(p[0]) * 10000 + DigitsValue(p[1]) * 100 + DigitsValue(p[2])
  }

  // ---------------------------------------------------------------------------
  // Comparing full dates as text is comparing them as dates.

  function Pow10(n: nat): (r: nat)
    ensures r >= 1
  {
    if n == 0 then 1 else 10 * Pow10(n - 1)
  }

  /** Reading digits from the front: the first digit weighs 10^(n-1). */
  lemma {:induction false} DigitsValueFront(s: string)
    requires |s| >= 1 && AllDigits(s)
    ensures DigitsValue(s) == (s[0] as int - '0' as int) * Pow10(|s| - 1) + DigitsValue(s[1..])
    decreases |s|
  {
    if |s| > 1 {
      var init := s[..|s| - 1];
      var a := s[0] as int - '0' as int;
      var d := s[|s| - 1] as int - '0' as int;
      var w := Pow10(|s| - 2);
      DigitsValueFront(init);
      assert init[1..] == s[1..][..|s| - 2];
      assert init[0] == s[0];
      var x := DigitsValue(init[1..]);
      assert DigitsValue(s) == DigitsValue(init) * 10 + d;
      assert DigitsValue(init) == a * w + x;
      assert DigitsValue(s[1..]) == x * 10 + d;
      assert Pow10(|s| - 1) == 10 * w;
      ShiftDigit(a, w, x, d);
    }
  }

  lemma {:induction false} DigitsValueBound(s: string)
    requires AllDigits(s)
    ensures DigitsValue(s) < Pow10(|s|)
    decreases |s|
  {
    if |s| > 0 {
      DigitsValueBound(s[..|s| - 1]);
    }
  }

  lemma ShiftDigit(a: int, w: int, x: int, d: int)
    ensures (a * w + x) * 10 + d == a * (10 * w) + (x * 10 + d)
  {
  }

  /** A larger leading digit outweighs anything the lower digits can add. */
  lemma LeadingDigitWins(a: int, b: int, w: nat, x: nat, y: nat)
    requires 0 <= a < b && x < w && y < w
    ensures a * w + x < b * w + y
  {
    assert (a + 1) * w <= b * w by { MulLe(a + 1, b, w); }
    assert a * w + w == (a + 1) * w;
  }

  lemma MulLe(a: int, b: int, w: nat)
    requires a <= b
    ensures a * w <= b * w
  {
  }

  /** For digit strings of one length, text order is numeric order. */
  lemma {:induction false} DigitsOrder(s: string, t: string)
    requires AllDigits(s) && AllDigits(t) && |s| == |t|
    ensures LexLess(s, t) <==> DigitsValue(s) < DigitsValue(t)
    decreases |s|
  {
    if |s| > 0 {
      DigitsValueFront(s);
      DigitsValueFront(t);
      var w := Pow10(|s| - 1);
      var a, b := s[0] as int - '0' as int, t[0] as int - '0' as int;
      var x, y := DigitsValue(s[1..]), DigitsValue(t[1..]);
      DigitsValueBound(s[1..]);
      DigitsValueBound(t[1..]);
      assert DigitsValue(s) == a * w + x && DigitsValue(t) == b * w + y;
      if a < b {
        assert s[0] < t[0];
        LeadingDigitWins(a, b, w, x, y);
      } else if b < a {
        assert t[0] < s[0];
        LeadingDigitWins(b, a, w, y, x);
      } else {
        assert s[0] == t[0];
        DigitsOrder(s[1..], t[1..]);
      }
    }
  }

  /** Text order on `x + rest` against `y + rest'` with |x| == |y| compares `x`, `y` first. */
  lemma {:induction false} LexLessBlocks(x: string, xs: string, y: string, ys: string)
    requires |x| == |y|
    ensures LexLess(x + xs, y + ys) <==> LexLess(x, y) || (x == y && LexLess(xs, ys))
    decreases |x|
  {
    if |x| > 0 {
      assert (x + xs)[1..] == x[1..] + xs && (y + ys)[1..] == y[1..] + ys;
      LexLessBlocks(x[1..], xs, y[1..], ys);
      if x[0] == y[0] && x[1..] == y[1..] {
        assert x == [x[0]] + x[1..] && y == [y[0]] + y[1..];
      }
    } else {
      assert x + xs == xs && y + ys == ys;
    }
  }

  /** A full date is its three fields joined by dashes. */
  lemma YmdFields(a: string)
    requires IsYmd(a)
    ensures var p := Split(a, '-'); a == p[0] + "-" + p[1] + "-" + p[2]
  {
    var p := Split(a, '-');
    JoinSplit(a, '-');
    assert Join(p, "-") == p[0] + "-" + Join(p[1..], "-");
    assert Join(p[1..], "-") == p[1] + "-" + Join(p[2..], "-");
  }

  /** No text is both a full date and a `DD/MM/YYYY` date: the third character
      is a year digit in one and a slash in the other. */
  lemma YmdIsNotSlashDmy(a: string)
    requires IsYmd(a)
    ensures !IsSlashDmy(a)
  {
    YmdFields(a);
    var p := Split(a, '-');
    assert IsDigit(a[2]) by { assert a[2] == p[0][2]; }
    if IsSlashDmy(a) {
      JoinSplit(a, '/');
      assert false;
    }
  }

  /** Text order on three dash-separated fields of matching lengths is field-by-field order. */
  lemma TextOrderThree(x0: string, x1: string, x2: string, y0: string, y1: string, y2: string)
    requires |x0| == |y0| && |x1| == |y1|
    ensures LexLess(x0 + "-" + x1 + "-" + x2, y0 + "-" + y1 + "-" + y2) <==>
      LexLess(x0, y0) || (x0 == y0 && (LexLess(x1, y1) || (x1 == y1 && LexLess(x2, y2))))
  {
    assert x0 + "-" + x1 + "-" + x2 == x0 + (("-" + x1) + ("-" + x2));
    assert y0 + "-" + y1 + "-" + y2 == y0 + (("-" + y1) + ("-" + y2));
    LexLessBlocks(x0, ("-" + x1) + ("-" + x2), y0, ("-" + y1) + ("-" + y2));
    LexLessBlocks("-" + x1, "-" + x2, "-" + y1, "-" + y2);
    LexLessBlocks("-", x1, "-", y1);
    LexLessBlocks("-", x2, "-", y2);
    LexLessIrreflexive("-");
    if "-" + x1 == "-" + y1 {
      assert x1 == ("-" + x1)[1..] == ("-" + y1)[1..] == y1;
    }
  }

  /** Equal-length digit strings are equal exactly when their values are. */
  lemma DigitsEqual(s: string, t: string)
    requires AllDigits(s) && AllDigits(t) && |s| == |t|
    ensures s == t <==> DigitsValue(s) == DigitsValue(t)
  {
    DigitsOrder(s, t);
    DigitsOrder(t, s);
    LexTrichotomy(s, t);
  }

  /** Comparing (year, month, day) field by field is comparing YYYYMMDD numbers. */
  lemma DateNumberOrder(y1: nat, m1: nat, d1: nat, y2: nat, m2: nat, d2: nat)
    requires m1 < 100 && d1 < 100 && m2 < 100 && d2 < 100
    ensures y1 * 10000 + m1 * 100 + d1 < y2 * 10000 + m2 * 100 + d2 <==>
      y1 < y2 || (y1 == y2 && (m1 < m2 || (m1 == m2 && d1 < d2)))
  {
    if y1 < y2 {
      LeadingDigitWins(y1, y2, 10000, m1 * 100 + d1, m2 * 100 + d2);
    } else if y2 < y1 {
      LeadingDigitWins(y2, y1, 10000, m2 * 100 + d2, m1 * 100 + d1);
    } else if m1 < m2 {
      LeadingDigitWins(m1, m2, 100, d1, d2);
    } else if m2 < m1 {
      LeadingDigitWins(m2, m1, 100, d2, d1);
    }
  }

  /** Two full dates compare as text exactly as their YYYYMMDD values compare,
      so a range test on date texts is a range test on dates. */
  lemma YmdTextOrderIsDateOrder(a: string, b: string)
    requires IsYmd(a) && IsYmd(b)
    ensures LexLess(a, b) <==> YmdValue(a) < YmdValue(b)
  {
    var p, q := Split(a, '-'), Split(b, '-');
    YmdFields(a);
    YmdFields(b);
    TextOrderThree(p[0], p[1], p[2], q[0], q[1], q[2]);
    DigitsOrder(p[0], q[0]);
    DigitsOrder(p[1], q[1]);
    DigitsOrder(p[2], q[2]);
    DigitsEqual(p[0], q[0]);
    DigitsEqual(p[1], q[1]);
    DigitsValueBound(p[1]);
    DigitsValueBound(p[2]);
    DigitsValueBound(q[1]);
    DigitsValueBound(q[2]);
    assert Pow10(2) == 100;
    DateNumberOrder(DigitsValue(p[0]), DigitsValue(p[1]), DigitsValue(p[2]),
                    DigitsValue(q[0]), DigitsValue(q[1]), DigitsValue(q[2]));
  }

  /** `!(from && d < from) && !(to && d > to)`: a date text within inclusive
      bounds, where an empty bound does not restrict. */
  predicate WithinBounds(d: string, from: string, to: string) {
    (from == "" || LexLe(from, d)) && (to == "" || LexLe(d, to))
  }

  /** Between full dates, the bounds test is the calendar test. */
  lemma BoundsAreCalendar(d: string, from: string, to: string)
    requires IsYmd(d) && IsYmd(from) && IsYmd(to)
    ensures WithinBounds(d, from, to) <==> YmdValue(from) <= YmdValue(d) <= YmdValue(to)
  {
    assert from != "" && to != "" by { assert Split("", '-') == [""]; }
    YmdTextOrderIsDateOrder(d, from);
    YmdTextOrderIsDateOrder(to, d);
  }
}
