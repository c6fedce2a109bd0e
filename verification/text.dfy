/** Strings, decimal numerals and the JavaScript value conversions the hotel
    front end relies on: `trim`, `toLowerCase`, `includes`, `split`, `join`,
    `padStart`, `String(n)`, `Number(s)` and the `<` order on strings. */
module Text {

  datatype Option<T> = None | Some(value: T)

  // ---------------------------------------------------------------------------
  // Whitespace and trimming (`String.prototype.trim`, ASCII whitespace)

  predicate IsSpace(c: char) {
    c == ' ' || c == '\t' || c == '\n' || c == '\r' || c as int == 11 || c as int == 12
  }

  /** Every character of `t` is whitespace. */
  predicate AllSpace(t: string) {
    forall k :: 0 <= k < |t| ==> IsSpace(t[k])
  }

  function TrimStart(s: string): (r: string)
    ensures |r| <= |s| && r == s[|s| - |r|..]
    ensures AllSpace(s[..|s| - |r|])
    ensures r == [] || !IsSpace(r[0])
  {
    if |s| > 0 && IsSpace(s[0]) then TrimStart(s[1..]) else s
  }

  function TrimEnd(s: string): (r: string)
    ensures |r| <= |s| && r == s[..|r|]
    ensures AllSpace(s[|r|..])
    ensures r == [] || !IsSpace(r[|r| - 1])
  {
    if |s| > 0 && IsSpace(s[|s| - 1]) then TrimEnd(s[..|s| - 1]) else s
  }

  /** `s.trim()`: the longest infix of `s` that neither starts nor ends with whitespace. */
  function Trim(s: string): (r: string)
    ensures |r| <= |s|
    ensures r == [] || (!IsSpace(r[0]) && !IsSpace(r[|r| - 1]))
    ensures (s == [] || (!IsSpace(s[0]) && !IsSpace(s[|s| - 1]))) ==> r == s
  {
    TrimEnd(TrimStart(s))
  }

  /** What `trim` removes is whitespace on either side: the result is the
      infix of `s` at `i` with only whitespace before and after it. */
  lemma TrimIsInfix(s: string)
    ensures exists i :: (0 <= i <= |s| - |Trim(s)| && Trim(s) == s[i..i + |Trim(s)|] &&
                         AllSpace(s[..i]) && AllSpace(s[i + |Trim(s)|..]))
  {
    var t := TrimStart(s);
    var r := TrimEnd(t);
    var i := |s| - |t|;
    assert r == s[i..i + |r|] && AllSpace(s[..i]);
    assert s[i + |r|..] == t[|r|..];
  }

  lemma TrimIdempotent(s: string)
    ensures Trim(Trim(s)) == Trim(s)
  {
  }

  // ---------------------------------------------------------------------------
  // Case folding (`toLowerCase`, ASCII letters)

  function LowerChar(c: char): char {
    if 'A' <= c <= 'Z' then (c as int + 32) as char else c
  }

  function Lower(s: string): (r: string)
    ensures |r| == |s|
    ensures forall i :: 0 <= i < |s| ==> r[i] == LowerChar(s[i])
  {
    seq(|s|, i requires 0 <= i < |s| => LowerChar(s[i]))
  }

  lemma LowerIdempotent(s: string)
    ensures Lower(Lower(s)) == Lower(s)
  {
  }

  lemma LowerAppend(a: string, b: string)
    ensures Lower(a + b) == Lower(a) + Lower(b)
  {
  }

  // ---------------------------------------------------------------------------
  // Substring search (`hay.includes(needle)`)

  predicate Contains(hay: string, needle: string)
    decreases |hay|
  {
    needle <= hay || (|hay| > 0 && Contains(hay[1..], needle))
  }

  lemma {:induction false} ContainsLength(hay: string, needle: string)
    requires Contains(hay, needle)
    ensures |needle| <= |hay|
    decreases |hay|
  {
    if !(needle <= hay) {
      ContainsLength(hay[1..], needle);
    }
  }

  /** A text holding a needle holds every prefix of the needle. */
  lemma {:induction false} ContainsPrefix(hay: string, s: string, more: string)
    requires Contains(hay, s + more)
    ensures Contains(hay, s)
    decreases |hay|
  {
    if s + more <= hay {
      assert (s + more)[..|s|] == s;
    } else {
      ContainsPrefix(hay[1..], s, more);
    }
  }

  lemma {:induction false} ContainsInLeft(a: string, b: string, needle: string)
    requires Contains(a, needle)
    ensures Contains(a + b, needle)
    decreases |a|
  {
    if needle <= a {
      assert needle <= a + b;
    } else {
      assert (a + b)[1..] == a[1..] + b;
      ContainsInLeft(a[1..], b, needle);
    }
  }

  lemma {:induction false} ContainsInRight(a: string, b: string, needle: string)
    requires Contains(b, needle)
    ensures Contains(a + b, needle)
    decreases |a|
  {
    if |a| > 0 {
      assert (a + b)[1..] == a[1..] + b;
      ContainsInRight(a[1..], b, needle);
    } else {
      assert a + b == b;
    }
  }

  // ---------------------------------------------------------------------------
  // Prefixes, suffixes and `slice(0, n)`

  /** A needle found in one part is found in the joined text. */
  lemma {:induction false} ContainsInJoinRaw(parts: seq<string>, sep: string, k: nat, needle: string)
    requires k < |parts| && Contains(parts[k], needle)
    ensures Contains(Join(parts, sep), needle)
    decreases |parts|
  {
    if |parts| > 1 {
      var rest := Join(parts[1..], sep);
      assert Join(parts, sep) == parts[0] + (sep + rest);
      if k == 0 {
        ContainsInLeft(parts[0], sep + rest, needle);
      } else {
        ContainsInJoinRaw(parts[1..], sep, k - 1, needle);
        ContainsInRight(sep, rest, needle);
        ContainsInRight(parts[0], sep + rest, needle);
      }
    }
  }

  /** A needle found in the lower-cased form of one part is found in the
      lower-cased joined text. */
  lemma {:induction false} ContainsInJoin(parts: seq<string>, sep: string, k: nat, needle: string)
    requires k < |parts| && Contains(Lower(parts[k]), needle)
    ensures Contains(Lower(Join(parts, sep)), needle)
    decreases |parts|
  {
    if |parts| > 1 {
      var rest := Join(parts[1..], sep);
      assert Join(parts, sep) == parts[0] + (sep + rest);
      LowerAppend(parts[0], sep + rest);
      LowerAppend(sep, rest);
      if k == 0 {
        ContainsInLeft(Lower(parts[0]), Lower(sep + rest), needle);
      } else {
        ContainsInJoin(parts[1..], sep, k - 1, needle);
        ContainsInRight(Lower(sep), Lower(rest), needle);
        ContainsInRight(Lower(parts[0]), Lower(sep + rest), needle);
      }
    }
  }

  predicate StartsWith(s: string, p: string) { p <= s }

  predicate EndsWith(s: string, p: string) {
    |p| <= |s| && s[|s| - |p|..] == p
  }

  /** `s.slice(0, n)` for n >= 0: the first n characters, or all of `s` if it is shorter. */
  function SliceTo(s: string, n: nat): (r: string)
    ensures |r| == if |s| < n then |s| else n
    ensures r <= s
  {
    if |s| <= n then s else s[..n]
  }

  // ---------------------------------------------------------------------------
  // `split` on one character and `join`

  /** `s.split(c)`: the pieces between occurrences of `c`; never empty. */
  function Split(s: string, c: char): (r: seq<string>)
    ensures |r| >= 1
    ensures forall i :: 0 <= i < |r| ==> c !in r[i]
  {
    if |s| == 0 then [""]
    else
      var rest := Split(s[1..], c);
      if s[0] == c then [""] + rest else [[s[0]] + rest[0]] + rest[1..]
  }

  /** `parts.join(sep)`. */
  function Join(parts: seq<string>, sep: string): string {
    if |parts| == 0 then ""
    else if |parts| == 1 then parts[0]
    else parts[0] + sep + Join(parts[1..], sep)
  }

  /** Splitting a joined list on a separator that occurs in none of the parts gives the parts back. */
  lemma {:induction false} SplitJoin(parts: seq<string>, c: char)
    requires |parts| >= 1
    requires forall i :: 0 <= i < |parts| ==> c !in parts[i]
    ensures Split(Join(parts, [c]), c) == parts
    decreases |parts|, |parts[0]|
  {
    if |parts[0]| > 0 {
      var p0 := parts[0];
      var tail := [p0[1..]] + parts[1..];
      assert Join(parts, [c]) == [p0[0]] + Join(tail, [c]) by {
        if |parts| == 1 {
          assert Join(parts, [c]) == p0;
        } else {
          assert tail[1..] == parts[1..];
        }
      }
      assert c !in p0[1..] by { assert forall x :: x in p0[1..] ==> x in p0; }
      SplitJoin(tail, c);
      var j := Join(parts, [c]);
      assert j[1..] == Join(tail, [c]);
      assert j[0] == p0[0] && p0[0] != c;
      assert Split(j, c) == [[p0[0]] + p0[1..]] + parts[1..];
      assert [p0[0]] + p0[1..] == p0;
    } else if |parts| == 1 {
      assert Join(parts, [c]) == "";
    } else {
      assert Join(parts, [c]) == [c] + Join(parts[1..], [c]);
      assert Join(parts, [c])[1..] == Join(parts[1..], [c]);
      SplitJoin(parts[1..], c);
    }
  }

  /** A string without the separator splits into itself. */
  lemma {:induction false} SplitNoSeparator(a: string, c: char)
    requires c !in a
    ensures Split(a, c) == [a]
  {
    if |a| > 0 {
      assert c !in a[1..] by { assert forall x :: x in a[1..] ==> x in a; }
      SplitNoSeparator(a[1..], c);
      assert [a[0]] + a[1..] == a;
    }
  }

  /** The first piece of `a + [c] + b` is `a` when `c` does not occur in `a`. */
  lemma {:induction false} SplitFirst(a: string, c: char, b: string)
    requires c !in a
    ensures Split(a + [c] + b, c) == [a] + Split(b, c)
  {
    if |a| == 0 {
      assert a + [c] + b == [c] + b;
      assert ([c] + b)[1..] == b;
    } else {
      assert c !in a[1..] by { assert forall x :: x in a[1..] ==> x in a; }
      SplitFirst(a[1..], c, b);
      assert (a + [c] + b)[1..] == a[1..] + [c] + b;
      assert [a[0]] + a[1..] == a;
    }
  }

  /** Joining the pieces of a split with the separator restores the string. */
  lemma {:induction false} JoinSplit(s: string, c: char)
    ensures Join(Split(s, c), [c]) == s
  {
    if |s| > 0 {
      JoinSplit(s[1..], c);
      var rest := Split(s[1..], c);
      if s[0] == c {
        assert Join([""] + rest, [c]) == "" + [c] + Join(rest, [c]);
      } else {
        var first := [s[0]] + rest[0];
        if |rest| == 1 {
          assert Join([first], [c]) == first;
        } else {
          assert ([first] + rest[1..])[1..] == rest[1..];
          assert Join([first] + rest[1..], [c]) == first + [c] + Join(rest[1..], [c]);
          assert Join(rest, [c]) == rest[0] + [c] + Join(rest[1..], [c]);
        }
      }
    }
  }

  // ---------------------------------------------------------------------------
  // Decimal numerals: `String(n)` and digit strings

  predicate IsDigit(c: char) { '0' <= c <= '9' }

  predicate AllDigits(s: string) {
    forall i :: 0 <= i < |s| ==> IsDigit(s[i])
  }

  lemma DigitsHaveNo(s: string, c: char)
    requires AllDigits(s) && !IsDigit(c)
    ensures c !in s
  {
  }

  function DigitChar(d: nat): (c: char)
    requires d < 10
    ensures IsDigit(c)
  {
    ('0' as int + d) as char
  }

  /** `String(n)` for a non-negative integer: its decimal digits, no leading zero. */
  function NatToString(n: nat): (r: string)
    ensures |r| >= 1 && AllDigits(r)
    ensures n >= 10 ==> r[0] != '0'
  {
    if n < 10 then [DigitChar(n)] else NatToString(n / 10) + [DigitChar(n % 10)]
  }

  /** `String(i)` for any integer. */
  function IntToString(i: int): (r: string)
    ensures |r| >= 1
  {
    if i < 0 then "-" + NatToString(-i) else NatToString(i)
  }

  /** The number a string of decimal digits denotes ("" denotes 0). */
  function DigitsValue(s: string): nat
    requires AllDigits(s)
  {
    if |s| == 0 then 0 else DigitsValue(s[..|s| - 1]) * 10 + (s[|s| - 1] as int - '0' as int)
  }

  lemma {:induction false} DigitsValueOfNatToString(n: nat)
    ensures DigitsValue(NatToString(n)) == n
  {
    if n >= 10 {
      var s := NatToString(n);
      assert s[..|s| - 1] == NatToString(n / 10);
      DigitsValueOfNatToString(n / 10);
    }
  }

  /** Right-aligned `String(n).padStart(2, '0')`. */
  function Pad2(s: string): (r: string)
    ensures |r| == if |s| >= 2 then |s| else 2
  {
    if |s| >= 2 then s else if |s| == 1 then "0" + s else "00"
  }

  // ---------------------------------------------------------------------------
  // `Number(text)` and truthiness of numbers

  /** The result of `Number(...)`: a number or NaN. Only integers are modelled. */
  datatype JsNum = NaN | Num(v: int)

  /** `t` is `sign` followed by at least one decimal digit. */
  predicate SignedNumeral(t: string, sign: char) {
    |t| > 1 && t[0] == sign && AllDigits(t[1..])
  }

  /** `Number(s)`: surrounding whitespace ignored, "" is 0, an optionally signed
      run of decimal digits is its value, anything else is NaN. */
  function NumberOf(s: string): (r: JsNum)
    ensures Trim(s) == "" ==> r == Num(0)
    ensures AllDigits(Trim(s)) ==> r == Num(DigitsValue(Trim(s)))
  {
    var t := Trim(s);
    if t == "" then Num(0)
    else if AllDigits(t) then Num(DigitsValue(t))
    else if |t| > 1 && t[0] == '-' && AllDigits(t[1..]) then Num(-(DigitsValue(t[1..]) as int))
    else if |t| > 1 && t[0] == '+' && AllDigits(t[1..]) then Num(DigitsValue(t[1..]))
    else NaN
  }

  /** A signed numeral reads as its digits with that sign, and text that is
      neither blank nor an optionally signed numeral reads as NaN. */
  lemma NumberOfCases(s: string)
    ensures SignedNumeral(Trim(s), '-') ==> NumberOf(s) == Num(-(DigitsValue(Trim(s)[1..]) as int))
    ensures SignedNumeral(Trim(s), '+') ==> NumberOf(s) == Num(DigitsValue(Trim(s)[1..]))
    ensures NumberOf(s) == NaN <==> !(AllDigits(Trim(s)) || SignedNumeral(Trim(s), '-') || SignedNumeral(Trim(s), '+'))
  {
    var t := Trim(s);
    if SignedNumeral(t, '-') || SignedNumeral(t, '+') {
      assert !AllDigits(t) by { assert !IsDigit(t[0]); }
    }
  }

  /** A numeral with no surrounding whitespace is its own trim. */
  lemma TrimOfNumeral(s: string)
    requires |s| >= 1 && (AllDigits(s) || (s[0] == '-' && AllDigits(s[1..])))
    requires |s| >= 2 || AllDigits(s)
    ensures Trim(s) == s
  {
    assert !IsSpace(s[0]);
    assert IsDigit(s[|s| - 1]) by {
      if !AllDigits(s) { assert s[|s| - 1] == s[1..][|s| - 2]; }
    }
  }

  /** `String(i)` read back by `Number` gives `i`. */
  lemma NumberOfIntToString(i: int)
    ensures NumberOf(IntToString(i)) == Num(i)
  {
    if i < 0 {
      NegativeNumeral(i);
    } else {
      var d := NatToString(i);
      assert IntToString(i) == d && AllDigits(d);
      TrimOfNumeral(d);
      DigitsValueOfNatToString(i);
      assert NumberOf(d) == Num(DigitsValue(d));
    }
  }

  /** A negative numeral reads back as its number. */
  lemma NegativeNumeral(i: int)
    requires i < 0
    ensures NumberOf(IntToString(i)) == Num(i)
  {
    var s := IntToString(i);
    var d := NatToString(-i);
    assert s == "-" + d && s[1..] == d;
    TrimOfNumeral(s);
    assert !AllDigits(s) by { assert !IsDigit(s[0]); }
    DigitsValueOfNatToString(-i);
  }

  /** `Number(x) || 0`: NaN and 0 become 0. */
  function OrZero(x: JsNum): (r: int)
    ensures x.Num? ==> r == x.v
    ensures x.NaN? ==> r == 0
  {
    if x.Num? then x.v else 0
  }

  /** `Boolean(x)` for a number: false for 0 and NaN. */
  predicate NumTruthy(x: JsNum) { x.Num? && x.v != 0 }

  /** `a === b` on numbers: NaN equals nothing. */
  predicate StrictEq(a: JsNum, b: JsNum) { a.Num? && b.Num? && a.v == b.v }

  // ---------------------------------------------------------------------------
  // The `<` order JavaScript uses on strings: lexicographic by character code

  predicate LexLess(a: string, b: string) {
    if |a| == 0 then |b| > 0
    else if |b| == 0 then false
    else if a[0] != b[0] then a[0] < b[0]
    else LexLess(a[1..], b[1..])
  }

  predicate LexLe(a: string, b: string) { !LexLess(b, a) }

  lemma {:induction false} LexLessIrreflexive(a: string)
    ensures !LexLess(a, a)
  {
    if |a| > 0 { LexLessIrreflexive(a[1..]); }
  }

  lemma {:induction false} LexTrichotomy(a: string, b: string)
    ensures LexLess(a, b) || a == b || LexLess(b, a)
  {
    if |a| > 0 && |b| > 0 && a[0] == b[0] {
      LexTrichotomy(a[1..], b[1..]);
      if a[1..] == b[1..] {
        assert a == [a[0]] + a[1..] && b == [b[0]] + b[1..];
      }
    }
  }

  lemma {:induction false} LexLessTransitive(a: string, b: string, c: string)
    requires LexLess(a, b) && LexLess(b, c)
    ensures LexLess(a, c)
  {
    if |a| > 0 && |b| > 0 && |c| > 0 && a[0] == b[0] && b[0] == c[0] {
      LexLessTransitive(a[1..], b[1..], c[1..]);
    }
  }

  lemma LexLeTotal(a: string, b: string)
    ensures LexLe(a, b) || LexLe(b, a)
  {
    LexTrichotomy(a, b);
    if LexLess(a, b) && LexLess(b, a) {
      LexLessTransitive(a, b, a);
      LexLessIrreflexive(a);
    }
  }

  lemma LexLeTransitive(a: string, b: string, c: string)
    requires LexLe(a, b) && LexLe(b, c)
    ensures LexLe(a, c)
  {
    if LexLess(c, a) {
      LexTrichotomy(a, b);
      LexTrichotomy(b, c);
      if LexLess(a, b) {
        LexLessTransitive(c, a, b);
      } else if a == b {
      } else {
        LexLessTransitive(b, a, b);
        LexLessIrreflexive(b);
      }
    }
  }

  // ---------------------------------------------------------------------------
  // `s.replace(/[^\w\-]+/g, "_")`: names made safe for file names and searches

  /** A character of `[\w\-]`: an ASCII letter or digit, `_` or `-`. */
  predicate IsNameChar(c: char) {
    'a' <= c <= 'z' || 'A' <= c <= 'Z' || IsDigit(c) || c == '_' || c == '-'
  }

  /** Every run of characters outside `[\w\-]` replaced by one `_`. */
  function SafeName(s: string): (r: string)
    ensures |r| <= |s|
    ensures forall i :: 0 <= i < |r| ==> IsNameChar(r[i])
  {
    if |s| == 0 then ""
    else
      var n := |s| - 1;
      var prev := SafeName(s[..n]);
      if IsNameChar(s[n]) then prev + [s[n]]
      else if n > 0 && !IsNameChar(s[n - 1]) then prev
      else prev + "_"
  }

  /** A text already made of safe characters is left as it is, so making a name
      safe twice changes nothing more. */
  lemma {:induction false} SafeNameKeepsSafe(s: string)
    requires forall i :: 0 <= i < |s| ==> IsNameChar(s[i])
    ensures SafeName(s) == s
    decreases |s|
  {
    if |s| > 0 {
      var n := |s| - 1;
      SafeNameKeepsSafe(s[..n]);
      assert s[..n] + [s[n]] == s;
    }
  }

  /** Every character of `t` is outside `[\w\-]`. */
  predicate AllUnsafe(t: string) {
    forall k :: 0 <= k < |t| ==> !IsNameChar(t[k])
  }

  /** A run of unsafe characters after a safe one (or at the start) adds one `_`. */
  lemma {:induction false} SafeNameUnsafeRun(a: string, u: string)
    requires a == [] || IsNameChar(a[|a| - 1])
    requires u != [] && AllUnsafe(u)
    ensures SafeName(a + u) == SafeName(a) + "_"
    decreases |u|
  {
    var s := a + u;
    var n := |s| - 1;
    assert s[..n] == a + u[..|u| - 1];
    if |u| == 1 {
      assert s[..n] == a;
    } else {
      SafeNameUnsafeRun(a, u[..|u| - 1]);
      assert s[n - 1] == u[|u| - 2];
    }
  }

  /** Text that starts with a safe character is made safe on its own. */
  lemma {:induction false} SafeNameAppend(p: string, b: string)
    requires b == [] || IsNameChar(b[0])
    ensures SafeName(p + b) == SafeName(p) + SafeName(b)
    decreases |b|
  {
    if |b| == 0 {
      assert p + b == p;
    } else {
      var s := p + b;
      var n := |s| - 1;
      var b' := b[..|b| - 1];
      assert s[..n] == p + b';
      assert s[n] == b[|b| - 1];
      SafeNameAppend(p, b');
      if |b'| > 0 {
        assert s[n - 1] == b[|b| - 2];
        assert SafeName(b) == SafeName(b') + (if IsNameChar(b[|b| - 1]) then [b[|b| - 1]] else if !IsNameChar(b[|b| - 2]) then "" else "_");
      } else {
        assert SafeName(b) == [b[0]];
      }
    }
  }

  /** A run of characters outside `[\w\-]` becomes exactly one `_`: the text
      around it is made safe as it stands. */
  lemma SafeNameReplacesRun(a: string, u: string, b: string)
    requires a == [] || IsNameChar(a[|a| - 1])
    requires u != [] && AllUnsafe(u)
    requires b == [] || IsNameChar(b[0])
    ensures SafeName(a + u + b) == SafeName(a) + "_" + SafeName(b)
  {
    SafeNameUnsafeRun(a, u);
    SafeNameAppend(a + u, b);
  }

  lemma SafeNameIdempotent(s: string)
    ensures SafeName(SafeName(s)) == SafeName(s)
  {
    SafeNameKeepsSafe(SafeName(s));
  }
}
