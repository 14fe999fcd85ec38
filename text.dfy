/** Text helpers shared by the normalisers: joining and splitting, Python's
    `str.strip`, decimal rendering and parsing, and the code-point order
    that `pandas.get_dummies` sorts category labels by. */
module Text {

  datatype Option<+T> = None | Some(value: T)

  // ---------------------------------------------------------------------
  // Join and split

  /** `sep.join(xs)` */
  function Join(sep: string, xs: seq<string>): string
  {
    if |xs| == 0 then "" else if |xs| == 1 then xs[0] else xs[0] + sep + Join(sep, xs[1..])
  }

  lemma Join2(sep: string, a: string, b: string)
    ensures Join(sep, [a, b]) == a + sep + b
  {
    assert [a, b][1..] == [b];
  }

  lemma Join3(sep: string, a: string, b: string, c: string)
    ensures Join(sep, [a, b, c]) == a + sep + b + sep + c
  {
    assert [a, b, c][1..] == [b, c];
    Join2(sep, b, c);
  }

  /** `s.split(c)` for a one-character separator. */
  function Split(s: string, c: char): (r: seq<string>)
    ensures |r| >= 1
  {
    if |s| == 0 then [""]
    else
      var rest := Split(s[1..], c);
      if s[0] == c then [""] + rest else [[s[0]] + rest[0]] + rest[1..]
  }

  lemma {:induction false} SplitWithout(a: string, c: char)
    requires c !in a
    ensures Split(a, c) == [a]
  {
    if |a| > 0 {
      SplitWithout(a[1..], c);
      assert [a[0]] + a[1..] == a;
    }
  }

  lemma {:induction false} SplitAt(a: string, c: char, b: string)
    requires c !in a
    ensures Split(a + [c] + b, c) == [a] + Split(b, c)
  {
    if |a| == 0 {
      assert a + [c] + b == [c] + b;
      assert ([c] + b)[1..] == b;
    } else {
      SplitAt(a[1..], c, b);
      assert (a + [c] + b)[1..] == a[1..] + [c] + b;
      assert [a[0]] + a[1..] == a;
    }
  }

  /** Splitting on a character that none of the parts contains undoes `Join`. */
  lemma {:induction false} SplitJoin(xs: seq<string>, c: char)
    requires |xs| >= 1
    requires forall x :: x in xs ==> c !in x
    ensures Split(Join([c], xs), c) == xs
  {
    if |xs| == 1 {
      SplitWithout(xs[0], c);
    } else {
      SplitJoin(xs[1..], c);
      SplitAt(xs[0], c, Join([c], xs[1..]));
      assert [xs[0]] + xs[1..] == xs;
    }
  }

  // ---------------------------------------------------------------------
  // Python's str.strip()

  /** The characters for which Python's `str.isspace()` holds. */
  predicate IsSpace(ch: char)
  {
    || ch == ' '
    || ('\t' <= ch <= '\r')
    || ('\U{1C}' <= ch <= '\U{1F}')
    || ch == '\U{85}' || ch == '\U{A0}' || ch == '\U{1680}'
    || ('\U{2000}' <= ch <= '\U{200A}')
    || ch == '\U{2028}' || ch == '\U{2029}' || ch == '\U{202F}'
    || ch == '\U{205F}' || ch == '\U{3000}'
  }

  /** Neither end of `s` is white space. */
  predicate Stripped(s: string)
  {
    |s| == 0 || (!IsSpace(s[0]) && !IsSpace(s[|s| - 1]))
  }

  function TrimLeft(s: string): (r: string)
    ensures |r| == 0 || !IsSpace(r[0])
    ensures |r| <= |s| && r == s[|s| - |r|..]
  {
    if |s| > 0 && IsSpace(s[0]) then
      var r := TrimLeft(s[1..]);
      assert s[1..][|s| - 1 - |r|..] == s[|s| - |r|..];
      r
    else
      s
  }

  function TrimRight(s: string): (r: string)
    ensures |r| == 0 || !IsSpace(r[|r| - 1])
    ensures r <= s
  {
    if |s| > 0 && IsSpace(s[|s| - 1]) then TrimRight(s[..|s| - 1]) else s
  }

  /** `s.strip()`: the result has no white space at either end and is a
      contiguous piece of `s`. */
  function Strip(s: string): (r: string)
    ensures Stripped(r)
    ensures exists i, j :: 0 <= i <= j <= |s| && r == s[i..j]
  {
    var l := TrimLeft(s);
    var r := TrimRight(l);
    var k := |s| - |l|;
    assert l == s[k..];
    assert r == l[..|r|];
    assert l[..|r|] == s[k..k + |r|];
    r
  }

  lemma {:induction false} TrimLeftStripped(s: string)
    requires |s| == 0 || !IsSpace(s[0])
    ensures TrimLeft(s) == s
  {
  }

  lemma {:induction false} TrimRightStripped(s: string)
    requires |s| == 0 || !IsSpace(s[|s| - 1])
    ensures TrimRight(s) == s
  {
  }

  /** Stripping a string that already has no white space at its ends changes nothing. */
  lemma StripStripped(s: string)
    requires Stripped(s)
    ensures Strip(s) == s
  {
    TrimLeftStripped(s);
    TrimRightStripped(s);
  }

  /** A leading blank is removed: `(" " + b).strip() == b.strip()`. */
  lemma StripLeadingBlank(b: string)
    ensures Strip(" " + b) == Strip(b)
  {
    assert (" " + b)[1..] == b;
  }

  lemma {:induction false} TrimRightBlank(a: string)
    ensures TrimRight(a + " ") == TrimRight(a)
  {
    assert (a + " ")[..|a + " "| - 1] == a;
  }

  /** A trailing blank is removed: `(a + " ").strip() == a.strip()`. */
  lemma {:induction false} StripTrailingBlank(a: string)
    ensures Strip(a + " ") == Strip(a)
  {
    if |a| > 0 && IsSpace(a[0]) {
      assert (a + " ")[1..] == a[1..] + " ";
      StripTrailingBlank(a[1..]);
    } else if |a| == 0 {
      assert a + " " == " ";
    } else {
      TrimLeftStripped(a);
      TrimLeftStripped(a + " ");
      TrimRightBlank(a);
    }
  }

  /** A stripped text padded with one blank on the left strips back to itself. */
  lemma StripPadLeft(b: string)
    requires Stripped(b)
    ensures Strip(" " + b) == b
  {
    StripLeadingBlank(b);
    StripStripped(b);
  }

  /** A stripped text padded with one blank on the right strips back to itself. */
  lemma StripPadRight(a: string)
    requires Stripped(a)
    ensures Strip(a + " ") == a
  {
    StripTrailingBlank(a);
    StripStripped(a);
  }

  /** Two non-empty stripped texts joined by one blank are stripped already. */
  lemma StripJoined(a: string, b: string)
    requires Stripped(a) && Stripped(b) && |a| > 0 && |b| > 0
    ensures Strip(a + " " + b) == a + " " + b
  {
    var s := a + " " + b;
    assert s[0] == a[0] && s[|s| - 1] == b[|b| - 1];
    StripStripped(s);
  }

  // ---------------------------------------------------------------------
  // Decimal numbers

  predicate IsDigit(ch: char) { '0' <= ch <= '9' }

  /** A non-empty run of ASCII digits. */
  predicate IsDecimal(s: string)
  {
    |s| > 0 && forall i | 0 <= i < |s| :: IsDigit(s[i])
  }

  function DigitChar(d: nat): (ch: char)
    requires d < 10
    ensures IsDigit(ch) && ch as int - '0' as int == d
  {
    (48 + d) as char
  }

  /** `str(n)` for a non-negative integer. */
  function NatToStr(n: nat): (s: string)
    ensures IsDecimal(s)
    decreases n
  {
    if n < 10 then [DigitChar(n)] else NatToStr(n / 10) + [DigitChar(n % 10)]
  }

  /** `int(s)` for a run of digits. */
  function DecimalValue(s: string): nat
    requires forall i | 0 <= i < |s| :: IsDigit(s[i])
  {
    if |s| == 0 then 0
    else DecimalValue(s[..|s| - 1]) * 10 + DigitValue(s[|s| - 1])
  }

  function DigitValue(ch: char): (d: nat)
    requires IsDigit(ch)
    ensures d < 10
  {
    ch as int - '0' as int
  }

  /** Rendering a number and reading it back gives the number. */
  lemma {:induction false} DecimalRoundTrip(n: nat)
    ensures DecimalValue(NatToStr(n)) == n
    decreases n
  {
    if n >= 10 {
      DecimalRoundTrip(n / 10);
      var s := NatToStr(n);
      assert s[..|s| - 1] == NatToStr(n / 10);
    }
  }

  /** `str(i)` for any integer. */
  function IntToStr(i: int): string
  {
    if i < 0 then "-" + NatToStr(-i) else NatToStr(i)
  }

  // ---------------------------------------------------------------------
  // Python's int() of a text, in base 10

  /** Digits in groups: a single underscore may stand between two digits. */
  predicate DigitGroups(s: string)
  {
    |s| > 0 && IsDigit(s[0]) && forall i | 0 <= i < |s| :: GroupChar(s, i)
  }

  /** Position `i` of `s` holds a digit, or an underscore before a digit. */
  predicate GroupChar(s: string, i: int)
    requires 0 <= i < |s|
  {
    IsDigit(s[i]) || (s[i] == '_' && i + 1 < |s| && IsDigit(s[i + 1]))
  }

  /** The digits of `s`, underscores left out. */
  function DigitsOf(s: string): (r: string)
    requires forall i | 0 <= i < |s| :: IsDigit(s[i]) || s[i] == '_'
    ensures forall i | 0 <= i < |r| :: IsDigit(r[i])
    ensures (forall i | 0 <= i < |s| :: IsDigit(s[i])) ==> r == s
  {
    if |s| == 0 then []
    else
      var rest := DigitsOf(s[1..]);
      if s[0] == '_' then rest
      else
        assert (forall i | 0 <= i < |s| :: IsDigit(s[i])) ==> s == [s[0]] + s[1..];
        [s[0]] + rest
  }

  /** The magnitude written by a run of digit groups. */
  function GroupsValue(s: string): nat
    requires DigitGroups(s)
  {
    assert forall i | 0 <= i < |s| :: IsDigit(s[i]) || s[i] == '_' by {
      forall i | 0 <= i < |s| ensures IsDigit(s[i]) || s[i] == '_' {
        assert GroupChar(s, i);
      }
    }
    DecimalValue(DigitsOf(s))
  }

  /** `int(s)`: white space around, an optional sign, then digits in
      groups; `None` where Python raises `ValueError`. */
  function IntOfText(s: string): Option<int>
  {
    IntOfStripped(Strip(s))
  }

  /** `int()` of a text with no white space at its ends. */
  function IntOfStripped(u: string): Option<int>
  {
    var signed := |u| > 0 && (u[0] == '+' || u[0] == '-');
    var digits := if signed then u[1..] else u;
    if !DigitGroups(digits) then None
    else
      var v: int := GroupsValue(digits);
      Some(if signed && u[0] == '-' then -v else v)
  }

  /** A plain run of digits is a single digit group standing for itself. */
  lemma DecimalGroups(s: string)
    requires IsDecimal(s)
    ensures DigitGroups(s) && GroupsValue(s) == DecimalValue(s)
  {
    forall i | 0 <= i < |s| ensures GroupChar(s, i) {
      assert IsDigit(s[i]);
    }
  }

  /** A plain run of digits reads as its decimal value. */
  lemma IntOfDecimal(s: string)
    requires IsDecimal(s)
    ensures IntOfText(s) == Some(DecimalValue(s))
  {
    assert IsDigit(s[0]) && IsDigit(s[|s| - 1]);
    StripStripped(s);
    DecimalGroups(s);
  }

  /** `int(str(i)) == i`: every integer reads back from its rendering. */
  lemma IntOfTextRoundTrip(i: int)
    ensures IntOfText(IntToStr(i)) == Some(i)
  {
    var m: nat := if i < 0 then -i else i;
    var d := NatToStr(m);
    DecimalRoundTrip(m);
    if i < 0 {
      var s := "-" + d;
      assert IsDigit(d[|d| - 1]);
      assert s[0] == '-' && s[|s| - 1] == d[|d| - 1] && s[1..] == d;
      StripStripped(s);
      DecimalGroups(d);
      assert IntOfStripped(s) == Some(i);
    } else {
      IntOfDecimal(d);
    }
  }

  /** Blanks around a number do not change what `int()` reads. */
  lemma IntOfTextPadded(s: string)
    ensures IntOfText(" " + s + " ") == IntOfText(s)
  {
    assert " " + s + " " == " " + (s + " ");
    StripLeadingBlank(s + " ");
    StripTrailingBlank(s);
    assert Strip(" " + s + " ") == Strip(s);
  }

  /** The underscores of two pieces are left out piece by piece. */
  lemma {:induction false} DigitsOfAppend(x: string, y: string)
    requires forall i | 0 <= i < |x| :: IsDigit(x[i]) || x[i] == '_'
    requires forall i | 0 <= i < |y| :: IsDigit(y[i]) || y[i] == '_'
    ensures DigitsOf(x + y) == DigitsOf(x) + DigitsOf(y)
  {
    if |x| > 0 {
      assert (x + y)[1..] == x[1..] + y;
      DigitsOfAppend(x[1..], y);
    } else {
      assert x + y == y;
    }
  }

  /** Two runs of digits joined by one underscore are digit groups, whose
      digits are the two runs. */
  lemma GroupsJoined(a: string, b: string)
    requires IsDecimal(a) && IsDecimal(b)
    ensures DigitGroups(a + "_" + b) && DigitsOf(a + "_" + b) == a + b
  {
    var s := a + "_" + b;
    forall i | 0 <= i < |s| ensures GroupChar(s, i) {
      JoinedChar(a, b, i);
    }
    assert s == (a + "_") + b;
    DigitsOfAppend(a + "_", b);
    DigitsOfAppend(a, "_");
  }

  /** Each character of `a + "_" + b` keeps the grouping rule. */
  lemma JoinedChar(a: string, b: string, i: int)
    requires IsDecimal(a) && IsDecimal(b) && 0 <= i < |a| + 1 + |b|
    ensures GroupChar(a + "_" + b, i)
  {
    var s := a + "_" + b;
    if i < |a| { assert s[i] == a[i]; }
    else if i == |a| { assert s[i + 1] == b[0]; }
    else { assert s[i] == b[i - |a| - 1]; }
  }

  /** One underscore between two runs of digits is skipped. */
  lemma IntOfTextUnderscore(a: string, b: string)
    requires IsDecimal(a) && IsDecimal(b)
    ensures IntOfText(a + "_" + b) == IntOfText(a + b)
  {
    var s := a + "_" + b;
    GroupsJoined(a, b);
    assert IsDigit(s[0]) && s[|s| - 1] == b[|b| - 1];
    StripStripped(s);
    assert s[0] != '+' && s[0] != '-';
    assert IntOfStripped(s) == Some(DecimalValue(a + b));
    assert IsDecimal(a + b);
    IntOfDecimal(a + b);
  }

  /** Two underscores in a row make `int()` raise. */
  lemma IntOfTextDoubleUnderscore(a: string, b: string)
    requires IsDecimal(a) && IsDecimal(b)
    ensures IntOfText(a + "__" + b).None?
  {
    var w := a + "__" + b;
    DoubleUnderscoreSplits(a, b);
    StripStripped(w);
  }

  /** `a + "__" + b` has no blanks to strip and is not digit groups. */
  lemma DoubleUnderscoreSplits(a: string, b: string)
    requires IsDecimal(a) && IsDecimal(b)
    ensures Stripped(a + "__" + b)
    ensures IntOfStripped(a + "__" + b).None?
  {
    var w := a + "__" + b;
    assert IsDigit(w[0]) && w[|w| - 1] == b[|b| - 1];
    assert !DigitGroups(w) by {
      var k := |a|;
      assert w[k] == '_' && w[k + 1] == '_';
      assert !GroupChar(w, k);
    }
    assert w[0] != '+' && w[0] != '-';
  }

  /** `str(n).zfill(2)` */
  function Pad2(n: nat): (s: string)
    ensures IsDecimal(s) && |s| >= 2
    ensures n < 100 ==> |s| == 2 && DecimalValue(s) == n
  {
    DecimalRoundTrip(n);
    if n < 10 then
      var s := "0" + NatToStr(n);
      assert s[..1] == "0";
      s
    else NatToStr(n)
  }

  // ---------------------------------------------------------------------
  // Code-point order on strings, as Python compares `str` values

  predicate Less(a: string, b: string)
    decreases |a|
  {
    if |a| == 0 then |b| > 0
    else if |b| == 0 then false
    else if a[0] != b[0] then a[0] < b[0]
    else Less(a[1..], b[1..])
  }

  lemma {:induction false} LessIrreflexive(a: string)
    ensures !Less(a, a)
    decreases |a|
  {
    if |a| > 0 { LessIrreflexive(a[1..]); }
  }

  lemma {:induction false} LessTransitive(a: string, b: string, c: string)
    requires Less(a, b) && Less(b, c)
    ensures Less(a, c)
    decreases |a|
  {
    if |a| > 0 && |b| > 0 && |c| > 0 && a[0] == b[0] && b[0] == c[0] {
      LessTransitive(a[1..], b[1..], c[1..]);
    }
  }

  lemma {:induction false} LessTotal(a: string, b: string)
    ensures a == b || Less(a, b) || Less(b, a)
    decreases |a|
  {
    if |a| > 0 && |b| > 0 && a[0] == b[0] {
      LessTotal(a[1..], b[1..]);
      if a[1..] == b[1..] {
        assert a == [a[0]] + a[1..] && b == [b[0]] + b[1..];
      }
    }
  }

  ghost predicate StrictlySorted(s: seq<string>)
  {
    forall i, j | 0 <= i < j < |s| :: Less(s[i], s[j])
  }

  lemma StrictlySortedDistinct(s: seq<string>, i: int, j: int)
    requires StrictlySorted(s) && 0 <= i < |s| && 0 <= j < |s| && i != j
    ensures s[i] != s[j]
  {
    if i < j { LessIrreflexive(s[i]); } else { LessIrreflexive(s[j]); }
  }

  /** Adds `x` to a strictly sorted list unless it is already there. */
  function Insert(s: seq<string>, x: string): (r: seq<string>)
    requires StrictlySorted(s)
    ensures StrictlySorted(r)
    ensures forall y :: y in r <==> y in s || y == x
  {
    if |s| == 0 then [x]
    else if x == s[0] then s
    else if Less(x, s[0]) then
      assert forall j | 0 < j < |s| :: Less(x, s[j]) by {
        forall j | 0 < j < |s| ensures Less(x, s[j]) { LessTransitive(x, s[0], s[j]); }
      }
      [x] + s
    else
      LessTotal(x, s[0]);
      var t := Insert(s[1..], x);
      assert forall y :: y in t ==> Less(s[0], y);
      [s[0]] + t
  }

  /** Smallest element in code-point order (`min` of a text column). */
  function MinStr(xs: seq<string>): (m: string)
    requires |xs| > 0
    ensures m in xs
    ensures forall x :: x in xs ==> !Less(x, m)
  {
    if |xs| == 1 then LessIrreflexive(xs[0]); xs[0]
    else
      var m := MinStr(xs[1..]);
      LessTotal(xs[0], m);
      if Less(xs[0], m) then
        assert forall x :: x in xs ==> !Less(x, xs[0]) by {
          forall x | x in xs ensures !Less(x, xs[0]) {
            LessIrreflexive(xs[0]);
            if x != xs[0] && Less(x, xs[0]) {
              assert x in xs[1..];
              LessTransitive(x, xs[0], m);
            }
          }
        }
        xs[0]
      else
        assert forall x :: x in xs ==> !Less(x, m) by {
          forall x | x in xs ensures !Less(x, m) {
            if x == xs[0] { } else { assert x in xs[1..]; }
          }
        }
        m
  }

  /** Largest element in code-point order (`max` of a text column). */
  function MaxStr(xs: seq<string>): (m: string)
    requires |xs| > 0
    ensures m in xs
    ensures forall x :: x in xs ==> !Less(m, x)
  {
    if |xs| == 1 then LessIrreflexive(xs[0]); xs[0]
    else
      var m := MaxStr(xs[1..]);
      LessTotal(xs[0], m);
      if Less(m, xs[0]) then
        assert forall x :: x in xs ==> !Less(xs[0], x) by {
          forall x | x in xs ensures !Less(xs[0], x) {
            LessIrreflexive(xs[0]);
            if x != xs[0] && Less(xs[0], x) {
              assert x in xs[1..];
              LessTransitive(m, xs[0], x);
            }
          }
        }
        xs[0]
      else
        assert forall x :: x in xs ==> !Less(m, x) by {
          forall x | x in xs ensures !Less(m, x) {
            if x == xs[0] { } else { assert x in xs[1..]; }
          }
        }
        m
  }

  // ---------------------------------------------------------------------
  // First-occurrence split

  /** `name.split(sep, 1)[1]`: the text after the first occurrence of `sep`,
      or `None` when `sep` does not occur (pandas then yields NaN). */
  function AfterFirst(name: string, sep: string): Option<string>
    decreases |name|
  {
    if |sep| <= |name| && name[..|sep|] == sep then Some(name[|sep|..])
    else if |name| == 0 then None
    else AfterFirst(name[1..], sep)
  }

  /** When the first character of `sep` does not occur in `q`, the first
      occurrence of `sep` in `q + sep + rest` is the one right after `q`. */
  lemma {:induction false} AfterFirstSkip(q: string, sep: string, rest: string)
    requires |sep| > 0 && sep[0] !in q
    ensures AfterFirst(q + sep + rest, sep) == Some(rest)
  {
    var s := q + sep + rest;
    if |q| == 0 {
      assert s == sep + rest;
      assert s[..|sep|] == sep && s[|sep|..] == rest;
    } else {
      assert s[0] == q[0] != sep[0];
      assert s[1..] == q[1..] + sep + rest;
      AfterFirstSkip(q[1..], sep, rest);
    }
  }

  /** A string starts with any of its prefixes. */
  lemma PrefixOfConcat(p: string, x: string)
    ensures p <= p + x
  {
  }

  /** Two strings behind the same prefix are equal only when the rests are. */
  lemma PrefixCancel(p: string, a: string, b: string)
    requires p + a == p + b
    ensures a == b
  {
    assert a == (p + a)[|p|..];
    assert b == (p + b)[|p|..];
  }
}
