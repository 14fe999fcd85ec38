/** The table model the normalisers work on: a pandas DataFrame as an
    ordered list of column names, a map from name to column, and a row
    count. Every column has one cell per row. `Frame` is the mutable
    DataFrame object that the in-place steps update. */
module Tables {
  import opened Text

  type Month = m: int | 1 <= m <= 12 witness 1
  type Day = d: int | 1 <= d <= 31 witness 1

  /** A parsed timestamp, at day precision. */
  datatype CalDate = CalDate(year: nat, month: Month, day: Day)

  /** A cell: missing (NaN/NaT), an integer, a text, or a timestamp. */
  datatype Cell = Null | Int(i: int) | Str(s: string) | Date(date: CalDate)

  /** The exceptions the steps can raise. */
  datatype Error =
    | KeyError(name: string)          // reading a column that is not there
    | CastError(column: string)       // `astype(int)` on a cell that is not a number
    | CompareError(column: string)    // `> 0` or `+` on a text or timestamp cell
    | JoinError(column: string)       // a selected name without the name separator
    | ParseError(column: string)      // `pd.to_datetime` without coercion
    | AccessorError(column: string)   // `.dt` on a column that holds no timestamps
    | DuplicateName(name: string)     // a second column under an existing name
    | Unsupported(column: string)     // category labels that are not text
    | LocationFailed(location: string, cause: Error)
    | ReportFailed(cause: Error)
    | SummaryFailed(cause: Error)

  datatype Result<+T> = Ok(value: T) | Err(error: Error) {
    predicate IsFailure() { Err? }
    function PropagateFailure<U>(): Result<U> requires Err? { Err(error) }
    function Extract(): T requires Ok? { value }
  }

  /** What an in-place step reports: it completed, or it raised. */
  datatype Outcome = Pass | Fail(error: Error)

  datatype Table = Table(names: seq<string>, cols: map<string, seq<Cell>>, rows: nat)

  predicate NoDups(s: seq<string>)
  {
    forall i, j | 0 <= i < j < |s| :: s[i] != s[j]
  }

  /** Column names are distinct, name exactly the columns, and every column
      has one cell per row. */
  ghost predicate WellFormed(t: Table)
  {
    && NoDups(t.names)
    && (forall n :: n in t.names <==> n in t.cols)
    && (forall n | n in t.cols :: |t.cols[n]| == t.rows)
  }

  // ---------------------------------------------------------------------
  // Name lists

  lemma NoDupsCons(x: string, r: seq<string>)
    requires x !in r && NoDups(r)
    ensures NoDups([x] + r)
  {
    forall i, j | 0 <= i < j < |[x] + r| ensures ([x] + r)[i] != ([x] + r)[j] {
      if i > 0 { assert ([x] + r)[i] == r[i - 1]; }
      assert ([x] + r)[j] == r[j - 1];
    }
  }

  lemma NoDupsTail(s: seq<string>)
    requires |s| > 0 && NoDups(s)
    ensures NoDups(s[1..]) && s[0] !in s[1..]
  {
    forall i, j | 0 <= i < j < |s| - 1 ensures s[1..][i] != s[1..][j] {
      assert s[1..][i] == s[i + 1] && s[1..][j] == s[j + 1];
    }
  }

  /** The names that start with `p`, in their order: `df.filter(regex='^p')`. */
  function Select(s: seq<string>, p: string): (r: seq<string>)
    ensures forall x :: x in r <==> x in s && p <= x
    ensures |r| <= |s|
  {
    if |s| == 0 then [] else (if p <= s[0] then [s[0]] else []) + Select(s[1..], p)
  }

  /** The names not in `ns`, in their order. */
  function Without(s: seq<string>, ns: seq<string>): (r: seq<string>)
    ensures forall x :: x in r <==> x in s && x !in ns
  {
    if |s| == 0 then [] else (if s[0] in ns then [] else [s[0]]) + Without(s[1..], ns)
  }

  /** `a` renamed to `b` in place. */
  function ReplaceName(s: seq<string>, a: string, b: string): (r: seq<string>)
    ensures |r| == |s|
    ensures forall i | 0 <= i < |s| :: r[i] == (if s[i] == a then b else s[i])
  {
    if |s| == 0 then [] else [if s[0] == a then b else s[0]] + ReplaceName(s[1..], a, b)
  }

  lemma {:induction false} NoDupsSelect(s: seq<string>, p: string)
    requires NoDups(s)
    ensures NoDups(Select(s, p))
  {
    if |s| > 0 {
      NoDupsTail(s);
      NoDupsSelect(s[1..], p);
      if p <= s[0] { NoDupsCons(s[0], Select(s[1..], p)); }
    }
  }

  lemma {:induction false} NoDupsWithout(s: seq<string>, ns: seq<string>)
    requires NoDups(s)
    ensures NoDups(Without(s, ns))
  {
    if |s| > 0 {
      NoDupsTail(s);
      NoDupsWithout(s[1..], ns);
      if s[0] !in ns { NoDupsCons(s[0], Without(s[1..], ns)); }
    }
  }

  lemma NoDupsReplace(s: seq<string>, a: string, b: string)
    requires NoDups(s) && b !in s
    ensures NoDups(ReplaceName(s, a, b))
  {
  }

  lemma NoDupsSnoc(s: seq<string>, x: string)
    requires NoDups(s) && x !in s
    ensures NoDups(s + [x])
  {
  }

  lemma {:induction false} SelectAppend(a: seq<string>, b: seq<string>, p: string)
    ensures Select(a + b, p) == Select(a, p) + Select(b, p)
  {
    if |a| > 0 {
      assert (a + b)[1..] == a[1..] + b;
      SelectAppend(a[1..], b, p);
    } else {
      assert a + b == b;
    }
  }

  lemma {:induction false} SelectWithout(s: seq<string>, ns: seq<string>, p: string)
    requires forall x | x in ns :: !(p <= x)
    ensures Select(Without(s, ns), p) == Select(s, p)
  {
    if |s| > 0 {
      SelectWithout(s[1..], ns, p);
      SelectAppend(if s[0] in ns then [] else [s[0]], Without(s[1..], ns), p);
    }
  }

  lemma {:induction false} SelectReplace(s: seq<string>, a: string, b: string, p: string)
    requires !(p <= a) && !(p <= b)
    ensures Select(ReplaceName(s, a, b), p) == Select(s, p)
  {
    if |s| > 0 {
      var r := ReplaceName(s, a, b);
      assert r[1..] == ReplaceName(s[1..], a, b);
      SelectReplace(s[1..], a, b, p);
    }
  }

  /** Selecting by a longer prefix after a shorter one is selecting by the longer one. */
  lemma {:induction false} SelectSelect(s: seq<string>, p: string, q: string)
    requires p <= q
    ensures Select(Select(s, p), q) == Select(s, q)
  {
    if |s| > 0 {
      SelectSelect(s[1..], p, q);
      SelectAppend(if p <= s[0] then [s[0]] else [], Select(s[1..], p), q);
    }
  }

  lemma {:induction false} SelectNone(s: seq<string>, p: string)
    requires forall x | x in s :: !(p <= x)
    ensures Select(s, p) == []
  {
    if |s| > 0 {
      assert s[0] in s && forall x | x in s[1..] :: x in s;
      SelectNone(s[1..], p);
      assert Select(s, p) == [] + Select(s[1..], p);
    }
  }

  lemma {:induction false} SelectAll(s: seq<string>, p: string)
    requires forall x | x in s :: p <= x
    ensures Select(s, p) == s
  {
    if |s| > 0 {
      assert s[0] in s && forall x | x in s[1..] :: x in s;
      SelectAll(s[1..], p);
      assert Select(s, p) == [s[0]] + Select(s[1..], p);
      assert s == [s[0]] + s[1..];
    }
  }

  /** `a` is `b` with some names left out: the order of `a` is kept in `b`. */
  predicate Subseq(a: seq<string>, b: seq<string>)
    decreases |b|
  {
    |a| == 0 || (|b| > 0 && ((a[0] == b[0] && Subseq(a[1..], b[1..])) || Subseq(a, b[1..])))
  }

  lemma {:induction false} SubseqRefl(a: seq<string>)
    ensures Subseq(a, a)
  {
    if |a| > 0 { SubseqRefl(a[1..]); }
  }

  lemma {:induction false} SubseqEmpty(b: seq<string>)
    ensures Subseq([], b)
  {
  }

  /** Dropping names from the front of the longer list. */
  lemma {:induction false} SubseqSkip(a: seq<string>, x: seq<string>, b: seq<string>)
    requires Subseq(a, b)
    ensures Subseq(a, x + b)
    decreases |x|
  {
    if |x| > 0 {
      assert (x + b)[1..] == x[1..] + b;
      SubseqSkip(a, x[1..], b);
    } else {
      assert x + b == b;
    }
  }

  lemma {:induction false} SubseqAppend(a1: seq<string>, b1: seq<string>, a2: seq<string>, b2: seq<string>)
    requires Subseq(a1, b1) && Subseq(a2, b2)
    ensures Subseq(a1 + a2, b1 + b2)
    decreases |b1|
  {
    if |a1| == 0 {
      assert a1 + a2 == a2;
      SubseqSkip(a2, b1, b2);
    } else {
      assert (b1 + b2)[1..] == b1[1..] + b2;
      if a1[0] == b1[0] && Subseq(a1[1..], b1[1..]) {
        assert (a1 + a2)[1..] == a1[1..] + a2;
        SubseqAppend(a1[1..], b1[1..], a2, b2);
      } else {
        SubseqAppend(a1, b1[1..], a2, b2);
      }
    }
  }

  predicate Disjoint(a: seq<string>, b: seq<string>)
  {
    forall x | x in a :: x !in b
  }

  /** Five runs of distinct names, pairwise disjoint, make a list of
      distinct names. */
  lemma NoDups5(a: seq<string>, b: seq<string>, c: seq<string>, d: seq<string>, e: seq<string>)
    requires NoDups(a) && NoDups(b) && NoDups(c) && NoDups(d) && NoDups(e)
    requires Disjoint(a, b) && Disjoint(a, c) && Disjoint(a, d) && Disjoint(a, e)
    requires Disjoint(b, c) && Disjoint(b, d) && Disjoint(b, e)
    requires Disjoint(c, d) && Disjoint(c, e) && Disjoint(d, e)
    ensures NoDups(a + b + c + d + e)
  {
    NoDupsConcat(a, b);
    NoDupsConcat(a + b, c);
    NoDupsConcat(a + b + c, d);
    NoDupsConcat(a + b + c + d, e);
  }

  lemma NoDupsSplit(a: seq<string>, b: seq<string>)
    requires NoDups(a + b)
    ensures NoDups(a) && NoDups(b) && Disjoint(a, b)
  {
    forall i, j | 0 <= i < j < |a| ensures a[i] != a[j] {
      assert a[i] == (a + b)[i] && a[j] == (a + b)[j];
    }
    forall i, j | 0 <= i < j < |b| ensures b[i] != b[j] {
      assert b[i] == (a + b)[|a| + i] && b[j] == (a + b)[|a| + j];
    }
    forall i, j | 0 <= i < |a| && 0 <= j < |b| ensures a[i] != b[j] {
      assert a[i] == (a + b)[i] && b[j] == (a + b)[|a| + j];
    }
  }

  /** A fixed list with one prefix family spliced in has distinct names
      when the fixed names are distinct and none carries the prefix. */
  lemma NoDupsOneFamily(a: seq<string>, p: string, names: seq<string>, c: seq<string>)
    requires NoDups(names) && NoDups(a + c)
    requires forall x | x in a + c :: !(p <= x)
    ensures NoDups(a + Select(names, p) + c)
  {
    var f := Select(names, p);
    NoDupsSelect(names, p);
    NoDupsSplit(a, c);
    assert forall y | y in a :: y in a + c;
    NoDupsConcat(a, f);
    forall x | x in c ensures x !in a + f {
      assert x in a + c;
    }
    NoDupsConcat(a + f, c);
  }

  /** The same with two families whose prefixes start differently. */
  lemma NoDupsTwoFamilies(a: seq<string>, p: string, names: seq<string>, b: seq<string>, q: string, c: seq<string>)
    requires NoDups(names) && NoDups(a + b + c)
    requires forall x | x in a + b + c :: !(p <= x) && !(q <= x)
    requires |p| > 0 && |q| > 0 && p[0] != q[0]
    ensures NoDups(a + Select(names, p) + b + Select(names, q) + c)
  {
    var f, g := Select(names, p), Select(names, q);
    NoDupsSelect(names, p);
    NoDupsSelect(names, q);
    NoDupsSplit(a + b, c);
    NoDupsSplit(a, b);
    FamilyApart(a + b + c, f, p);
    FamilyApart(a + b + c, g, q);
    forall x | x in f ensures x !in g { PrefixesApart(p, q, names, x); }
    assert Disjoint(a, f) && Disjoint(f, b) && Disjoint(f, c);
    assert Disjoint(a, g) && Disjoint(b, g) && Disjoint(g, c);
    assert Disjoint(a, c) && Disjoint(b, c) by {
      forall x | x in a + b ensures x !in c { }
    }
    NoDups5(a, f, b, g, c);
  }

  lemma FamilyApart(fixed: seq<string>, f: seq<string>, p: string)
    requires forall x | x in fixed :: !(p <= x)
    requires forall x | x in f :: p <= x
    ensures forall x | x in f :: x !in fixed
  {
  }

  lemma SubseqInsert(a: seq<string>, x: seq<string>, b: seq<string>)
    ensures Subseq(a + b, a + x + b)
  {
    SubseqRefl(a);
    SubseqRefl(b);
    SubseqSkip(b, x, b);
    SubseqAppend(a, a, b, x + b);
    assert a + (x + b) == a + x + b;
  }

  /** Splicing two runs into a list keeps the original as a subsequence. */
  lemma SubseqInsert2(a: seq<string>, x: seq<string>, b: seq<string>, y: seq<string>, c: seq<string>)
    ensures Subseq(a + b + c, a + x + b + y + c)
  {
    SubseqInsert(b, y, c);
    SubseqSkip(b + c, x, b + y + c);
    SubseqRefl(a);
    SubseqAppend(a, a, b + c, x + (b + y + c));
    assert a + (b + c) == a + b + c;
    assert a + (x + (b + y + c)) == a + x + b + y + c;
  }

  /** No name starts with two prefixes that differ at a position both have. */
  lemma PrefixesDiffer(p: string, q: string, x: string, k: nat)
    requires k < |p| && k < |q| && p[k] != q[k] && p <= x
    ensures !(q <= x)
  {
    assert x[k] == p[k];
  }

  /** No name starts with two prefixes whose first characters differ. */
  lemma PrefixesApart(p: string, q: string, s: seq<string>, x: string)
    requires |p| > 0 && |q| > 0 && p[0] != q[0]
    requires x in Select(s, p)
    ensures x !in Select(s, q)
  {
  }

  // ---------------------------------------------------------------------
  // Cells and columns

  function Const(c: Cell, n: nat): (r: seq<Cell>)
    ensures |r| == n && forall i | 0 <= i < n :: r[i] == c
  {
    seq(n, _ => c)
  }

  predicate HasNull(col: seq<Cell>)
  {
    exists i | 0 <= i < |col| :: col[i] == Null
  }

  /** `str(timestamp)` at day precision: `YYYY-MM-DD 00:00:00`. */
  function DateText(d: CalDate): string
  {
    NatToStr(d.year) + "-" + Pad2(d.month) + "-" + Pad2(d.day) + " 00:00:00"
  }

  /** `astype(str)` of a cell that is not missing. */
  function CellText(c: Cell): string
  {
    match c
    case Null => "nan"
    case Int(i) => IntToStr(i)
    case Str(s) => s
    case Date(d) => DateText(d)
  }

  // ---------------------------------------------------------------------
  // Table primitives: the pandas operations the steps are written with

  /** `df.loc[:, n] = c`: overwrite in place, or append a new last column. */
  function SetCol(t: Table, n: string, c: seq<Cell>): (r: Table)
    requires WellFormed(t) && |c| == t.rows
    ensures WellFormed(r) && r.rows == t.rows
    ensures r.cols == t.cols[n := c]
    ensures r.names == if n in t.cols then t.names else t.names + [n]
  {
    assert n !in t.cols ==> NoDups(t.names + [n]) by {
      if n !in t.cols { NoDupsSnoc(t.names, n); }
    }
    Table(if n in t.cols then t.names else t.names + [n], t.cols[n := c], t.rows)
  }

  lemma SetColTwice(t: Table, n: string, a: seq<Cell>, b: seq<Cell>)
    requires WellFormed(t) && |a| == t.rows && |b| == t.rows
    ensures SetCol(SetCol(t, n, a), n, b) == SetCol(t, n, b)
  {
    assert t.cols[n := a][n := b] == t.cols[n := b];
  }

  /** `df.loc[:, ns] = block` for columns that all exist already. */
  function SetCols(t: Table, block: map<string, seq<Cell>>): (r: Table)
    requires WellFormed(t) && block.Keys <= t.cols.Keys
    requires forall n | n in block :: |block[n]| == t.rows
    ensures WellFormed(r) && r.rows == t.rows && r.names == t.names
    ensures r.cols == t.cols + block
  {
    Table(t.names, t.cols + block, t.rows)
  }

  /** `pd.concat([df, block], axis=1)` for new, distinct column names `ns`. */
  function Concat(t: Table, ns: seq<string>, block: map<string, seq<Cell>>): (r: Table)
    requires WellFormed(t) && NoDups(ns)
    requires forall n | n in ns :: n !in t.cols
    requires forall n :: n in block <==> n in ns
    requires forall n | n in block :: |block[n]| == t.rows
    ensures WellFormed(r) && r.rows == t.rows && r.names == t.names + ns
    ensures r.cols == t.cols + block
  {
    NoDupsConcat(t.names, ns);
    Table(t.names + ns, t.cols + block, t.rows)
  }

  lemma NoDupsConcat(a: seq<string>, b: seq<string>)
    requires NoDups(a) && NoDups(b) && forall x | x in b :: x !in a
    ensures NoDups(a + b)
  {
    forall i, j | 0 <= i < j < |a + b| ensures (a + b)[i] != (a + b)[j] {
      if j < |a| {
        assert (a + b)[i] == a[i] && (a + b)[j] == a[j];
      } else if i < |a| {
        assert (a + b)[i] == a[i] && (a + b)[j] == b[j - |a|];
        assert b[j - |a|] in b;
      } else {
        assert (a + b)[i] == b[i - |a|] && (a + b)[j] == b[j - |a|];
      }
    }
  }

  /** `df.drop(columns=ns, errors='ignore')`: names not present are skipped. */
  function Drop(t: Table, ns: seq<string>): (r: Table)
    requires WellFormed(t)
    ensures WellFormed(r) && r.rows == t.rows
    ensures r.names == Without(t.names, ns)
    ensures forall m :: m in r.cols <==> m in t.cols && m !in ns
    ensures forall m | m in r.cols :: r.cols[m] == t.cols[m]
  {
    NoDupsWithout(t.names, ns);
    Table(Without(t.names, ns), map m | m in t.cols && m !in ns :: t.cols[m], t.rows)
  }

  /** Writing column `n` and then dropping the columns `ds` (which do not
      include `n`) keeps `n`, removes every name of `ds` and leaves every
      other column alone. */
  lemma SetThenDrop(t: Table, n: string, c: seq<Cell>, ds: seq<string>)
    requires WellFormed(t) && |c| == t.rows && n !in ds
    ensures var u := Drop(SetCol(t, n, c), ds);
      && WellFormed(u) && u.rows == t.rows
      && (n in t.cols ==> u.names == Without(t.names, ds))
      && n in u.cols && u.cols[n] == c
      && (forall m | m in ds :: m !in u.cols)
      && (forall m | m in u.cols && m != n :: m in t.cols)
      && forall m | m in t.cols && m != n && m !in ds :: m in u.cols && u.cols[m] == t.cols[m]
  {
    var s := SetCol(t, n, c);
    var u := Drop(s, ds);
    assert n in s.cols;
    forall m | m in t.cols && m != n && m !in ds
      ensures m in u.cols && u.cols[m] == t.cols[m]
    {
      assert m in s.cols;
    }
  }

  /** `SetThenDrop` for two dropped columns `a` and `b`. */
  lemma SetThenDropTwo(t: Table, n: string, c: seq<Cell>, a: string, b: string)
    requires WellFormed(t) && |c| == t.rows && n != a && n != b
    ensures var u := Drop(SetCol(t, n, c), [a, b]);
      && WellFormed(u) && u.rows == t.rows
      && a !in u.cols && b !in u.cols && n in u.cols && u.cols[n] == c
      && (forall m | m in u.cols && m != n :: m in t.cols)
      && forall m | m in t.cols && m != n && m != a && m != b :: m in u.cols && u.cols[m] == t.cols[m]
  {
    SetThenDrop(t, n, c, [a, b]);
  }

  /** `df.rename(columns={a: b})` when `b` is not already a column. */
  function Rename(t: Table, a: string, b: string): (r: Table)
    requires WellFormed(t) && a in t.cols && b !in t.cols
    ensures WellFormed(r) && r.rows == t.rows
    ensures r.names == ReplaceName(t.names, a, b)
    ensures forall m :: m in r.cols <==> (m in t.cols && m != a) || m == b
    ensures r.cols[b] == t.cols[a]
    ensures forall m | m in t.cols && m != a :: r.cols[m] == t.cols[m]
  {
    RenameWellFormed(t, a, b);
    Table(ReplaceName(t.names, a, b), RenameCols(t.cols, a, b), t.rows)
  }

  function RenameCols(cols: map<string, seq<Cell>>, a: string, b: string): (r: map<string, seq<Cell>>)
    requires a in cols && b !in cols
    ensures forall m :: m in r <==> (m in cols && m != a) || m == b
    ensures r[b] == cols[a]
    ensures forall m | m in cols && m != a :: r[m] == cols[m]
  {
    (map m | m in cols && m != a :: cols[m])[b := cols[a]]
  }

  lemma RenameWellFormed(t: Table, a: string, b: string)
    requires WellFormed(t) && a in t.cols && b !in t.cols
    ensures WellFormed(Table(ReplaceName(t.names, a, b), RenameCols(t.cols, a, b), t.rows))
  {
    NoDupsReplace(t.names, a, b);
    ReplaceNameMembers(t.names, a, b);
  }

  /** The names after a rename in place: `a` gone and `b` there, when `a`
      was there. */
  lemma ReplaceNameMembers(s: seq<string>, a: string, b: string)
    ensures forall n :: n in ReplaceName(s, a, b) <==> (n in s && n != a) || (n == b && a in s)
  {
    var r := ReplaceName(s, a, b);
    forall n ensures n in r <==> (n in s && n != a) || (n == b && a in s) {
      if n in r {
        var i :| 0 <= i < |r| && r[i] == n;
        assert s[i] in s;
      }
      if n in s && n != a {
        var i :| 0 <= i < |s| && s[i] == n;
        assert r[i] == n;
      }
      if n == b && a in s {
        var i :| 0 <= i < |s| && s[i] == a;
        assert r[i] == b;
      }
    }
  }

  /** The first name of `list` that is not a column. */
  function FirstMissing(t: Table, list: seq<string>): (r: Option<string>)
    ensures r.None? <==> forall n | n in list :: n in t.cols
    ensures r.Some? ==> r.value in list && r.value !in t.cols
  {
    if |list| == 0 then None
    else if list[0] !in t.cols then Some(list[0])
    else FirstMissing(t, list[1..])
  }

  /** The first name of `list` that is already a column. */
  function FirstPresent(t: Table, list: seq<string>): (r: Option<string>)
    ensures r.None? <==> forall n | n in list :: n !in t.cols
    ensures r.Some? ==> r.value in list && r.value in t.cols
  {
    if |list| == 0 then None
    else if list[0] in t.cols then Some(list[0])
    else FirstPresent(t, list[1..])
  }

  /** `df[list]`: the columns of `list`, in that order; a missing one raises. */
  function Project(t: Table, list: seq<string>): (r: Result<Table>)
    requires WellFormed(t)
    ensures r.Ok? <==> forall n | n in list :: n in t.cols
    ensures r.Err? ==> r.error.KeyError? && r.error.name in list && r.error.name !in t.cols
    ensures r.Ok? ==> r.value.names == list && r.value.rows == t.rows
    ensures r.Ok? ==> forall n :: n in r.value.cols <==> n in list
    ensures r.Ok? ==> forall n | n in list :: r.value.cols[n] == t.cols[n]
    ensures r.Ok? && NoDups(list) ==> WellFormed(r.value)
  {
    match FirstMissing(t, list)
    case Some(n) => Err(KeyError(n))
    case None => Ok(Table(list, map n | n in list :: t.cols[n], t.rows))
  }

  /** `df[main], df[all]`: the two reorderings a normaliser returns; the
      first projection is evaluated first, so its missing column is the one
      reported. */
  function ProjectBoth(t: Table, main: seq<string>, all: seq<string>): (r: Result<(Table, Table)>)
    requires WellFormed(t)
    ensures r.Ok? <==> (forall n | n in main :: n in t.cols) && (forall n | n in all :: n in t.cols)
    ensures r.Err? ==> r.error.KeyError? && r.error.name !in t.cols
    ensures r.Err? && (exists n | n in main :: n !in t.cols) ==> r.error.name in main
    ensures r.Err? && (forall n | n in main :: n in t.cols) ==> r.error.name in all
    ensures r.Ok? ==> r.value.0 == Project(t, main).value && r.value.1 == Project(t, all).value
  {
    var m :- Project(t, main);
    var a :- Project(t, all);
    Ok((m, a))
  }

  function Count(keep: seq<bool>): (k: nat)
    ensures k <= |keep|
  {
    if |keep| == 0 then 0 else (if keep[0] then 1 else 0) + Count(keep[1..])
  }

  /** The cells whose `keep` flag is set, in order. */
  function Pick<T>(s: seq<T>, keep: seq<bool>): (r: seq<T>)
    requires |s| == |keep|
    ensures |r| == Count(keep)
    ensures forall x :: x in r ==> x in s
  {
    if |s| == 0 then [] else (if keep[0] then [s[0]] else []) + Pick(s[1..], keep[1..])
  }

  /** `df[mask]`: the rows whose flag is set, in their order. */
  function FilterRows(t: Table, keep: seq<bool>): (r: Table)
    requires WellFormed(t) && |keep| == t.rows
    ensures WellFormed(r) && r.names == t.names && r.rows == Count(keep)
    ensures r.cols.Keys == t.cols.Keys
    ensures forall n | n in t.cols :: r.cols[n] == Pick(t.cols[n], keep)
  {
    Table(t.names, map n | n in t.cols :: Pick(t.cols[n], keep), Count(keep))
  }

  // ---------------------------------------------------------------------
  // What a step leaves alone

  /** Column `n`, if `t` has it, is still there in `u` with the same cells. */
  ghost predicate SameCol(t: Table, u: Table, n: string)
  {
    n in t.cols ==> n in u.cols && u.cols[n] == t.cols[n]
  }

  /** The columns whose names start with `p` are the same, in the same
      order, with the same cells. */
  ghost predicate SameFamily(t: Table, u: Table, p: string)
  {
    && Select(t.names, p) == Select(u.names, p)
    && forall n | n in t.cols && p <= n :: n in u.cols && u.cols[n] == t.cols[n]
  }

  lemma SameFamilyTrans(t: Table, u: Table, v: Table, p: string)
    requires SameFamily(t, u, p) && SameFamily(u, v, p)
    requires WellFormed(t) && WellFormed(u)
    ensures SameFamily(t, v, p)
  {
  }

  lemma SameFamilyCol(t: Table, u: Table, p: string, n: string)
    requires SameFamily(t, u, p) && p <= n
    ensures SameCol(t, u, n)
  {
  }

  lemma SetColFamily(t: Table, n: string, c: seq<Cell>, p: string)
    requires WellFormed(t) && |c| == t.rows && !(p <= n)
    ensures SameFamily(t, SetCol(t, n, c), p)
  {
    if n !in t.cols { SelectAppend(t.names, [n], p); }
  }

  lemma DropFamily(t: Table, ns: seq<string>, p: string)
    requires WellFormed(t)
    requires forall x | x in ns :: !(p <= x)
    ensures SameFamily(t, Drop(t, ns), p)
  {
    SelectWithout(t.names, ns, p);
  }

  /** Writing `n` and dropping `a` and `b`, none of them in the family of
      `p`, keeps that family. */
  lemma SetThenDropFamily(t: Table, n: string, c: seq<Cell>, a: string, b: string, p: string)
    requires WellFormed(t) && |c| == t.rows
    requires !(p <= n) && !(p <= a) && !(p <= b)
    ensures SameFamily(t, Drop(SetCol(t, n, c), [a, b]), p)
  {
    var t1 := SetCol(t, n, c);
    SetColFamily(t, n, c, p);
    DropFamily(t1, [a, b], p);
    SameFamilyTrans(t, t1, Drop(t1, [a, b]), p);
  }

  lemma RenameFamily(t: Table, a: string, b: string, p: string)
    requires WellFormed(t) && a in t.cols && b !in t.cols
    requires !(p <= a) && !(p <= b)
    ensures SameFamily(t, Rename(t, a, b), p)
  {
    SelectReplace(t.names, a, b, p);
  }

  lemma SameFamilyRefl(t: Table, p: string)
    ensures SameFamily(t, t, p)
  {
  }

  /** An in-place step reported what its specification says, and on success
      left the frame holding the specified table. */
  predicate Agrees(o: Outcome, r: Result<Table>, now: Table)
  {
    match r
    case Ok(t) => o == Pass && now == t
    case Err(e) => o == Fail(e)
  }

  // ---------------------------------------------------------------------
  // The mutable DataFrame

  class Frame {
    var names: seq<string>
    var cols: map<string, seq<Cell>>
    var rows: nat

    function Value(): Table
      reads this
    {
      Table(names, cols, rows)
    }

    ghost predicate Valid()
      reads this
    {
      WellFormed(Value())
    }

    /** `df.copy()` of a frame holding `t`. */
    constructor (t: Table)
      ensures Value() == t
    {
      names, cols, rows := t.names, t.cols, t.rows;
    }

    /** `df.loc[:, n] = c` */
    method SetColumn(n: string, c: seq<Cell>)
      requires Valid() && |c| == rows
      modifies this
      ensures Valid() && Value() == SetCol(old(Value()), n, c)
    {
      var t := SetCol(Value(), n, c);
      names, cols, rows := t.names, t.cols, t.rows;
    }

    /** `df.loc[:, ns] = block` */
    method SetColumns(block: map<string, seq<Cell>>)
      requires Valid() && block.Keys <= cols.Keys
      requires forall n | n in block :: |block[n]| == rows
      modifies this
      ensures Valid() && Value() == SetCols(old(Value()), block)
    {
      var t := SetCols(Value(), block);
      names, cols, rows := t.names, t.cols, t.rows;
    }

    /** `df.drop(columns=ns, inplace=True, errors='ignore')` */
    method DropColumns(ns: seq<string>)
      requires Valid()
      modifies this
      ensures Valid() && Value() == Drop(old(Value()), ns)
    {
      var t := Drop(Value(), ns);
      names, cols, rows := t.names, t.cols, t.rows;
    }

    /** `df.rename(columns={a: b}, inplace=True)` */
    method RenameColumn(a: string, b: string)
      requires Valid() && a in cols && b !in cols
      modifies this
      ensures Valid() && Value() == Rename(old(Value()), a, b)
    {
      var t := Rename(Value(), a, b);
      names, cols, rows := t.names, t.cols, t.rows;
    }

    /** Replaces the whole content: a step that pandas performs as one
        vectorised assignment over several columns. */
    method Assign(t: Table)
      requires WellFormed(t)
      modifies this
      ensures Valid() && Value() == t
    {
      names, cols, rows := t.names, t.cols, t.rows;
    }
  }
}
