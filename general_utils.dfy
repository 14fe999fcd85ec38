/** `data_preprocessing/general_utils.py`: the four column consolidators
    the normalisers are built from. Each works in place on the frame it is
    given (`otros_a_dummy` returns a new frame built by `pd.concat`). Every
    pattern is an anchored prefix. */
module GeneralUtils {
  import opened Text
  import opened Tables

  // ---------------------------------------------------------------------
  // agregar_ceros_a_columnas

  /** `fillna(0).astype(int)` of one cell; `None` where the cast raises.
      A text is read the way Python's `int()` reads it (see `IntOfText`). */
  function ZeroCell(c: Cell): (r: Option<int>)
    ensures c.Null? ==> r == Some(0)
    ensures c.Int? ==> r == Some(c.i)
    ensures c.Date? ==> r.None?
    ensures c.Str? ==> r == IntOfText(c.s)
  {
    match c
    case Null => Some(0)
    case Int(i) => Some(i)
    case Str(s) => IntOfText(s)
    case Date(_) => None
  }

  predicate Castable(col: seq<Cell>)
  {
    forall i | 0 <= i < |col| :: ZeroCell(col[i]).Some?
  }

  function ZeroColumn(col: seq<Cell>): (r: seq<Cell>)
    requires Castable(col)
    ensures |r| == |col|
    ensures forall i | 0 <= i < |col| :: r[i] == Int(ZeroCell(col[i]).value)
  {
    seq(|col|, i requires 0 <= i < |col| => Int(ZeroCell(col[i]).value))
  }

  /** The first of `ns` whose cast would raise. */
  function FirstUncastable(t: Table, ns: seq<string>): (r: Option<string>)
    requires forall n | n in ns :: n in t.cols
    ensures r.None? <==> forall n | n in ns :: Castable(t.cols[n])
    ensures r.Some? ==> r.value in ns && !Castable(t.cols[r.value])
  {
    if |ns| == 0 then None
    else if !Castable(t.cols[ns[0]]) then Some(ns[0])
    else FirstUncastable(t, ns[1..])
  }

  /** What `agregar_ceros_a_columnas(df, '^p')` leaves in the frame, or the
      exception it raises. */
  function ZeroFill(t: Table, p: string): Result<Table>
    requires WellFormed(t)
  {
    var target := Select(t.names, p);
    if |target| == 0 then Ok(t)
    else match FirstUncastable(t, target)
      case Some(n) => Err(CastError(n))
      case None => Ok(SetCols(t, map n | n in target :: ZeroColumn(t.cols[n])))
  }

  method AgregarCerosAColumnas(f: Frame, p: string) returns (o: Outcome)
    requires f.Valid()
    modifies f
    ensures f.Valid()
    ensures Agrees(o, ZeroFill(old(f.Value()), p), f.Value())
  {
    var target := Select(f.names, p);
    if |target| > 0 {
      var bad := FirstUncastable(f.Value(), target);
      if bad.Some? {
        return Fail(CastError(bad.value));
      }
      f.SetColumns(map n | n in target :: ZeroColumn(f.cols[n]));
    }
    o := Pass;
  }

  /** It raises exactly when a matching column holds a cell the cast
      rejects, and it is a no-op when nothing matches. */
  lemma ZeroFillRaises(t: Table, p: string)
    requires WellFormed(t)
    ensures var r := ZeroFill(t, p);
      && (r.Err? <==> exists n | n in t.cols && p <= n :: !Castable(t.cols[n]))
      && (r.Err? ==> r.error.CastError? && p <= r.error.column)
      && ((forall n | n in t.cols :: !(p <= n)) ==> r == Ok(t))
  {
    var target := Select(t.names, p);
    if |target| == 0 {
      assert forall n | n in t.cols :: !(p <= n);
    }
  }

  /** Every matching column ends with integers only (missing became 0,
      integers kept); every other column, the names and the row count are
      unchanged. */
  lemma ZeroFillEffect(t: Table, p: string)
    requires WellFormed(t) && ZeroFill(t, p).Ok?
    ensures var u := ZeroFill(t, p).value;
      && u.names == t.names && u.rows == t.rows && u.cols.Keys == t.cols.Keys
      && (forall n | n in t.cols && !(p <= n) :: u.cols[n] == t.cols[n])
      && (forall n, i | n in t.cols && p <= n && 0 <= i < t.rows ::
            && u.cols[n][i] == Int(ZeroCell(t.cols[n][i]).value)
            && (t.cols[n][i].Null? ==> u.cols[n][i] == Int(0))
            && (t.cols[n][i].Int? ==> u.cols[n][i] == t.cols[n][i]))
  {
    var target := Select(t.names, p);
    if |target| > 0 {
      var block := map n | n in target :: ZeroColumn(t.cols[n]);
      assert forall n | n in t.cols && p <= n :: n in block;
    }
  }

  /** After the fill every matching column holds integers only. */
  lemma ZeroFillIntegers(t: Table, p: string)
    requires WellFormed(t) && ZeroFill(t, p).Ok?
    ensures var u := ZeroFill(t, p).value;
      && WellFormed(u) && u.names == t.names && u.rows == t.rows
      && forall n, i | n in u.cols && p <= n && 0 <= i < u.rows :: u.cols[n][i].Int?
  {
    ZeroFillEffect(t, p);
  }

  /** A filled column is its cells read as numbers. */
  lemma ZeroFillAsColumn(t: Table, p: string, n: string)
    requires WellFormed(t) && ZeroFill(t, p).Ok? && n in t.cols && p <= n
    ensures Castable(t.cols[n])
    ensures n in ZeroFill(t, p).value.cols && ZeroFill(t, p).value.cols[n] == ZeroColumn(t.cols[n])
  {
    var target := Select(t.names, p);
    assert n in target;
  }

  /** Filling twice is filling once. */
  lemma ZeroFillIdempotent(t: Table, p: string)
    requires WellFormed(t) && ZeroFill(t, p).Ok?
    ensures ZeroFill(ZeroFill(t, p).value, p) == ZeroFill(t, p)
  {
    ZeroFillIntegers(t, p);
    ZeroFillNoop(ZeroFill(t, p).value, p);
  }

  /** A frame whose prefixed columns hold only integers is left as it is. */
  lemma ZeroFillNoop(u: Table, p: string)
    requires WellFormed(u)
    requires forall n, i | n in u.cols && p <= n && 0 <= i < u.rows :: u.cols[n][i].Int?
    ensures ZeroFill(u, p) == Ok(u)
  {
    var target := Select(u.names, p);
    if |target| > 0 {
      assert FirstUncastable(u, target).None?;
      var block := map n | n in target :: ZeroColumn(u.cols[n]);
      assert u.cols + block == u.cols by {
        forall n | n in block ensures block[n] == u.cols[n] {
          assert ZeroColumn(u.cols[n]) == u.cols[n];
        }
      }
    }
  }

  // ---------------------------------------------------------------------
  // crear_columna_combinada

  /** `gt(0)` of a cell that can be compared: missing is not positive. */
  predicate IsPositive(c: Cell)
  {
    c.Int? && c.i > 0
  }

  predicate Comparable(col: seq<Cell>)
  {
    forall i | 0 <= i < |col| :: col[i].Null? || col[i].Int?
  }

  /** The first of `ns` whose `gt(0)` would raise. */
  function FirstIncomparable(t: Table, ns: seq<string>): (r: Option<string>)
    requires forall n | n in ns :: n in t.cols
    ensures r.None? <==> forall n | n in ns :: Comparable(t.cols[n])
    ensures r.Some? ==> r.value in ns && !Comparable(t.cols[r.value])
  {
    if |ns| == 0 then None
    else if !Comparable(t.cols[ns[0]]) then Some(ns[0])
    else FirstIncomparable(t, ns[1..])
  }

  predicate RowCells(t: Table, fam: seq<string>, i: int)
  {
    forall n | n in fam :: n in t.cols && 0 <= i < |t.cols[n]|
  }

  /** The display names (text after the first `sep`) of the columns of
      `fam` that are positive on row `i`, in column order. */
  function Picked(t: Table, fam: seq<string>, i: int, sep: string): (r: seq<string>)
    requires RowCells(t, fam, i)
    ensures forall x :: x in r <==>
      exists n | n in fam :: IsPositive(t.cols[n][i]) && AfterFirst(n, sep) == Some(x)
    ensures |r| <= |fam|
  {
    if |fam| == 0 then []
    else
      var n := fam[0];
      var head := if IsPositive(t.cols[n][i]) && AfterFirst(n, sep).Some? then [AfterFirst(n, sep).value] else [];
      var rest := Picked(t, fam[1..], i, sep);
      assert forall m | m in fam :: m == n || m in fam[1..];
      head + rest
  }

  /** Column order is kept: picking from two runs of columns is picking
      from each in turn. */
  lemma {:induction false} PickedAppend(t: Table, a: seq<string>, b: seq<string>, i: int, sep: string)
    requires RowCells(t, a + b, i)
    ensures RowCells(t, a, i) && RowCells(t, b, i)
    ensures Picked(t, a + b, i, sep) == Picked(t, a, i, sep) + Picked(t, b, i, sep)
  {
    if |a| > 0 {
      assert (a + b)[1..] == a[1..] + b;
      PickedAppend(t, a[1..], b, i, sep);
    } else {
      assert a + b == b;
    }
  }

  /** The first column of `fam` that lacks `sep` and is positive on some
      row: joining its missing display name would raise. */
  function Unjoinable(t: Table, fam: seq<string>, sep: string): (r: Option<string>)
    requires WellFormed(t) && forall n | n in fam :: n in t.cols
    ensures r.None? <==> forall n, i | n in fam && 0 <= i < t.rows ::
      IsPositive(t.cols[n][i]) ==> AfterFirst(n, sep).Some?
    ensures r.Some? ==> r.value in fam
  {
    if |fam| == 0 then None
    else if AfterFirst(fam[0], sep).None? && exists i | 0 <= i < t.rows :: IsPositive(t.cols[fam[0]][i]) then
      Some(fam[0])
    else
      var r := Unjoinable(t, fam[1..], sep);
      assert forall m | m in fam :: m == fam[0] || m in fam[1..];
      r
  }

  /** The combined text of row `i`. */
  function CombinedCell(t: Table, fam: seq<string>, i: int, sep: string, joinSep: string, empty: string): Cell
    requires RowCells(t, fam, i)
  {
    var ps := Picked(t, fam, i, sep);
    Str(if |ps| == 0 then empty else Join(joinSep, ps))
  }

  function CombinedColumn(t: Table, fam: seq<string>, sep: string, joinSep: string, empty: string): (r: seq<Cell>)
    requires WellFormed(t) && forall n | n in fam :: n in t.cols
    ensures |r| == t.rows
  {
    seq(t.rows, i requires 0 <= i < t.rows => CombinedCell(t, fam, i, sep, joinSep, empty))
  }

  /** What `crear_columna_combinada(df, '^p', new, sep, join, empty)` leaves
      in the frame, or the exception it raises. */
  function Combine(t: Table, p: string, newName: string, sep: string, joinSep: string, empty: string): Result<Table>
    requires WellFormed(t)
  {
    var fam := Select(t.names, p);
    if |fam| == 0 then Ok(SetCol(t, newName, Const(Str(empty), t.rows)))
    else if |sep| == 0 then Err(JoinError(fam[0]))
    else match FirstIncomparable(t, fam)
      case Some(n) => Err(CompareError(n))
      case None =>
        match Unjoinable(t, fam, sep)
        case Some(n) => Err(JoinError(n))
        case None => Ok(SetCol(t, newName, CombinedColumn(t, fam, sep, joinSep, empty)))
  }

  method CrearColumnaCombinada(f: Frame, p: string, newName: string, sep: string, joinSep: string, empty: string)
    returns (o: Outcome)
    requires f.Valid()
    modifies f
    ensures f.Valid()
    ensures Agrees(o, Combine(old(f.Value()), p, newName, sep, joinSep, empty), f.Value())
  {
    var fam := Select(f.names, p);
    if |fam| == 0 {
      f.SetColumn(newName, Const(Str(empty), f.rows));
      return Pass;
    }
    if |sep| == 0 {
      return Fail(JoinError(fam[0]));
    }
    var t := f.Value();
    var bad := FirstIncomparable(t, fam);
    if bad.Some? {
      return Fail(CompareError(bad.value));
    }
    var lost := Unjoinable(t, fam, sep);
    if lost.Some? {
      return Fail(JoinError(lost.value));
    }
    f.SetColumn(newName, CombinedColumn(t, fam, sep, joinSep, empty));
    o := Pass;
  }

  /** With no matching column, every row of the new column is `empty`. */
  lemma CombineNoMatch(t: Table, p: string, newName: string, sep: string, joinSep: string, empty: string)
    requires WellFormed(t) && forall n | n in t.cols :: !(p <= n)
    ensures var r := Combine(t, p, newName, sep, joinSep, empty);
      && r.Ok? && r.value.rows == t.rows
      && forall i | 0 <= i < t.rows :: r.value.cols[newName][i] == Str(empty)
  {
    SelectNone(t.names, p);
  }

  /** Otherwise each row of the new column is `empty` when no matching
      column is positive on that row, and else the `joinSep`-join, in column
      order, of the display names of the positive ones; the new column is
      added at the end or overwritten in place, and nothing else changes. */
  lemma CombineRows(t: Table, p: string, newName: string, sep: string, joinSep: string, empty: string)
    requires WellFormed(t) && Combine(t, p, newName, sep, joinSep, empty).Ok?
    ensures var u := Combine(t, p, newName, sep, joinSep, empty).value;
      var fam := Select(t.names, p);
      && WellFormed(u) && u.rows == t.rows
      && u.names == (if newName in t.cols then t.names else t.names + [newName])
      && (forall n | n != newName :: SameCol(t, u, n))
      && forall i | 0 <= i < t.rows ::
        var ps := Picked(t, fam, i, sep);
        && (|ps| == 0 <==> forall n | n in fam :: !IsPositive(t.cols[n][i]))
        && u.cols[newName][i] == Str(if |ps| == 0 then empty else Join(joinSep, ps))
  {
    var fam := Select(t.names, p);
    CombineValue(t, p, newName, sep, joinSep, empty);
    if |fam| > 0 {
      CombinedColumnRows(t, fam, sep, joinSep, empty);
    }
  }

  /** Row by row, the combined column of a family whose positive columns
      all have display names. */
  lemma CombinedColumnRows(t: Table, fam: seq<string>, sep: string, joinSep: string, empty: string)
    requires WellFormed(t) && forall n | n in fam :: n in t.cols
    requires forall n, i | n in fam && 0 <= i < t.rows :: IsPositive(t.cols[n][i]) ==> AfterFirst(n, sep).Some?
    ensures var c := CombinedColumn(t, fam, sep, joinSep, empty);
      forall i | 0 <= i < t.rows ::
        var ps := Picked(t, fam, i, sep);
        && (|ps| == 0 <==> forall n | n in fam :: !IsPositive(t.cols[n][i]))
        && c[i] == Str(if |ps| == 0 then empty else Join(joinSep, ps))
  {
    forall i | 0 <= i < t.rows
      ensures |Picked(t, fam, i, sep)| == 0 <==> forall n | n in fam :: !IsPositive(t.cols[n][i])
    {
      PickedNone(t, fam, i, sep);
    }
  }

  /** The frame `Combine` returns: the new column is the constant `empty`
      when nothing matches, and the combined column otherwise. */
  lemma CombineValue(t: Table, p: string, newName: string, sep: string, joinSep: string, empty: string)
    requires WellFormed(t) && Combine(t, p, newName, sep, joinSep, empty).Ok?
    ensures var fam := Select(t.names, p);
      && (forall n, i | n in fam && 0 <= i < t.rows :: IsPositive(t.cols[n][i]) ==> AfterFirst(n, sep).Some?)
      && Combine(t, p, newName, sep, joinSep, empty)
         == Ok(SetCol(t, newName, if |fam| == 0 then Const(Str(empty), t.rows) else CombinedColumn(t, fam, sep, joinSep, empty)))
  {
    var fam := Select(t.names, p);
    if |fam| > 0 {
      assert |sep| > 0 && FirstIncomparable(t, fam).None? && Unjoinable(t, fam, sep).None?;
    }
  }

  /** When every positive column has a display name, nothing is picked
      exactly when no column is positive. */
  lemma PickedNone(t: Table, fam: seq<string>, i: int, sep: string)
    requires RowCells(t, fam, i)
    requires forall n | n in fam :: IsPositive(t.cols[n][i]) ==> AfterFirst(n, sep).Some?
    ensures |Picked(t, fam, i, sep)| == 0 <==> forall n | n in fam :: !IsPositive(t.cols[n][i])
  {
    var ps := Picked(t, fam, i, sep);
    forall n | n in fam && IsPositive(t.cols[n][i]) ensures |ps| > 0 {
      assert AfterFirst(n, sep).value in ps;
    }
    if |ps| > 0 {
      assert ps[0] in ps;
    }
  }

  /** The errors: a matching column holding text or a timestamp cannot be
      compared with 0, and a positive column without the name separator
      has no display name. */
  lemma CombineRaises(t: Table, p: string, newName: string, sep: string, joinSep: string, empty: string)
    requires WellFormed(t) && |sep| > 0
    ensures var r := Combine(t, p, newName, sep, joinSep, empty);
      var fam := Select(t.names, p);
      && (r.Err? <==>
            (exists n | n in fam :: !Comparable(t.cols[n]))
            || exists n, i | n in fam && 0 <= i < t.rows :: IsPositive(t.cols[n][i]) && AfterFirst(n, sep).None?)
      && (r.Err? ==> (r.error.CompareError? || r.error.JoinError?))
  {
    var fam := Select(t.names, p);
    if |fam| == 0 {
      SelectNone(t.names, p);
      assert forall n | n in fam :: false;
    }
  }

  // ---------------------------------------------------------------------
  // Categories shared by otros_a_dummy and agregar_cantidades_otras

  /** The distinct text values of a column in code-point order: the
      categories `pd.get_dummies` makes one column each for. Missing cells
      make none. */
  function Labels(col: seq<Cell>): (r: seq<string>)
    ensures StrictlySorted(r)
    ensures forall v :: v in r <==> Str(v) in col
  {
    if |col| == 0 then []
    else
      var init := col[..|col| - 1];
      var r := Labels(init);
      assert forall c :: c in col <==> c in init || c == col[|col| - 1] by {
        assert col == init + [col[|col| - 1]];
      }
      if col[|col| - 1].Str? then Insert(r, col[|col| - 1].s) else r
  }

  predicate TextOrMissing(col: seq<Cell>)
  {
    forall i | 0 <= i < |col| :: col[i].Null? || col[i].Str?
  }

  /** The category labels of the source column; numbers or timestamps
      among them are outside the model. */
  function Categories(col: seq<Cell>, src: string): (r: Result<seq<string>>)
    ensures r.Ok? <==> TextOrMissing(col)
    ensures r.Ok? ==> r.value == Labels(col)
    ensures r.Err? ==> r.error == Unsupported(src)
  {
    if TextOrMissing(col) then Ok(Labels(col)) else Err(Unsupported(src))
  }

  /** `prefix + sep + v` for every category `v`. */
  function DummyNames(prefix: string, sep: string, vals: seq<string>): (r: seq<string>)
    ensures |r| == |vals|
    ensures forall k | 0 <= k < |vals| :: r[k] == prefix + sep + vals[k]
  {
    seq(|vals|, k requires 0 <= k < |vals| => prefix + sep + vals[k])
  }

  lemma DummyNamesSnoc(prefix: string, sep: string, vals: seq<string>)
    requires |vals| > 0
    ensures DummyNames(prefix, sep, vals)
         == DummyNames(prefix, sep, vals[..|vals| - 1]) + [prefix + sep + vals[|vals| - 1]]
  {
  }

  lemma DummyNamesDistinct(prefix: string, sep: string, vals: seq<string>)
    requires NoDups(vals)
    ensures NoDups(DummyNames(prefix, sep, vals))
  {
    var ns := DummyNames(prefix, sep, vals);
    forall i, j | 0 <= i < j < |ns| ensures ns[i] != ns[j] {
      if ns[i] == ns[j] {
        PrefixCancel(prefix + sep, vals[i], vals[j]);
      }
    }
  }

  lemma SortedNoDups(s: seq<string>)
    requires StrictlySorted(s)
    ensures NoDups(s)
  {
    forall i, j | 0 <= i < j < |s| ensures s[i] != s[j] {
      StrictlySortedDistinct(s, i, j);
    }
  }

  /** `w` on the rows whose source is `v`, 0 elsewhere. */
  function Spread(col: seq<Cell>, w: seq<int>, v: string): (r: seq<Cell>)
    requires |w| == |col|
    ensures |r| == |col|
    ensures forall i | 0 <= i < |col| :: r[i] == Int(if col[i] == Str(v) then w[i] else 0)
  {
    seq(|col|, i requires 0 <= i < |col| => Int(if col[i] == Str(v) then w[i] else 0))
  }

  function Ones(n: nat): (r: seq<int>)
    ensures |r| == n && forall i | 0 <= i < n :: r[i] == 1
  {
    seq(n, _ => 1)
  }

  function IntOf(c: Cell): int
  {
    if c.Int? then c.i else 0
  }

  /** The integer cells of row `i` over the columns `ns`, added up. */
  function RowSum(t: Table, ns: seq<string>, i: int): int
    requires RowCells(t, ns, i)
  {
    if |ns| == 0 then 0 else IntOf(t.cols[ns[0]][i]) + RowSum(t, ns[1..], i)
  }

  /** Over distinct categories, the spread cells of one row add up to the
      row's weight when its source is one of them, and to 0 otherwise. */
  lemma {:induction false} RowSumSpread(t: Table, prefix: string, sep: string, vals: seq<string>,
                                        col: seq<Cell>, w: seq<int>, i: int)
    requires NoDups(vals) && |w| == |col| && 0 <= i < |col|
    requires forall v | v in vals :: prefix + sep + v in t.cols && t.cols[prefix + sep + v] == Spread(col, w, v)
    ensures RowCells(t, DummyNames(prefix, sep, vals), i)
    ensures RowSum(t, DummyNames(prefix, sep, vals), i) ==
      if col[i].Str? && col[i].s in vals then w[i] else 0
  {
    var ns := DummyNames(prefix, sep, vals);
    if |vals| > 0 {
      var rest := vals[1..];
      assert NoDups(rest) && vals[0] !in rest by { NoDupsTail(vals); }
      assert ns[1..] == DummyNames(prefix, sep, rest);
      assert forall v | v in rest :: v in vals;
      RowSumSpread(t, prefix, sep, rest, col, w, i);
      assert vals[0] in vals;
    }
  }

  // ---------------------------------------------------------------------
  // otros_a_dummy

  /** The 0/1 columns of `pd.get_dummies(...).astype(int)`, keyed by name. */
  function DummyBlock(col: seq<Cell>, prefix: string, sep: string, vals: seq<string>): (b: map<string, seq<Cell>>)
    ensures forall n :: n in b <==> n in DummyNames(prefix, sep, vals)
    ensures forall v | v in vals :: b[prefix + sep + v] == Spread(col, Ones(|col|), v)
    ensures forall n | n in b :: |b[n]| == |col|
  {
    var ns := DummyNames(prefix, sep, vals);
    var b := map n | n in ns :: Spread(col, Ones(|col|), n[|prefix + sep|..]);
    assert forall v | v in vals :: prefix + sep + v in ns && (prefix + sep + v)[|prefix + sep|..] == v by {
      forall v | v in vals ensures prefix + sep + v in ns {
        var k :| 0 <= k < |vals| && vals[k] == v;
        assert ns[k] == prefix + sep + v;
      }
    }
    b
  }

  /** The frame right after `pd.concat`, before any column is dropped. */
  function WithDummies(t: Table, src: string, prefix: string, sep: string): Result<Table>
    requires WellFormed(t) && src in t.cols
  {
    var vals :- Categories(t.cols[src], src);
    var ns := DummyNames(prefix, sep, vals);
    match FirstPresent(t, ns)
    case Some(n) => Err(DuplicateName(n))
    case None =>
      SortedNoDups(vals);
      DummyNamesDistinct(prefix, sep, vals);
      Ok(Concat(t, ns, DummyBlock(t.cols[src], prefix, sep, vals)))
  }

  /** What `otros_a_dummy(df, src, prefix, sep, drop_source, drop_columns)`
      returns, or the exception it raises. A dummy whose name is already a
      column is outside the model. */
  function Dummies(t: Table, src: string, prefix: string, sep: string, dropSource: bool, drop: seq<string>): Result<Table>
    requires WellFormed(t)
  {
    if src !in t.cols then Ok(t)
    else
      var t1 :- WithDummies(t, src, prefix, sep);
      var t2 := if |drop| > 0 then Drop(t1, drop) else t1;
      Ok(if dropSource then Drop(t2, [src]) else t2)
  }

  method OtrosADummy(f: Frame, src: string, prefix: string, sep: string, dropSource: bool, drop: seq<string>)
    returns (g: Frame, o: Outcome)
    requires f.Valid()
    ensures g.Valid()
    ensures Agrees(o, Dummies(f.Value(), src, prefix, sep, dropSource, drop), g.Value())
    ensures src !in f.cols ==> g == f
    ensures src in f.cols ==> fresh(g)
  {
    var t := f.Value();
    if src !in t.cols {
      return f, Pass;
    }
    var cats := Categories(t.cols[src], src);
    if cats.Err? {
      g := new Frame(t);
      return g, Fail(cats.error);
    }
    var vals := cats.value;
    var ns := DummyNames(prefix, sep, vals);
    var clash := FirstPresent(t, ns);
    if clash.Some? {
      g := new Frame(t);
      return g, Fail(DuplicateName(clash.value));
    }
    SortedNoDups(vals);
    DummyNamesDistinct(prefix, sep, vals);
    g := new Frame(Concat(t, ns, DummyBlock(t.cols[src], prefix, sep, vals)));
    if |drop| > 0 {
      g.DropColumns(drop);
    }
    if dropSource {
      g.DropColumns([src]);
    }
    o := Pass;
  }

  /** A missing source column leaves the frame as it is. */
  lemma DummiesNoSource(t: Table, src: string, prefix: string, sep: string, dropSource: bool, drop: seq<string>)
    requires WellFormed(t) && src !in t.cols
    ensures Dummies(t, src, prefix, sep, dropSource, drop) == Ok(t)
  {
  }

  /** Right after the concat there is one column `prefix + sep + v` per
      distinct text value `v` of the source, and none for missing cells;
      on every row the new columns hold a single 1, in the column of the
      row's value, when the source is not missing, and all 0 when it is. */
  lemma DummiesOneHot(t: Table, src: string, prefix: string, sep: string)
    requires WellFormed(t) && src in t.cols && WithDummies(t, src, prefix, sep).Ok?
    ensures var u := WithDummies(t, src, prefix, sep).value;
      var col := t.cols[src];
      var ns := DummyNames(prefix, sep, Labels(col));
      && u.names == t.names + ns && u.rows == t.rows
      && (forall v :: prefix + sep + v in ns <==> Str(v) in col)
      && (forall n | n in t.cols :: u.cols[n] == t.cols[n])
      && (forall v, i | Str(v) in col && 0 <= i < t.rows ::
            u.cols[prefix + sep + v][i] == Int(if col[i] == Str(v) then 1 else 0))
      && (forall i | 0 <= i < t.rows ::
            RowCells(u, ns, i) && RowSum(u, ns, i) == if col[i].Null? then 0 else 1)
  {
    var col := t.cols[src];
    var vals := Labels(col);
    var u := WithDummies(t, src, prefix, sep).value;
    var ns := DummyNames(prefix, sep, vals);
    WithDummiesValue(t, src, prefix, sep);
    DummyNamesLabels(prefix, sep, col);
    forall i | 0 <= i < t.rows
      ensures RowCells(u, ns, i) && RowSum(u, ns, i) == if col[i].Null? then 0 else 1
    {
      RowSumSpread(u, prefix, sep, vals, col, Ones(|col|), i);
      if col[i].Str? {
        assert Str(col[i].s) in col;
      }
    }
  }

  /** The frame after the concat, field by field. */
  lemma WithDummiesValue(t: Table, src: string, prefix: string, sep: string)
    requires WellFormed(t) && src in t.cols && WithDummies(t, src, prefix, sep).Ok?
    ensures var u := WithDummies(t, src, prefix, sep).value;
      var col := t.cols[src];
      && NoDups(Labels(col))
      && u.names == t.names + DummyNames(prefix, sep, Labels(col)) && u.rows == t.rows
      && u.cols == t.cols + DummyBlock(col, prefix, sep, Labels(col))
  {
    SortedNoDups(Labels(t.cols[src]));
  }

  /** The dummy names are exactly `prefix + sep + v` for the text values `v`
      of the column. */
  lemma DummyNamesLabels(prefix: string, sep: string, col: seq<Cell>)
    ensures var ns := DummyNames(prefix, sep, Labels(col));
      forall v :: prefix + sep + v in ns <==> Str(v) in col
  {
    var vals := Labels(col);
    var ns := DummyNames(prefix, sep, vals);
    forall v ensures prefix + sep + v in ns <==> Str(v) in col {
      if prefix + sep + v in ns {
        var k :| 0 <= k < |ns| && ns[k] == prefix + sep + v;
        PrefixCancel(prefix + sep, vals[k], v);
      }
      if Str(v) in col {
        var k :| 0 <= k < |vals| && vals[k] == v;
        assert ns[k] == prefix + sep + v;
      }
    }
  }

  /** After the drops every name in `drop_columns` is absent (names that
      were never there are ignored), the source is absent when
      `drop_source` is set, and every other column of the concat is kept. */
  lemma DummiesDrops(t: Table, src: string, prefix: string, sep: string, dropSource: bool, drop: seq<string>)
    requires WellFormed(t) && src in t.cols && Dummies(t, src, prefix, sep, dropSource, drop).Ok?
    ensures var u := Dummies(t, src, prefix, sep, dropSource, drop).value;
      var w := WithDummies(t, src, prefix, sep).value;
      && u.rows == t.rows
      && (forall n | n in drop :: n !in u.cols)
      && (dropSource ==> src !in u.cols)
      && (forall n | n in w.cols && n !in drop && (n != src || !dropSource) :: n in u.cols && u.cols[n] == w.cols[n])
  {
  }

  // ---------------------------------------------------------------------
  // agregar_cantidades_otras

  /** `pd.to_numeric(x, errors='coerce').fillna(0).astype(int)` of one cell:
      an integer, or a run of digits, or 0. */
  function QtyCell(c: Cell): int
  {
    match c
    case Int(i) => i
    case Str(s) => if IsDecimal(s) then DecimalValue(s) else 0
    case _ => 0
  }

  function Quantities(col: seq<Cell>): (r: seq<int>)
    ensures |r| == |col| && forall i | 0 <= i < |col| :: r[i] == QtyCell(col[i])
  {
    seq(|col|, i requires 0 <= i < |col| => QtyCell(col[i]))
  }

  /** The frame after the loop has written the columns of `vals` in order. */
  function SpreadAll(t: Table, prefix: string, sep: string, vals: seq<string>, col: seq<Cell>, w: seq<int>): (r: Table)
    requires WellFormed(t) && |col| == t.rows && |w| == t.rows
    ensures WellFormed(r) && r.rows == t.rows
  {
    if |vals| == 0 then t
    else
      var last := vals[|vals| - 1];
      SetCol(SpreadAll(t, prefix, sep, vals[..|vals| - 1], col, w), prefix + sep + last, Spread(col, w, last))
  }

  /** One more turn of the loop writes one more category column. */
  lemma SpreadAllStep(t: Table, prefix: string, sep: string, vals: seq<string>, k: int, col: seq<Cell>, w: seq<int>)
    requires WellFormed(t) && |col| == t.rows && |w| == t.rows && 0 <= k < |vals|
    ensures SpreadAll(t, prefix, sep, vals[..k + 1], col, w)
         == SetCol(SpreadAll(t, prefix, sep, vals[..k], col, w), prefix + sep + vals[k], Spread(col, w, vals[k]))
  {
    assert vals[..k + 1][..k] == vals[..k];
  }

  /** Each category's column holds the spread quantity, whether it was new
      (added at the end) or already there (overwritten in place, never
      added to). */
  lemma {:induction false} SpreadAllCols(t: Table, prefix: string, sep: string, vals: seq<string>, col: seq<Cell>, w: seq<int>)
    requires WellFormed(t) && |col| == t.rows && |w| == t.rows
    ensures var r := SpreadAll(t, prefix, sep, vals, col, w);
      forall v | v in vals :: prefix + sep + v in r.cols && r.cols[prefix + sep + v] == Spread(col, w, v)
  {
    if |vals| > 0 {
      var init := vals[..|vals| - 1];
      var last := vals[|vals| - 1];
      SpreadAllCols(t, prefix, sep, init, col, w);
      var r := SpreadAll(t, prefix, sep, vals, col, w);
      forall v | v in vals ensures prefix + sep + v in r.cols && r.cols[prefix + sep + v] == Spread(col, w, v) {
        if v != last {
          assert v in init;
          if prefix + sep + v == prefix + sep + last { PrefixCancel(prefix + sep, v, last); }
        }
      }
    }
  }

  /** Every column that is not a category's keeps its place and its cells;
      category columns are only ever added after the existing names. */
  lemma {:induction false} SpreadAllKeeps(t: Table, prefix: string, sep: string, vals: seq<string>, col: seq<Cell>, w: seq<int>)
    requires WellFormed(t) && |col| == t.rows && |w| == t.rows
    ensures var r := SpreadAll(t, prefix, sep, vals, col, w);
      && t.names <= r.names
      && (forall n | n !in DummyNames(prefix, sep, vals) :: (n in r.cols <==> n in t.cols))
      && (forall n | n in t.cols && n !in DummyNames(prefix, sep, vals) :: r.cols[n] == t.cols[n])
  {
    if |vals| > 0 {
      var init := vals[..|vals| - 1];
      var last := vals[|vals| - 1];
      SpreadAllKeeps(t, prefix, sep, init, col, w);
      var ds := DummyNames(prefix, sep, init);
      var nm := prefix + sep + last;
      DummyNamesSnoc(prefix, sep, vals);
      var r0 := SpreadAll(t, prefix, sep, init, col, w);
      var r := SpreadAll(t, prefix, sep, vals, col, w);
      assert r.cols == r0.cols[nm := Spread(col, w, last)];
      assert t.names <= r0.names <= r.names;
      forall n | n !in ds + [nm] ensures (n in r.cols <==> n in t.cols) && (n in t.cols ==> r.cols[n] == t.cols[n]) {
        assert n != nm && n !in ds;
      }
    }
  }

  /** What `agregar_cantidades_otras(df, src, qty, prefix, sep, drop_source,
      drop_quantity)` leaves in the frame, or the exception it raises. */
  function Cantidades(t: Table, src: string, qty: string, prefix: string, sep: string,
                      dropSource: bool, dropQty: bool): Result<Table>
    requires WellFormed(t)
  {
    if src !in t.cols || qty !in t.cols then Ok(t)
    else
      var vals :- Categories(t.cols[src], src);
      var t1 := SpreadAll(t, prefix, sep, vals, t.cols[src], Quantities(t.cols[qty]));
      var t2 := if dropSource then Drop(t1, [src]) else t1;
      Ok(if dropQty then Drop(t2, [qty]) else t2)
  }

  method AgregarCantidadesOtras(f: Frame, src: string, qty: string, prefix: string, sep: string,
                                dropSource: bool, dropQty: bool) returns (o: Outcome)
    requires f.Valid()
    modifies f
    ensures f.Valid()
    ensures Agrees(o, Cantidades(old(f.Value()), src, qty, prefix, sep, dropSource, dropQty), f.Value())
  {
    if src !in f.cols || qty !in f.cols {
      return Pass;
    }
    ghost var t := f.Value();
    var col := f.cols[src];
    var cats := Categories(col, src);
    if cats.Err? {
      return Fail(cats.error);
    }
    var vals := cats.value;
    var w := Quantities(f.cols[qty]);
    var k := 0;
    while k < |vals|
      invariant 0 <= k <= |vals|
      invariant f.Valid() && f.rows == t.rows
      invariant f.Value() == SpreadAll(t, prefix, sep, vals[..k], col, w)
    {
      f.SetColumn(prefix + sep + vals[k], Spread(col, w, vals[k]));
      SpreadAllStep(t, prefix, sep, vals, k, col, w);
      k := k + 1;
    }
    assert vals[..k] == vals;
    ghost var t1 := f.Value();
    if dropSource {
      f.DropColumns([src]);
    }
    ghost var t2 := f.Value();
    assert t2 == if dropSource then Drop(t1, [src]) else t1;
    if dropQty {
      f.DropColumns([qty]);
    }
    assert f.Value() == if dropQty then Drop(t2, [qty]) else t2;
    CantidadesSpread(t, src, qty, prefix, sep, dropSource, dropQty);
    o := Pass;
  }

  /** On a text source, `Cantidades` is the spread followed by the drops. */
  lemma CantidadesSpread(t: Table, src: string, qty: string, prefix: string, sep: string,
                         dropSource: bool, dropQty: bool)
    requires WellFormed(t) && src in t.cols && qty in t.cols && TextOrMissing(t.cols[src])
    ensures var t1 := SpreadAll(t, prefix, sep, Labels(t.cols[src]), t.cols[src], Quantities(t.cols[qty]));
      var t2 := if dropSource then Drop(t1, [src]) else t1;
      Cantidades(t, src, qty, prefix, sep, dropSource, dropQty) == Ok(if dropQty then Drop(t2, [qty]) else t2)
  {
  }

  /** Nothing happens unless both the source and the quantity columns exist. */
  lemma CantidadesNeedsBoth(t: Table, src: string, qty: string, prefix: string, sep: string,
                            dropSource: bool, dropQty: bool)
    requires WellFormed(t) && (src !in t.cols || qty !in t.cols)
    ensures Cantidades(t, src, qty, prefix, sep, dropSource, dropQty) == Ok(t)
  {
  }

  /** Each category column survives the drops with its spread quantities. */
  lemma CantidadesCols(t: Table, src: string, qty: string, prefix: string, sep: string,
                       dropSource: bool, dropQty: bool)
    requires WellFormed(t) && src in t.cols && qty in t.cols
    requires Cantidades(t, src, qty, prefix, sep, dropSource, dropQty).Ok?
    requires forall v | Str(v) in t.cols[src] :: prefix + sep + v != src && prefix + sep + v != qty
    ensures var u := Cantidades(t, src, qty, prefix, sep, dropSource, dropQty).value;
      var col := t.cols[src];
      && u.rows == t.rows
      && forall v | v in Labels(col) ::
           prefix + sep + v in u.cols && u.cols[prefix + sep + v] == Spread(col, Quantities(t.cols[qty]), v)
  {
    var col := t.cols[src];
    var vals := Labels(col);
    var w := Quantities(t.cols[qty]);
    var t1 := SpreadAll(t, prefix, sep, vals, col, w);
    SpreadAllCols(t, prefix, sep, vals, col, w);
    var t2 := if dropSource then Drop(t1, [src]) else t1;
    assert Cantidades(t, src, qty, prefix, sep, dropSource, dropQty) == Ok(if dropQty then Drop(t2, [qty]) else t2);
  }

  /** Column `prefix + sep + v` holds the quantity (missing or not a number
      read as 0) on the rows whose source is `v` and 0 elsewhere, so on every
      row the category columns add up to the quantity when the source is
      given and to 0 when it is missing. */
  lemma CantidadesConserve(t: Table, src: string, qty: string, prefix: string, sep: string,
                           dropSource: bool, dropQty: bool)
    requires WellFormed(t) && src in t.cols && qty in t.cols
    requires Cantidades(t, src, qty, prefix, sep, dropSource, dropQty).Ok?
    requires forall v | Str(v) in t.cols[src] :: prefix + sep + v != src && prefix + sep + v != qty
    ensures var u := Cantidades(t, src, qty, prefix, sep, dropSource, dropQty).value;
      var col := t.cols[src];
      var ns := DummyNames(prefix, sep, Labels(col));
      && u.rows == t.rows
      && (forall v, i | Str(v) in col && 0 <= i < t.rows ::
            prefix + sep + v in u.cols &&
            u.cols[prefix + sep + v][i] == Int(if col[i] == Str(v) then QtyCell(t.cols[qty][i]) else 0))
      && (forall i | 0 <= i < t.rows ::
            RowCells(u, ns, i) && RowSum(u, ns, i) == if col[i].Null? then 0 else QtyCell(t.cols[qty][i]))
  {
    var col := t.cols[src];
    var vals := Labels(col);
    var w := Quantities(t.cols[qty]);
    var u := Cantidades(t, src, qty, prefix, sep, dropSource, dropQty).value;
    CantidadesCols(t, src, qty, prefix, sep, dropSource, dropQty);
    SortedNoDups(vals);
    forall i | 0 <= i < t.rows
      ensures RowCells(u, DummyNames(prefix, sep, vals), i)
      ensures RowSum(u, DummyNames(prefix, sep, vals), i) == if col[i].Null? then 0 else QtyCell(t.cols[qty][i])
    {
      RowSumSpread(u, prefix, sep, vals, col, w, i);
      if col[i].Str? {
        assert Str(col[i].s) in col;
      }
    }
  }
}
