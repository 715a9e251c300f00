/**
 * The rows of a multi-row insert: which values they bind, and the text
 * they add when every row has the same columns.
 */
module MultiRows {
  import opened Values
  import opened SqlText
  import opened SqlContext
  import opened Sifter
  import opened QuerySpec

  /** The columns of each row. */
  ghost function RowsCols(rows: seq<Value>, opt: Options, keepAll: bool): (r: seq<seq<Column>>)
    ensures |r| == |rows| && forall j | 0 <= j < |rows| :: r[j] == SiftStruct(rows[j], opt, keepAll)
  {
    seq(|rows|, j requires 0 <= j < |rows| => SiftStruct(rows[j], opt, keepAll))
  }

  /** The rows from row `i` on, given their columns. */
  function RowsFold(st: State, colss: seq<seq<Column>>, i: nat): State
    decreases |colss| - i
  {
    if i >= |colss| then st else RowsFold(RowColumns(st, colss[i], i == 0), colss, i + 1)
  }

  /** The values bound by the rows from row `i` on, row after row. */
  function RowsVals(colss: seq<seq<Column>>, i: nat): seq<Value>
    decreases |colss| - i
  {
    if i >= |colss| then [] else Vals(colss[i]) + RowsVals(colss, i + 1)
  }

  /** One row binds its column values and changes neither the options nor
      `keepAll`; a row with columns does not panic, and after the first it
      appends `, ` and its placeholder group. */
  lemma RowColumnsFacts(st: State, cols: seq<Column>, first: bool)
    ensures var r := RowColumns(st, cols, first);
      && r.opt == st.opt && r.keepAll == st.keepAll && r.binds == st.binds + Vals(cols)
      && (|cols| > 0 ==> r.panicked == st.panicked)
      && (!first && |cols| > 0 ==> r.sql == Join(Join(st.sql, ", "), RowText(|cols|)))
  {
    if |cols| == 0 {
      assert Vals(cols) == [];
    }
  }

  lemma FoldKeepsOne(st: State, cols: seq<Column>, first: bool)
    ensures RowColumns(st, cols, first).opt == st.opt && RowColumns(st, cols, first).keepAll == st.keepAll
  {
  }

  /** One row of a multi-row insert is one step of the fold. */
  lemma IsFoldStep(st: State, rows: seq<Value>, i: nat, opt: Options, keepAll: bool)
    requires i < |rows| && st.opt == opt && st.keepAll == keepAll
    ensures exists st1: State ::
      && st1.opt == opt && st1.keepAll == keepAll
      && MultiRow(st, rows, i) == MultiRow(st1, rows, i + 1)
      && RowsFold(st, RowsCols(rows, opt, keepAll), i) == RowsFold(st1, RowsCols(rows, opt, keepAll), i + 1)
  {
    var st1 := InsertRow(st, rows[i], i == 0);
    FoldKeepsOne(st, SiftStruct(rows[i], opt, keepAll), i == 0);
    assert MultiRow(st, rows, i) == MultiRow(st1, rows, i + 1);
  }

  /** A multi-row insert is the fold of its rows' columns. */
  lemma {:induction false} MultiRowIsFold(st: State, rows: seq<Value>, i: nat, opt: Options, keepAll: bool)
    requires st.opt == opt && st.keepAll == keepAll
    ensures MultiRow(st, rows, i) == RowsFold(st, RowsCols(rows, opt, keepAll), i)
    decreases |rows| - i
  {
    if i < |rows| {
      IsFoldStep(st, rows, i, opt, keepAll);
      var st1: State :|
        && st1.opt == opt && st1.keepAll == keepAll
        && MultiRow(st, rows, i) == MultiRow(st1, rows, i + 1)
        && RowsFold(st, RowsCols(rows, opt, keepAll), i) == RowsFold(st1, RowsCols(rows, opt, keepAll), i + 1);
      MultiRowIsFold(st1, rows, i + 1, opt, keepAll);
    }
  }

  lemma AppendAssoc<T>(a: seq<T>, b: seq<T>, c: seq<T>)
    ensures a + b + c == a + (b + c)
  {
  }

  /** The rows keep the options and `keepAll`. */
  lemma {:induction false} FoldKeeps(st: State, colss: seq<seq<Column>>, i: nat)
    ensures var r := RowsFold(st, colss, i);
      r.opt == st.opt && r.keepAll == st.keepAll
    decreases |colss| - i
  {
    if i < |colss| {
      RowColumnsFacts(st, colss[i], i == 0);
      FoldKeeps(RowColumns(st, colss[i], i == 0), colss, i + 1);
    }
  }

  lemma RowColumnsBinds(st: State, cols: seq<Column>, first: bool)
    ensures RowColumns(st, cols, first).binds == st.binds + Vals(cols)
  {
    if |cols| == 0 {
      assert Vals(cols) == [];
    }
  }

  /** One row binds its values. */
  lemma FoldBindsStep(st: State, colss: seq<seq<Column>>, i: nat)
    requires i < |colss|
    ensures exists st1: State ::
      && RowsFold(st, colss, i) == RowsFold(st1, colss, i + 1)
      && st1.binds == st.binds + Vals(colss[i])
  {
    var st1 := RowColumns(st, colss[i], i == 0);
    RowColumnsBinds(st, colss[i], i == 0);
    assert RowsFold(st, colss, i) == RowsFold(st1, colss, i + 1);
  }

  /** The rows bind each row's values in row order. */
  lemma {:induction false} FoldBinds(st: State, colss: seq<seq<Column>>, i: nat)
    ensures RowsFold(st, colss, i).binds == st.binds + RowsVals(colss, i)
    decreases |colss| - i
  {
    if i < |colss| {
      FoldBindsStep(st, colss, i);
      var st1: State :| RowsFold(st, colss, i) == RowsFold(st1, colss, i + 1) && st1.binds == st.binds + Vals(colss[i]);
      var rest := RowsVals(colss, i + 1);
      FoldBinds(st1, colss, i + 1);
      AppendAssoc(st.binds, Vals(colss[i]), rest);
    } else {
      assert st.binds + [] == st.binds;
    }
  }

  /** Rows that all have columns do not panic. */
  lemma {:induction false} FoldNoPanic(st: State, colss: seq<seq<Column>>, i: nat)
    requires forall j | i <= j < |colss| :: |colss[j]| > 0
    ensures RowsFold(st, colss, i).panicked == st.panicked
    decreases |colss| - i
  {
    if i < |colss| {
      RowColumnsFacts(st, colss[i], i == 0);
      FoldNoPanic(RowColumns(st, colss[i], i == 0), colss, i + 1);
    }
  }

  lemma MulStep(k: nat, n: nat)
    requires k >= 1
    ensures k * n == (k - 1) * n + n
  {
  }

  /** Rows of `n` columns each bind `n` values each. */
  lemma {:induction false} RowsValsLength(colss: seq<seq<Column>>, i: nat, n: nat)
    requires i <= |colss|
    requires forall j | i <= j < |colss| :: |colss[j]| == n
    ensures |RowsVals(colss, i)| == (|colss| - i) * n
    decreases |colss| - i
  {
    if i < |colss| {
      RowsValsLength(colss, i + 1, n);
      MulStep(|colss| - i, n);
    }
  }

  lemma RowTextEnd(n: nat)
    requires n >= 1
    ensures RowText(n) != "" && RowText(n)[0] == '(' && RowText(n)[|RowText(n)| - 1] == ')'
  {
  }

  /** A row after the first is `, ` and its placeholder group, appended as
      they are. */
  lemma NextRowText(s: string, n: nat)
    requires s != "" && n >= 1
    ensures Join(Join(s, ", "), RowText(n)) == s + (", " + RowText(n))
  {
    RowTextEnd(n);
    JoinShape(s, ", ");
    assert Join(s, ", ") == s + ", ";
    JoinShape(s + ", ", RowText(n));
  }

  lemma RepeatStep(s: string, x: string, k: nat)
    requires k >= 1
    ensures (s + x) + Repeat(x, k - 1) == s + Repeat(x, k)
  {
    assert Repeat(x, k) == x + Repeat(x, k - 1);
  }

  /** One row after the first appends `, ( ?, … )` to the text. */
  lemma LaterTextStep(st: State, colss: seq<seq<Column>>, i: nat, n: nat)
    requires 0 < i < |colss| && n >= 1 && st.sql != "" && |colss[i]| == n
    ensures exists st1: State ::
      && st1.sql == st.sql + (", " + RowText(n))
      && RowsFold(st, colss, i) == RowsFold(st1, colss, i + 1)
  {
    var st1 := RowColumns(st, colss[i], false);
    RowColumnsFacts(st, colss[i], false);
    NextRowText(st.sql, n);
    assert RowsFold(st, colss, i) == RowsFold(st1, colss, i + 1);
  }

  /** The rows after the first, each of `n` columns: `, ( ?, … )` per row. */
  lemma {:induction false} FoldLaterText(st: State, colss: seq<seq<Column>>, i: nat, n: nat)
    requires 0 < i <= |colss| && n >= 1 && st.sql != ""
    requires forall j | i <= j < |colss| :: |colss[j]| == n
    ensures RowsFold(st, colss, i).sql == st.sql + Repeat(", " + RowText(n), |colss| - i)
    decreases |colss| - i
  {
    var x := ", " + RowText(n);
    if i < |colss| {
      LaterTextStep(st, colss, i, n);
      var st1: State :| st1.sql == st.sql + x && RowsFold(st, colss, i) == RowsFold(st1, colss, i + 1);
      FoldLaterText(st1, colss, i + 1, n);
      RepeatStep(st.sql, x, |colss| - i);
    } else {
      assert Repeat(x, 0) == "";
    }
  }

  /** Rows of one shape have, with every value kept, as many columns as the
      first. */
  lemma SameShapeWidth(rows: seq<Value>, opt: Options)
    requires |rows| > 0
    requires forall j | 0 <= j < |rows| :: SameShape(rows[j], rows[0])
    ensures forall j | 0 <= j < |rows| :: |SiftStruct(rows[j], opt, true)| == |SiftStruct(rows[0], opt, true)|
  {
    forall j | 0 <= j < |rows|
      ensures |SiftStruct(rows[j], opt, true)| == |SiftStruct(rows[0], opt, true)|
    {
      KeepAllSameColumns(rows[j], rows[0], opt);
      assert |Names(SiftStruct(rows[j], opt, true))| == |Names(SiftStruct(rows[0], opt, true))|;
    }
  }

  /** The text of rows of `n` columns each: the column list of the first
      row and its group, then `, ` and a group for every further row. */
  lemma FoldText(st: State, colss: seq<seq<Column>>, n: nat)
    requires |colss| > 0 && n >= 1
    requires forall j | 0 <= j < |colss| :: |colss[j]| == n
    ensures RowsFold(st, colss, 0).sql
      == Join(Join(st.sql, "( " + JoinNames(Names(colss[0])) + " ) VALUES"), RowText(n)) + Repeat(", " + RowText(n), |colss| - 1)
  {
    var st1 := RowColumns(st, colss[0], true);
    assert RowsFold(st, colss, 0) == RowsFold(st1, colss, 1);
    RowTextEnd(n);
    JoinShape(Join(st.sql, "( " + JoinNames(Names(colss[0])) + " ) VALUES"), RowText(n));
    FoldLaterText(st1, colss, 1, n);
  }

  /** The rows of a multi-row insert with `keepAll` on, when every row has
      the shape of the first and that shape has `n` columns: the column list
      and the first group, then `, ` and a group for every further row; the
      binds are each row's values in row order, `n` per row; no panic. */
  lemma MultiRowShape(st: State, rows: seq<Value>)
    requires st.keepAll && |rows| > 0
    requires forall j | 0 <= j < |rows| :: SameShape(rows[j], rows[0])
    requires |SiftStruct(rows[0], st.opt, true)| > 0
    ensures var cols := SiftStruct(rows[0], st.opt, true);
      var n := |cols|;
      var r := MultiRow(st, rows, 0);
      && r.sql == Join(Join(st.sql, "( " + JoinNames(Names(cols)) + " ) VALUES"), RowText(n)) + Repeat(", " + RowText(n), |rows| - 1)
      && r.binds == st.binds + RowsVals(RowsCols(rows, st.opt, true), 0)
      && |r.binds| == |st.binds| + |rows| * n
      && r.panicked == st.panicked
  {
    var n := |SiftStruct(rows[0], st.opt, true)|;
    var colss := RowsCols(rows, st.opt, true);
    SameShapeWidth(rows, st.opt);
    assert forall j | 0 <= j < |colss| :: |colss[j]| == n;
    MultiRowIsFold(st, rows, 0, st.opt, true);
    FoldText(st, colss, n);
    FoldBinds(st, colss, 0);
    RowsValsLength(colss, 0, n);
    FoldNoPanic(st, colss, 0);
  }

  /** A non-empty slice of structs after `INSERT ... INTO t`, whose first
      element has columns, becomes a multi-row insert: the column list of
      the first element, one placeholder group per element, and the
      elements' values (every value kept) in order; `keepAll` is off again
      afterwards. */
  lemma SliceInsertRows(st: State, v: Value)
    requires ContextOf(st.sql) == INSERT && WellFormed(v)
    requires v.Seq? && v.elemIsStruct && |v.elems| > 0
    requires |SiftStruct(v.elems[0], st.opt, true)| > 0
    ensures var cols := SiftStruct(v.elems[0], st.opt, true);
      var n := |cols|;
      var r := AddSlice(st, v);
      && r.sql == Join(Join(st.sql, "( " + JoinNames(Names(cols)) + " ) VALUES"), RowText(n)) + Repeat(", " + RowText(n), |v.elems| - 1)
      && r.binds == st.binds + RowsVals(RowsCols(v.elems, st.opt, true), 0)
      && |r.binds| == |st.binds| + |v.elems| * n
      && r.panicked == st.panicked && r.opt == st.opt && !r.keepAll
  {
    var st0 := st.(keepAll := true);
    assert AddSlice(st, v) == MultiRow(st0, v.elems, 0).(keepAll := false);
    MultiRowShape(st0, v.elems);
    MultiRowIsFold(st0, v.elems, 0, st.opt, true);
    FoldKeeps(st0, RowsCols(v.elems, st.opt, true), 0);
  }
}
