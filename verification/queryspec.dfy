/**
 * What adding each kind of bit does to a query, as functions from the
 * query's state before to its state after. The `Query` class's methods are
 * proved to follow these.
 */
module QuerySpec {
  import opened Values
  import opened SqlText
  import opened SqlContext
  import Compat
  import opened Sifter

  /** A query being built: its configuration, the SQL text and binds so far,
      the keep-every-value override used by multi-row inserts, and whether
      the build has panicked. */
  datatype State = State(opt: Options, sql: string, binds: seq<Value>, keepAll: bool, panicked: bool)

  function Init(opt: Options): State
  {
    State(opt, "", [], false, false)
  }

  function Emit(st: State, text: string): State
  {
    st.(sql := Join(st.sql, text))
  }

  function BindValues(st: State, vals: seq<Value>): State
  {
    st.(binds := st.binds + vals)
  }

  /** Go's `strings.Repeat`. */
  function Repeat(s: string, n: nat): string
  {
    if n == 0 then "" else s + Repeat(s, n - 1)
  }

  /** Go's `strings.Join(names, ", ")`. */
  function JoinNames(names: seq<string>): string
  {
    if names == [] then ""
    else if |names| == 1 then names[0]
    else names[0] + ", " + JoinNames(names[1..])
  }

  /** The placeholder group of one inserted row of `n` columns. */
  function RowText(n: nat): string
    requires n >= 1
  {
    "( ?" + Repeat(", ?", n - 1) + " )"
  }

  // ---------------------------------------------------------------------
  // Adding bits.

  /** Adds one bit: a condition adds its bits when true, an option changes
      the configuration, and everything else is dispatched on its kind. */
  ghost function Add(st: State, bit: Value): State
    decreases bit, 3
  {
    match bit
    case Cond(isTrue, bits) => if isTrue then AddAll(st, bits) else st
    case Opt(o) => st.(opt := Compat.ApplyOption(o, st.opt))
    // the remaining constructors, grouped by their kind
    case Str(_) => AddString(st, bit)
    case BindStr(_) => AddString(st, bit)
    case Ptr(_) => AddPointer(st, bit)
    case Seq(_, _, _) => AddSlice(st, bit)
    case MapV(_, _) => AddComplex(st, bit)
    case StructV(_) => AddComplex(st, bit)
    case Scalar(_, _) => BindValues(Emit(st, "?"), [bit])
    case Nil => BindValues(Emit(st, "?"), [bit])
  }

  /** Adds bits in order. */
  ghost function AddAll(st: State, bits: seq<Value>): State
    decreases bits, 0
  {
    if bits == [] then st else AddAll(Add(st, bits[0]), bits[1..])
  }

  /** A plain string is SQL text; a `Bind` string is a placeholder whose
      bind is the plain string. */
  function AddString(st: State, v: Value): State
  {
    match v
    case BindStr(s) => BindValues(Emit(st, "?"), [Str(s)])
    case Str(s) => Emit(st, s)
    case _ => st
  }

  /** A nil pointer binds nil, a pointer to a string binds the string, and
      any other pointer adds what it points to. */
  ghost function AddPointer(st: State, v: Value): State
    decreases v, 2
  {
    match v
    case Ptr(None) => BindValues(Emit(st, "?"), [Nil])
    case Ptr(Some(x)) =>
      if KindOf(x) == StringKind then BindValues(Emit(st, "?"), [x]) else Add(st, x)
    case _ => st
  }

  /** A slice or array: a parenthesised placeholder list after `IN`, a
      multi-row insert of structs after `INSERT ... INTO t`, and otherwise
      each element added in turn. */
  ghost function AddSlice(st: State, v: Value): State
    decreases v, 2
  {
    match v
    case Seq(elemIsStruct, elems, _) =>
      var ctx := ContextOf(st.sql);
      if ctx == IN then InList(st, elems)
      else if ctx == INSERT && elemIsStruct then MultiRow(st.(keepAll := true), elems, 0).(keepAll := false)
      else AddAll(st, elems)
    case _ => st
  }

  function InList(st: State, elems: seq<Value>): State
  {
    var s := Placeholders(Emit(st, "("), elems, 0);
    Emit(if |elems| == 0 then Emit(s, "NULL") else s, ")")
  }

  /** One placeholder and one bind per element from `i` on. */
  function Placeholders(st: State, elems: seq<Value>, i: nat): State
    decreases |elems| - i
  {
    if i >= |elems| then st
    else Placeholders(BindValues(Emit(st, "?"), [elems[i]]), elems, i + 1)
  }

  /** The rows of a multi-row insert from row `i` on: the column list with the
      first row, then one placeholder group per row. A row without columns
      panics (`strings.Repeat` with a negative count). */
  ghost function MultiRow(st: State, rows: seq<Value>, i: nat): State
    decreases |rows| - i
  {
    if i >= |rows| then st
    else
      MultiRow(InsertRow(st, rows[i], i == 0), rows, i + 1)
  }

  /** One row of a multi-row insert. */
  ghost function InsertRow(st: State, row: Value, first: bool): State
  {
    RowColumns(st, SiftStruct(row, st.opt, st.keepAll), first)
  }

  function RowColumns(st: State, cols: seq<Column>, first: bool): State
  {
    var st1 := if first then Emit(st, "( " + JoinNames(Names(cols)) + " ) VALUES") else Emit(st, ", ");
    if |cols| == 0 then st1.(panicked := true) else BindValues(Emit(st1, RowText(|cols|)), Vals(cols))
  }

  /** A struct or map: a column list and placeholder group after
      `INSERT ... INTO t`, assignments after `SET`, and otherwise
      conditions joined by `AND`. */
  ghost function AddComplex(st: State, v: Value): State
    decreases v, 2
  {
    var cols := Sift(v, st.opt, st.keepAll);
    match ContextOf(st.sql)
    case INSERT => InsertColumns(st, cols)
    case SET => SetColumns(st, cols, 0)
    case _ => BaseColumns(st, v, cols, 0)
  }

  /** The column list and placeholder group of a single-row insert; nothing
      for a record without columns. */
  function InsertColumns(st: State, cols: seq<Column>): State
  {
    if |cols| > 0 then
      BindValues(Emit(Emit(st, "( " + JoinNames(Names(cols)) + " ) VALUES ( ?"), Repeat(", ?", |cols| - 1) + " )"), Vals(cols))
    else st
  }

  /** `name = ?` per column from `i` on, separated by commas. */
  function SetColumns(st: State, cols: seq<Column>, i: nat): State
    decreases |cols| - i
  {
    if i >= |cols| then st
    else
      var st1 := if i > 0 then Emit(st, ",") else st;
      SetColumns(BindValues(Emit(st1, cols[i].name + " = ?"), [cols[i].value]), cols, i + 1)
  }

  /** One condition per column from `i` on, separated by `AND`. */
  ghost function BaseColumns(st: State, v: Value, cols: seq<Column>, i: nat): State
    requires forall j | 0 <= j < |cols| :: cols[j].value == Nil || cols[j].value < v
    decreases v, 1, |cols| - i
  {
    if i >= |cols| then st
    else
      var st1 := if i > 0 then Emit(st, "AND") else st;
      BaseColumns(BaseColumn(st1, v, cols[i]), v, cols, i + 1)
  }

  /** One condition: `name IN` and the slice for a slice or array value,
      `name = ?` for any other. */
  ghost function BaseColumn(st: State, v: Value, c: Column): State
    requires c.value == Nil || c.value < v
    decreases v, 0
  {
    if KindOf(c.value) == SliceKind || KindOf(c.value) == ArrayKind then AddSlice(Emit(st, c.name + " IN"), c.value)
    else BindValues(Emit(st, c.name + " = ?"), [c.value])
  }

  /** The state after building `bits` from a fresh query. */
  ghost function Build(opt: Options, bits: seq<Value>): State
  {
    AddAll(Init(opt), bits)
  }
}
