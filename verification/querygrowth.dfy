/**
 * A query only ever grows: every operation keeps the SQL text so far as a
 * prefix of the new text and the binds so far as a prefix of the new binds,
 * never leaves the multi-row override set when it was not set before, and
 * never undoes a panic.
 */
module QueryGrowth {
  import opened Values
  import opened SqlText
  import opened Sifter
  import opened QuerySpec
  import QueryProps

  predicate Grows(st: State, r: State)
  {
    st.sql <= r.sql && st.binds <= r.binds && (!st.keepAll ==> !r.keepAll) && (st.panicked ==> r.panicked)
  }

  lemma GrowsTrans(a: State, b: State, c: State)
    requires Grows(a, b) && Grows(b, c)
    ensures Grows(a, c)
  {
  }

  lemma EmitGrows(st: State, text: string)
    ensures Grows(st, Emit(st, text))
  {
  }

  lemma BindGrows(st: State, vals: seq<Value>)
    ensures Grows(st, BindValues(st, vals))
  {
  }

  lemma EmitBindGrows(st: State, text: string, vals: seq<Value>)
    ensures Grows(st, BindValues(Emit(st, text), vals))
  {
    EmitGrows(st, text);
    BindGrows(Emit(st, text), vals);
    GrowsTrans(st, Emit(st, text), BindValues(Emit(st, text), vals));
  }

  lemma {:induction false} AddGrows(st: State, bit: Value)
    ensures Grows(st, Add(st, bit))
    decreases bit, 3
  {
    match bit
    case Cond(isTrue, bits) =>
      if isTrue {
        AddAllGrows(st, bits);
      }
    case Opt(o) =>
    case Str(_) => AddStringGrows(st, bit);
    case BindStr(_) => AddStringGrows(st, bit);
    case Ptr(_) => AddPointerGrows(st, bit);
    case Seq(_, _, _) => AddSliceGrows(st, bit);
    case MapV(_, _) => AddComplexGrows(st, bit);
    case StructV(_) => AddComplexGrows(st, bit);
    case Scalar(_, _) => EmitBindGrows(st, "?", [bit]);
    case Nil => EmitBindGrows(st, "?", [bit]);
  }

  lemma {:induction false} AddAllGrows(st: State, bits: seq<Value>)
    ensures Grows(st, AddAll(st, bits))
    decreases bits, 0
  {
    if bits != [] {
      AddGrows(st, bits[0]);
      AddAllGrows(Add(st, bits[0]), bits[1..]);
      GrowsTrans(st, Add(st, bits[0]), AddAll(st, bits));
    }
  }

  lemma AddStringGrows(st: State, v: Value)
    ensures Grows(st, AddString(st, v))
  {
    match v
    case BindStr(s) => EmitBindGrows(st, "?", [Str(s)]);
    case Str(s) => EmitGrows(st, s);
    case _ =>
  }

  lemma {:induction false} AddPointerGrows(st: State, v: Value)
    ensures Grows(st, AddPointer(st, v))
    decreases v, 2
  {
    match v
    case Ptr(None) => EmitBindGrows(st, "?", [Nil]);
    case Ptr(Some(x)) =>
      if KindOf(x) == StringKind {
        EmitBindGrows(st, "?", [x]);
      } else {
        AddGrows(st, x);
      }
    case _ =>
  }

  lemma {:induction false} AddSliceGrows(st: State, v: Value)
    ensures Grows(st, AddSlice(st, v))
    decreases v, 2
  {
    match v
    case Seq(elemIsStruct, elems, _) =>
      var ctx := SqlContext.ContextOf(st.sql);
      if ctx == SqlContext.IN {
        InListGrows(st, elems);
      } else if ctx == SqlContext.INSERT && elemIsStruct {
        var st1 := st.(keepAll := true);
        MultiRowGrows(st1, elems, 0);
      } else {
        AddAllGrows(st, elems);
      }
    case _ =>
  }

  lemma InListGrows(st: State, elems: seq<Value>)
    ensures Grows(st, InList(st, elems))
  {
    var s0 := Emit(st, "(");
    var s := Placeholders(s0, elems, 0);
    var s1 := if |elems| == 0 then Emit(s, "NULL") else s;
    EmitGrows(st, "(");
    PlaceholdersGrows(s0, elems, 0);
    EmitGrows(s, "NULL");
    EmitGrows(s1, ")");
    GrowsTrans(st, s0, s);
    GrowsTrans(st, s, s1);
    GrowsTrans(st, s1, Emit(s1, ")"));
  }

  lemma {:induction false} PlaceholdersGrows(st: State, elems: seq<Value>, i: nat)
    ensures Grows(st, Placeholders(st, elems, i))
    decreases |elems| - i
  {
    if i < |elems| {
      var s1 := BindValues(Emit(st, "?"), [elems[i]]);
      EmitBindGrows(st, "?", [elems[i]]);
      PlaceholdersGrows(s1, elems, i + 1);
      GrowsTrans(st, s1, Placeholders(st, elems, i));
    }
  }

  lemma {:induction false} MultiRowGrows(st: State, rows: seq<Value>, i: nat)
    ensures Grows(st, MultiRow(st, rows, i))
    decreases |rows| - i
  {
    if i < |rows| {
      var st1 := InsertRow(st, rows[i], i == 0);
      RowColumnsGrows(st, SiftStruct(rows[i], st.opt, st.keepAll), i == 0);
      MultiRowGrows(st1, rows, i + 1);
      GrowsTrans(st, st1, MultiRow(st, rows, i));
    }
  }

  lemma RowColumnsGrows(st: State, cols: seq<Column>, first: bool)
    ensures Grows(st, RowColumns(st, cols, first))
  {
    var st1 := if first then Emit(st, "( " + JoinNames(Names(cols)) + " ) VALUES") else Emit(st, ", ");
    if first {
      EmitGrows(st, "( " + JoinNames(Names(cols)) + " ) VALUES");
    } else {
      EmitGrows(st, ", ");
    }
    if |cols| > 0 {
      EmitBindGrows(st1, RowText(|cols|), Vals(cols));
      GrowsTrans(st, st1, RowColumns(st, cols, first));
    }
  }

  lemma {:induction false} AddComplexGrows(st: State, v: Value)
    ensures Grows(st, AddComplex(st, v))
    decreases v, 2
  {
    var cols := Sift(v, st.opt, st.keepAll);
    match SqlContext.ContextOf(st.sql)
    case INSERT => InsertColumnsGrows(st, cols);
    case SET => SetColumnsGrows(st, cols, 0);
    case _ => BaseColumnsGrows(st, v, cols, 0);
  }

  lemma InsertColumnsGrows(st: State, cols: seq<Column>)
    ensures Grows(st, InsertColumns(st, cols))
  {
    if |cols| > 0 {
      var head := "( " + JoinNames(Names(cols)) + " ) VALUES ( ?";
      var st1 := Emit(st, head);
      EmitGrows(st, head);
      EmitBindGrows(st1, Repeat(", ?", |cols| - 1) + " )", Vals(cols));
      GrowsTrans(st, st1, InsertColumns(st, cols));
    }
  }

  lemma {:induction false} SetColumnsGrows(st: State, cols: seq<Column>, i: nat)
    ensures Grows(st, SetColumns(st, cols, i))
    decreases |cols| - i
  {
    if i < |cols| {
      var st1 := if i > 0 then Emit(st, ",") else st;
      var st2 := BindValues(Emit(st1, cols[i].name + " = ?"), [cols[i].value]);
      EmitGrows(st, ",");
      EmitBindGrows(st1, cols[i].name + " = ?", [cols[i].value]);
      SetColumnsGrows(st2, cols, i + 1);
      GrowsTrans(st, st1, st2);
      GrowsTrans(st, st2, SetColumns(st, cols, i));
    }
  }

  lemma {:induction false} BaseColumnsGrows(st: State, v: Value, cols: seq<Column>, i: nat)
    requires forall j | 0 <= j < |cols| :: cols[j].value == Nil || cols[j].value < v
    ensures Grows(st, BaseColumns(st, v, cols, i))
    decreases v, 1, |cols| - i
  {
    if i < |cols| {
      var st1 := if i > 0 then Emit(st, "AND") else st;
      var st2 := BaseColumn(st1, v, cols[i]);
      EmitGrows(st, "AND");
      BaseColumnGrows(st1, v, cols[i]);
      BaseColumnsGrows(st2, v, cols, i + 1);
      GrowsTrans(st, st1, st2);
      GrowsTrans(st, st2, BaseColumns(st, v, cols, i));
    }
  }

  lemma {:induction false} BaseColumnGrows(st: State, v: Value, c: Column)
    requires c.value == Nil || c.value < v
    ensures Grows(st, BaseColumn(st, v, c))
    decreases v, 0
  {
    if KindOf(c.value) == SliceKind || KindOf(c.value) == ArrayKind {
      var st1 := Emit(st, c.name + " IN");
      EmitGrows(st, c.name + " IN");
      AddSliceGrows(st1, c.value);
      GrowsTrans(st, st1, BaseColumn(st, v, c));
    } else {
      EmitBindGrows(st, c.name + " = ?", [c.value]);
    }
  }

  /** Building more bits only extends the SQL text and the binds of
      building fewer. */
  lemma BuildExtends(opt: Options, a: seq<Value>, b: seq<Value>)
    ensures Build(opt, a).sql <= Build(opt, a + b).sql
    ensures Build(opt, a).binds <= Build(opt, a + b).binds
  {
    QueryProps.AddAllAppend(Init(opt), a, b);
    AddAllGrows(Build(opt, a), b);
  }
}
