/**
 * Properties of the query-building specification: building is a left fold
 * (appending bits appends work), an IN list has a fixed shape, and every
 * `?` placeholder the builder emits comes with exactly one bind.
 */
module QueryProps {
  import opened Values
  import opened SqlText
  import opened SqlContext
  import opened Sifter
  import Sorting
  import opened QuerySpec

  // ---------------------------------------------------------------------
  // Building is a fold over the bits.

  /** Adding `a + b` is adding `a` and then `b` to the same state. */
  lemma {:induction false} AddAllAppend(st: State, a: seq<Value>, b: seq<Value>)
    ensures AddAll(st, a + b) == AddAll(AddAll(st, a), b)
    decreases |a|
  {
    if a == [] {
      assert a + b == b;
    } else {
      assert (a + b)[0] == a[0] && (a + b)[1..] == a[1..] + b;
      AddAllAppend(Add(st, a[0]), a[1..], b);
    }
  }

  /** Building from no bits gives empty text and no binds. */
  lemma BuildNothing(opt: Options)
    ensures Build(opt, []).sql == "" && Build(opt, []).binds == []
  {
  }

  /** A condition that is false adds nothing wherever it appears. */
  lemma {:induction false} FalseConditionVanishes(opt: Options, pre: seq<Value>, bits: seq<Value>, post: seq<Value>)
    ensures Build(opt, pre + [Cond(false, bits)] + post) == Build(opt, pre + post)
  {
    AddAllAppend(Init(opt), pre + [Cond(false, bits)], post);
    AddAllAppend(Init(opt), pre, [Cond(false, bits)]);
    AddAllAppend(Init(opt), pre, post);
    assert [Cond(false, bits)][1..] == [];
  }

  /** A condition that is true adds its bits in its place. */
  lemma {:induction false} TrueConditionSplices(opt: Options, pre: seq<Value>, bits: seq<Value>, post: seq<Value>)
    ensures Build(opt, pre + [Cond(true, bits)] + post) == Build(opt, pre + bits + post)
  {
    AddAllAppend(Init(opt), pre + [Cond(true, bits)], post);
    AddAllAppend(Init(opt), pre, [Cond(true, bits)]);
    AddAllAppend(Init(opt), pre + bits, post);
    AddAllAppend(Init(opt), pre, bits);
    assert [Cond(true, bits)][1..] == [];
  }

  // ---------------------------------------------------------------------
  // The shape of an IN list.

  /** The text of an IN list of `n` placeholders. */
  function ListText(n: nat): string
  {
    if n == 0 then "( NULL )" else RowText(n)
  }

  lemma {:induction false} PlaceholdersText(s: State, elems: seq<Value>, i: nat)
    requires i <= |elems|
    requires s.sql != [] && s.sql[|s.sql| - 1] == '?'
    ensures Placeholders(s, elems, i).sql == s.sql + Repeat(", ?", |elems| - i)
    ensures Placeholders(s, elems, i).binds == s.binds + elems[i..]
    decreases |elems| - i
  {
    if i < |elems| {
      var s1 := BindValues(Emit(s, "?"), [elems[i]]);
      JoinShape(s.sql, "?");
      assert s1.sql == s.sql + ", ?";
      PlaceholdersText(s1, elems, i + 1);
      assert elems[i..] == [elems[i]] + elems[i + 1..];
      assert s.sql + ", ?" + Repeat(", ?", |elems| - i - 1) == s.sql + Repeat(", ?", |elems| - i);
    } else {
      assert elems[i..] == [];
    }
  }

  lemma {:induction false} RepeatEndsInPlaceholder(n: nat)
    requires n > 0
    ensures Repeat(", ?", n) != [] && Repeat(", ?", n)[|Repeat(", ?", n)| - 1] == '?'
  {
    if n > 1 {
      RepeatEndsInPlaceholder(n - 1);
    }
  }

  /** After `IN`, a slice becomes `( ?, ..., ? )` (or `( NULL )` when it is
      empty) and binds its elements in order. */
  lemma InListShape(st: State, elems: seq<Value>)
    ensures InList(st, elems).sql == Join(st.sql, ListText(|elems|))
    ensures InList(st, elems).binds == st.binds + elems
  {
    if elems == [] {
      EmptyInListShape(st, elems);
    } else {
      NonEmptyInListShape(st, elems);
    }
  }

  lemma EmptyInListShape(st: State, elems: seq<Value>)
    requires elems == []
    ensures InList(st, elems).sql == Join(st.sql, "( NULL )")
    ensures InList(st, elems).binds == st.binds
  {
    var s1 := Emit(st, "(");
    assert Placeholders(s1, elems, 0) == s1;
    assert InList(st, elems) == Emit(Emit(s1, "NULL"), ")");
    JoinSpaced(s1.sql, "NULL");
    JoinSpaced(s1.sql + " " + "NULL", ")");
    NullReassoc(s1.sql);
    JoinThen(st.sql, "(", " NULL )");
  }

  lemma NullReassoc(a: string)
    ensures a + " " + "NULL" + " " + ")" == a + " NULL )"
    ensures "( NULL )" == "(" + " NULL )"
  {
    assert " " + "NULL" + " " + ")" == " NULL )";
  }

  lemma NonEmptyInListShape(st: State, elems: seq<Value>)
    requires elems != []
    ensures InList(st, elems).sql == Join(st.sql, RowText(|elems|))
    ensures InList(st, elems).binds == st.binds + elems
  {
    var n := |elems|;
    var s1 := Emit(st, "(");
    var s3 := Placeholders(s1, elems, 0);
    OpenedPlaceholders(s1, elems);
    assert InList(st, elems) == Emit(s3, ")");
    var more := Repeat(", ?", n - 1);
    JoinSpaced(s3.sql, ")");
    CloseReassoc(s1.sql, " ?", more);
    RowTextSplit(n);
    JoinThen(st.sql, "(", " ?" + more + " )");
  }

  lemma CloseReassoc(a: string, b: string, c: string)
    ensures a + b + c + " " + ")" == a + (b + c + " )")
  {
    assert " " + ")" == " )";
  }

  lemma RowTextSplit(n: nat)
    requires n >= 1
    ensures RowText(n) == "(" + (" ?" + Repeat(", ?", n - 1) + " )")
  {
    assert "( ?" == "(" + " ?";
  }

  /** The placeholders after an opening parenthesis: one per element, the
      first after a space and the others after commas. */
  lemma OpenedPlaceholders(s1: State, elems: seq<Value>)
    requires elems != []
    requires s1.sql != [] && s1.sql[|s1.sql| - 1] == '('
    ensures Placeholders(s1, elems, 0).sql == s1.sql + " ?" + Repeat(", ?", |elems| - 1)
    ensures Placeholders(s1, elems, 0).binds == s1.binds + elems
    ensures Placeholders(s1, elems, 0).sql[|Placeholders(s1, elems, 0).sql| - 1] == '?'
  {
    var s2 := BindValues(Emit(s1, "?"), [elems[0]]);
    FirstPlaceholder(s1, elems[0]);
    assert Placeholders(s1, elems, 0) == Placeholders(s2, elems, 1);
    LaterPlaceholders(s1, s2, elems);
  }

  /** The placeholders after the first. */
  lemma LaterPlaceholders(s1: State, s2: State, elems: seq<Value>)
    requires elems != []
    requires s2.sql == s1.sql + " ?" && s2.binds == s1.binds + [elems[0]]
    ensures Placeholders(s2, elems, 1).sql == s1.sql + " ?" + Repeat(", ?", |elems| - 1)
    ensures Placeholders(s2, elems, 1).binds == s1.binds + elems
    ensures Placeholders(s2, elems, 1).sql[|Placeholders(s2, elems, 1).sql| - 1] == '?'
  {
    assert s2.sql[|s2.sql| - 1] == '?';
    PlaceholdersText(s2, elems, 1);
    EndsInPlaceholder(s2.sql, |elems| - 1);
    SliceCons(elems, 0);
    assert elems[0..] == elems;
  }

  lemma FirstPlaceholder(s1: State, e: Value)
    requires s1.sql != [] && s1.sql[|s1.sql| - 1] == '('
    ensures BindValues(Emit(s1, "?"), [e]).sql == s1.sql + " ?"
    ensures BindValues(Emit(s1, "?"), [e]).binds == s1.binds + [e]
    ensures (s1.sql + " ?")[|s1.sql + " ?"| - 1] == '?'
  {
    JoinSpaced(s1.sql, "?");
  }

  lemma EndsInPlaceholder(a: string, k: nat)
    requires a != [] && a[|a| - 1] == '?'
    ensures (a + Repeat(", ?", k))[|a + Repeat(", ?", k)| - 1] == '?'
  {
    if k > 0 {
      RepeatEndsInPlaceholder(k);
    } else {
      assert a + Repeat(", ?", k) == a;
    }
  }

  /** A slice added right after `IN` becomes an IN list. */
  lemma SliceAfterIn(st: State, elemIsStruct: bool, elems: seq<Value>, form: SeqForm)
    requires ContextOf(st.sql) == IN
    ensures AddSlice(st, Seq(elemIsStruct, elems, form)).sql == Join(st.sql, ListText(|elems|))
    ensures AddSlice(st, Seq(elemIsStruct, elems, form)).binds == st.binds + elems
  {
    InListShape(st, elems);
  }

  lemma SliceCons<T>(s: seq<T>, i: nat)
    requires i < |s|
    ensures s[i..] == [s[i]] + s[i + 1..]
  {
  }

  lemma AppendAssoc<T>(a: seq<T>, b: seq<T>, c: seq<T>)
    ensures a + b + c == a + (b + c)
  {
  }

  /** `UPDATE t SET` followed by a record: one assignment per column, each
      bound to the column's value, in column order. */
  lemma {:induction false} SetColumnsBinds(st: State, cols: seq<Column>, i: nat)
    requires i <= |cols|
    ensures SetColumns(st, cols, i).binds == st.binds + Vals(cols)[i..]
    decreases |cols| - i
  {
    if i < |cols| {
      var st1 := if i > 0 then Emit(st, ",") else st;
      var st2 := BindValues(Emit(st1, cols[i].name + " = ?"), [cols[i].value]);
      assert SetColumns(st, cols, i) == SetColumns(st2, cols, i + 1);
      SetColumnsBinds(st2, cols, i + 1);
      var vs := Vals(cols);
      SliceCons(vs, i);
      assert st2.binds == st.binds + [vs[i]];
      AppendAssoc(st.binds, [vs[i]], vs[i + 1..]);
    } else {
      assert Vals(cols)[i..] == [];
    }
  }

  /** A record added after `SET` or after `INSERT ... INTO t` binds exactly
      the sifted values, in column order. */
  lemma RecordBinds(st: State, v: Value)
    requires ContextOf(st.sql) == SET || ContextOf(st.sql) == INSERT
    ensures AddComplex(st, v).binds == st.binds + Vals(Sift(v, st.opt, st.keepAll))
  {
    var cols := Sift(v, st.opt, st.keepAll);
    if ContextOf(st.sql) == SET {
      SetColumnsBinds(st, cols, 0);
      assert Vals(cols)[0..] == Vals(cols);
    }
  }

  // ---------------------------------------------------------------------
  // Placeholders and binds balance.

  /** No `?` reaches the SQL text from `v` other than as a placeholder.
      Text that is bound (a `Bind` string, the target of a string pointer,
      a record value) may hold any character. What does reach the text is
      a plain string, a map key, a column name taken from a field under any
      tag key, and the elements of a slice, which may be added one by one;
      a slice held in a record becomes an IN list or, in the rare text where
      `name IN` still reads as an insert target, is added element by element. */
  ghost predicate QFree(v: Value)
    decreases v
  {
    match v
    case Str(s) => '?' !in s
    case Ptr(Some(x)) => KindOf(x) == StringKind || QFree(x)
    case Seq(_, elems, _) => forall i | 0 <= i < |elems| :: QFree(elems[i])
    case MapV(m, _) => forall k | k in m :: '?' !in k && (m[k].Seq? ==> QFree(m[k]))
    case StructV(fs) => forall i | 0 <= i < |fs| :: FieldQFree(fs[i])
    case Cond(_, bits) => forall i | 0 <= i < |bits| :: QFree(bits[i])
    case _ => true
  }

  ghost predicate FieldQFree(f: Field)
    decreases f
  {
    if IsEmbeddedStruct(f) then QFree(f.value)
    else (forall tagKey :: '?' !in FieldMapping(f, tagKey).0) && (f.value.Seq? ==> QFree(f.value))
  }

  /** The columns' names hold no `?`, and neither does any slice among
      their values. */
  ghost predicate ColumnsQFree(cols: seq<Column>)
  {
    NamesQFree(cols) && forall i | 0 <= i < |cols| :: cols[i].value.Seq? ==> QFree(cols[i].value)
  }

  predicate NamesQFree(cols: seq<Column>)
  {
    forall i | 0 <= i < |cols| :: '?' !in cols[i].name
  }

  /** The `?` count minus the bind count: what balance preserves. */
  function Excess(st: State): int
  {
    CountQ(st.sql) - |st.binds|
  }

  lemma NoQCount(s: string)
    requires '?' !in s
    ensures CountQ(s) == 0
  {
    assert '?' !in multiset(s);
  }

  lemma {:induction false} RepeatCount(n: nat)
    ensures CountQ(Repeat(", ?", n)) == n
  {
    if n > 0 {
      RepeatCount(n - 1);
      NextPlaceholderCount();
      assert multiset(Repeat(", ?", n)) == multiset(", ?") + multiset(Repeat(", ?", n - 1));
    }
  }

  lemma {:induction false} JoinNamesNoQ(names: seq<string>)
    requires forall i | 0 <= i < |names| :: '?' !in names[i]
    ensures '?' !in JoinNames(names)
    decreases |names|
  {
    if |names| > 1 {
      JoinNamesNoQ(names[1..]);
    }
  }

  lemma {:induction false} SiftStructNoQ(v: Value, opt: Options, keepAll: bool)
    requires QFree(v)
    ensures ColumnsQFree(SiftStruct(v, opt, keepAll))
    decreases v, 1
  {
    SiftFieldsNoQ(v, StructFields(v), opt, keepAll);
  }

  lemma {:induction false} SiftFieldsNoQ(v: Value, fs: seq<Field>, opt: Options, keepAll: bool)
    requires forall i | 0 <= i < |fs| :: fs[i] < v && FieldQFree(fs[i])
    ensures ColumnsQFree(SiftFields(v, fs, opt, keepAll))
    decreases v, 0, |fs|
  {
    if fs != [] {
      SiftFieldsNoQ(v, fs[..|fs| - 1], opt, keepAll);
      FieldColumnsNoQ(fs[|fs| - 1], opt, keepAll);
    }
  }

  lemma {:induction false} FieldColumnsNoQ(f: Field, opt: Options, keepAll: bool)
    requires FieldQFree(f)
    ensures ColumnsQFree(FieldColumns(f, opt, keepAll))
    decreases f
  {
    if IsEmbeddedStruct(f) {
      SiftStructNoQ(f.value, opt, keepAll);
    } else {
      var (name, mode) := FieldMapping(f, opt.tag);
      assert '?' !in name;
    }
  }

  lemma SiftNoQ(v: Value, opt: Options, keepAll: bool)
    requires QFree(v)
    ensures ColumnsQFree(Sift(v, opt, keepAll))
  {
    match v
    case StructV(fs) => SiftStructNoQ(v, opt, keepAll);
    case Cond(_, _) => SiftStructNoQ(v, opt, keepAll);
    case MapV(m, _) => SiftMapNoQ(m, opt, keepAll, v);
    case _ =>
  }

  lemma SiftMapNoQ(m: map<string, Value>, opt: Options, keepAll: bool, v: Value)
    requires v.MapV? && v.entries == m && QFree(v)
    ensures ColumnsQFree(SiftMap(m, opt, keepAll))
  {
    var cols := SiftMap(m, opt, keepAll);
    forall i | 0 <= i < |cols| ensures '?' !in cols[i].name && (cols[i].value.Seq? ==> QFree(cols[i].value)) {
      var k := cols[i].name;
      assert k in m;
      assert '?' !in k && (m[k].Seq? ==> QFree(m[k]));
    }
  }

  lemma BindBalance(st: State, vals: seq<Value>)
    ensures Excess(BindValues(st, vals)) == Excess(st) - |vals|
  {
  }

  lemma EmitBalance(st: State, text: string, q: nat)
    requires CountQ(text) == q
    ensures Excess(Emit(st, text)) == Excess(st) + q
  {
    JoinCount(st.sql, text);
  }

  // The `?` counts of the pieces of text the builder emits.

  lemma PlaceholderCount()
    ensures CountQ("?") == 1
  {
    assert multiset("?") == multiset{'?'};
  }

  lemma NextPlaceholderCount()
    ensures CountQ(", ?") == 1
  {
    assert multiset(", ?") == multiset{',', ' ', '?'};
  }

  lemma RowOpenCount()
    ensures CountQ("( ?") == 1
  {
    assert multiset("( ?") == multiset{'(', ' ', '?'};
  }

  lemma AssignCount(name: string)
    requires '?' !in name
    ensures CountQ(name + " = ?") == 1
  {
    NoQCount(name);
    assert multiset(" = ?") == multiset{' ', '=', ' ', '?'};
    assert multiset(name + " = ?") == multiset(name) + multiset(" = ?");
  }

  lemma ValuesHeadCount(names: string)
    requires '?' !in names
    ensures CountQ("( " + names + " ) VALUES ( ?") == 1
  {
    NoQCount(names);
    NoQCount("( ");
    ValuesTailCount();
    CountAppend("( ", names);
    CountAppend("( " + names, " ) VALUES ( ?");
  }

  lemma ValuesTailCount()
    ensures CountQ(" ) VALUES ( ?") == 1
  {
    assert " ) VALUES ( ?" == " ) VALUES ( " + "?";
    NoQCount(" ) VALUES ( ");
    PlaceholderCount();
    CountAppend(" ) VALUES ( ", "?");
  }

  /** Every placeholder added for a bit comes with exactly one bind. */
  lemma {:induction false} BalanceAdd(st: State, bit: Value)
    requires QFree(bit)
    ensures Excess(Add(st, bit)) == Excess(st)
    decreases bit, 3
  {
    PlaceholderCount();
    match bit
    case Cond(isTrue, bits) =>
      if isTrue {
        BalanceAddAll(st, bits);
      }
    case Opt(_) =>
    case Str(s) =>
      NoQCount(s);
      EmitBalance(st, s, 0);
    case BindStr(_) => EmitBalance(st, "?", 1);
    case Ptr(_) => BalanceAddPointer(st, bit);
    case Seq(_, _, _) =>
      QFreeSlice(st, bit);
      BalanceAddSlice(st, bit);
    case MapV(_, _) =>
      SiftNoQ(bit, st.opt, st.keepAll);
      BalanceAddComplex(st, bit);
    case StructV(_) =>
      SiftNoQ(bit, st.opt, st.keepAll);
      BalanceAddComplex(st, bit);
    case Scalar(_, _) => EmitBalance(st, "?", 1);
    case Nil => EmitBalance(st, "?", 1);
  }

  lemma {:induction false} BalanceAddAll(st: State, bits: seq<Value>)
    requires forall i | 0 <= i < |bits| :: QFree(bits[i])
    ensures Excess(AddAll(st, bits)) == Excess(st)
    decreases bits, 0
  {
    if bits != [] {
      BalanceAdd(st, bits[0]);
      BalanceAddAll(Add(st, bits[0]), bits[1..]);
    }
  }

  lemma {:induction false} BalanceAddPointer(st: State, v: Value)
    requires QFree(v)
    ensures Excess(AddPointer(st, v)) == Excess(st)
    decreases v, 2
  {
    PlaceholderCount();
    match v
    case Ptr(None) => EmitBalance(st, "?", 1);
    case Ptr(Some(x)) =>
      if KindOf(x) != StringKind {
        BalanceAdd(st, x);
      } else {
        EmitBalance(st, "?", 1);
      }
    case _ =>
  }

  lemma {:induction false} BalancePlaceholders(st: State, elems: seq<Value>, i: nat)
    ensures Excess(Placeholders(st, elems, i)) == Excess(st)
    decreases |elems| - i
  {
    if i < |elems| {
      PlaceholderCount();
      EmitBalance(st, "?", 1);
      BalancePlaceholders(BindValues(Emit(st, "?"), [elems[i]]), elems, i + 1);
    }
  }

  lemma RowTextCount(n: nat)
    requires n >= 1
    ensures CountQ(RowText(n)) == n
  {
    RowOpenCount();
    RepeatCount(n - 1);
    NoQCount(" )");
    assert multiset(RowText(n)) == multiset("( ?") + multiset(Repeat(", ?", n - 1)) + multiset(" )");
  }

  lemma ColumnListBalance(st: State, names: string)
    requires '?' !in names
    ensures Excess(Emit(st, "( " + names + " ) VALUES")) == Excess(st)
  {
    ColumnListCount(names);
    EmitBalance(st, "( " + names + " ) VALUES", 0);
  }

  lemma ColumnListCount(names: string)
    requires '?' !in names
    ensures CountQ("( " + names + " ) VALUES") == 0
  {
    NoQCount(names);
    NoQCount("( ");
    NoQCount(" ) VALUES");
    CountAppend("( ", names);
    CountAppend("( " + names, " ) VALUES");
  }

  /** The column list before the first row, or the comma before any other,
      holds no placeholder. */
  lemma RowHeadBalance(st: State, cols: seq<Column>, first: bool)
    requires NamesQFree(cols)
    ensures Excess(if first then Emit(st, "( " + JoinNames(Names(cols)) + " ) VALUES") else Emit(st, ", ")) == Excess(st)
  {
    if first {
      JoinNamesNoQ(Names(cols));
      ColumnListBalance(st, JoinNames(Names(cols)));
    } else {
      NoQCount(", ");
      EmitBalance(st, ", ", 0);
    }
  }

  lemma BalanceRowColumns(st: State, cols: seq<Column>, first: bool)
    requires NamesQFree(cols)
    ensures Excess(RowColumns(st, cols, first)) == Excess(st)
  {
    var st1 := if first then Emit(st, "( " + JoinNames(Names(cols)) + " ) VALUES") else Emit(st, ", ");
    RowHeadBalance(st, cols, first);
    if |cols| > 0 {
      RowTextCount(|cols|);
      var st2 := Emit(st1, RowText(|cols|));
      EmitBalance(st1, RowText(|cols|), |cols|);
      BindBalance(st2, Vals(cols));
      assert RowColumns(st, cols, first) == BindValues(st2, Vals(cols));
    } else {
      assert RowColumns(st, cols, first) == st1.(panicked := true);
    }
  }

  lemma BalanceInsertRow(st: State, row: Value, first: bool)
    requires NamesQFree(SiftStruct(row, st.opt, st.keepAll))
    ensures Excess(InsertRow(st, row, first)) == Excess(st)
  {
    BalanceRowColumns(st, SiftStruct(row, st.opt, st.keepAll), first);
  }

  /** One row of a multi-row insert keeps the balance. */
  lemma MultiRowStep(st: State, rows: seq<Value>, i: nat)
    requires i < |rows| && NamesQFree(SiftStruct(rows[i], st.opt, st.keepAll))
    ensures exists st1: State ::
      && Excess(st1) == Excess(st) && st1.opt == st.opt && st1.keepAll == st.keepAll
      && MultiRow(st, rows, i) == MultiRow(st1, rows, i + 1)
  {
    var st1 := InsertRow(st, rows[i], i == 0);
    BalanceInsertRow(st, rows[i], i == 0);
    assert MultiRow(st, rows, i) == MultiRow(st1, rows, i + 1);
  }

  lemma {:induction false} BalanceMultiRow(st: State, rows: seq<Value>, i: nat)
    requires forall j | 0 <= j < |rows| :: NamesQFree(SiftStruct(rows[j], st.opt, st.keepAll))
    ensures Excess(MultiRow(st, rows, i)) == Excess(st)
    decreases |rows| - i
  {
    if i < |rows| {
      MultiRowStep(st, rows, i);
      var st1: State :| Excess(st1) == Excess(st) && st1.opt == st.opt && st1.keepAll == st.keepAll &&
        MultiRow(st, rows, i) == MultiRow(st1, rows, i + 1);
      BalanceMultiRow(st1, rows, i + 1);
    } else {
      assert MultiRow(st, rows, i) == st;
    }
  }

  lemma BalanceInList(st: State, elems: seq<Value>)
    ensures Excess(InList(st, elems)) == Excess(st)
  {
    NoQCount("(");
    NoQCount("NULL");
    NoQCount(")");
    var s1 := Emit(st, "(");
    EmitBalance(st, "(", 0);
    var s := Placeholders(s1, elems, 0);
    BalancePlaceholders(s1, elems, 0);
    EmitBalance(s, "NULL", 0);
    var s2 := if |elems| == 0 then Emit(s, "NULL") else s;
    EmitBalance(s2, ")", 0);
  }

  /** What a slice needs for balance, by the path it takes: nothing as an
      IN list, column names free of `?` in a multi-row insert, and `?`-free
      elements when they are added one by one. */
  ghost predicate SliceQFree(st: State, v: Value)
  {
    v.Seq? ==>
      var ctx := ContextOf(st.sql);
      if ctx == IN then true
      else if ctx == INSERT && v.elemIsStruct then
        forall j | 0 <= j < |v.elems| :: NamesQFree(SiftStruct(v.elems[j], st.opt, true))
      else forall j | 0 <= j < |v.elems| :: QFree(v.elems[j])
  }

  lemma QFreeSlice(st: State, v: Value)
    requires v.Seq? && QFree(v)
    ensures SliceQFree(st, v)
  {
    forall j | 0 <= j < |v.elems| ensures NamesQFree(SiftStruct(v.elems[j], st.opt, true)) {
      SiftStructNoQ(v.elems[j], st.opt, true);
    }
  }

  lemma {:induction false} BalanceAddSlice(st: State, v: Value)
    requires SliceQFree(st, v)
    ensures Excess(AddSlice(st, v)) == Excess(st)
    decreases v, 2
  {
    match v
    case Seq(elemIsStruct, elems, _) =>
      var ctx := ContextOf(st.sql);
      if ctx == IN {
        BalanceInList(st, elems);
      } else if ctx == INSERT && elemIsStruct {
        BalanceMultiRow(st.(keepAll := true), elems, 0);
      } else {
        BalanceAddAll(st, elems);
      }
    case _ =>
  }

  lemma {:induction false} BalanceSetColumns(st: State, cols: seq<Column>, i: nat)
    requires NamesQFree(cols)
    ensures Excess(SetColumns(st, cols, i)) == Excess(st)
    decreases |cols| - i
  {
    if i < |cols| {
      NoQCount(",");
      EmitBalance(st, ",", 0);
      var st1 := if i > 0 then Emit(st, ",") else st;
      AssignCount(cols[i].name);
      EmitBalance(st1, cols[i].name + " = ?", 1);
      BalanceSetColumns(BindValues(Emit(st1, cols[i].name + " = ?"), [cols[i].value]), cols, i + 1);
    }
  }

  lemma {:induction false} BalanceBaseColumns(st: State, v: Value, cols: seq<Column>, i: nat)
    requires forall j | 0 <= j < |cols| :: cols[j].value == Nil || cols[j].value < v
    requires ColumnsQFree(cols)
    ensures Excess(BaseColumns(st, v, cols, i)) == Excess(st)
    decreases v, 1, |cols| - i
  {
    if i < |cols| {
      NoQCount("AND");
      EmitBalance(st, "AND", 0);
      var st1 := if i > 0 then Emit(st, "AND") else st;
      assert Excess(st1) == Excess(st);
      var st2 := BaseColumn(st1, v, cols[i]);
      BalanceBaseColumn(st1, v, cols[i]);
      BalanceBaseColumns(st2, v, cols, i + 1);
      assert BaseColumns(st, v, cols, i) == BaseColumns(st2, v, cols, i + 1);
    }
  }

  lemma {:induction false} BalanceBaseColumn(st: State, v: Value, c: Column)
    requires c.value == Nil || c.value < v
    requires '?' !in c.name && (c.value.Seq? ==> QFree(c.value))
    ensures Excess(BaseColumn(st, v, c)) == Excess(st)
    decreases v, 0, 1
  {
    if KindOf(c.value) == SliceKind || KindOf(c.value) == ArrayKind {
      assert c.value.Seq?;
      BalanceBaseSlice(st, v, c);
    } else {
      BalanceAssign(st, c.name, c.value);
    }
  }

  /** `name = ?` with its bind. */
  lemma BalanceAssign(st: State, name: string, val: Value)
    requires '?' !in name
    ensures Excess(BindValues(Emit(st, name + " = ?"), [val])) == Excess(st)
  {
    AssignCount(name);
    EmitBalance(st, name + " = ?", 1);
  }

  /** A slice-valued condition: `name IN` holds no `?`, and the slice keeps
      the balance whichever path it takes. */
  lemma {:induction false} BalanceBaseSlice(st: State, v: Value, c: Column)
    requires c.value < v && c.value.Seq?
    requires '?' !in c.name && QFree(c.value)
    ensures Excess(AddSlice(Emit(st, c.name + " IN"), c.value)) == Excess(st)
    decreases v, 0, 0
  {
    var s1 := Emit(st, c.name + " IN");
    NoQCount(c.name + " IN");
    EmitBalance(st, c.name + " IN", 0);
    QFreeSlice(s1, c.value);
    BalanceAddSlice(s1, c.value);
  }



  lemma EmitRowRest(st: State, n: nat)
    ensures Excess(Emit(st, Repeat(", ?", n) + " )")) == Excess(st) + n
  {
    var more := Repeat(", ?", n);
    RepeatCount(n);
    NoQCount(" )");
    CountAppend(more, " )");
    EmitBalance(st, more + " )", n);
  }

  /** An INSERT record binds its column values in order, and adds as many
      `?` as it binds. */
  lemma BalanceInsertColumns(st: State, cols: seq<Column>)
    requires NamesQFree(cols)
    ensures InsertColumns(st, cols).binds == st.binds + Vals(cols)
    ensures Excess(InsertColumns(st, cols)) == Excess(st)
  {
    if |cols| > 0 {
      JoinNamesNoQ(Names(cols));
      ValuesHeadCount(JoinNames(Names(cols)));
      InsertBalance(st, "( " + JoinNames(Names(cols)) + " ) VALUES ( ?", Vals(cols));
    }
  }

  /** A single-row insert: a head holding one placeholder, one more per
      further value, and a bind per value. */
  lemma InsertBalance(st: State, head: string, vals: seq<Value>)
    requires CountQ(head) == 1 && |vals| >= 1
    ensures Excess(BindValues(Emit(Emit(st, head), Repeat(", ?", |vals| - 1) + " )"), vals)) == Excess(st)
  {
    var n := |vals| - 1;
    var st1 := Emit(st, head);
    var st2 := Emit(st1, Repeat(", ?", n) + " )");
    EmitBalance(st, head, 1);
    EmitRowRest(st1, n);
    BindBalance(st2, vals);
    assert Excess(st2) == Excess(st) + 1 + n;
  }

  /** What a record needs for balance: column names free of `?`, and in a
      predicate no `?` in a slice among its values. */
  ghost predicate ComplexQFree(st: State, v: Value)
  {
    var cols := Sift(v, st.opt, st.keepAll);
    NamesQFree(cols) && (ContextOf(st.sql) != INSERT && ContextOf(st.sql) != SET ==> ColumnsQFree(cols))
  }

  lemma {:induction false} BalanceAddComplex(st: State, v: Value)
    requires ComplexQFree(st, v)
    ensures Excess(AddComplex(st, v)) == Excess(st)
    decreases v, 2
  {
    var cols := Sift(v, st.opt, st.keepAll);
    match ContextOf(st.sql)
    case INSERT => BalanceInsertColumns(st, cols);
    case SET => BalanceSetColumns(st, cols, 0);
    case _ => BalanceBaseColumns(st, v, cols, 0);
  }

  /** A query built from bits that put no `?` into the text other than as
      placeholders has exactly one bind per placeholder. */
  lemma BuildBalanced(opt: Options, bits: seq<Value>)
    requires forall i | 0 <= i < |bits| :: QFree(bits[i])
    ensures CountQ(Build(opt, bits).sql) == |Build(opt, bits).binds|
  {
    BalanceAddAll(Init(opt), bits);
  }

  /** Bound data may hold `?`: `UPDATE t SET` with a map whose value is
      "why?", and a pointer to "a?", still have one bind per placeholder. */
  lemma BoundQuestionMarks(opt: Options)
    ensures var b := Build(opt, [Str("UPDATE t SET"), MapV(map["note" := Str("why?")], false), Ptr(Some(Str("a?")))]);
      CountQ(b.sql) == |b.binds|
  {
    var m := map["note" := Str("why?")];
    assert m.Keys == {"note"};
    assert '?' !in "note";
    assert QFree(MapV(m, false));
    assert '?' !in "UPDATE t SET";
    assert QFree(Ptr(Some(Str("a?"))));
    BuildBalanced(opt, [Str("UPDATE t SET"), MapV(m, false), Ptr(Some(Str("a?")))]);
  }

  // ---------------------------------------------------------------------
  // Builds of text, binds and scalars.

  /** Two steps of a build. */
  lemma AddTwo(st: State, x: Value, y: Value)
    ensures AddAll(st, [x, y]) == Add(Add(st, x), y)
  {
    var s1 := Add(st, x);
    assert [x, y][1..] == [y];
    assert AddAll(st, [x, y]) == AddAll(s1, [y]);
    assert [y][1..] == [];
    assert AddAll(s1, [y]) == AddAll(Add(s1, y), []);
  }

  /** `"hello", "world"` is `hello world`; a trailing space is not doubled. */
  lemma BuildWords(opt: Options)
    ensures Build(opt, [Str("hello"), Str("world")]).sql == "hello world"
    ensures Build(opt, [Str("hello "), Str("world")]).sql == "hello world"
  {
    AddTwo(Init(opt), Str("hello"), Str("world"));
    JoinSpaced("hello", "world");
    AddTwo(Init(opt), Str("hello "), Str("world"));
    assert Join("hello ", "world") == "hello " + "world";
  }

  /** A placeholder right after another is separated by a comma. */
  lemma NextPlaceholder(s: State, e: Value)
    requires s.sql != [] && s.sql[|s.sql| - 1] == '?'
    ensures BindValues(Emit(s, "?"), [e]).sql == s.sql + ", ?"
    ensures BindValues(Emit(s, "?"), [e]).binds == s.binds + [e]
  {
    JoinShape(s.sql, "?");
    assert Separator('?', '?') == ", ";
  }

  /** Adjacent scalars become `?, ?` and are bound in order. */
  lemma BuildAdjacentScalars(opt: Options, a: Value, b: Value)
    requires a.Scalar? && b.Scalar?
    ensures Build(opt, [Str("SELECT IFNULL("), a, b, Str(")")]).sql == "SELECT IFNULL( ?, ? )"
    ensures Build(opt, [Str("SELECT IFNULL("), a, b, Str(")")]).binds == [a, b]
  {
    var s1 := Add(Init(opt), Str("SELECT IFNULL("));
    var s2 := Add(s1, a);
    var s3 := Add(s2, b);
    AddTwo(Init(opt), Str("SELECT IFNULL("), a);
    AddTwo(s2, b, Str(")"));
    AddAllAppend(Init(opt), [Str("SELECT IFNULL("), a], [b, Str(")")]);
    assert [Str("SELECT IFNULL("), a] + [b, Str(")")] == [Str("SELECT IFNULL("), a, b, Str(")")];
    FirstPlaceholder(s1, a);
    NextPlaceholder(s2, b);
    assert s3.sql == "SELECT IFNULL( ?, ?";
    JoinSpaced(s3.sql, ")");
  }
}
