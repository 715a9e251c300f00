/**
 * A query being built: its configuration, SQL buffer and binds, and the
 * operations that add bits to it. Each operation is proved to change the
 * query as the corresponding function of `QuerySpec` says, and each sifting
 * operation to return the columns `Sifter` defines.
 */
module Queries {
  import opened Values
  import opened SqlText
  import opened SqlContext
  import Compat
  import opened Sorting
  import opened Sifter
  import QuerySpec

  /** No string occurs twice. */
  ghost predicate Distinct(s: seq<string>)
  {
    forall i, j | 0 <= i < j < |s| :: s[i] != s[j]
  }

  lemma {:induction false} DistinctCount(s: seq<string>, x: string)
    requires Distinct(s)
    ensures multiset(s)[x] <= 1
    decreases |s|
  {
    if s != [] {
      var init := s[..|s| - 1];
      assert s == init + [s[|s| - 1]];
      DistinctCount(init, x);
      if x == s[|s| - 1] {
        assert x !in init;
      }
    }
  }

  lemma RepeatedCount(t: seq<string>, i: nat, j: nat)
    requires i < j < |t| && t[i] == t[j]
    ensures multiset(t)[t[i]] >= 2
  {
    assert t == t[..j] + t[j..];
    assert t[i] in t[..j] && t[j] in t[j..];
  }

  /** A rearrangement of a sequence without repeats has none either. */
  lemma DistinctPermutation(s: seq<string>, t: seq<string>)
    requires Distinct(s) && multiset(s) == multiset(t)
    ensures Distinct(t)
  {
    forall i, j | 0 <= i < j < |t| ensures t[i] != t[j] {
      if t[i] == t[j] {
        RepeatedCount(t, i, j);
        DistinctCount(s, t[i]);
      }
    }
  }

  lemma PermutationElems(s: seq<string>, t: seq<string>)
    requires multiset(s) == multiset(t)
    ensures Elems(s) == Elems(t)
  {
    forall x ensures x in s <==> x in t {
      assert x in s <==> x in multiset(s);
      assert x in t <==> x in multiset(t);
    }
  }

  lemma KeptAmongStep(m: map<string, Value>, done: set<string>, k: string, configured: EmptyMode, keepAll: bool)
    requires k in m
    ensures KeptAmong(m, done + {k}, configured, keepAll) ==
      KeptAmong(m, done, configured, keepAll) + (if CheckValue(m[k], DefaultMode, configured, keepAll).Some? then {k} else {})
  {
  }

  /** After visiting the keys `done`: `keys` lists the kept ones, each once,
      and `valmap` maps each to its kept value. */
  ghost predicate Collected(m: map<string, Value>, done: set<string>, keys: seq<string>, valmap: map<string, Value>,
                            configured: EmptyMode, keepAll: bool)
  {
    Elems(keys) == KeptAmong(m, done, configured, keepAll) &&
    Distinct(keys) &&
    valmap.Keys == Elems(keys) &&
    forall k | k in valmap :: k in m && CheckValue(m[k], DefaultMode, configured, keepAll) == Some(valmap[k])
  }

  lemma CollectStep(m: map<string, Value>, done: set<string>, keys: seq<string>, valmap: map<string, Value>, k: string,
                    configured: EmptyMode, keepAll: bool)
    requires Collected(m, done, keys, valmap, configured, keepAll)
    requires k in m && k !in done
    ensures var r := CheckValue(m[k], DefaultMode, configured, keepAll);
      if r.Some? then Collected(m, done + {k}, keys + [k], valmap[k := r.value], configured, keepAll)
      else Collected(m, done + {k}, keys, valmap, configured, keepAll)
  {
    var r := CheckValue(m[k], DefaultMode, configured, keepAll);
    KeptAmongStep(m, done, k, configured, keepAll);
    if r.Some? {
      assert k !in Elems(keys);
      assert Elems(keys + [k]) == Elems(keys) + {k};
    }
  }

  lemma SortedDistinct(s: seq<string>)
    requires Sorted(s) && Distinct(s)
    ensures StrictlySorted(s)
  {
  }

  /** The keys `done` holds that the empty-value policy keeps. */
  ghost function KeptAmong(m: map<string, Value>, done: set<string>, configured: EmptyMode, keepAll: bool): set<string>
  {
    set k | k in done && k in m && CheckValue(m[k], DefaultMode, configured, keepAll).Some?
  }

  /** `keys` in ascending order. */
  method SortKeys(keys: seq<string>) returns (sorted: seq<string>)
    ensures Sorted(sorted) && multiset(sorted) == multiset(keys)
  {
    var a := new string[|keys|](i requires 0 <= i < |keys| => keys[i]);
    assert a[..] == keys;
    SortStrings(a);
    sorted := a[..];
  }

  /** The value `valmap` holds for each of `keys`, in order. */
  method LookUp(valmap: map<string, Value>, keys: seq<string>) returns (vals: seq<Value>)
    requires forall k | k in keys :: k in valmap
    ensures |vals| == |keys|
    ensures forall j | 0 <= j < |keys| :: vals[j] == valmap[keys[j]]
  {
    vals := [];
    var i := 0;
    while i < |keys|
      invariant 0 <= i <= |keys|
      invariant |vals| == i
      invariant forall j | 0 <= j < i :: vals[j] == valmap[keys[j]]
    {
      vals := vals + [valmap[keys[i]]];
      i := i + 1;
    }
  }

  /** Sorting the collected keys gives the sifted map's column names, and
      the collected values are the sifted map's values. */
  lemma SortedKeysAreNames(m: map<string, Value>, keys: seq<string>, valmap: map<string, Value>, cols: seq<string>,
                           opt: Options, keepAll: bool)
    requires Collected(m, m.Keys, keys, valmap, opt.empty, keepAll)
    requires Sorted(cols) && multiset(cols) == multiset(keys)
    ensures cols == Names(Sifter.SiftMap(m, opt, keepAll))
    ensures forall k | k in cols :: k in valmap
    ensures forall j | 0 <= j < |cols| :: Sifter.SiftMap(m, opt, keepAll)[j].value == valmap[cols[j]]
  {
    assert KeptAmong(m, m.Keys, opt.empty, keepAll) == KeptKeys(m, opt.empty, keepAll);
    DistinctPermutation(keys, cols);
    PermutationElems(keys, cols);
    SortedDistinct(cols);
    var spec := Sifter.SiftMap(m, opt, keepAll);
    StrictlySortedUnique(cols, Names(spec));
    forall j | 0 <= j < |cols| ensures spec[j].value == valmap[cols[j]] {
      assert cols[j] in Elems(cols);
      assert Some(spec[j].value) == Some(valmap[cols[j]]);
    }
  }

  /** One assignment of a `SET` list. */
  lemma SetColumnsStep(st: QuerySpec.State, cols: seq<Column>, i: nat, r: QuerySpec.State)
    requires i < |cols|
    requires r == QuerySpec.BindValues(QuerySpec.Emit(if i > 0 then QuerySpec.Emit(st, ",") else st, cols[i].name + " = ?"), [cols[i].value])
    ensures QuerySpec.SetColumns(st, cols, i) == QuerySpec.SetColumns(r, cols, i + 1)
  {
  }

  /** One condition of a conjunction of columns. */
  lemma BaseColumnsStep(st: QuerySpec.State, v: Value, cols: seq<Column>, i: nat, r: QuerySpec.State)
    requires forall j | 0 <= j < |cols| :: cols[j].value == Nil || cols[j].value < v
    requires i < |cols|
    requires r == QuerySpec.BaseColumn(if i > 0 then QuerySpec.Emit(st, "AND") else st, v, cols[i])
    ensures QuerySpec.BaseColumns(st, v, cols, i) == QuerySpec.BaseColumns(r, v, cols, i + 1)
  {
  }

  /** One row of a multi-row insert. */
  lemma MultiRowUnfold(st: QuerySpec.State, rows: seq<Value>, i: nat)
    requires i < |rows|
    ensures QuerySpec.MultiRow(st, rows, i) == QuerySpec.MultiRow(QuerySpec.InsertRow(st, rows[i], i == 0), rows, i + 1)
  {
  }

  class Query {
    var opt: Options
    const sql: SqlBuf
    const binds: SqlBinds
    var keepAll: bool    // set while the rows of a multi-row insert are sifted
    var panicked: bool   // the build has panicked; nothing after it matters

    /** The query as the specification sees it. */
    ghost function State(): QuerySpec.State
      reads this, sql, binds
    {
      QuerySpec.State(opt, sql.val, binds.vals, keepAll, panicked)
    }

    constructor (opt: Options)
      ensures State() == QuerySpec.Init(opt)
      ensures fresh(sql) && fresh(binds)
    {
      this.opt := opt;
      sql := new SqlBuf();
      binds := new SqlBinds();
      keepAll := false;
      panicked := false;
    }

    /** The clause the SQL so far ends in. */
    function Context(): Context
      reads this, sql
    {
      ContextOf(sql.val)
    }

    // -------------------------------------------------------------------
    // Sifting records into columns. None of these changes the query.

    /** A value survives sifting unless it is zero and the empty mode omits
        it; a zero value under the null mode becomes nil. */
    method CheckValue(v: Value, mode: EmptyMode) returns (r: Option<Value>)
      ensures r == Sifter.CheckValue(v, mode, opt.empty, keepAll)
    {
      if !IsZero(v) {
        return Some(v);
      }
      var m := mode;
      if m == DefaultMode {
        m := opt.empty;
      }
      if m == OmitEmpty {
        if !keepAll {
          return None;
        }
      } else if m == NullEmpty {
        return Some(Nil);
      }
      return Some(v);
    }

    /** The column name and empty mode of a field: "" for an unexported
        field or one tagged `-`; otherwise the last name token of its tag
        (the field's own name if there is none) and the last mode token. */
    method MapField(f: Field) returns (name: string, mode: EmptyMode)
      ensures (name, mode) == FieldMapping(f, opt.tag)
    {
      name, mode := "", DefaultMode;
      if !f.exported {
        return;
      }
      if opt.tag != "" {
        var tag := TagGet(f.tags, opt.tag);
        if tag == "-" {
          return;
        }
        var tokens := Split(tag, ',');
        var i := 0;
        while i < |tokens|
          invariant 0 <= i <= |tokens|
          invariant name == LastName(tokens[..i]) && mode == LastMode(tokens[..i])
        {
          var t := tokens[i];
          assert tokens[..i + 1][..i] == tokens[..i];
          if t == "keepempty" {
            mode := KeepEmpty;
          } else if t == "omitempty" {
            mode := OmitEmpty;
          } else if t == "nullempty" {
            mode := NullEmpty;
          } else {
            name := t;
          }
          i := i + 1;
        }
        assert tokens[..i] == tokens;
      }
      if name == "" {
        name := f.name;
      }
    }

    /** The columns and binds of a struct, field by field, embedded structs
        flattened in place. */
    method SiftStruct(v: Value) returns (cols: seq<string>, vals: seq<Value>)
      ensures cols == Names(Sifter.SiftStruct(v, opt, keepAll))
      ensures vals == Vals(Sifter.SiftStruct(v, opt, keepAll))
      decreases v, 1
    {
      var fs := StructFields(v);
      cols, vals := [], [];
      var i := 0;
      while i < |fs|
        invariant 0 <= i <= |fs|
        invariant cols == Names(SiftFields(v, fs[..i], opt, keepAll))
        invariant vals == Vals(SiftFields(v, fs[..i], opt, keepAll))
      {
        var field := fs[i];
        ghost var prefix := SiftFields(v, fs[..i], opt, keepAll);
        assert fs[..i + 1][..i] == fs[..i];
        assert SiftFields(v, fs[..i + 1], opt, keepAll) == prefix + FieldColumns(field, opt, keepAll);
        NamesVals(prefix, FieldColumns(field, opt, keepAll));
        var c, b := SiftField(field);
        cols := cols + c;
        vals := vals + b;
        i := i + 1;
      }
      assert fs[..i] == fs;
    }

    /** What one field contributes: an embedded struct's columns, or the
        field's own column unless it is skipped or its value omitted. */
    method SiftField(field: Field) returns (cols: seq<string>, vals: seq<Value>)
      ensures cols == Names(FieldColumns(field, opt, keepAll))
      ensures vals == Vals(FieldColumns(field, opt, keepAll))
      decreases field
    {
      if KindOf(field.value) == StructKind && field.anonymous {
        cols, vals := SiftStruct(field.value);
      } else {
        cols, vals := [], [];
        var name, mode := MapField(field);
        if name != "" {
          var r := CheckValue(field.value, mode);
          if r.Some? {
            cols, vals := [name], [r.value];
          }
        }
      }
    }

    /** The columns and binds of a map: its kept keys in ascending order,
        each with its kept value. The keys are visited in whatever order
        the map yields them. */
    method SiftMap(m: map<string, Value>) returns (cols: seq<string>, vals: seq<Value>)
      ensures cols == Names(Sifter.SiftMap(m, opt, keepAll))
      ensures vals == Vals(Sifter.SiftMap(m, opt, keepAll))
    {
      var keys, valmap := CollectKept(m);
      cols := SortKeys(keys);
      SortedKeysAreNames(m, keys, valmap, cols, opt, keepAll);
      vals := LookUp(valmap, cols);
      ghost var spec := Sifter.SiftMap(m, opt, keepAll);
      forall j | 0 <= j < |vals| ensures vals[j] == Vals(spec)[j] {
        assert Some(vals[j]) == Some(spec[j].value);
      }
    }

    /** The kept keys of `m` in the order the map yields them, each with its
        kept value. */
    method CollectKept(m: map<string, Value>) returns (keys: seq<string>, valmap: map<string, Value>)
      ensures Collected(m, m.Keys, keys, valmap, opt.empty, keepAll)
    {
      var rest := m.Keys;
      keys, valmap := [], map[];
      while rest != {}
        invariant rest <= m.Keys
        invariant Collected(m, m.Keys - rest, keys, valmap, opt.empty, keepAll)
        decreases rest
      {
        var k :| k in rest;
        var r := CheckValue(m[k], DefaultMode);
        CollectStep(m, m.Keys - rest, keys, valmap, k, opt.empty, keepAll);
        assert m.Keys - (rest - {k}) == m.Keys - rest + {k};
        rest := rest - {k};
        if r.Some? {
          keys := keys + [k];
          valmap := valmap[k := r.value];
        }
      }
      assert m.Keys - rest == m.Keys;
    }

    /** The columns and binds of a struct or map; none for anything else. */
    method Sift(v: Value) returns (cols: seq<string>, vals: seq<Value>)
      ensures cols == Names(Sifter.Sift(v, opt, keepAll))
      ensures vals == Vals(Sifter.Sift(v, opt, keepAll))
    {
      match v
      case StructV(_) =>
        cols, vals := SiftStruct(v);
      case Cond(_, _) =>
        cols, vals := SiftStruct(v);
      case MapV(m, _) =>
        cols, vals := SiftMap(m);
      case _ =>
        cols, vals := [], [];
    }

    // -------------------------------------------------------------------
    // Adding bits. Each operation changes the query exactly as the
    // function of the same name in `QuerySpec` says.

    /** Adds one bit: a true condition adds its bits, an option changes the
        configuration, and any other value is dispatched on its kind. */
    method Add(bit: Value)
      modifies this, sql, binds
      ensures State() == QuerySpec.Add(old(State()), bit)
      decreases bit, 3
    {
      match bit
      case Cond(isTrue, bits) =>
        if isTrue {
          var n := 0;
          while n < |bits|
            invariant 0 <= n <= |bits|
            invariant QuerySpec.AddAll(State(), bits[n..]) == QuerySpec.AddAll(old(State()), bits)
          {
            assert bits[n..][1..] == bits[n + 1..];
            Add(bits[n]);
            n := n + 1;
          }
        }
      case Opt(o) =>
        opt := Compat.ApplyOption(o, opt);
      case Str(_) =>
        AddString(bit);
      case BindStr(_) =>
        AddString(bit);
      case Ptr(_) =>
        AddPointer(bit);
      case Seq(_, _, _) =>
        AddSlice(bit);
      case MapV(_, _) =>
        AddComplex(bit);
      case StructV(_) =>
        AddComplex(bit);
      case Scalar(_, _) =>
        sql.Add("?");
        binds.Add([bit]);
      case Nil =>
        sql.Add("?");
        binds.Add([bit]);
    }

    /** A plain string is SQL text; a `Bind` string is a placeholder bound
        to the string. */
    method AddString(v: Value)
      modifies sql, binds
      ensures State() == QuerySpec.AddString(old(State()), v)
    {
      match v
      case BindStr(s) =>
        sql.Add("?");
        binds.Add([Str(s)]);
      case Str(s) =>
        sql.Add(s);
      case _ =>
    }

    /** A nil pointer binds nil, a pointer to a string binds the string, and
        any other pointer adds what it points to. */
    method AddPointer(v: Value)
      modifies this, sql, binds
      ensures State() == QuerySpec.AddPointer(old(State()), v)
      decreases v, 2
    {
      match v
      case Ptr(None) =>
        sql.Add("?");
        binds.Add([Nil]);
      case Ptr(Some(x)) =>
        if KindOf(x) == StringKind {
          sql.Add("?");
          binds.Add([x]);
        } else {
          Add(x);
        }
      case _ =>
    }

    /** A slice or array: a placeholder list after `IN`, a multi-row insert
        of structs after `INSERT ... INTO t`, otherwise each element added in
        turn. */
    method AddSlice(v: Value)
      modifies this, sql, binds
      ensures State() == QuerySpec.AddSlice(old(State()), v)
      decreases v, 2
    {
      match v
      case Seq(elemIsStruct, elems, _) =>
        var context := Context();
        if context == IN {
          AddInList(elems);
        } else if context == INSERT && elemIsStruct {
          // every row keeps all its values so that the rows line up
          keepAll := true;
          AddRows(elems);
          keepAll := false;
        } else {
          AddElements(v, elems);
        }
      case _ =>
    }

    /** `( ?, ..., ? )` with one bind per element, `( NULL )` for none. */
    method AddInList(elems: seq<Value>)
      modifies sql, binds
      ensures State() == QuerySpec.InList(old(State()), elems)
    {
      sql.Add("(");
      var i := 0;
      while i < |elems|
        invariant 0 <= i <= |elems|
        invariant QuerySpec.Placeholders(State(), elems, i) ==
          QuerySpec.Placeholders(QuerySpec.Emit(old(State()), "("), elems, 0)
      {
        sql.Add("?");
        binds.Add([elems[i]]);
        i := i + 1;
      }
      if |elems| == 0 {
        sql.Add("NULL");
      }
      sql.Add(")");
    }

    /** The rows of a multi-row insert: the column list of the first row,
        then one placeholder group per row. */
    method AddRows(rows: seq<Value>)
      modifies this, sql, binds
      ensures State() == QuerySpec.MultiRow(old(State()), rows, 0)
    {
      var i := 0;
      while i < |rows|
        invariant 0 <= i <= |rows|
        invariant QuerySpec.MultiRow(State(), rows, i) == QuerySpec.MultiRow(old(State()), rows, 0)
      {
        ghost var st := State();
        AddRow(rows[i], i == 0);
        MultiRowUnfold(st, rows, i);
        i := i + 1;
      }
    }

    /** One row of a multi-row insert: the column list before the first row
        and `, ` before any other, then the row's placeholder group. */
    method AddRow(row: Value, first: bool)
      modifies this, sql, binds
      ensures State() == QuerySpec.InsertRow(old(State()), row, first)
    {
      var cols, vals := SiftStruct(row);
      ghost var spec := Sifter.SiftStruct(row, opt, keepAll);
      if first {
        sql.Add("( " + QuerySpec.JoinNames(cols) + " ) VALUES");
      } else {
        sql.Add(", ");
      }
      if |cols| == 0 {
        // a row without columns: its placeholder group cannot be written
        panicked := true;
      } else {
        sql.Add(QuerySpec.RowText(|cols|));
        binds.Add(vals);
      }
    }

    /** Each element of the slice `v` added in turn. */
    method AddElements(v: Value, elems: seq<Value>)
      requires v.Seq? && elems == v.elems
      modifies this, sql, binds
      ensures State() == QuerySpec.AddAll(old(State()), elems)
      decreases v, 1
    {
      var i := 0;
      while i < |elems|
        invariant 0 <= i <= |elems|
        invariant QuerySpec.AddAll(State(), elems[i..]) == QuerySpec.AddAll(old(State()), elems)
      {
        assert elems[i..][1..] == elems[i + 1..];
        Add(elems[i]);
        i := i + 1;
      }
    }

    /** A struct or map: its column list and placeholder group after
        `INSERT ... INTO t`, assignments after `SET`, and otherwise one
        condition per column joined by `AND`. */
    method AddComplex(v: Value)
      modifies this, sql, binds
      ensures State() == QuerySpec.AddComplex(old(State()), v)
      decreases v, 2
    {
      var cols, vals := Sift(v);
      ghost var spec := Sifter.Sift(v, opt, keepAll);
      match Context()
      case INSERT =>
        AddInsertColumns(cols, vals, spec);
      case SET =>
        AddSetColumns(cols, vals, spec);
      case _ =>
        AddBaseColumns(v, cols, vals, spec);
    }

    /** The column list and placeholder group of a single-row insert. */
    method AddInsertColumns(cols: seq<string>, vals: seq<Value>, ghost spec: seq<Column>)
      requires cols == Names(spec) && vals == Vals(spec)
      modifies sql, binds
      ensures State() == QuerySpec.InsertColumns(old(State()), spec)
    {
      if |cols| > 0 {
        sql.Add("( " + QuerySpec.JoinNames(cols) + " ) VALUES ( ?");
        sql.Add(QuerySpec.Repeat(", ?", |cols| - 1) + " )");
        binds.Add(vals);
      }
    }

    /** `name = ?` per column, separated by commas. */
    method AddSetColumns(cols: seq<string>, vals: seq<Value>, ghost spec: seq<Column>)
      requires cols == Names(spec) && vals == Vals(spec)
      modifies sql, binds
      ensures State() == QuerySpec.SetColumns(old(State()), spec, 0)
    {
      var i := 0;
      while i < |cols|
        invariant 0 <= i <= |cols|
        invariant QuerySpec.SetColumns(State(), spec, i) == QuerySpec.SetColumns(old(State()), spec, 0)
      {
        ghost var st := State();
        AddAssignment(cols[i], vals[i], i > 0);
        SetColumnsStep(st, spec, i, State());
        i := i + 1;
      }
    }

    /** `name = ?`, after a comma unless it is the first, binding `val`. */
    method AddAssignment(name: string, val: Value, comma: bool)
      modifies sql, binds
      ensures State() == QuerySpec.BindValues(
        QuerySpec.Emit(if comma then QuerySpec.Emit(old(State()), ",") else old(State()), name + " = ?"), [val])
    {
      if comma {
        sql.Add(",");
      }
      sql.Add(name + " = ?");
      binds.Add([val]);
    }

    /** One condition per column, separated by `AND`: `name IN` and the
        slice for a slice or array value, `name = ?` for any other. */
    method AddBaseColumns(v: Value, cols: seq<string>, vals: seq<Value>, ghost spec: seq<Column>)
      requires cols == Names(spec) && vals == Vals(spec)
      requires forall j | 0 <= j < |spec| :: spec[j].value == Nil || spec[j].value < v
      modifies this, sql, binds
      ensures State() == QuerySpec.BaseColumns(old(State()), v, spec, 0)
      decreases v, 1
    {
      var i := 0;
      while i < |cols|
        invariant 0 <= i <= |cols|
        invariant QuerySpec.BaseColumns(State(), v, spec, i) == QuerySpec.BaseColumns(old(State()), v, spec, 0)
      {
        ghost var st := State();
        AddCondition(v, cols[i], vals[i], i > 0);
        BaseColumnsStep(st, v, spec, i, State());
        i := i + 1;
      }
    }

    /** One condition, after `AND` unless it is the first. */
    method AddCondition(v: Value, name: string, val: Value, and: bool)
      requires val == Nil || val < v
      modifies this, sql, binds
      ensures State() == QuerySpec.BaseColumn(if and then QuerySpec.Emit(old(State()), "AND") else old(State()), v, Column(name, val))
      decreases v, 0, 1
    {
      if and {
        sql.Add("AND");
      }
      AddColumnCondition(v, name, val);
    }

    /** `name IN` and the slice for a slice or array value, `name = ?` for
        any other. */
    method AddColumnCondition(v: Value, name: string, val: Value)
      requires val == Nil || val < v
      modifies this, sql, binds
      ensures State() == QuerySpec.BaseColumn(old(State()), v, Column(name, val))
      decreases v, 0, 0
    {
      var kind := KindOf(val);
      if kind == SliceKind || kind == ArrayKind {
        sql.Add(name + " IN");
        AddSlice(val);
      } else {
        sql.Add(name + " = ?");
        binds.Add([val]);
      }
    }
  }
}
