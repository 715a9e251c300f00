/**
 * Sifting a record or a map into columns: the empty-value policy, the
 * struct-tag mapping of a field to a column name, and the column lists a
 * struct and a map give.
 */
module Sifter {
  import opened Values
  import Sorting

  /** A column and the value bound for it (Go keeps these in two parallel
      slices, `cols` and `binds`). */
  datatype Column = Column(name: string, value: Value)

  function Names(cols: seq<Column>): (r: seq<string>)
    ensures |r| == |cols| && forall i | 0 <= i < |cols| :: r[i] == cols[i].name
  {
    seq(|cols|, i requires 0 <= i < |cols| => cols[i].name)
  }

  function Vals(cols: seq<Column>): (r: seq<Value>)
    ensures |r| == |cols| && forall i | 0 <= i < |cols| :: r[i] == cols[i].value
  {
    seq(|cols|, i requires 0 <= i < |cols| => cols[i].value)
  }

  lemma NamesVals(a: seq<Column>, b: seq<Column>)
    ensures Names(a + b) == Names(a) + Names(b)
    ensures Vals(a + b) == Vals(a) + Vals(b)
  {
  }

  // ---------------------------------------------------------------------
  // The empty-value policy.

  /** The mode in force for a value: a field's own mode, or the configured
      one when the field leaves it at the default. */
  function Effective(mode: EmptyMode, configured: EmptyMode): EmptyMode
  {
    if mode == DefaultMode then configured else mode
  }

  /** Whether a value found while sifting is kept, and the value bound for it. */
  function CheckValue(v: Value, mode: EmptyMode, configured: EmptyMode, keepAll: bool): (r: Option<Value>)
    ensures !IsZero(v) ==> r == Some(v)
    ensures r.None? <==> IsZero(v) && Effective(mode, configured) == OmitEmpty && !keepAll
    ensures IsZero(v) && Effective(mode, configured) == NullEmpty ==> r == Some(Nil)
    ensures IsZero(v) && Effective(mode, configured) != NullEmpty && r.Some? ==> r == Some(v)
  {
    if !IsZero(v) then Some(v)
    else
      var m := Effective(mode, configured);
      if m == OmitEmpty && !keepAll then None
      else if m == NullEmpty then Some(Nil)
      else Some(v)
  }

  // ---------------------------------------------------------------------
  // Splitting a tag at commas (Go's `strings.Split`).

  function Split(s: string, sep: char): (parts: seq<string>)
    ensures |parts| >= 1
    ensures forall i | 0 <= i < |parts| :: sep !in parts[i]
    ensures forall i, c | 0 <= i < |parts| && c in parts[i] :: c in s
    decreases |s|
  {
    if s == [] then [""]
    else
      var rest := Split(s[1..], sep);
      assert forall c | c in s[1..] :: c in s;
      if s[0] == sep then [""] + rest
      else [[s[0]] + rest[0]] + rest[1..]
  }

  /** The parts put back together with `sep` between them. */
  function JoinWith(parts: seq<string>, sep: char): string
    requires |parts| >= 1
    decreases |parts|
  {
    if |parts| == 1 then parts[0] else parts[0] + [sep] + JoinWith(parts[1..], sep)
  }

  /** Joining the parts of a split gives back the original string. */
  lemma {:induction false} SplitJoin(s: string, sep: char)
    ensures JoinWith(Split(s, sep), sep) == s
    decreases |s|
  {
    if s != [] {
      var rest := Split(s[1..], sep);
      SplitJoin(s[1..], sep);
      if s[0] == sep {
        assert Split(s, sep)[1..] == rest;
      } else if |rest| > 1 {
        var parts := Split(s, sep);
        assert parts[1..] == rest[1..];
        assert JoinWith(parts, sep) == [s[0]] + (rest[0] + [sep] + JoinWith(rest[1..], sep));
      }
      assert s == [s[0]] + s[1..];
    }
  }

  lemma {:induction false} SplitNoSep(x: string, sep: char)
    requires sep !in x
    ensures Split(x, sep) == [x]
    decreases |x|
  {
    if x != [] {
      SplitNoSep(x[1..], sep);
      assert x == [x[0]] + x[1..];
    }
  }

  lemma {:induction false} SplitAtSep(x: string, sep: char, y: string)
    requires sep !in x
    ensures Split(x + [sep] + y, sep) == [x] + Split(y, sep)
    decreases |x|
  {
    if x == [] {
      assert (x + [sep] + y)[1..] == y;
    } else {
      assert (x + [sep] + y)[1..] == x[1..] + [sep] + y;
      SplitAtSep(x[1..], sep, y);
      assert x == [x[0]] + x[1..];
    }
  }

  /** Splitting a join of separator-free parts gives back the parts. */
  lemma {:induction false} JoinSplit(parts: seq<string>, sep: char)
    requires |parts| >= 1
    requires forall i | 0 <= i < |parts| :: sep !in parts[i]
    ensures Split(JoinWith(parts, sep), sep) == parts
    decreases |parts|
  {
    if |parts| == 1 {
      SplitNoSep(parts[0], sep);
    } else {
      JoinSplit(parts[1..], sep);
      SplitAtSep(parts[0], sep, JoinWith(parts[1..], sep));
      assert parts == [parts[0]] + parts[1..];
    }
  }

  // ---------------------------------------------------------------------
  // Mapping a struct field to a column.

  predicate IsModeToken(t: string)
  {
    t == "keepempty" || t == "omitempty" || t == "nullempty"
  }

  function TokenMode(t: string): EmptyMode
  {
    if t == "keepempty" then KeepEmpty
    else if t == "omitempty" then OmitEmpty
    else if t == "nullempty" then NullEmpty
    else DefaultMode
  }

  /** The last tag token that is not a mode keyword, or "" if there is none. */
  function LastName(tokens: seq<string>): string
  {
    if tokens == [] then ""
    else if !IsModeToken(tokens[|tokens| - 1]) then tokens[|tokens| - 1]
    else LastName(tokens[..|tokens| - 1])
  }

  /** The mode of the last mode keyword among the tokens, or the default. */
  function LastMode(tokens: seq<string>): EmptyMode
  {
    if tokens == [] then DefaultMode
    else if IsModeToken(tokens[|tokens| - 1]) then TokenMode(tokens[|tokens| - 1])
    else LastMode(tokens[..|tokens| - 1])
  }

  /** A name token followed only by mode keywords is the name the tag gives. */
  lemma {:induction false} LastNameIsLast(tokens: seq<string>, i: nat)
    requires i < |tokens| && !IsModeToken(tokens[i])
    requires forall j | i < j < |tokens| :: IsModeToken(tokens[j])
    ensures LastName(tokens) == tokens[i]
    decreases |tokens|
  {
    if i < |tokens| - 1 {
      LastNameIsLast(tokens[..|tokens| - 1], i);
    }
  }

  /** A tag made only of mode keywords gives no name. */
  lemma {:induction false} LastNameNone(tokens: seq<string>)
    requires forall j | 0 <= j < |tokens| :: IsModeToken(tokens[j])
    ensures LastName(tokens) == ""
    decreases |tokens|
  {
    if tokens != [] {
      LastNameNone(tokens[..|tokens| - 1]);
    }
  }

  /** A mode keyword followed only by name tokens is the mode the tag gives. */
  lemma {:induction false} LastModeIsLast(tokens: seq<string>, i: nat)
    requires i < |tokens| && IsModeToken(tokens[i])
    requires forall j | i < j < |tokens| :: !IsModeToken(tokens[j])
    ensures LastMode(tokens) == TokenMode(tokens[i])
    decreases |tokens|
  {
    if i < |tokens| - 1 {
      LastModeIsLast(tokens[..|tokens| - 1], i);
    }
  }

  /** The tokens of a field's tag under the configured key; none when the
      key is empty (tags are then ignored). */
  function TagTokens(f: Field, tagKey: string): seq<string>
  {
    if tagKey == "" then [] else Split(TagGet(f.tags, tagKey), ',')
  }

  /** The column name and empty mode of a struct field; an empty name means
      the field is skipped. */
  function FieldMapping(f: Field, tagKey: string): (r: (string, EmptyMode))
    ensures !f.exported ==> r == ("", DefaultMode)
    ensures tagKey != "" && TagGet(f.tags, tagKey) == "-" ==> r == ("", DefaultMode)
    ensures f.exported && tagKey == "" ==> r == (f.name, DefaultMode)
    ensures f.exported && !(tagKey != "" && TagGet(f.tags, tagKey) == "-") ==>
      r.1 == LastMode(TagTokens(f, tagKey)) &&
      r.0 == (if LastName(TagTokens(f, tagKey)) == "" then f.name else LastName(TagTokens(f, tagKey)))
  {
    if !f.exported then ("", DefaultMode)
    else if tagKey != "" && TagGet(f.tags, tagKey) == "-" then ("", DefaultMode)
    else
      var tokens := TagTokens(f, tagKey);
      var name := LastName(tokens);
      (if name == "" then f.name else name, LastMode(tokens))
  }

  /** A tag `name,` ends in an empty token, which counts as the name: the
      field's own name is used, not `name`. */
  lemma TrailingCommaDropsName(f: Field, tagKey: string, name: string)
    requires f.exported && tagKey != "" && TagGet(f.tags, tagKey) == name + ","
    requires ',' !in name
    ensures FieldMapping(f, tagKey).0 == f.name
  {
    JoinSplit([name, ""], ',');
    assert JoinWith([name, ""], ',') == name + ",";
    assert TagTokens(f, tagKey) == [name, ""];
    assert LastName([name, ""]) == "";
    assert [name, ""][..1] == [name];
  }

  // ---------------------------------------------------------------------
  // Sifting a struct.

  /** The fields reflection sees in a struct-kind value. A `Condition` has
      only unexported fields, so none of them yields a column. */
  function StructFields(v: Value): seq<Field>
  {
    match v
    case StructV(fs) => fs
    case _ => []
  }

  predicate IsEmbeddedStruct(f: Field)
  {
    KindOf(f.value) == StructKind && f.anonymous
  }

  /** The columns of a struct value: its fields in order, embedded structs
      flattened in place. */
  function SiftStruct(v: Value, opt: Options, keepAll: bool): (cols: seq<Column>)
    ensures forall i | 0 <= i < |cols| :: cols[i].name != ""
    ensures forall i | 0 <= i < |cols| :: cols[i].value == Nil || cols[i].value < v
    decreases v, 1
  {
    SiftFields(v, StructFields(v), opt, keepAll)
  }

  function SiftFields(v: Value, fs: seq<Field>, opt: Options, keepAll: bool): (cols: seq<Column>)
    requires forall i | 0 <= i < |fs| :: fs[i] < v
    ensures forall i | 0 <= i < |cols| :: cols[i].name != ""
    ensures forall i | 0 <= i < |cols| :: cols[i].value == Nil || cols[i].value < v
    decreases v, 0, |fs|
  {
    if fs == [] then []
    else SiftFields(v, fs[..|fs| - 1], opt, keepAll) + FieldColumns(fs[|fs| - 1], opt, keepAll)
  }

  /** The columns one field contributes: an embedded struct's columns, or
      at most one column for the field itself. */
  function FieldColumns(f: Field, opt: Options, keepAll: bool): (cols: seq<Column>)
    ensures forall i | 0 <= i < |cols| :: cols[i].name != ""
    ensures forall i | 0 <= i < |cols| :: cols[i].value == Nil || cols[i].value < f
    decreases f
  {
    if IsEmbeddedStruct(f) then SiftStruct(f.value, opt, keepAll)
    else
      var (name, mode) := FieldMapping(f, opt.tag);
      if name == "" then []
      else
        match CheckValue(f.value, mode, opt.empty, keepAll)
        case None => []
        case Some(x) => [Column(name, x)]
  }

  /** The layout of a struct type: field names, visibility, embedding, tags,
      and which fields are embedded structs of which layout. Two values of
      one Go struct type have the same layout. */
  predicate SameShape(a: Value, b: Value)
    decreases a
  {
    var fa := StructFields(a);
    var fb := StructFields(b);
    |fa| == |fb| && forall i | 0 <= i < |fa| :: SameFieldShape(fa[i], fb[i])
  }

  predicate SameFieldShape(f: Field, g: Field)
    decreases f
  {
    f.name == g.name && f.exported == g.exported && f.anonymous == g.anonymous && f.tags == g.tags &&
    IsEmbeddedStruct(f) == IsEmbeddedStruct(g) &&
    (IsEmbeddedStruct(f) ==> SameShape(f.value, g.value))
  }

  /** The values Go can produce: a nil slice or nil map holds nothing, and
      the elements of a slice of structs are structs of one type, so of one
      shape. */
  predicate WellFormed(v: Value)
    decreases v
  {
    match v
    case Ptr(Some(x)) => WellFormed(x)
    case Seq(elemIsStruct, elems, form) =>
      && (form == NilSlice ==> elems == [])
      && (elemIsStruct ==> forall i | 0 <= i < |elems| :: elems[i].StructV? && SameShape(elems[i], elems[0]))
      && (forall i | 0 <= i < |elems| :: WellFormed(elems[i]))
    case MapV(m, isNil) => (isNil ==> m == map[]) && forall k | k in m :: WellFormed(m[k])
    case StructV(fs) => forall i | 0 <= i < |fs| :: FieldWellFormed(fs[i])
    case Cond(_, bits) => forall i | 0 <= i < |bits| :: WellFormed(bits[i])
    case _ => true
  }

  predicate FieldWellFormed(f: Field)
    decreases f
  {
    WellFormed(f.value)
  }

  /** With every value kept (as in a multi-row insert), the columns of a
      struct depend only on its layout: every row of one type has the same
      columns. */
  lemma {:induction false} KeepAllSameColumns(a: Value, b: Value, opt: Options)
    requires SameShape(a, b)
    ensures Names(SiftStruct(a, opt, true)) == Names(SiftStruct(b, opt, true))
    decreases a, 1
  {
    var fa, fb := StructFields(a), StructFields(b);
    KeepAllSameFieldColumns(a, b, |fa|, opt);
    assert fa[..|fa|] == fa && fb[..|fb|] == fb;
  }

  lemma {:induction false} KeepAllSameFieldColumns(a: Value, b: Value, n: nat, opt: Options)
    requires SameShape(a, b) && n <= |StructFields(a)|
    ensures Names(SiftFields(a, StructFields(a)[..n], opt, true)) == Names(SiftFields(b, StructFields(b)[..n], opt, true))
    decreases a, 0, n
  {
    var fa, fb := StructFields(a), StructFields(b);
    if n == 0 {
      assert fa[..0] == [] && fb[..0] == [];
    } else {
      KeepAllSameFieldColumns(a, b, n - 1, opt);
      var f, g := fa[n - 1], fb[n - 1];
      assert SameFieldShape(f, g);
      FieldColumnsSameShape(a, f, g, opt);
      var pa, pb := SiftFields(a, fa[..n - 1], opt, true), SiftFields(b, fb[..n - 1], opt, true);
      assert SiftFields(a, fa[..n], opt, true) == pa + FieldColumns(f, opt, true) by {
        assert fa[..n][..n - 1] == fa[..n - 1];
      }
      assert SiftFields(b, fb[..n], opt, true) == pb + FieldColumns(g, opt, true) by {
        assert fb[..n][..n - 1] == fb[..n - 1];
      }
      NamesVals(pa, FieldColumns(f, opt, true));
      NamesVals(pb, FieldColumns(g, opt, true));
    }
  }

  lemma {:induction false} FieldColumnsSameShape(a: Value, f: Field, g: Field, opt: Options)
    requires f < a && SameFieldShape(f, g)
    ensures Names(FieldColumns(f, opt, true)) == Names(FieldColumns(g, opt, true))
    decreases a, 0, 0
  {
    if IsEmbeddedStruct(f) {
      KeepAllSameColumns(f.value, g.value, opt);
    } else {
      assert FieldMapping(f, opt.tag) == FieldMapping(g, opt.tag);
    }
  }

  // ---------------------------------------------------------------------
  // Sifting a map.

  /** The keys whose values the empty-value policy keeps. */
  function KeptKeys(m: map<string, Value>, configured: EmptyMode, keepAll: bool): set<string>
  {
    set k | k in m && CheckValue(m[k], DefaultMode, configured, keepAll).Some?
  }

  /** The columns of a map: its kept keys in ascending order, each with its
      checked value. */
  ghost function SiftMap(m: map<string, Value>, opt: Options, keepAll: bool): (cols: seq<Column>)
    ensures Sorting.StrictlySorted(Names(cols))
    ensures Sorting.Elems(Names(cols)) == KeptKeys(m, opt.empty, keepAll)
    ensures forall i | 0 <= i < |cols| ::
      cols[i].name in m && CheckValue(m[cols[i].name], DefaultMode, opt.empty, keepAll) == Some(cols[i].value)
  {
    var keys := Sorting.SortedSeq(KeptKeys(m, opt.empty, keepAll));
    assert forall i | 0 <= i < |keys| :: keys[i] in Sorting.Elems(keys);
    var cols := seq(|keys|, i requires 0 <= i < |keys| => Column(keys[i], CheckValue(m[keys[i]], DefaultMode, opt.empty, keepAll).value));
    assert Names(cols) == keys;
    cols
  }

  /** A map's columns hold its values, or nil. */
  lemma SiftMapBelow(v: Value, opt: Options, keepAll: bool)
    requires v.MapV?
    ensures forall i | 0 <= i < |SiftMap(v.entries, opt, keepAll)| ::
      SiftMap(v.entries, opt, keepAll)[i].value == Nil || SiftMap(v.entries, opt, keepAll)[i].value < v
  {
    var cols := SiftMap(v.entries, opt, keepAll);
    forall i | 0 <= i < |cols| ensures cols[i].value == Nil || cols[i].value < v {
      var k := cols[i].name;
      assert v.entries[k] < v;
    }
  }

  /** The columns of a struct or map value; any other value has none. */
  ghost function Sift(v: Value, opt: Options, keepAll: bool): (cols: seq<Column>)
    ensures KindOf(v) !in {StructKind, MapKind} ==> cols == []
    ensures forall i | 0 <= i < |cols| :: cols[i].value == Nil || cols[i].value < v
  {
    match v
    case StructV(_) => SiftStruct(v, opt, keepAll)
    case Cond(_, _) => SiftStruct(v, opt, keepAll)
    case MapV(m, _) =>
      SiftMapBelow(v, opt, keepAll);
      SiftMap(m, opt, keepAll)
    case _ => []
  }

  /** An empty map has no columns, whatever the empty-value policy. */
  lemma EmptyMapNoColumns(isNil: bool, opt: Options, keepAll: bool)
    ensures Sift(MapV(map[], isNil), opt, keepAll) == []
  {
    var cols := Sift(MapV(map[], isNil), opt, keepAll);
    Sorting.ElemsEmpty(Names(cols));
  }

  /** A map whose values are all empty has columns exactly when the policy
      in force does not omit empty values. */
  lemma AllEmptyMapColumns(m: map<string, Value>, isNil: bool, opt: Options, keepAll: bool)
    requires m != map[]
    requires forall k | k in m :: IsZero(m[k])
    ensures |Sift(MapV(m, isNil), opt, keepAll)| > 0 <==> opt.empty != OmitEmpty || keepAll
  {
    var cols := Sift(MapV(m, isNil), opt, keepAll);
    var k :| k in m;
    Sorting.ElemsEmpty(Names(cols));
    if opt.empty != OmitEmpty || keepAll {
      assert k in KeptKeys(m, opt.empty, keepAll);
    } else {
      assert KeptKeys(m, opt.empty, keepAll) == {};
    }
  }
}
