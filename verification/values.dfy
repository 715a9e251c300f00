/**
 * The values a caller hands to the builder, as a closed set of kinds.
 *
 * Go code passes `interface{}` values and inspects them with reflection;
 * here every such value is one constructor of `Value`, and `Kind` plays the
 * part of `reflect.Value.Kind()`.
 */
module Values {

  datatype Option<+T> = None | Some(value: T)

  /** How a zero value found while sifting a record or map is treated.
      `DefaultMode` defers to the configured mode (Go's `eDefault`). */
  datatype EmptyMode = DefaultMode | KeepEmpty | OmitEmpty | NullEmpty

  /** The compatibility empty-value handler: the two flags its closure captures. */
  datatype CompatFn = CompatFn(emptyValues: bool, nilValues: bool)

  /** The configuration a query reads: the struct-tag key, the default empty
      mode, and the deprecated compatibility flags with the handler built from them. */
  datatype Options = Options(
    tag: string,
    empty: EmptyMode,
    emptyValues: bool,
    nilValues: bool,
    emptyFn: Option<CompatFn>)

  /** An inline configuration directive passed among the bits of a build. */
  datatype ConfigOption =
    | SetTag(tag: string)
    | SetEmpty(mode: EmptyMode)
    | EmptyValues(keepEmpty: bool)
    | NilValues(keepNil: bool)

  /** Whether a sequence value is a Go array, a slice, or a nil slice. */
  datatype SeqForm = Array | Slice | NilSlice

  datatype Value =
    | Str(s: string)                          // a plain string: SQL text
    | BindStr(s: string)                      // a string wrapped in `Bind`
    | Scalar(lit: string, isZero: bool)       // a bool, number or other opaque value
    | Nil                                     // the untyped nil
    | Ptr(target: Option<Value>)              // a pointer; None is a nil pointer
    | Seq(elemIsStruct: bool, elems: seq<Value>, form: SeqForm)
    | MapV(entries: map<string, Value>, isNil: bool)
    | StructV(fields: seq<Field>)
    | Cond(isTrue: bool, bits: seq<Value>)    // a `Condition` built by `If`
    | Opt(option: ConfigOption)               // an inline `Option`

  /** A struct field: its declared name, whether it is exported, whether it is
      embedded, its tag as key/value pairs, and its value. */
  datatype Field = Field(name: string, exported: bool, anonymous: bool, tags: map<string, string>, value: Value)

  /** The reflection kinds the builder distinguishes. */
  datatype Kind = InvalidKind | StringKind | PtrKind | SliceKind | ArrayKind | MapKind | StructKind | FuncKind | ScalarKind

  function KindOf(v: Value): Kind
  {
    match v
    case Str(_) => StringKind
    case BindStr(_) => StringKind
    case Scalar(_, _) => ScalarKind
    case Nil => InvalidKind
    case Ptr(_) => PtrKind
    case Seq(_, _, form) => if form == Array then ArrayKind else SliceKind
    case MapV(_, _) => MapKind
    case StructV(_) => StructKind
    case Cond(_, _) => StructKind
    case Opt(_) => FuncKind
  }

  /** Go's `reflect.Value.IsZero`, extended to the untyped nil (which is not
      a valid reflect value and counts as empty wherever it is tested). */
  predicate IsZero(v: Value)
  {
    match v
    case Str(s) => s == ""
    case BindStr(s) => s == ""
    case Scalar(_, z) => z
    case Nil => true
    case Ptr(t) => t.None?
    case Seq(_, elems, form) =>
      form == NilSlice || (form == Array && forall i | 0 <= i < |elems| :: IsZero(elems[i]))
    case MapV(_, isNil) => isNil
    case StructV(fields) => forall i | 0 <= i < |fields| :: IsZero(fields[i].value)
    case Cond(t, bits) => !t && bits == []
    case Opt(_) => false
  }

  /** Go's `reflect.StructTag.Get`: the value stored under `key`, or "". */
  function TagGet(tags: map<string, string>, key: string): string
  {
    if key in tags then tags[key] else ""
  }
}
