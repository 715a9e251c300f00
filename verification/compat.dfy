/**
 * The deprecated compatibility options `EmptyValues` and `NilValues`, the
 * empty-value handler they build, and the application of an inline option
 * to a configuration record.
 */
module Compat {
  import opened Values

  /** The handler built by `compatEmpty(emptyValues, nilValues)`: given an
      empty value, the replacement value and whether to keep it. */
  function CompatEmpty(fn: CompatFn, v: Value): (r: (Value, bool))
    ensures KindOf(v) == StringKind ==> r == (v, fn.emptyValues)
    ensures KindOf(v) in {PtrKind, MapKind, SliceKind, InvalidKind} ==> r == (Nil, fn.nilValues)
    ensures KindOf(v) !in {StringKind, PtrKind, MapKind, SliceKind, InvalidKind} ==> r == (v, true)
  {
    match KindOf(v)
    case StringKind => (v, fn.emptyValues)
    case PtrKind => (Nil, fn.nilValues)
    case MapKind => (Nil, fn.nilValues)
    case SliceKind => (Nil, fn.nilValues)
    case InvalidKind => (Nil, fn.nilValues)
    case _ => (v, true)
  }

  /** Applies one inline option to a configuration. `EmptyValues` and
      `NilValues` set their own flag and rebuild the handler from both flags. */
  function ApplyOption(o: ConfigOption, opt: Options): (r: Options)
    ensures o.SetTag? ==> r == opt.(tag := o.tag)
    ensures o.SetEmpty? ==> r == opt.(empty := o.mode)
    ensures o.EmptyValues? || o.NilValues? ==> r.tag == opt.tag && r.empty == opt.empty
    ensures o.EmptyValues? ==>
      r.emptyValues == o.keepEmpty && r.nilValues == opt.nilValues && r.emptyFn == Some(CompatFn(r.emptyValues, r.nilValues))
    ensures o.NilValues? ==>
      r.nilValues == o.keepNil && r.emptyValues == opt.emptyValues && r.emptyFn == Some(CompatFn(r.emptyValues, r.nilValues))
  {
    match o
    case SetTag(t) => opt.(tag := t)
    case SetEmpty(m) => opt.(empty := m)
    case EmptyValues(b) => opt.(emptyValues := b, emptyFn := Some(CompatFn(b, opt.nilValues)))
    case NilValues(b) => opt.(nilValues := b, emptyFn := Some(CompatFn(opt.emptyValues, b)))
  }

  /** Setting both compatibility flags yields the same configuration in
      either order, with a handler that sees both flags. */
  lemma CompatSettersCommute(opt: Options, e: bool, n: bool)
    ensures ApplyOption(NilValues(n), ApplyOption(EmptyValues(e), opt))
         == ApplyOption(EmptyValues(e), ApplyOption(NilValues(n), opt))
    ensures ApplyOption(NilValues(n), ApplyOption(EmptyValues(e), opt)).emptyFn == Some(CompatFn(e, n))
  {
  }
}
