/**
 * The `database/sql` driver's argument handling: the query text and the
 * caller's values are built as one list of bits, and the builder's binds
 * become the driver's argument list.
 */
module Driver {
  import opened Values
  import QuerySpec
  import Squint

  /** A driver argument: its name, its 1-based position, and its value. */
  datatype NamedValue = NamedValue(name: string, ordinal: int, value: Value)

  /** The values of a list of driver arguments. */
  function ValuesOf(args: seq<NamedValue>): (vals: seq<Value>)
    ensures |vals| == |args| && forall i | 0 <= i < |args| :: vals[i] == args[i].value
  {
    seq(|args|, i requires 0 <= i < |args| => args[i].value)
  }

  /** The bits built for a driver call: the query text first, then the
      values in the order given. */
  function Bits(query: string, vals: seq<Value>): (bits: seq<Value>)
    ensures |bits| == |vals| + 1 && bits[0] == Str(query) && bits[1..] == vals
  {
    [Str(query)] + vals
  }

  class DriverBuilder {
    const builder: Squint.Builder

    constructor (b: Squint.Builder)
      ensures builder == b
    {
      builder := b;
    }

    /** The SQL text of the query with the values spliced in, and the binds
        as the driver's positional arguments. */
    method BuildValues(query: string, inVals: seq<Value>) returns (sql: string, outVals: seq<Value>)
      requires !QuerySpec.Build(builder.opt, Bits(query, inVals)).panicked
      ensures sql == QuerySpec.Build(builder.opt, Bits(query, inVals)).sql
      ensures outVals == QuerySpec.Build(builder.opt, Bits(query, inVals)).binds
    {
      var a := new Value[|inVals| + 1](_ => Nil);
      a[0] := Str(query);
      var n := 0;
      while n < |inVals|
        invariant 0 <= n <= |inVals|
        invariant a[0] == Str(query)
        invariant forall j | 0 <= j < n :: a[j + 1] == inVals[j]
      {
        a[n + 1] := inVals[n];
        n := n + 1;
      }
      assert a[..] == Bits(query, inVals);
      var binds;
      sql, binds := builder.Build(a[..]);
      var out := new Value[|binds|](_ => Nil);
      n := 0;
      while n < |binds|
        invariant 0 <= n <= |binds|
        invariant forall j | 0 <= j < n :: out[j] == binds[j]
      {
        out[n] := binds[n];
        n := n + 1;
      }
      outVals := out[..];
    }

    /** As `BuildValues` for named arguments: only their values are used,
        the binds are numbered from 1 in order, and the context is handed
        back unchanged. */
    method BuildContext<Ctx>(ctx: Ctx, query: string, inVals: seq<NamedValue>)
      returns (outCtx: Ctx, sql: string, outVals: seq<NamedValue>)
      requires !QuerySpec.Build(builder.opt, Bits(query, ValuesOf(inVals))).panicked
      ensures outCtx == ctx
      ensures sql == QuerySpec.Build(builder.opt, Bits(query, ValuesOf(inVals))).sql
      ensures |outVals| == |QuerySpec.Build(builder.opt, Bits(query, ValuesOf(inVals))).binds|
      ensures forall j | 0 <= j < |outVals| ::
        outVals[j] == NamedValue("", j + 1, QuerySpec.Build(builder.opt, Bits(query, ValuesOf(inVals))).binds[j])
    {
      ghost var vals := ValuesOf(inVals);
      var a := new Value[|inVals| + 1](_ => Nil);
      a[0] := Str(query);
      var n := 0;
      while n < |inVals|
        invariant 0 <= n <= |inVals|
        invariant a[0] == Str(query)
        invariant forall j | 0 <= j < n :: a[j + 1] == vals[j]
      {
        a[n + 1] := inVals[n].value;
        n := n + 1;
      }
      assert a[..] == Bits(query, vals);
      var binds;
      sql, binds := builder.Build(a[..]);
      ghost var built := QuerySpec.Build(builder.opt, Bits(query, vals));
      assert binds == built.binds;
      var out := new NamedValue[|binds|](_ => NamedValue("", 0, Nil));
      n := 0;
      while n < |binds|
        invariant 0 <= n <= |binds|
        invariant forall j | 0 <= j < n :: out[j] == NamedValue("", j + 1, binds[j])
      {
        out[n] := NamedValue("", n + 1, binds[n]);
        n := n + 1;
      }
      outCtx, outVals := ctx, out[..];
    }
  }
}
