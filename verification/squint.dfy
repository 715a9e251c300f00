/**
 * The public builder: a configuration, `Build` turning a list of bits into
 * SQL and binds, `If` for conditional groups of bits, and `HasValues` for
 * checking a record before it is built into a query.
 */
module Conditions {
  import opened Values
  import QuerySpec

  /** A conditional group: its bits are built only when `condition` holds. */
  function If(condition: bool, bits: seq<Value>): (r: Value)
    ensures forall st :: QuerySpec.Add(st, r) == if condition then QuerySpec.AddAll(st, bits) else st
  {
    Cond(condition, bits)
  }
}

module Squint {
  import opened Values
  import opened Sifter
  import Compat
  import QuerySpec
  import Queries
  import Conditions

  /** The configuration of a new builder: fields are read from the `db` tag
      and no empty-value mode or compatibility flag is set. */
  function DefaultOptions(): (opt: Options)
    ensures opt.tag == "db" && opt.empty == DefaultMode
    ensures !opt.emptyValues && !opt.nilValues && opt.emptyFn == None
  {
    Options("db", DefaultMode, false, false, None)
  }

  /** The configuration after applying `options` in order. */
  function ApplyOptions(opt: Options, options: seq<ConfigOption>): Options
    decreases |options|
  {
    if options == [] then opt else ApplyOptions(Compat.ApplyOption(options[0], opt), options[1..])
  }

  lemma {:induction false} ApplyOptionsAppend(opt: Options, a: seq<ConfigOption>, b: seq<ConfigOption>)
    ensures ApplyOptions(opt, a + b) == ApplyOptions(ApplyOptions(opt, a), b)
    decreases |a|
  {
    if a == [] {
      assert a + b == b;
    } else {
      assert (a + b)[1..] == a[1..] + b;
      ApplyOptionsAppend(Compat.ApplyOption(a[0], opt), a[1..], b);
    }
  }

  /** Options given to the builder and the same options given inline at the
      head of a build produce the same query. */
  lemma {:induction false} InlineOptionsAtHead(opt: Options, options: seq<ConfigOption>, bits: seq<Value>)
    ensures QuerySpec.Build(opt, Inline(options) + bits) == QuerySpec.Build(ApplyOptions(opt, options), bits)
    decreases |options|
  {
    if options == [] {
      assert Inline(options) + bits == bits;
    } else {
      var o := options[0];
      var rest := Inline(options[1..]) + bits;
      assert Inline(options) + bits == [Opt(o)] + rest;
      assert ([Opt(o)] + rest)[1..] == rest;
      assert QuerySpec.Add(QuerySpec.Init(opt), Opt(o)) == QuerySpec.Init(Compat.ApplyOption(o, opt));
      InlineOptionsAtHead(Compat.ApplyOption(o, opt), options[1..], bits);
    }
  }

  /** The options as inline bits. */
  function Inline(options: seq<ConfigOption>): (bits: seq<Value>)
    ensures |bits| == |options| && forall i | 0 <= i < |options| :: bits[i] == Opt(options[i])
  {
    seq(|options|, i requires 0 <= i < |options| => Opt(options[i]))
  }

  class Builder {
    var opt: Options

    constructor ()
      ensures opt == DefaultOptions()
    {
      opt := DefaultOptions();
    }

    /** Applies each option to the builder's configuration in turn. */
    method Option(options: seq<ConfigOption>)
      modifies this
      ensures opt == ApplyOptions(old(opt), options)
    {
      var i := 0;
      while i < |options|
        invariant 0 <= i <= |options|
        invariant ApplyOptions(opt, options[i..]) == ApplyOptions(old(opt), options)
      {
        assert options[i..][1..] == options[i + 1..];
        opt := Compat.ApplyOption(options[i], opt);
        i := i + 1;
      }
    }

    /** The SQL text and binds of `bits`, added in order to a fresh query
        that starts from a copy of the builder's configuration. A build that
        would panic has no result. */
    method Build(bits: seq<Value>) returns (sql: string, binds: seq<Value>)
      requires !QuerySpec.Build(opt, bits).panicked
      ensures sql == QuerySpec.Build(opt, bits).sql
      ensures binds == QuerySpec.Build(opt, bits).binds
    {
      var q := new Queries.Query(opt);
      var i := 0;
      while i < |bits|
        invariant 0 <= i <= |bits|
        invariant fresh(q) && fresh(q.sql) && fresh(q.binds)
        invariant QuerySpec.AddAll(q.State(), bits[i..]) == QuerySpec.Build(opt, bits)
      {
        assert bits[i..][1..] == bits[i + 1..];
        q.Add(bits[i]);
        i := i + 1;
      }
      assert bits[i..] == [];
      sql, binds := q.sql.val, q.binds.vals;
    }

    /** `If`, reached through a builder. */
    function If(condition: bool, bits: seq<Value>): (r: Value)
      ensures forall st :: QuerySpec.Add(st, r) == if condition then QuerySpec.AddAll(st, bits) else st
    {
      Conditions.If(condition, bits)
    }

    /** Whether a struct or map would contribute any column under the
        builder's configuration; anything else always has values. */
    method HasValues(src: Value) returns (r: bool)
      ensures KindOf(src) != StructKind && KindOf(src) != MapKind ==> r
      ensures KindOf(src) == StructKind || KindOf(src) == MapKind ==> (r <==> |Sift(src, opt, false)| > 0)
    {
      var q := new Queries.Query(opt);
      match KindOf(src)
      case StructKind =>
        var cols, _ := q.Sift(src);
        r := |cols| > 0;
      case MapKind =>
        var cols, _ := q.Sift(src);
        r := |cols| > 0;
      case _ =>
        r := true;
    }
  }
}
