/**
 * The SQL text buffer and the bind list a query accumulates.
 */
module SqlText {
  import opened Values

  /** The number of `?` characters in a piece of text. */
  function CountQ(s: string): nat
  {
    multiset(s)['?']
  }

  lemma CountAppend(a: string, b: string)
    ensures CountQ(a + b) == CountQ(a) + CountQ(b)
  {
    assert multiset(a + b) == multiset(a) + multiset(b);
  }

  /** The separator placed between the old text (ending in `last`) and the
      added text (starting with `first`). */
  function Separator(last: char, first: char): string
  {
    if last == '?' && first == '?' then ", "
    else if first != ',' && last != ' ' && first != ' ' then " "
    else ""
  }

  /** Two placeholders in a row are separated by a comma; text starting with
      a comma or meeting a space on either side is appended as it is; any
      other text is separated by one space. */
  lemma SeparatorCases(last: char, first: char)
    ensures Separator(last, first) == ", " <==> last == '?' && first == '?'
    ensures Separator(last, first) == "" <==> !(last == '?' && first == '?') && (first == ',' || last == ' ' || first == ' ')
    ensures Separator(last, first) == " " <==> !(last == '?' && first == '?') && first != ',' && last != ' ' && first != ' '
  {
  }

  /** The buffer's text after appending `add` to `val`. */
  function Join(val: string, add: string): (r: string)
    ensures val <= r
  {
    if add == "" then val
    else if val == "" then add
    else
      var r := val + Separator(val[|val| - 1], add[0]) + add;
      assert r[..|val|] == val;
      r
  }

  /** Appending keeps the old text as a prefix and ends with the added text;
      an empty addition changes nothing and an empty buffer takes the added
      text as it is. */
  lemma JoinShape(val: string, add: string)
    ensures add == "" ==> Join(val, add) == val
    ensures val == "" ==> Join(val, add) == add
    ensures val != "" && add != "" ==> Join(val, add) == val + Separator(val[|val| - 1], add[0]) + add
    ensures val <= Join(val, add) && Join(val, add)[|Join(val, add)| - |add|..] == add
  {
  }

  /** Text that does not start with a comma or space, added after text that
      does not end in a space, is separated by one space (unless both sides
      are placeholders). */
  lemma JoinSpaced(val: string, add: string)
    requires val != "" && add != ""
    requires !(val[|val| - 1] == '?' && add[0] == '?')
    requires add[0] != ',' && add[0] != ' ' && val[|val| - 1] != ' '
    ensures Join(val, add) == val + " " + add
  {
  }

  /** Appending `a + b` is appending `a` and then the bare text `b`. */
  lemma JoinThen(val: string, a: string, b: string)
    requires a != ""
    ensures Join(val, a + b) == Join(val, a) + b
  {
    assert (a + b)[0] == a[0];
    if val != "" {
      var sep := Separator(val[|val| - 1], a[0]);
      assert val + sep + (a + b) == (val + sep + a) + b;
    }
  }

  /** The separator never holds a `?`: appending adds exactly the added
      text's placeholders. */
  lemma JoinCount(val: string, add: string)
    ensures CountQ(Join(val, add)) == CountQ(val) + CountQ(add)
  {
    if val != "" && add != "" {
      var sep := Separator(val[|val| - 1], add[0]);
      assert CountQ(sep) == 0 by {
        assert '?' !in multiset(sep);
      }
    }
  }

  /** A buffer with some smarts for building up SQL. */
  class SqlBuf {
    var val: string

    constructor ()
      ensures val == ""
    {
      val := "";
    }

    /** Appends a fragment, with a separator where appropriate. */
    method Add(add: string)
      modifies this
      ensures val == Join(old(val), add)
    {
      if add == "" {
        return;
      }
      var L := |val|;
      if L > 0 {
        var last := val[L - 1];
        var first := add[0];
        if last == '?' && first == last {
          val := val + ", " + add;
        } else if first != ',' && last != ' ' && first != ' ' {
          val := val + " " + add;
        } else {
          val := val + add;
        }
      } else {
        val := add;
      }
    }
  }

  /** The bind values collected for a query. */
  class SqlBinds {
    var vals: seq<Value>

    constructor ()
      ensures vals == []
    {
      vals := [];
    }

    /** Appends binds in order. */
    method Add(args: seq<Value>)
      modifies this
      ensures vals == old(vals) + args
    {
      vals := vals + args;
    }
  }
}
