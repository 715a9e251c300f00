/**
 * The context detector: which clause the SQL text emitted so far ends in.
 *
 * The three patterns a query tests, in priority order, are
 *   INSERT: `\b(INSERT|REPLACE)\s+(?:\w+\s+)*INTO\s+\S+\s*$`
 *   SET:    `\bSET\s*$`
 *   IN:     `\bIN\s*$`
 * all case-insensitive. They are stated here over the trailing
 * white-space-separated tokens of the text rather than with a regular
 * expression engine.
 */
module SqlContext {

  datatype Context = BASE | INSERT | SET | IN

  /** `\s`: space, tab, newline, carriage return, form feed. */
  predicate IsSpace(c: char)
  {
    c == ' ' || c == '\t' || c == '\n' || c == '\r' || c == '\U{000C}'
  }

  /** `\w`: ASCII letters, digits and underscore. */
  predicate IsWordChar(c: char)
  {
    ('a' <= c <= 'z') || ('A' <= c <= 'Z') || ('0' <= c <= '9') || c == '_'
  }

  function UpperChar(c: char): char
  {
    if 'a' <= c <= 'z' then (c as int - 32) as char else c
  }

  function UpperAll(s: string): (r: string)
    ensures |r| == |s|
  {
    seq(|s|, i requires 0 <= i < |s| => UpperChar(s[i]))
  }

  /** `s` equals the upper-case keyword `kw` ignoring ASCII case. */
  predicate CiEqual(s: string, kw: string)
  {
    |s| == |kw| && forall i | 0 <= i < |s| :: UpperChar(s[i]) == kw[i]
  }

  /** `s` without its trailing white space. */
  function TrimRight(s: string): (t: string)
    ensures t <= s
    ensures t == [] || !IsSpace(t[|t| - 1])
    ensures forall i | |t| <= i < |s| :: IsSpace(s[i])
  {
    if s != [] && IsSpace(s[|s| - 1]) then TrimRight(s[..|s| - 1]) else s
  }

  /** Where the last token of `t` starts: `t[i..]` is its longest suffix
      without white space. */
  function TokenStart(t: string): (i: nat)
    ensures i <= |t|
    ensures forall k | i <= k < |t| :: !IsSpace(t[k])
    ensures i > 0 ==> IsSpace(t[i - 1])
    ensures t != [] && !IsSpace(t[|t| - 1]) ==> i < |t|
  {
    if t == [] || IsSpace(t[|t| - 1]) then |t| else TokenStart(t[..|t| - 1])
  }

  /** `u` ends with the keyword `kw`, and a word boundary precedes it. */
  predicate EndsWithKeyword(u: string, kw: string)
  {
    |u| >= |kw| && CiEqual(u[|u| - |kw|..], kw) && (|u| == |kw| || !IsWordChar(u[|u| - |kw| - 1]))
  }

  predicate IsWordToken(w: string)
  {
    forall i | 0 <= i < |w| :: IsWordChar(w[i])
  }

  /** `r` ends with `\b(INSERT|REPLACE)\s+(?:\w+\s+)*`. */
  predicate InsertHead(r: string)
    decreases |r|
  {
    var u := TrimRight(r);
    var j := TokenStart(u);
    u != [] &&
    (EndsWithKeyword(u, "INSERT") || EndsWithKeyword(u, "REPLACE") ||
     (j > 0 && IsWordToken(u[j..]) && InsertHead(u[..j])))
  }

  /** `s` ends with an INSERT/REPLACE ... INTO clause followed only by a target name. */
  predicate InsertTail(s: string)
  {
    var t := TrimRight(s);
    var i := TokenStart(t);
    0 < i < |t| &&
    var u := TrimRight(t[..i]);
    var j := TokenStart(u);
    0 < j && CiEqual(u[j..], "INTO") && InsertHead(u[..j])
  }

  /** The context of a query whose text so far is `s`. */
  function ContextOf(s: string): Context
  {
    if InsertTail(s) then INSERT
    else if EndsWithKeyword(TrimRight(s), "SET") then SET
    else if EndsWithKeyword(TrimRight(s), "IN") then IN
    else BASE
  }

  // ---------------------------------------------------------------------
  // Trailing white space does not change the context.

  lemma {:induction false} TrimRightSpaces(s: string, w: string)
    requires forall i | 0 <= i < |w| :: IsSpace(w[i])
    ensures TrimRight(s + w) == TrimRight(s)
    decreases |w|
  {
    if w != [] {
      var w' := w[..|w| - 1];
      assert (s + w)[..|s + w| - 1] == s + w';
      TrimRightSpaces(s, w');
    } else {
      assert s + w == s;
    }
  }

  lemma TrailingSpaceIgnored(s: string, w: string)
    requires forall i | 0 <= i < |w| :: IsSpace(w[i])
    ensures ContextOf(s + w) == ContextOf(s)
  {
    TrimRightSpaces(s, w);
  }

  // ---------------------------------------------------------------------
  // Matching ignores ASCII letter case.

  lemma UpperAllSlice(s: string, k: nat)
    requires k <= |s|
    ensures UpperAll(s)[..k] == UpperAll(s[..k])
    ensures UpperAll(s)[k..] == UpperAll(s[k..])
  {
  }

  lemma {:induction false} TrimRightUpper(s: string)
    ensures TrimRight(UpperAll(s)) == UpperAll(TrimRight(s))
    decreases |s|
  {
    if s != [] && IsSpace(s[|s| - 1]) {
      UpperAllSlice(s, |s| - 1);
      TrimRightUpper(s[..|s| - 1]);
    }
  }

  lemma {:induction false} TokenStartUpper(t: string)
    ensures TokenStart(UpperAll(t)) == TokenStart(t)
    decreases |t|
  {
    if !(t == [] || IsSpace(t[|t| - 1])) {
      UpperAllSlice(t, |t| - 1);
      TokenStartUpper(t[..|t| - 1]);
    }
  }

  lemma UpperIdempotent(c: char)
    ensures UpperChar(UpperChar(c)) == UpperChar(c)
  {
  }

  lemma WordCharUpper(c: char)
    ensures IsWordChar(UpperChar(c)) == IsWordChar(c)
  {
  }

  lemma KeywordUpper(u: string, kw: string)
    ensures EndsWithKeyword(UpperAll(u), kw) == EndsWithKeyword(u, kw)
  {
    if |u| >= |kw| {
      var k := |u| - |kw|;
      var U := UpperAll(u);
      UpperAllSlice(u, k);
      CiEqualUpper(u[k..], kw);
      assert CiEqual(U[k..], kw) == CiEqual(u[k..], kw);
      if k > 0 {
        WordCharUpper(u[k - 1]);
        assert IsWordChar(U[k - 1]) == IsWordChar(u[k - 1]);
      }
    }
  }

  lemma WordTokenUpper(w: string)
    ensures IsWordToken(UpperAll(w)) == IsWordToken(w)
  {
    if !IsWordToken(w) {
      var k :| 0 <= k < |w| && !IsWordChar(w[k]);
      assert !IsWordChar(UpperAll(w)[k]);
    }
  }

  lemma CiEqualUpper(w: string, kw: string)
    ensures CiEqual(UpperAll(w), kw) == CiEqual(w, kw)
  {
    if |w| == |kw| {
      forall i | 0 <= i < |w| ensures UpperChar(UpperAll(w)[i]) == UpperChar(w[i]) {
        UpperIdempotent(w[i]);
      }
    }
  }

  lemma {:induction false} InsertHeadUpper(r: string)
    ensures InsertHead(UpperAll(r)) == InsertHead(r)
    decreases |r|
  {
    var u := TrimRight(r);
    var j := TokenStart(u);
    var U := UpperAll(u);
    TrimRightUpper(r);
    TokenStartUpper(u);
    if u == [] {
      return;
    }
    KeywordUpper(u, "INSERT");
    KeywordUpper(u, "REPLACE");
    var tail := j > 0 && IsWordToken(u[j..]) && InsertHead(u[..j]);
    if j > 0 {
      UpperAllSlice(u, j);
      WordTokenUpper(u[j..]);
      InsertHeadUpper(u[..j]);
    }
    assert tail == (j > 0 && IsWordToken(U[j..]) && InsertHead(U[..j]));
  }

  lemma InsertTailUpper(s: string)
    ensures InsertTail(UpperAll(s)) == InsertTail(s)
  {
    var t := TrimRight(s);
    var i := TokenStart(t);
    var T := UpperAll(t);
    TrimRightUpper(s);
    TokenStartUpper(t);
    assert TrimRight(UpperAll(s)) == T && TokenStart(T) == i;
    if 0 < i < |t| {
      UpperAllSlice(t, i);
      var u := TrimRight(t[..i]);
      var j := TokenStart(u);
      var U := UpperAll(u);
      TrimRightUpper(t[..i]);
      TokenStartUpper(u);
      assert TrimRight(T[..i]) == U && TokenStart(U) == j;
      if 0 < j {
        UpperAllSlice(u, j);
        CiEqualUpper(u[j..], "INTO");
        InsertHeadUpper(u[..j]);
        assert CiEqual(U[j..], "INTO") == CiEqual(u[j..], "INTO");
        assert InsertHead(U[..j]) == InsertHead(u[..j]);
      }
    }
  }

  /** Detection ignores the case of the keywords. */
  lemma ContextIgnoresCase(s: string)
    ensures ContextOf(UpperAll(s)) == ContextOf(s)
  {
    InsertTailUpper(s);
    TrimRightUpper(s);
    KeywordUpper(TrimRight(s), "SET");
    KeywordUpper(TrimRight(s), "IN");
  }

  // ---------------------------------------------------------------------
  // Where the trailing tokens are.

  lemma TrimRightNonSpace(s: string)
    requires s != [] && !IsSpace(s[|s| - 1])
    ensures TrimRight(s) == s
  {
  }

  /** After white space, a run of non-space characters is the last token. */
  lemma {:induction false} TokenStartAfterSpace(a: string, b: string)
    requires a != [] && IsSpace(a[|a| - 1])
    requires forall k | 0 <= k < |b| :: !IsSpace(b[k])
    ensures TokenStart(a + b) == |a|
    decreases |b|
  {
    if b == [] {
      assert a + b == a;
    } else {
      assert (a + b)[..|a + b| - 1] == a + b[..|b| - 1];
      TokenStartAfterSpace(a, b[..|b| - 1]);
    }
  }

  /** Text `w` followed by one space: trimming gives `w` back. */
  lemma TrimOneSpace(w: string)
    requires w != [] && !IsSpace(w[|w| - 1])
    ensures TrimRight(w + " ") == w
  {
    TrimRightSpaces(w, " ");
    TrimRightNonSpace(w);
  }

  /** Words, each preceded by one space. */
  function Words(ws: seq<string>): string
  {
    if ws == [] then "" else Words(ws[..|ws| - 1]) + " " + ws[|ws| - 1]
  }

  predicate IsWord(w: string)
  {
    w != [] && IsWordToken(w)
  }

  predicate IsToken(w: string)
  {
    w != [] && forall k | 0 <= k < |w| :: !IsSpace(w[k])
  }

  lemma WordIsToken(w: string)
    requires IsWord(w)
    ensures IsToken(w)
  {
  }

  lemma KeywordNotSpace(h: string)
    requires EndsWithKeyword(h, "INSERT") || EndsWithKeyword(h, "REPLACE")
    ensures h != [] && !IsSpace(h[|h| - 1])
  {
    var c := h[|h| - 1];
    if EndsWithKeyword(h, "INSERT") {
      assert UpperChar(h[|h| - 6..][5]) == 'T';
    } else {
      assert UpperChar(h[|h| - 7..][6]) == 'E';
    }
    assert IsWordChar(UpperChar(c));
  }

  /** Where the last two tokens of `a w b` lie. */
  lemma LastTwoTokens(a: string, w: string, b: string)
    requires IsToken(w) && IsToken(b)
    ensures var s := a + " " + w + " " + b;
      && TrimRight(s) == s
      && TokenStart(s) == |a| + |w| + 2
      && TrimRight(s[..|a| + |w| + 2]) == a + " " + w
      && TokenStart(a + " " + w) == |a| + 1
      && (a + " " + w)[|a| + 1..] == w
      && (a + " " + w)[..|a| + 1] == a + " "
  {
    var u := a + " " + w;
    var r := u + " ";
    var s := r + b;
    assert a + " " + w + " " + b == s;
    TrimRightNonSpace(s);
    TokenStartAfterSpace(r, b);
    assert s[..|r|] == r;
    TrimOneSpace(u);
    TokenStartAfterSpace(a + " ", w);
  }

  /** The INSERT pattern on text ending in two tokens `w b`: `w` is
      `INTO` and what precedes it is a matched head. */
  lemma InsertTailTokens(a: string, w: string, b: string)
    requires IsToken(w) && IsToken(b)
    ensures InsertTail(a + " " + w + " " + b) == (CiEqual(w, "INTO") && InsertHead(a + " "))
  {
    LastTwoTokens(a, w, b);
  }

  lemma IntoText(a: string, t: string)
    ensures a + " INTO " + t == a + " " + "INTO" + " " + t
    ensures IsToken("INTO") && CiEqual("INTO", "INTO")
  {
  }

  /** One more word after a matched head still matches. */
  lemma InsertHeadWord(a: string, w: string)
    requires InsertHead(a + " ") && IsWord(w)
    ensures InsertHead(a + " " + w + " ")
  {
    var u := a + " " + w;
    WordIsToken(w);
    TrimOneSpace(u);
    TokenStartAfterSpace(a + " ", w);
    assert u[|a| + 1..] == w && u[..|a| + 1] == a + " ";
  }

  /** `INSERT` or `REPLACE` followed by any run of words matches the head
      of the INSERT pattern. */
  lemma {:induction false} InsertHeadWords(h: string, ws: seq<string>)
    requires EndsWithKeyword(h, "INSERT") || EndsWithKeyword(h, "REPLACE")
    requires forall i | 0 <= i < |ws| :: IsWord(ws[i])
    ensures InsertHead(h + Words(ws) + " ")
    decreases |ws|
  {
    if ws == [] {
      KeywordNotSpace(h);
      assert h + Words(ws) + " " == h + " ";
      TrimOneSpace(h);
    } else {
      var a := h + Words(ws[..|ws| - 1]);
      InsertHeadWords(h, ws[..|ws| - 1]);
      assert h + Words(ws) + " " == a + " " + ws[|ws| - 1] + " ";
      InsertHeadWord(a, ws[|ws| - 1]);
    }
  }

  /** A matched head, then `INTO` and a target, matches the INSERT pattern. */
  lemma InsertTailOf(a: string, t: string)
    requires InsertHead(a + " ") && IsToken(t)
    ensures InsertTail(a + " INTO " + t)
  {
    IntoText(a, t);
    InsertTailTokens(a, "INTO", t);
  }

  /** `INSERT [words] INTO t` ends in INSERT context for any target `t`
      without white space. */
  lemma InsertIntoTarget(h: string, ws: seq<string>, t: string)
    requires EndsWithKeyword(h, "INSERT") || EndsWithKeyword(h, "REPLACE")
    requires forall i | 0 <= i < |ws| :: IsWord(ws[i])
    requires IsToken(t)
    ensures ContextOf(h + Words(ws) + " INTO " + t) == INSERT
  {
    InsertHeadWords(h, ws);
    InsertTailOf(h + Words(ws), t);
  }

  /** When the token before the last is not `INTO`, the INSERT pattern
      does not match. */
  lemma NoIntoNoInsert(a: string, w: string, b: string)
    requires IsToken(w) && IsToken(b) && !CiEqual(w, "INTO")
    ensures !InsertTail(a + " " + w + " " + b)
  {
    InsertTailTokens(a, w, b);
  }

  /** Text ending in the word `SET` is in SET context unless it is an
      insert target. */
  lemma SetLast(p: string)
    requires !InsertTail(p + " SET")
    ensures ContextOf(p + " SET") == SET
  {
    var s := p + " SET";
    TrimRightNonSpace(s);
    assert s[|s| - 3..] == "SET";
  }

  /** Text ending in the word `IN` is in IN context unless it is an
      insert target. */
  lemma InLast(p: string)
    requires !InsertTail(p + " IN")
    ensures ContextOf(p + " IN") == IN
  {
    var s := p + " IN";
    TrimRightNonSpace(s);
    assert s[|s| - 2..] == "IN";
    assert !CiEqual(s[|s| - 3..], "SET");
  }

  /** `a w SET`, where `w` is not `INTO`, is in SET context. */
  lemma SetAfterWord(a: string, w: string)
    requires IsToken(w) && !CiEqual(w, "INTO")
    ensures ContextOf(a + " " + w + " SET") == SET
  {
    assert IsToken("SET");
    NoIntoNoInsert(a, w, "SET");
    assert a + " " + w + " " + "SET" == (a + " " + w) + " SET";
    SetLast(a + " " + w);
  }

  /** `a w IN`, where `w` is not `INTO`, is in IN context. */
  lemma InAfterWord(a: string, w: string)
    requires IsToken(w) && !CiEqual(w, "INTO")
    ensures ContextOf(a + " " + w + " IN") == IN
  {
    assert IsToken("IN");
    NoIntoNoInsert(a, w, "IN");
    assert a + " " + w + " " + "IN" == (a + " " + w) + " IN";
    InLast(a + " " + w);
  }

  // ---------------------------------------------------------------------
  // The detector on the clauses the builder's callers write.

  /** The clauses below, spelled as their tokens. */
  lemma ClauseTexts()
    ensures "INSERT INTO" + " " + "junk" + " SET" == "INSERT INTO junk SET"
    ensures "UPDATE" + " " + "table" + " SET" == "UPDATE table SET"
    ensures "WHERE" + " " + "id" + " IN" == "WHERE id IN"
  {
  }

  lemma InsertIgnoreText()
    ensures "INSERT" + Words(["IGNORE"]) + " INTO " + "junk" == "INSERT IGNORE INTO junk"
  {
    assert ["IGNORE"][..0] == [];
  }

  lemma InsertIgnoreIsInsert()
    ensures ContextOf("INSERT IGNORE INTO junk") == INSERT
  {
    assert IsWord("IGNORE") && IsToken("junk");
    InsertIntoTarget("INSERT", ["IGNORE"], "junk");
    InsertIgnoreText();
  }

  lemma InsertSetIsSet()
    ensures ContextOf("INSERT INTO junk SET") == SET
  {
    assert "junk"[0] != 'I';
    SetAfterWord("INSERT INTO", "junk");
    ClauseTexts();
  }

  lemma UpdateSetIsSet()
    ensures ContextOf("UPDATE table SET") == SET
  {
    assert |"table"| == 5;
    SetAfterWord("UPDATE", "table");
    ClauseTexts();
  }

  lemma WhereInIsIn()
    ensures ContextOf("WHERE id IN") == IN
  {
    assert |"id"| == 2;
    InAfterWord("WHERE", "id");
    ClauseTexts();
  }

  lemma JoinIsNotIn()
    ensures ContextOf("JOIN") == BASE
  {
    var s := "JOIN";
    assert TrimRight(s) == s;
    assert TokenStart(s) == 0 by {
      assert s[..3] == "JOI";
      assert "JOI"[..2] == "JO";
      assert "JO"[..1] == "J";
      assert "J"[..0] == "";
    }
    assert s[2..] == "IN";
    assert IsWordChar(s[1]);
    assert s[1..] == "OIN";
  }
}
