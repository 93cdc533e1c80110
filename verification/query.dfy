/**
 * `SearchPlugin.search(text)`: how the typed text becomes the full-text match
 * expression and the SQL statement, and how the returned rows are shown.
 * Running the statement against SQLite is not modelled: the rows it returns are
 * an input to `ShowResults`.
 */
module Query {
  import opened Wrappers
  import opened Text

  // ---------------------------------------------------------------------------
  // The match expression.

  /** `t + "*"`: a token made into a prefix match. */
  function Starred(tokens: seq<string>): (r: seq<string>)
    ensures |r| == |tokens|
    ensures forall k :: 0 <= k < |tokens| ==> r[k] == tokens[k] + "*"
  {
    if tokens == [] then [] else [tokens[0] + "*"] + Starred(tokens[1..])
  }

  /** Fuzzy mode: `"* ".join(text.split()) + "*"`. */
  function FuzzyRewrite(text: string): string
  {
    Join("* ", Split(text)) + "*"
  }

  /** The match expression: the fuzzy rewrite when the fuzzy box is checked, the text itself otherwise. */
  function MatchExpression(text: string, fuzzy: bool): (m: string)
    ensures !fuzzy ==> m == text
  {
    if fuzzy then FuzzyRewrite(text) else text
  }

  lemma {:induction false} JoinStarred(tokens: seq<string>)
    requires tokens != []
    ensures Join("* ", tokens) + "*" == Join(" ", Starred(tokens))
    decreases |tokens|
  {
    if |tokens| > 1 {
      var t, starred := tokens[0], Starred(tokens);
      var joined := Join("* ", tokens[1..]);
      JoinStarred(tokens[1..]);
      assert starred[1..] == Starred(tokens[1..]);
      assert Join(" ", starred) == (t + "*") + " " + (joined + "*");
      assert Join("* ", tokens) == t + "* " + joined;
      ConcatRegroup(t, joined);
    }
  }

  lemma ConcatRegroup(t: string, joined: string)
    ensures (t + "* " + joined) + "*" == (t + "*") + " " + (joined + "*")
  {
    var lhs, rhs := (t + "* " + joined) + "*", (t + "*") + " " + (joined + "*");
    assert |lhs| == |rhs|;
    forall i | 0 <= i < |lhs| ensures lhs[i] == rhs[i] {
      if i < |t| {
      } else if i < |t| + 2 {
      } else {
      }
    }
  }

  /**
   * Fuzzy mode turns each whitespace-separated token into a prefix match and
   * joins them with single spaces; text with no token becomes `*`.
   */
  lemma FuzzyRewriteShape(text: string)
    ensures Split(text) == [] ==> FuzzyRewrite(text) == "*"
    ensures Split(text) != [] ==> FuzzyRewrite(text) == Join(" ", Starred(Split(text)))
  {
    if Split(text) != [] {
      JoinStarred(Split(text));
    }
  }

  /** Splitting the rewritten expression gives back the original tokens, each with a `*` appended. */
  lemma FuzzyRewriteTokens(text: string)
    requires Split(text) != []
    ensures Split(FuzzyRewrite(text)) == Starred(Split(text))
  {
    var tokens := Split(text);
    FuzzyRewriteShape(text);
    SplitYieldsTokens(text);
    forall k | 0 <= k < |tokens| ensures IsToken(Starred(tokens)[k]) {
      assert IsToken(tokens[k]);
      assert Starred(tokens)[k] == tokens[k] + "*";
    }
    SplitJoinRoundTrip(Starred(tokens));
  }

  /** Two tokens separated by one space become two prefix matches. */
  lemma FuzzyTwoTokens(a: string, b: string)
    requires IsToken(a) && IsToken(b)
    ensures FuzzyRewrite(a + " " + b) == a + "* " + b + "*"
  {
    var tokens := [a, b];
    assert tokens[1..] == [b];
    assert Join(" ", tokens) == a + " " + b;
    SplitJoinRoundTrip(tokens);
    assert Join("* ", tokens) == a + "* " + b;
  }

  lemma FuzzyExample()
    ensures FuzzyRewrite("main str") == "main* str*"
  {
    assert IsToken("main") && IsToken("str");
    FuzzyTwoTokens("main", "str");
    assert "main" + " " + "str" == "main str";
    assert "main" + "* " + "str" + "*" == "main* str*";
  }

  /** Text made only of whitespace has no token, so fuzzy mode sends the bare `*`. */
  lemma BlankFuzzyIsStar(text: string)
    requires forall i :: 0 <= i < |text| ==> IsSpace(text[i])
    ensures FuzzyRewrite(text) == "*"
  {
    SplitKeepsNonSpace(text);
    BlankHasNoToken(text);
  }

  lemma {:induction false} BlankHasNoToken(text: string)
    requires forall i :: 0 <= i < |text| ==> IsSpace(text[i])
    ensures Split(text) == []
    decreases |text|
  {
    if text != [] {
      BlankHasNoToken(text[1..]);
    }
  }

  // ---------------------------------------------------------------------------
  // The SQL statement.

  /** The statement up to and including the quote that opens the match literal. */
  const QueryHead: string :=
    "SELECT layer, featureid, snippet(search, '[',']') as snippet\n"
    + "                            FROM search\n"
    + "                            JOIN featureinfo on search.docid = featureinfo.id\n"
    + "                            WHERE search match '"

  /** The statement from the quote that closes the match literal. */
  const QueryTail: string := "' LIMIT 100"

  /** As written: the match expression is pasted between the quotes unchanged. */
  function QuerySql(search: string): string
  {
    QueryHead + search + QueryTail
  }

  /** How SQL reads a string literal whose opening quote has been consumed: `''` stands for one quote. */
  function ReadLiteral(s: string): Option<(string, string)>
  {
    if s == [] then None
    else if s[0] == '\'' then
      if |s| >= 2 && s[1] == '\'' then
        match ReadLiteral(s[2..])
        case Some((body, rest)) => Some((['\''] + body, rest))
        case None => None
      else Some(([], s[1..]))
    else
      match ReadLiteral(s[1..])
      case Some((body, rest)) => Some(([s[0]] + body, rest))
      case None => None
  }

  /** A quote not followed by another one closes the literal. */
  lemma ReadClosingQuote(rest: string)
    requires rest == [] || rest[0] != '\''
    ensures ReadLiteral("'" + rest) == Some(([], rest))
  {
    var t := "'" + rest;
    assert t[1..] == rest;
    assert |t| >= 2 ==> t[1] == rest[0];
  }

  /** A doubled quote reads as one quote of the body. */
  lemma ReadDoubledQuote(tail: string, body: string, rest: string)
    requires ReadLiteral(tail) == Some((body, rest))
    ensures ReadLiteral("''" + tail) == Some(("'" + body, rest))
  {
    var t := "''" + tail;
    assert t[2..] == tail;
  }

  /** Any other character is part of the body. */
  lemma ReadPlainChar(c: char, tail: string, body: string, rest: string)
    requires c != '\'' && ReadLiteral(tail) == Some((body, rest))
    ensures ReadLiteral([c] + tail) == Some(([c] + body, rest))
  {
    var t := [c] + tail;
    assert t[1..] == tail;
  }

  /** The match literal SQLite reads from a statement that starts with `QueryHead`, and what follows it. */
  function MatchLiteral(sql: string): Option<(string, string)>
  {
    if QueryHead <= sql then ReadLiteral(sql[|QueryHead|..]) else None
  }

  lemma MatchLiteralAfterHead(x: string)
    ensures MatchLiteral(QueryHead + x) == ReadLiteral(x)
  {
    var sql := QueryHead + x;
    assert sql[..|QueryHead|] == QueryHead;
    assert sql[|QueryHead|..] == x;
  }

  /** With an apostrophe in the text the literal ends early and the rest of the text becomes SQL. */
  lemma ApostropheBreaksQuery()
    ensures MatchLiteral(QuerySql("o'brien")) == Some(("o", "brien' LIMIT 100"))
  {
    var rest := "brien' LIMIT 100";
    var lit := ['o'] + ("'" + rest);
    assert "o'brien" + QueryTail == lit;
    assert QuerySql("o'brien") == QueryHead + ("o'brien" + QueryTail);
    MatchLiteralAfterHead(lit);
    ReadClosingQuote(rest);
    ReadPlainChar('o', "'" + rest, [], rest);
    assert ['o'] + [] == "o";
  }

  /** Doubles every single quote, as an SQL string literal requires. */
  function Escape(s: string): (r: string)
    ensures |r| >= |s|
  {
    if s == [] then []
    else if s[0] == '\'' then "''" + Escape(s[1..])
    else [s[0]] + Escape(s[1..])
  }

  /** Corrected: the match expression is escaped before it is placed between the quotes. */
  function QuerySqlEscaped(search: string): string
  {
    QueryHead + Escape(search) + QueryTail
  }

  lemma EscapeFirst(s: string, rest: string)
    requires s != []
    ensures Escape(s) + "'" + rest == (if s[0] == '\'' then "''" else [s[0]]) + (Escape(s[1..]) + "'" + rest)
  {
  }

  /** An escaped body followed by the closing quote reads back as the body, provided no quote follows directly. */
  lemma {:induction false} ReadEscaped(s: string, rest: string)
    requires rest == [] || rest[0] != '\''
    ensures ReadLiteral(Escape(s) + "'" + rest) == Some((s, rest))
    decreases |s|
  {
    if s == [] {
      assert Escape(s) + "'" + rest == "'" + rest;
      ReadClosingQuote(rest);
    } else {
      var tail := Escape(s[1..]) + "'" + rest;
      ReadEscaped(s[1..], rest);
      EscapeFirst(s, rest);
      if s[0] == '\'' {
        ReadDoubledQuote(tail, s[1..], rest);
      } else {
        ReadPlainChar(s[0], tail, s[1..], rest);
      }
      assert [s[0]] + s[1..] == s;
    }
  }

  /** Whatever the text, SQLite reads back exactly that text as the match literal, followed by ` LIMIT 100`. */
  lemma EscapedQueryRoundTrip(search: string)
    ensures MatchLiteral(QuerySqlEscaped(search)) == Some((search, " LIMIT 100"))
  {
    var lit := Escape(search) + "'" + " LIMIT 100";
    assert QuerySqlEscaped(search) == QueryHead + lit;
    MatchLiteralAfterHead(lit);
    ReadEscaped(search, " LIMIT 100");
  }

  /** Text without a single quote. */
  predicate QuoteFree(s: string)
  {
    forall i :: 0 <= i < |s| ==> s[i] != '\''
  }

  /** Escaping leaves quote-free text unchanged. */
  lemma {:induction false} EscapeQuoteFree(s: string)
    requires QuoteFree(s)
    ensures Escape(s) == s
    decreases |s|
  {
    if s != [] {
      assert QuoteFree(s[1..]);
      EscapeQuoteFree(s[1..]);
      assert [s[0]] + s[1..] == s;
    }
  }

  /** The statement as written is only sound for text without a quote: then SQLite reads the text back exactly. */
  lemma QuerySqlRoundTripWithoutQuotes(search: string)
    requires QuoteFree(search)
    ensures MatchLiteral(QuerySql(search)) == Some((search, " LIMIT 100"))
  {
    EscapeQuoteFree(search);
    assert QuerySql(search) == QuerySqlEscaped(search);
    EscapedQueryRoundTrip(search);
  }

  /** A literal that is read leaves at least its closing quote unaccounted for: body, quote and rest fit in the input. */
  lemma {:induction false} ReadLength(s: string)
    ensures ReadLiteral(s).Some? ==> |ReadLiteral(s).value.0| + 1 + |ReadLiteral(s).value.1| <= |s|
    decreases |s|
  {
    if s != [] {
      if s[0] == '\'' {
        if |s| >= 2 && s[1] == '\'' {
          ReadLength(s[2..]);
        }
      } else {
        ReadLength(s[1..]);
      }
    }
  }

  /** Text with a quote, pasted before a closing quote, never reads back as itself. */
  lemma {:induction false} QuoteBreaks(m: string, tail: string)
    requires !QuoteFree(m)
    ensures ReadLiteral(m + "'" + tail) != Some((m, tail))
    decreases |m|
  {
    var s := m + "'" + tail;
    if m[0] == '\'' {
      if |s| >= 2 && s[1] == '\'' {
        ReadLength(s[2..]);
        assert |s[2..]| == |m| + |tail| - 1;
      } else {
        assert ReadLiteral(s) == Some(([], s[1..]));
      }
    } else {
      assert !QuoteFree(m[1..]) by {
        var i :| 0 <= i < |m| && m[i] == '\'';
        assert m[1..][i - 1] == '\'';
      }
      assert s[1..] == m[1..] + "'" + tail;
      QuoteBreaks(m[1..], tail);
    }
  }

  /** As written, a match expression with a quote never reaches SQLite intact. */
  lemma QuerySqlBreaksWithQuotes(search: string)
    requires !QuoteFree(search)
    ensures MatchLiteral(QuerySql(search)) != Some((search, " LIMIT 100"))
  {
    var lit := search + "'" + " LIMIT 100";
    assert QuerySql(search) == QueryHead + lit;
    MatchLiteralAfterHead(lit);
    QuoteBreaks(search, " LIMIT 100");
  }

  /**
   * The statement `search(text)` runs, as written: none for empty text (the
   * method returns before querying), else the match expression pasted between
   * the quotes. SQLite reads the match expression back exactly when it has no
   * quote; `ApostropheBreaksQuery` shows what happens otherwise.
   */
  function Search(text: string, fuzzy: bool): (r: Option<string>)
    ensures r.None? <==> text == []
    ensures r.Some? ==> QueryHead <= r.value
    ensures r.Some? ==>
      (MatchLiteral(r.value) == Some((MatchExpression(text, fuzzy), " LIMIT 100")) <==> QuoteFree(MatchExpression(text, fuzzy)))
  {
    if text == [] then None
    else
      var search := MatchExpression(text, fuzzy);
      assert QuerySql(search) == QueryHead + (search + QueryTail);
      if QuoteFree(search) then QuerySqlRoundTripWithoutQuotes(search); Some(QuerySql(search))
      else QuerySqlBreaksWithQuotes(search); Some(QuerySql(search))
  }

  /** `search("o'brien")` as written: SQLite's literal ends after `o` and the rest of the text is left as SQL. */
  lemma SearchBreaksOnApostrophe()
    ensures Search("o'brien", false).Some?
    ensures MatchLiteral(Search("o'brien", false).value) == Some(("o", "brien' LIMIT 100"))
  {
    assert MatchExpression("o'brien", false) == "o'brien";
    ApostropheBreaksQuery();
  }

  /** Corrected `search(text)`: the same statement with the match expression escaped, read back exactly for every text. */
  function SearchCorrected(text: string, fuzzy: bool): (r: Option<string>)
    ensures r.None? <==> text == []
    ensures r.Some? ==> MatchLiteral(r.value) == Some((MatchExpression(text, fuzzy), " LIMIT 100"))
  {
    if text == [] then None
    else
      EscapedQueryRoundTrip(MatchExpression(text, fuzzy));
      Some(QuerySqlEscaped(MatchExpression(text, fuzzy)))
  }

  // ---------------------------------------------------------------------------
  // Showing the rows.

  /** One row of the query: `(layer, featureid, snippet)`. */
  datatype ResultRow = ResultRow(layer: string, featureId: int, snippet: string)

  /** A list entry: its text, and the row it stands for (none for the "No Results" entry). */
  datatype ListItem = ListItem(text: string, data: Option<ResultRow>)

  /** `snippet.replace('\n', ' ')`. */
  function Flatten(s: string): (r: string)
    ensures |r| == |s|
    ensures forall i :: 0 <= i < |s| ==> r[i] == if s[i] == '\n' then ' ' else s[i]
  {
    if s == [] then [] else [if s[0] == '\n' then ' ' else s[0]] + Flatten(s[1..])
  }

  /** `"{}\n {}".format(layer, snippet.replace('\n', ' '))`. */
  function ItemText(row: ResultRow): string
  {
    row.layer + "\n " + Flatten(row.snippet)
  }

  /** Flattening leaves no newline, and flattening again changes nothing. */
  lemma FlattenRemovesNewlines(s: string)
    ensures forall i :: 0 <= i < |Flatten(s)| ==> Flatten(s)[i] != '\n'
    ensures Flatten(Flatten(s)) == Flatten(s)
  {
  }

  /**
   * The loop over the query rows and what follows it: one entry per row, in
   * order, carrying the row; an enabled list, or a single disabled "No Results"
   * entry without data when there are no rows.
   */
  method ShowResults(rows: seq<ResultRow>) returns (items: seq<ListItem>, enabled: bool)
    ensures rows == [] ==> items == [ListItem("No Results", None)] && !enabled
    ensures rows != [] ==> enabled && |items| == |rows|
    ensures rows != [] ==> forall k :: 0 <= k < |rows| ==> items[k] == ListItem(ItemText(rows[k]), Some(rows[k]))
  {
    items := [];
    var k := 0;
    while k < |rows|
      invariant 0 <= k <= |rows|
      invariant |items| == k
      invariant forall j :: 0 <= j < k ==> items[j] == ListItem(ItemText(rows[j]), Some(rows[j]))
    {
      items := items + [ListItem(ItemText(rows[k]), Some(rows[k]))];
      k := k + 1;
    }
    enabled := true;
    if |items| == 0 {
      items := items + [ListItem("No Results", None)];
      enabled := false;
    }
  }

  /**
   * `search(text)` from the list's point of view, given what executing the
   * statement gives: its rows, or `None` when SQLite rejects it and `execute`
   * raises. For empty text the list is cleared and left disabled with no entry
   * and no statement runs; when the statement raises, `search` stops before the
   * display loop and the list stays cleared and disabled; otherwise its rows are
   * shown.
   */
  method SearchView(text: string, fuzzy: bool, outcome: Option<seq<ResultRow>>)
    returns (statement: Option<string>, items: seq<ListItem>, enabled: bool)
    ensures statement == Search(text, fuzzy)
    ensures text == [] ==> items == [] && !enabled
    ensures text != [] && outcome.None? ==> items == [] && !enabled
    ensures text != [] && outcome == Some([]) ==> items == [ListItem("No Results", None)] && !enabled
    ensures text != [] && outcome.Some? && outcome.value != [] ==> enabled && |items| == |outcome.value|
    ensures text != [] && outcome.Some? ==>
      forall k :: 0 <= k < |outcome.value| ==> items[k] == ListItem(ItemText(outcome.value[k]), Some(outcome.value[k]))
  {
    statement := Search(text, fuzzy);
    if text == [] || outcome.None? {
      items, enabled := [], false;
      return;
    }
    items, enabled := ShowResults(outcome.value);
  }
}
