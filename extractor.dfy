/**
 * The response extractor (`clean_sql_query`): isolates the SQL statement in a
 * model answer that wraps it in a Markdown code block opened by "```sql" and
 * closed by the next "```".
 */
module Extractor {
  import opened Results
  import opened Text

  /** The marker that opens the SQL code block. */
  const Open: string := "```sql"
  /** The marker that closes it. */
  const Close: string := "```"

  /** Why extraction failed (both are a ValueError in the handler). */
  datatype ExtractError = MissingOpenFence | MissingCloseFence

  /**
   * `clean_sql_query`: find the first "```sql", move past it, find the first
   * "```" in what follows, and return the text in between stripped of
   * surrounding whitespace.
   */
  function CleanSqlQuery(response: string): (r: Result<string, ExtractError>)
    ensures r == Err(MissingOpenFence) <==> !Contains(response, Open)
    ensures r.Ok? ==> IsStripped(r.value) && !Contains(r.value, Close)
  {
    var start := Find(response, Open);
    if start == -1 then Err(MissingOpenFence)
    else
      var rest := response[start + |Open|..];
      var end := Find(rest, Close);
      if end == -1 then Err(MissingCloseFence)
      else
        QueryUnfenced(rest, end);
        Ok(Strip(rest[..end]))
  }

  /** The text before the first closing marker, stripped, holds no closing marker. */
  lemma QueryUnfenced(rest: string, end: int)
    requires end != -1 && end == Find(rest, Close)
    ensures 0 <= end <= |rest|
    ensures !Contains(Strip(rest[..end]), Close)
  {
    NoneInPrefixBeforeFirst(rest, Close, end);
    StripKeepsOut(rest[..end], Close);
  }

  /**
   * `text` is `p + Open + body + Close + q` where the opening marker after `p`
   * is the first one and the closing marker after `body` is the first one
   * that follows it.
   */
  ghost predicate Fenced(text: string, p: string, body: string, q: string) {
    && text == p + Open + body + Close + q
    && !Contains(p, Open)
    && !Contains(body + "``", Close)
  }

  /** `text` is `p + Open + rest` with that opening marker the first one, and no closing marker after it. */
  ghost predicate Unclosed(text: string, p: string, rest: string) {
    && text == p + Open + rest
    && !Contains(p, Open)
    && !Contains(rest, Close)
  }

  /**
   * "```sql" has no border (no proper prefix of it is also a suffix), so an
   * occurrence cannot overlap the end of `p` and the start of the marker.
   */
  lemma OpenNoOverlap(p: string, j: nat)
    requires |p| < j + |Open|
    ensures !OccursAt(p + Open[..|Open| - 1], Open, j)
  {
    var w := p + Open[..|Open| - 1];
    if j + |Open| <= |w| {
      var d := |p| - j;
      var i := if d <= 3 then 3 else d;
      assert w[j + i] == Open[i - d];
      assert w[j..j + |Open|][i] != Open[i];
    }
  }

  /** The first opening marker in `p + Open + rest` is the one after `p` when `p` holds none. */
  lemma OpenAfterPrefix(p: string, rest: string)
    requires !Contains(p, Open)
    ensures Find(p + Open + rest, Open) == |p|
  {
    var w := p + Open[..|Open| - 1];
    forall j: nat
      ensures !OccursAt(w, Open, j)
    {
      if j + |Open| <= |p| {
        assert w[j..j + |Open|] == p[j..j + |Open|];
        assert !OccursAt(p, Open, j);
      } else {
        OpenNoOverlap(p, j);
      }
    }
    FindAfter(p, Open, rest);
  }

  /**
   * Round trip: wrapping `body` in the markers behind any text without an
   * opening marker and ahead of anything at all yields `body` stripped.
   * Only the first opening marker is used, and the first closing marker
   * after it; whatever `q` holds (further code blocks included) is ignored.
   */
  lemma RoundTrip(p: string, body: string, q: string)
    requires !Contains(p, Open)
    requires !Contains(body + "``", Close)
    ensures CleanSqlQuery(p + Open + body + Close + q) == Ok(Strip(body))
  {
    var text := p + Open + body + Close + q;
    assert text == p + Open + (body + Close + q);
    OpenAfterPrefix(p, body + Close + q);
    assert text[|p| + |Open|..] == body + Close + q;
    assert Close[..|Close| - 1] == "``";
    FindAfter(body, Close, q);
    assert (body + Close + q)[..|body|] == body;
  }

  /** The text before the first opening marker does not contain one. */
  lemma SplitAtOpen(text: string) returns (p: string, rest: string)
    requires Contains(text, Open)
    ensures text == p + Open + rest && !Contains(p, Open)
    ensures text[Find(text, Open) + |Open|..] == rest
  {
    p, rest := SplitAtFirst(text, Open);
    NotContainsSlice(p + Open[..|Open| - 1], 0, |p|, Open);
    assert (p + Open[..|Open| - 1])[0..|p|] == p;
    assert text[|p| + |Open|..] == rest;
  }

  /** What a successful extraction consists of: both searches found their marker. */
  lemma Succeeded(text: string)
    requires CleanSqlQuery(text).Ok?
    ensures Find(text, Open) != -1
    ensures var rest := text[Find(text, Open) + |Open|..];
      Find(rest, Close) != -1 && CleanSqlQuery(text).value == Strip(rest[..Find(rest, Close)])
  {
  }

  /** The converse of RoundTrip: every successful extraction comes from a fenced block. */
  lemma SuccessIsFenced(text: string)
    requires CleanSqlQuery(text).Ok?
    ensures exists p, body, q :: Fenced(text, p, body, q) && CleanSqlQuery(text).value == Strip(body)
  {
    Succeeded(text);
    var p, rest := SplitAtOpen(text);
    var body, q := SplitAtFirst(rest, Close);
    assert CleanSqlQuery(text).value == Strip(body) by {
      assert rest[..Find(rest, Close)] == body;
    }
    assert !Contains(body + "``", Close) by {
      assert Close[..|Close| - 1] == "``";
    }
    assert text == p + Open + body + Close + q by {
      assert p + Open + (body + Close + q) == p + Open + body + Close + q;
    }
    assert Fenced(text, p, body, q);
  }

  /**
   * A missing closing marker is reported exactly when the text has an
   * opening marker and no "```" after the first one. The search starts after
   * the opening marker, so its own backticks never count as the close.
   */
  lemma MissingCloseIff(text: string)
    ensures CleanSqlQuery(text) == Err(MissingCloseFence) <==> exists p, rest :: Unclosed(text, p, rest)
  {
    if CleanSqlQuery(text) == Err(MissingCloseFence) {
      var p, rest := SplitAtOpen(text);
      assert Unclosed(text, p, rest);
    }
    if exists p, rest :: Unclosed(text, p, rest) {
      var p, rest :| Unclosed(text, p, rest);
      OpenAfterPrefix(p, rest);
      assert text[|p| + |Open|..] == rest;
    }
  }

  /** The padded form a model usually writes: a newline after "```sql" and before "```". */
  lemma PaddedRoundTrip(p: string, sql: string, q: string)
    requires !Contains(p, Open)
    requires !Contains(sql, Close)
    ensures CleanSqlQuery(p + Open + "\n" + sql + "\n" + Close + q) == Ok(Strip(sql))
  {
    var body := "\n" + sql + "\n";
    var w := body + "``";
    if Contains(w, Close) {
      var j: nat :| OccursAt(w, Close, j);
      assert w[j..j + 3][0] == '`' && w[j..j + 3][1] == '`' && w[j..j + 3][2] == '`';
      assert w[0] == '\n' && w[|sql| + 1] == '\n';
      assert 1 <= j && j + 3 <= |sql| + 1;
      assert w[j..j + 3] == sql[j - 1..j + 2];
      assert OccursAt(sql, Close, j - 1);
      assert false;
    }
    assert p + Open + "\n" + sql + "\n" + Close + q == p + Open + body + Close + q;
    RoundTrip(p, body, q);
    assert AllSpace("\n");
    StripPadded("\n", sql, "\n");
  }

  /**
   * Why RoundTrip asks more of `body` than having no "```": a body ending in a
   * backtick (a MySQL-quoted identifier, say) loses that backtick, because it
   * and the first two of the closing marker already form "```".
   */
  lemma TrailingBacktickIsLost(s: string)
    requires !Contains(s + "``", Close)
    ensures CleanSqlQuery(Open + (s + "`") + Close) == Ok(Strip(s))
  {
    RoundTrip([], s, "`");
    BacktickMoves(s);
  }

  /** A backtick ahead of the closing marker reads the same as one after it. */
  lemma BacktickMoves(s: string)
    ensures Open + (s + "`") + Close == [] + Open + s + Close + "`"
  {
    assert Close + "`" == "`" + Close by {
      assert |Close + "`"| == 4 == |"`" + Close|;
    }
    assert Open + s + (Close + "`") == Open + s + Close + "`";
    assert Open + s + ("`" + Close) == Open + (s + "`") + Close;
    assert [] + Open == Open;
  }

  /** A concrete instance: the body "x`" holds no closing marker, yet the query comes out as "x". */
  lemma TrailingBacktickExample()
    ensures !Contains("x`", Close)
    ensures CleanSqlQuery(Open + "x`" + Close) == Ok("x")
  {
    BacktickExampleFacts();
    var body := "x" + "`";
    assert body == "x`";
    TrailingBacktickIsLost("x");
    assert CleanSqlQuery(Open + body + Close) == Ok("x");
  }

  /** The facts about the bodies "x" and "x`" that the example needs. */
  lemma BacktickExampleFacts()
    ensures !Contains("x`", Close) && !Contains("x" + "``", Close)
    ensures Strip("x") == "x"
  {
    var w := "x``";
    assert w[..3][0] != Close[0];
    assert !OccursAt(w, Close, 0);
    assert !OccursAt("x`", Close, 0);
    assert "x" + "``" == w;
    StripStripped("x");
  }

  /** An empty code block yields the empty query: nothing guarantees the query is non-empty. */
  lemma EmptyBlock()
    ensures CleanSqlQuery(Open + Close) == Ok("")
  {
    assert !Contains("", Open);
    assert "" + "``" == "``";
    assert !Contains("``", Close);
    RoundTrip("", "", "");
    assert "" + Open + "" + Close + "" == Open + Close;
  }
}
