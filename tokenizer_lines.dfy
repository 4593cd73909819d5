/**
 * Properties of the tokenizer that hold for every input stream: every token
 * it pushes is well formed, and token lines follow the order of the stream.
 */
module TokenizerSoundness {
  import opened Wrappers
  import opened Types
  import opened Tokenizer

  /**
   * No token carries an error, and every token that is not a quoted string
   * has a non-empty value.
   */
  ghost predicate Sound(ts: seq<NgxToken>) {
    forall k :: 0 <= k < |ts| ==> ts[k].error.None? && (ts[k].isQuoted || ts[k].value != "")
  }

  /** Every token the main loop pushes is sound, whatever the stream. */
  lemma {:induction false} RunSound(s: Stream, token: string, tokenLine: nat)
    ensures Sound(Run(s, token, tokenLine))
    decreases |s|, 0
  {
    if s != [] && s[0].Some? {
      var cl := s[0].value;
      var rest := s[1..];
      if IsBlank(cl.ch) {
        RunSound(rest[BlankRun(rest)..], "", tokenLine);
      } else if token == "" && cl.ch == "#" {
        var (body, n) := CommentBody(rest);
        RunSound(rest[n..], "", tokenLine);
      } else {
        var line := if token == "" then cl.line else tokenLine;
        if token != "" && EndsWith(token, '$') && cl.ch == "{" {
          var (tok, stop, n) := Expand(token + cl.ch, rest);
          DispatchSound(rest[n..], tok, if stop.Some? then stop.value else cl, line);
        } else {
          DispatchSound(rest, token, cl, line);
        }
      }
    }
  }

  lemma {:induction false} DispatchSound(after: Stream, tok: string, c: CharLine, line: nat)
    ensures Sound(Dispatch(after, tok, c, line))
    decreases |after|, 1
  {
    if IsQuote(c.ch) {
      if tok != "" {
        RunSound(after, tok + c.ch, line);
      } else {
        var (body, m) := QuotedBody(after, c.ch);
        RunSound(after[m..], "", line);
      }
    } else if IsStructural(c.ch) {
      RunSound(after, "", line);
    } else {
      RunSound(after, tok + c.ch, line);
    }
  }

  /** `tokenize`'s own result is sound. */
  lemma TokenizedSound(s: Stream)
    ensures Sound(Tokenized(s))
  {
    RunSound(s, "", 1);
  }

  /** Some unit of `s` is a quote on line `line`. */
  ghost predicate QuoteAt(s: Stream, line: nat) {
    exists j :: 0 <= j < |s| && s[j].Some? && IsQuote(s[j].value.ch) && s[j].value.line == line
  }

  /** Every quoted token lies on the line of some quote unit of `s`. */
  ghost predicate QuotesFrom(ts: seq<NgxToken>, s: Stream) {
    forall k :: 0 <= k < |ts| && ts[k].isQuoted ==> QuoteAt(s, ts[k].line)
  }

  lemma QuotesFromSuffix(ts: seq<NgxToken>, s: Stream, m: nat)
    requires m <= |s| && QuotesFrom(ts, s[m..])
    ensures QuotesFrom(ts, s)
  {
    forall k | 0 <= k < |ts| && ts[k].isQuoted
      ensures QuoteAt(s, ts[k].line)
    {
      var j :| 0 <= j < |s[m..]| && s[m..][j].Some? && IsQuote(s[m..][j].value.ch) && s[m..][j].value.line == ts[k].line;
      assert s[m + j] == s[m..][j];
    }
  }

  lemma QuotesFromJoin(a: seq<NgxToken>, b: seq<NgxToken>, s: Stream)
    requires QuotesFrom(a, s) && QuotesFrom(b, s)
    ensures QuotesFrom(a + b, s)
  {
    forall k | 0 <= k < |a + b| && (a + b)[k].isQuoted
      ensures QuoteAt(s, (a + b)[k].line)
    {
      if k >= |a| {
        assert (a + b)[k] == b[k - |a|];
      }
    }
  }

  /**
   * Only the quote branch pushes quoted tokens: every quoted token the main
   * loop pushes lies on the line of a quote unit of the remaining stream.
   */
  lemma {:induction false} RunQuotes(s: Stream, token: string, tokenLine: nat)
    ensures QuotesFrom(Run(s, token, tokenLine), s)
    decreases |s|, 0
  {
    if s != [] && s[0].Some? {
      var cl := s[0].value;
      var rest := s[1..];
      if IsBlank(cl.ch) {
        var k := BlankRun(rest);
        assert rest[k..] == s[k + 1..];
        RunQuotes(rest[k..], "", tokenLine);
        QuotesFromSuffix(Run(rest[k..], "", tokenLine), s, k + 1);
        QuotesFromJoin(Flush(token, tokenLine), Run(rest[k..], "", tokenLine), s);
      } else if token == "" && cl.ch == "#" {
        var (body, n) := CommentBody(rest);
        assert rest[n..] == s[n + 1..];
        RunQuotes(rest[n..], "", tokenLine);
        QuotesFromSuffix(Run(rest[n..], "", tokenLine), s, n + 1);
        QuotesFromJoin([Unquoted(cl.ch + body, cl.line)], Run(rest[n..], "", tokenLine), s);
      } else {
        var line := if token == "" then cl.line else tokenLine;
        if token != "" && EndsWith(token, '$') && cl.ch == "{" {
          var (tok, stop, n) := Expand(token + cl.ch, rest);
          var c := if stop.Some? then stop.value else cl;
          DispatchQuotes(rest[n..], tok, c, line);
          if stop.Some? {
            assert [Some(c)] + rest[n..] == s[n..];
            QuotesFromSuffix(Dispatch(rest[n..], tok, c, line), s, n);
          } else {
            PickedQuote(s, n, Dispatch(rest[n..], tok, c, line));
          }
        } else {
          DispatchQuotes(rest, token, cl, line);
          assert [Some(cl)] + rest == s;
        }
      }
    }
  }

  /** With the `{` itself picked again, quotes are still found in `s`. */
  lemma PickedQuote(s: Stream, n: nat, ts: seq<NgxToken>)
    requires 0 < |s| && s[0].Some? && n + 1 <= |s|
    requires QuotesFrom(ts, [s[0]] + s[1..][n..])
    ensures QuotesFrom(ts, s)
  {
    forall k | 0 <= k < |ts| && ts[k].isQuoted
      ensures QuoteAt(s, ts[k].line)
    {
      var t := [s[0]] + s[1..][n..];
      var j :| 0 <= j < |t| && t[j].Some? && IsQuote(t[j].value.ch) && t[j].value.line == ts[k].line;
      if j > 0 {
        assert t[j] == s[n + j];
      }
    }
  }

  lemma {:induction false} DispatchQuotes(after: Stream, tok: string, c: CharLine, line: nat)
    requires tok == "" ==> line == c.line
    ensures QuotesFrom(Dispatch(after, tok, c, line), [Some(c)] + after)
    decreases |after|, 1
  {
    var s := [Some(c)] + after;
    assert s[1..] == after;
    if IsQuote(c.ch) {
      if tok != "" {
        RunQuotes(after, tok + c.ch, line);
        QuotesFromSuffix(Run(after, tok + c.ch, line), s, 1);
      } else {
        var (body, m) := QuotedBody(after, c.ch);
        assert after[m..] == s[m + 1..];
        RunQuotes(after[m..], "", line);
        QuotesFromSuffix(Run(after[m..], "", line), s, m + 1);
        assert QuoteAt(s, line) by {
          assert s[0].Some? && IsQuote(s[0].value.ch) && s[0].value.line == line;
        }
        QuotesFromJoin([NgxToken(body, line, true, None)], Run(after[m..], "", line), s);
      }
    } else if IsStructural(c.ch) {
      RunQuotes(after, "", line);
      QuotesFromSuffix(Run(after, "", line), s, 1);
      QuotesFromJoin(Flush(tok, line) + [Unquoted(c.ch, c.line)], Run(after, "", line), s);
    } else {
      RunQuotes(after, tok + c.ch, line);
      QuotesFromSuffix(Run(after, tok + c.ch, line), s, 1);
    }
  }

  /**
   * `tokenize` marks a token quoted only for a quoted string: each quoted
   * token lies on the line of a quote unit, so a stream without quote units
   * gives no quoted token at all.
   */
  lemma TokenizedQuotes(s: Stream)
    ensures QuotesFrom(Tokenized(s), s)
    ensures (forall j :: 0 <= j < |s| && s[j].Some? ==> !IsQuote(s[j].value.ch))
      ==> forall k :: 0 <= k < |Tokenized(s)| ==> !Tokenized(s)[k].isQuoted
  {
    RunQuotes(s, "", 1);
  }

  /** Every token lies on line `hi` or earlier. */
  ghost predicate TokensUpTo(ts: seq<NgxToken>, hi: nat) {
    forall i :: 0 <= i < |ts| ==> ts[i].line <= hi
  }

  lemma OrderedJoin(a: seq<NgxToken>, b: seq<NgxToken>, m: nat)
    requires Ordered(a) && Ordered(b) && TokensUpTo(a, m) && TokensFrom(b, m)
    ensures Ordered(a + b)
  {
    var ab := a + b;
    forall i, j | 0 <= i < j < |ab|
      ensures ab[i].line <= ab[j].line
    {
      if j < |a| {
      } else if i < |a| {
        assert ab[j] == b[j - |a|];
      } else {
        assert ab[i] == b[i - |a|] && ab[j] == b[j - |a|];
      }
    }
  }

  /** A suffix of an ascending stream is ascending and starts no earlier than what precedes it. */
  lemma AscendingSuffix(s: Stream, k: nat)
    requires Ascending(s) && k <= |s|
    ensures Ascending(s[k..])
    ensures k > 0 && s[k - 1].Some? ==> LinesFrom(s[k..], s[k - 1].value.line)
  {
    var t := s[k..];
    forall i, j | 0 <= i < j < |t| && t[i].Some? && t[j].Some?
      ensures t[i].value.line <= t[j].value.line
    {
      assert t[i] == s[k + i] && t[j] == s[k + j];
    }
    if k > 0 && s[k - 1].Some? {
      forall i | 0 <= i < |t| && t[i].Some?
        ensures s[k - 1].value.line <= t[i].value.line
      {
        assert t[i] == s[k + i];
      }
    }
  }

  lemma LinesFromSuffix(s: Stream, k: nat, lo: nat)
    requires LinesFrom(s, lo) && k <= |s|
    ensures LinesFrom(s[k..], lo)
  {
    forall i | 0 <= i < |s[k..]| && s[k..][i].Some?
      ensures lo <= s[k..][i].value.line
    {
      assert s[k..][i] == s[k + i];
    }
  }

  /**
   * On a stream whose line numbers never decrease, the tokens come out in
   * line order and none lies before the first line of the stream (or of the
   * pending word).
   */
  lemma {:induction false} RunOrdered(s: Stream, token: string, tokenLine: nat, lo: nat)
    requires Ascending(s) && LinesFrom(s, lo)
    requires token != "" ==> lo <= tokenLine && LinesFrom(s, tokenLine)
    ensures Ordered(Run(s, token, tokenLine)) && TokensFrom(Run(s, token, tokenLine), lo)
    decreases |s|, 2
  {
    if s == [] || s[0].None? {
    } else if IsBlank(s[0].value.ch) {
      BlankOrdered(s, token, tokenLine, lo);
    } else if token == "" && s[0].value.ch == "#" {
      CommentOrdered(s, tokenLine, lo);
    } else {
      PickOrdered(s, token, tokenLine, lo);
    }
  }

  lemma {:induction false} BlankOrdered(s: Stream, token: string, tokenLine: nat, lo: nat)
    requires Ascending(s) && LinesFrom(s, lo)
    requires token != "" ==> lo <= tokenLine && LinesFrom(s, tokenLine)
    requires s != [] && s[0].Some? && IsBlank(s[0].value.ch)
    ensures Ordered(Run(s, token, tokenLine)) && TokensFrom(Run(s, token, tokenLine), lo)
    decreases |s|, 1
  {
    var rest := s[1..];
    var k := BlankRun(rest);
    var lo2 := if token != "" then tokenLine else lo;
    var flushed, tail := Flush(token, tokenLine), Run(rest[k..], "", tokenLine);
    assert rest[k..] == s[k + 1..];
    assert Run(s, token, tokenLine) == flushed + tail;
    AscendingSuffix(s, k + 1);
    LinesFromSuffix(s, k + 1, lo2);
    RunOrdered(rest[k..], "", tokenLine, lo2);
    OrderedJoin(flushed, tail, lo2);
    TokensFromJoin(flushed, tail, lo, lo2);
  }

  /** Tokens from `lo` followed by tokens from `lo2 >= lo` are all from `lo`. */
  lemma TokensFromJoin(a: seq<NgxToken>, b: seq<NgxToken>, lo: nat, lo2: nat)
    requires TokensFrom(a, lo) && TokensFrom(b, lo2) && lo <= lo2
    ensures TokensFrom(a + b, lo)
  {
  }

  lemma {:induction false} CommentOrdered(s: Stream, tokenLine: nat, lo: nat)
    requires Ascending(s) && LinesFrom(s, lo)
    requires s != [] && s[0].Some? && !IsBlank(s[0].value.ch) && s[0].value.ch == "#"
    ensures Ordered(Run(s, "", tokenLine)) && TokensFrom(Run(s, "", tokenLine), lo)
    decreases |s|, 1
  {
    var cl := s[0].value;
    var rest := s[1..];
    var (body, n) := CommentBody(rest);
    assert rest[n..] == s[n + 1..];
    AscendingSuffix(s, n + 1);
    AscendingSuffix(s, 1);
    LinesFromSuffix(s[1..], n, cl.line);
    RunOrdered(rest[n..], "", tokenLine, cl.line);
    OrderedJoin([Unquoted(cl.ch + body, cl.line)], Run(rest[n..], "", tokenLine), cl.line);
  }

  lemma {:induction false} PickOrdered(s: Stream, token: string, tokenLine: nat, lo: nat)
    requires Ascending(s) && LinesFrom(s, lo)
    requires token != "" ==> lo <= tokenLine && LinesFrom(s, tokenLine)
    requires s != [] && s[0].Some? && !IsBlank(s[0].value.ch) && !(token == "" && s[0].value.ch == "#")
    ensures Ordered(Run(s, token, tokenLine)) && TokensFrom(Run(s, token, tokenLine), lo)
    decreases |s|, 1
  {
    var cl := s[0].value;
    var rest := s[1..];
    var line := if token == "" then cl.line else tokenLine;
    AscendingSuffix(s, 1);
    LinesFromSuffix(s, 1, line);
    if token != "" && EndsWith(token, '$') && cl.ch == "{" {
      var (tok, stop, n) := Expand(token + cl.ch, rest);
      var c := if stop.Some? then stop.value else cl;
      AscendingSuffix(rest, n);
      if stop.Some? {
        assert rest[n - 1] == stop;
      } else {
        LinesFromSuffix(rest, n, cl.line);
      }
      DispatchOrdered(rest[n..], tok, c, line, lo);
    } else {
      DispatchOrdered(rest, token, cl, line, lo);
    }
  }

  lemma {:induction false} DispatchOrdered(after: Stream, tok: string, c: CharLine, line: nat, lo: nat)
    requires Ascending(after) && lo <= line <= c.line && LinesFrom(after, c.line)
    ensures Ordered(Dispatch(after, tok, c, line)) && TokensFrom(Dispatch(after, tok, c, line), lo)
    decreases |after|, 3
  {
    if IsQuote(c.ch) {
      if tok != "" {
        RunOrdered(after, tok + c.ch, line, lo);
      } else {
        var (body, m) := QuotedBody(after, c.ch);
        AscendingSuffix(after, m);
        LinesFromSuffix(after, m, line);
        RunOrdered(after[m..], "", line, line);
        OrderedJoin([NgxToken(body, line, true, None)], Run(after[m..], "", line), line);
      }
    } else if IsStructural(c.ch) {
      RunOrdered(after, "", line, c.line);
      OrderedJoin(Flush(tok, line), [Unquoted(c.ch, c.line)], c.line);
      OrderedJoin(Flush(tok, line) + [Unquoted(c.ch, c.line)], Run(after, "", line), c.line);
    } else {
      RunOrdered(after, tok + c.ch, line, lo);
    }
  }

  /** `tokenize` keeps the line order of an ascending stream numbered from line 1. */
  lemma TokenizedOrdered(s: Stream)
    requires Ascending(s) && LinesFrom(s, 1)
    ensures Ordered(Tokenized(s)) && TokensFrom(Tokenized(s), 1)
  {
    RunOrdered(s, "", 1, 1);
  }
}
