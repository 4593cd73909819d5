/**
 * The tokenizer `tokenize` (src/lex.rs:80-218): a one-pass state machine over
 * the tagged units with a pending word buffer `token` and its start line.
 *
 * `Run` is the specification: the tokens the main loop still pushes, from a
 * given remaining stream and buffer state, up to and including the final
 * flush. `Tokenize` is the loop itself, with one helper method per inner loop
 * of the source.
 */
module Tokenizer {
  import opened Wrappers
  import opened Types

  /** The word token a non-empty buffer is flushed as. */
  function Flush(token: string, line: nat): seq<NgxToken> {
    if token == "" then [] else [Unquoted(token, line)]
  }

  /** The characters of the present units of a stream, in order. */
  function Join(s: Stream): string {
    if s == [] then "" else (if s[0].Some? then s[0].value.ch else "") + Join(s[1..])
  }

  /**
   * How many units the whitespace peek loop (src/lex.rs:101-106) skips: the
   * longest run of blank units; an early stop or a non-blank unit ends it.
   */
  function BlankRun(s: Stream): (n: nat)
    ensures n <= |s|
    ensures forall k :: 0 <= k < n ==> s[k].Some? && IsBlank(s[k].value.ch)
    ensures n < |s| ==> s[n].None? || !IsBlank(s[n].value.ch)
    decreases |s|
  {
    if s != [] && s[0].Some? && IsBlank(s[0].value.ch) then 1 + BlankRun(s[1..]) else 0
  }

  /**
   * The comment loop (src/lex.rs:115-121): the text appended after the `#`
   * and the number of stream elements consumed; the newline or early stop
   * that ends it is consumed but not appended.
   */
  function CommentBody(s: Stream): (r: (string, nat))
    ensures r.1 <= |s| && (s != [] ==> 0 < r.1)
    decreases |s|
  {
    if s == [] then ("", 0)
    else if s[0].None? || s[0].value.ch == "\n" then ("", 1)
    else
      var (body, n) := CommentBody(s[1..]);
      (s[0].value.ch + body, n + 1)
  }

  /**
   * The parameter-expansion loop (src/lex.rs:140-147) started with buffer
   * `token`: the buffer afterwards, the unit that stopped it (none when an
   * early stop or the end of the stream did) and the elements consumed.
   */
  function Expand(token: string, s: Stream): (r: (string, Option<CharLine>, nat))
    ensures token <= r.0
    ensures r.2 <= |s|
    ensures r.1.Some? ==> 0 < r.2 && s[r.2 - 1] == r.1
    decreases |s|
  {
    if s == [] then (token, None, 0)
    else if s[0].None? then (token, None, 1)
    else if !EndsWith(token, '}') && !IsBlank(s[0].value.ch) then
      var (t, stop, n) := Expand(token + s[0].value.ch, s[1..]);
      (t, stop, n + 1)
    else (token, s[0], 1)
  }

  /**
   * The quoted-string loop (src/lex.rs:159-169) for delimiter `q`: the string
   * value and the elements consumed, the closing delimiter or the early stop
   * included.
   */
  function QuotedBody(s: Stream, q: string): (r: (string, nat))
    ensures r.1 <= |s| && (s != [] ==> 0 < r.1)
    decreases |s|
  {
    if s == [] then ("", 0)
    else if s[0].None? || s[0].value.ch == q then ("", 1)
    else
      var (body, n) := QuotedBody(s[1..], q);
      (if s[0].value.ch == "\\" + q then q + body else s[0].value.ch + body, n + 1)
  }

  /**
   * The tokens the main loop (src/lex.rs:87-215) pushes from the remaining
   * stream `s`, given the buffer `token` and its start line `tokenLine`.
   */
  function Run(s: Stream, token: string, tokenLine: nat): seq<NgxToken>
    decreases |s|, 0
  {
    if s == [] || s[0].None? then Flush(token, tokenLine)
    else
      var cl := s[0].value;
      var rest := s[1..];
      if IsBlank(cl.ch) then
        Flush(token, tokenLine) + Run(rest[BlankRun(rest)..], "", tokenLine)
      else if token == "" && cl.ch == "#" then
        var (body, n) := CommentBody(rest);
        [Unquoted(cl.ch + body, cl.line)] + Run(rest[n..], "", tokenLine)
      else
        var line := if token == "" then cl.line else tokenLine;
        if token != "" && EndsWith(token, '$') && cl.ch == "{" then
          var (tok, stop, n) := Expand(token + cl.ch, rest);
          Dispatch(rest[n..], tok, if stop.Some? then stop.value else cl, line)
        else
          Dispatch(rest, token, cl, line)
  }

  /**
   * The rest of one round of the main loop (src/lex.rs:150-205) once unit
   * `c` has been picked: the quote, structural and append branches. The
   * whitespace test is not repeated here, which is what lets a blank unit
   * that stopped a parameter expansion join the word.
   */
  function Dispatch(after: Stream, tok: string, c: CharLine, line: nat): seq<NgxToken>
    decreases |after|, 1
  {
    if IsQuote(c.ch) then
      if tok != "" then Run(after, tok + c.ch, line)
      else
        var (body, m) := QuotedBody(after, c.ch);
        [NgxToken(body, line, true, None)] + Run(after[m..], "", line)
    else if IsStructural(c.ch) then
      Flush(tok, line) + [Unquoted(c.ch, c.line)] + Run(after, "", line)
    else
      Run(after, tok + c.ch, line)
  }

  /** The token list `tokenize` returns for a tagged stream. */
  function Tokenized(s: Stream): seq<NgxToken> {
    Run(s, "", 1)
  }

  /** The whitespace peek loop: the index of the first element it leaves. */
  method SkipBlank(items: Stream, start: nat) returns (j: nat)
    requires start <= |items|
    ensures j == start + BlankRun(items[start..])
  {
    j := start;
    while j < |items| && items[j].Some? && IsBlank(items[j].value.ch)
      invariant start <= j <= |items|
      invariant start + BlankRun(items[start..]) == j + BlankRun(items[j..])
    {
      assert items[j..][1..] == items[j + 1..];
      j := j + 1;
    }
  }

  /** The comment loop, appending to the buffer `token`. */
  method ReadComment(items: Stream, start: nat, token: string) returns (t: string, j: nat)
    requires start <= |items|
    ensures var (body, n) := CommentBody(items[start..]); t == token + body && j == start + n
  {
    t, j := token, start;
    while j < |items|
      invariant start <= j <= |items|
      invariant var (body, n) := CommentBody(items[j..]);
        t + body == token + CommentBody(items[start..]).0 && j + n == start + CommentBody(items[start..]).1
    {
      assert items[j..][1..] == items[j + 1..];
      var next := items[j];
      j := j + 1;
      if next.None? || next.value.ch == "\n" {
        return;
      }
      t := t + next.value.ch;
    }
  }

  /** The parameter-expansion loop; `cl` is the `{` unit that opened it. */
  method ReadExpansion(items: Stream, start: nat, token: string, cl: CharLine)
    returns (t: string, stop: CharLine, j: nat)
    requires start <= |items|
    ensures var (tok, c, n) := Expand(token, items[start..]);
      t == tok && stop == (if c.Some? then c.value else cl) && j == start + n
  {
    t, stop, j := token, cl, start;
    while j < |items|
      invariant start <= j <= |items|
      invariant Expand(t, items[j..]) == var (tok, c, n) := Expand(token, items[start..]); (tok, c, n - (j - start))
      invariant stop == cl
    {
      assert items[j..][1..] == items[j + 1..];
      var next := items[j];
      j := j + 1;
      if next.None? {
        return;
      }
      if !EndsWith(t, '}') && !IsBlank(next.value.ch) {
        t := t + next.value.ch;
      } else {
        stop := next.value;
        return;
      }
    }
  }

  /** The quoted-string loop for delimiter `quote`, starting from an empty buffer. */
  method ReadQuoted(items: Stream, start: nat, quote: string) returns (t: string, j: nat)
    requires start <= |items|
    ensures var (body, n) := QuotedBody(items[start..], quote); t == body && j == start + n
  {
    t, j := "", start;
    while j < |items|
      invariant start <= j <= |items|
      invariant var (body, n) := QuotedBody(items[j..], quote);
        t + body == QuotedBody(items[start..], quote).0 && j + n == start + QuotedBody(items[start..], quote).1
    {
      assert items[j..][1..] == items[j + 1..];
      var inner := items[j];
      j := j + 1;
      if inner.None? || inner.value.ch == quote {
        return;
      }
      if inner.value.ch == "\\" + quote {
        t := t + quote;
      } else {
        t := t + inner.value.ch;
      }
    }
  }

  /**
   * The quote, structural and append branches of one round of the main loop
   * for the picked unit `cl`: the tokens pushed, the buffer afterwards and
   * the position the next round starts at.
   */
  method DispatchUnit(items: Stream, i: nat, token: string, cl: CharLine, tokenLine: nat)
    returns (pushed: seq<NgxToken>, t: string, j: nat)
    requires i <= |items|
    ensures i <= j <= |items|
    ensures pushed + Run(items[j..], t, tokenLine) == Dispatch(items[i..], token, cl, tokenLine)
  {
    pushed, t, j := [], token, i;
    if IsQuote(cl.ch) {
      if token != "" {
        t := token + cl.ch;
        return;
      }
      var quote := cl.ch;
      t, j := ReadQuoted(items, i, quote);
      assert items[i..][j - i..] == items[j..];
      pushed := [NgxToken(t, tokenLine, true, None)];
      t := "";
      return;
    }
    if IsStructural(cl.ch) {
      if token != "" {
        pushed := [Unquoted(token, tokenLine)];
        t := "";
      }
      pushed := pushed + [Unquoted(cl.ch, cl.line)];
      return;
    }
    t := token + cl.ch;
  }

  /**
   * One round of the main loop for a unit at position `i` that is neither
   * blank nor the start of a comment: the start line is recorded for an empty
   * buffer, a parameter expansion is read when one opens here, and the picked
   * unit is dispatched.
   */
  method Advance(items: Stream, i: nat, token: string, tokenLine: nat)
    returns (pushed: seq<NgxToken>, t: string, line: nat, j: nat)
    requires i < |items| && items[i].Some?
    requires !IsBlank(items[i].value.ch) && !(token == "" && items[i].value.ch == "#")
    ensures line == if token == "" then items[i].value.line else tokenLine
    ensures i < j <= |items|
    ensures pushed + Run(items[j..], t, line) == Run(items[i..], token, tokenLine)
  {
    var cl := items[i].value;
    assert items[i..][1..] == items[i + 1..];
    t, line, j := token, tokenLine, i + 1;
    if t == "" {
      line := cl.line;
    }
    if t != "" && EndsWith(t, '$') && cl.ch == "{" {
      t := t + cl.ch;
      t, cl, j := ReadExpansion(items, i + 1, t, cl);
      assert items[i + 1..][j - (i + 1)..] == items[j..];
    }
    assert Run(items[i..], token, tokenLine) == Dispatch(items[j..], t, cl, line);
    pushed, t, j := DispatchUnit(items, j, t, cl, line);
  }

  /**
   * One round of the main loop (src/lex.rs:87-206) for the unit at position
   * `i`: the tokens it pushes, the buffer and its start line afterwards, and
   * the position the next round pulls from.
   */
  method Round(items: Stream, i: nat, token: string, tokenLine: nat)
    returns (pushed: seq<NgxToken>, t: string, line: nat, j: nat)
    requires i < |items| && items[i].Some?
    ensures i < j <= |items|
    ensures pushed + Run(items[j..], t, line) == Run(items[i..], token, tokenLine)
  {
    var cl := items[i].value;
    if IsBlank(cl.ch) {
      pushed, j := BlankRound(items, i, token, tokenLine);
      t, line := "", tokenLine;
    } else if token == "" && cl.ch == "#" {
      pushed, j := CommentRound(items, i, tokenLine);
      t, line := "", tokenLine;
    } else {
      pushed, t, line, j := Advance(items, i, token, tokenLine);
    }
  }

  /** A round that pulls a blank unit: flush the buffer, skip the blank run. */
  method BlankRound(items: Stream, i: nat, token: string, tokenLine: nat)
    returns (pushed: seq<NgxToken>, j: nat)
    requires i < |items| && items[i].Some? && IsBlank(items[i].value.ch)
    ensures i < j <= |items|
    ensures pushed == Flush(token, tokenLine)
    ensures j == i + 1 + BlankRun(items[i + 1..])
    ensures pushed + Run(items[j..], "", tokenLine) == Run(items[i..], token, tokenLine)
  {
    assert items[i..][1..] == items[i + 1..];
    pushed := [];
    if token != "" {
      pushed := [Unquoted(token, tokenLine)];
    }
    j := SkipBlank(items, i + 1);
    assert items[i + 1..][j - (i + 1)..] == items[j..];
    assert Run(items[i..], token, tokenLine) == pushed + Run(items[j..], "", tokenLine);
  }

  /** A round that pulls `#` with an empty buffer: one comment token. */
  method CommentRound(items: Stream, i: nat, tokenLine: nat)
    returns (pushed: seq<NgxToken>, j: nat)
    requires i < |items| && items[i].Some? && !IsBlank(items[i].value.ch) && items[i].value.ch == "#"
    ensures i < j <= |items|
    ensures var (body, n) := CommentBody(items[i + 1..]);
      pushed == [Unquoted(items[i].value.ch + body, items[i].value.line)] && j == i + 1 + n
    ensures pushed + Run(items[j..], "", tokenLine) == Run(items[i..], "", tokenLine)
  {
    var cl := items[i].value;
    assert items[i..][1..] == items[i + 1..];
    var lineAtStart := cl.line;
    var t := "" + cl.ch;
    assert t == cl.ch;
    t, j := ReadComment(items, i + 1, t);
    assert items[i + 1..][j - (i + 1)..] == items[j..];
    pushed := [Unquoted(t, lineAtStart)];
  }

  /** `tokenize` over a tagged stream. */
  method Tokenize(items: Stream) returns (tokens: seq<NgxToken>)
    ensures tokens == Tokenized(items)
  {
    tokens := [];
    var token := "";
    var tokenLine := 1;
    var i := 0;
    // the source's `while let Some(cl) = it.next()`: an early stop ends it
    while i < |items| && items[i].Some?
      invariant 0 <= i <= |items|
      invariant tokens + Run(items[i..], token, tokenLine) == Tokenized(items)
      decreases |items| - i
    {
      var pushed;
      pushed, token, tokenLine, i := Round(items, i, token, tokenLine);
      tokens := tokens + pushed;
    }
    if token != "" {
      tokens := tokens + [Unquoted(token, tokenLine)];
    }
  }
}
