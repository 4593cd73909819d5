/**
 * What the tokenizer makes of each kind of input: plain words and structural
 * characters (against an independent splitting definition), quoted strings,
 * comments, and the characters that are ordinary inside a word.
 */
module TokenizerCases {
  import opened Wrappers
  import opened Types
  import opened Tokenizer

  /** A stream without early stops. */
  ghost predicate Present(s: Stream) {
    forall k :: 0 <= k < |s| ==> s[k].Some?
  }

  /** A unit that is part of a word: neither blank nor structural. */
  predicate WordUnit(u: string) {
    !IsBlank(u) && !IsStructural(u)
  }

  /**
   * What matters of the pending buffer before unit `k` of `s`, when the
   * buffer before unit 0 is `token`: it is empty after a blank or structural
   * unit, and otherwise ends with the unit before.
   */
  function Last(s: Stream, k: nat, token: string): string
    requires k <= |s|
  {
    if k == 0 then token
    else if s[k - 1].Some? && WordUnit(s[k - 1].value.ch) then s[k - 1].value.ch
    else ""
  }

  /**
   * A unit that, after a buffer ending like `last`, opens none of the
   * special branches: a quote or `#` only inside a word, and `{` never right
   * after a word ending in `$`.
   */
  predicate Ordinary(last: string, u: string) {
    && (last == "" ==> !IsQuote(u) && u != "#")
    && !(EndsWith(last, '$') && u == "{")
  }

  /**
   * A stream without early stops in which no unit opens a comment, a quoted
   * string or a parameter expansion, given the pending buffer `token`.
   * Backslash pairs such as `\{` or `\;` are ordinary word units, and so are
   * quotes and `#` inside a word.
   */
  ghost predicate Simple(s: Stream, token: string) {
    Present(s) && forall k :: 0 <= k < |s| ==> Ordinary(Last(s, k, token), s[k].value.ch)
  }

  /** After a blank or structural unit, the rest is simple from an empty buffer. */
  lemma SimpleAfterBreak(s: Stream, token: string, k: nat)
    requires Simple(s, token) && 0 < k <= |s| && !WordUnit(s[k - 1].value.ch)
    ensures Simple(s[k..], "")
  {
    var t := s[k..];
    forall j | 0 <= j < |t|
      ensures t[j].Some? && Ordinary(Last(t, j, ""), t[j].value.ch)
    {
      LastAfterBreak(s, token, k, j);
      assert s[k + j].Some? && Ordinary(Last(s, k + j, token), s[k + j].value.ch);
    }
  }

  /** Past a unit that is not a word unit, the buffer no longer depends on `token`. */
  lemma LastAfterBreak(s: Stream, token: string, k: nat, j: nat)
    requires 0 < k && k + j < |s| && s[k - 1].Some? && !WordUnit(s[k - 1].value.ch)
    ensures s[k..][j] == s[k + j]
    ensures Last(s[k..], j, "") == Last(s, k + j, token)
  {
    if j > 0 {
      assert s[k..][j - 1] == s[k + j - 1];
    }
  }

  /** After a word unit `u`, the rest is simple from any buffer ending in `u`. */
  lemma SimpleAfterWord(s: Stream, token: string, t: string)
    requires Simple(s, token) && s != [] && WordUnit(s[0].value.ch)
    requires t != "" && (EndsWith(t, '$') <==> EndsWith(s[0].value.ch, '$'))
    ensures Simple(s[1..], t)
  {
    assert s[0].value.ch != "";
    forall j | 0 <= j < |s[1..]|
      ensures Ordinary(Last(s[1..], j, t), s[1..][j].value.ch)
    {
      assert Ordinary(Last(s, j + 1, token), s[j + 1].value.ch);
    }
  }

  /** Length of the leading run of word units. */
  function WordLen(s: Stream): (n: nat)
    requires Present(s)
    ensures n <= |s|
    ensures forall k :: 0 <= k < n ==> WordUnit(s[k].value.ch)
    ensures n < |s| ==> !WordUnit(s[n].value.ch)
    decreases |s|
  {
    if s == [] || !WordUnit(s[0].value.ch) then 0
    else 1 + WordLen(s[1..])
  }

  /**
   * Reference splitting of a stream without stops: blank units separate,
   * each structural unit is a token of its own on its own line, and every
   * maximal run of word units is one word on the line of its first unit.
   */
  function Split(s: Stream): seq<NgxToken>
    requires Present(s)
    decreases |s|
  {
    if s == [] then []
    else if IsBlank(s[0].value.ch) then Split(s[1..])
    else if IsStructural(s[0].value.ch) then [Unquoted(s[0].value.ch, s[0].value.line)] + Split(s[1..])
    else
      var n := WordLen(s);
      [Unquoted(Join(s[..n]), s[0].value.line)] + Split(s[n..])
  }

  lemma {:induction false} SplitSkipsBlanks(s: Stream, k: nat)
    requires Present(s) && k <= |s|
    requires forall i :: 0 <= i < k ==> IsBlank(s[i].value.ch)
    ensures Split(s) == Split(s[k..])
    decreases k
  {
    if k > 0 {
      assert s[1..][k - 1..] == s[k..];
      SplitSkipsBlanks(s[1..], k - 1);
    }
  }

  lemma JoinCons(s: Stream, n: nat)
    requires 0 < n <= |s| && s[0].Some?
    ensures Join(s[..n]) == s[0].value.ch + Join(s[1..][..n - 1])
  {
    assert s[..n][1..] == s[1..][..n - 1];
  }

  /**
   * A word unit after a non-empty buffer is appended to it, whether or not
   * it is a quote or `#`.
   */
  lemma WordUnitAppends(s: Stream, token: string, tokenLine: nat)
    requires Simple(s, token) && token != "" && s != [] && WordUnit(s[0].value.ch)
    ensures Run(s, token, tokenLine) == Run(s[1..], token + s[0].value.ch, tokenLine)
    ensures Simple(s[1..], token + s[0].value.ch)
  {
    var u := s[0].value.ch;
    assert u != "";
    assert (token + u)[|token + u| - 1] == u[|u| - 1];
    assert Run(s, token, tokenLine) == Dispatch(s[1..], token, s[0].value, tokenLine);
    SimpleAfterWord(s, token, token + u);
  }

  /**
   * Continuing a non-empty word: the word absorbs the leading run of word
   * units, keeps its start line, and the rest is split by the reference
   * definition.
   */
  lemma {:induction false} RunWord(s: Stream, token: string, tokenLine: nat)
    requires Simple(s, token) && token != ""
    ensures Run(s, token, tokenLine)
      == [Unquoted(token + Join(s[..WordLen(s)]), tokenLine)] + Split(s[WordLen(s)..])
    decreases |s|, 1
  {
    if s == [] {
      assert s[..0] == [] && Join([]) == "" && token + "" == token;
      assert Run(s, token, tokenLine) == [Unquoted(token, tokenLine)];
    } else if WordUnit(s[0].value.ch) {
      WordGrows(s, token, tokenLine);
    } else {
      WordEnds(s, token, tokenLine);
      assert WordLen(s) == 0 && s[..0] == [] && s[0..] == s;
      assert token + Join([]) == token;
    }
  }

  /** A blank or structural unit ends the pending word. */
  lemma {:induction false} WordEnds(s: Stream, token: string, tokenLine: nat)
    requires Simple(s, token) && token != "" && s != [] && !WordUnit(s[0].value.ch)
    ensures Run(s, token, tokenLine) == [Unquoted(token, tokenLine)] + Split(s)
    decreases |s|, 0
  {
    if IsBlank(s[0].value.ch) {
      var rest := s[1..];
      var k := BlankRun(rest);
      assert rest[k..] == s[k + 1..];
      SimpleAfterBreak(s, token, k + 1);
      RunSimple(rest[k..], tokenLine);
      SplitSkipsBlanks(rest, k);
    } else {
      assert Ordinary(Last(s, 0, token), s[0].value.ch);
      SimpleAfterBreak(s, token, 1);
      RunSimple(s[1..], tokenLine);
    }
  }

  /** A word unit joins the pending word, which goes on. */
  lemma {:induction false} WordGrows(s: Stream, token: string, tokenLine: nat)
    requires Simple(s, token) && token != "" && s != [] && WordUnit(s[0].value.ch)
    ensures Run(s, token, tokenLine)
      == [Unquoted(token + Join(s[..WordLen(s)]), tokenLine)] + Split(s[WordLen(s)..])
    decreases |s|, 0
  {
    var u := s[0].value.ch;
    WordUnitAppends(s, token, tokenLine);
    RunWord(s[1..], token + u, tokenLine);
    WordLenCons(s, token);
  }

  lemma WordLenCons(s: Stream, token: string)
    requires Present(s) && s != [] && WordUnit(s[0].value.ch)
    ensures WordLen(s) == WordLen(s[1..]) + 1
    ensures token + s[0].value.ch + Join(s[1..][..WordLen(s[1..])]) == token + Join(s[..WordLen(s)])
    ensures s[1..][WordLen(s[1..])..] == s[WordLen(s)..]
  {
    JoinCons(s, WordLen(s));
  }

  /**
   * On a simple stream the tokenizer is exactly the reference splitting:
   * whitespace runs of any length only separate, structural characters
   * (never a backslash pair) become tokens of their own, words are maximal.
   */
  lemma {:induction false} RunSimple(s: Stream, tokenLine: nat)
    requires Simple(s, "")
    ensures Run(s, "", tokenLine) == Split(s)
    decreases |s|, 2
  {
    if s == [] {
    } else if IsBlank(s[0].value.ch) {
      var rest := s[1..];
      var k := BlankRun(rest);
      assert rest[k..] == s[k + 1..];
      SimpleAfterBreak(s, "", k + 1);
      RunSimple(rest[k..], tokenLine);
      SplitSkipsBlanks(rest, k);
    } else if IsStructural(s[0].value.ch) {
      SimpleAfterBreak(s, "", 1);
      RunSimple(s[1..], s[0].value.line);
    } else {
      var u := s[0].value.ch;
      assert Ordinary(Last(s, 0, ""), u);
      assert u != "" && "" + u == u;
      assert Run(s, "", tokenLine) == Dispatch(s[1..], "", s[0].value, s[0].value.line);
      SimpleAfterWord(s, "", u);
      RunWord(s[1..], u, s[0].value.line);
      JoinCons(s, WordLen(s));
      assert s[1..][WordLen(s[1..])..] == s[WordLen(s)..];
    }
  }

  /** `tokenize` splits a simple stream by the reference definition. */
  lemma TokenizedSimple(s: Stream)
    requires Simple(s, "")
    ensures Tokenized(s) == Split(s)
  {
    RunSimple(s, 1);
  }

  /** Every unit of `body` is present and passes the predicate. */
  ghost predicate NoneMatch(body: Stream, u: string) {
    forall k :: 0 <= k < |body| ==> body[k].Some? && body[k].value.ch != u
  }

  /**
   * The value of a quoted string with delimiter `q`: a backslash followed by
   * the delimiter stands for the delimiter, every other unit (other
   * backslash pairs, braces, `;`, `#`, newlines) is kept as it is.
   */
  function Unescape(body: Stream, q: string): string {
    if body == [] then ""
    else
      var u := if body[0].Some? then body[0].value.ch else "";
      (if u == "\\" + q then q else u) + Unescape(body[1..], q)
  }

  /** The ways a quoted string, or a comment, can end. */
  ghost predicate EndsAt(tail: Stream, u: string) {
    tail == [] || tail[0].None? || tail[0].value.ch == u
  }

  function Resume(tail: Stream): Stream {
    if tail == [] then [] else tail[1..]
  }

  lemma {:induction false} QuotedBodyOf(body: Stream, tail: Stream, q: string)
    requires NoneMatch(body, q) && EndsAt(tail, q)
    ensures QuotedBody(body + tail, q) == (Unescape(body, q), |body + tail| - |Resume(tail)|)
    decreases |body|
  {
    if body == [] {
      assert body + tail == tail;
    } else {
      assert (body + tail)[1..] == body[1..] + tail;
      QuotedBodyOf(body[1..], tail, q);
    }
  }

  /**
   * A quote opening a fresh token reads a quoted string up to the matching
   * delimiter, an early stop or the end of input, whichever comes first; the
   * token is quoted, on the opening quote's line, and the main loop resumes
   * right after what ended it. An unterminated string is still emitted.
   */
  lemma QuotedString(open: CharLine, body: Stream, tail: Stream, tokenLine: nat)
    requires IsQuote(open.ch) && NoneMatch(body, open.ch) && EndsAt(tail, open.ch)
    ensures Run([Some(open)] + body + tail, "", tokenLine)
      == [NgxToken(Unescape(body, open.ch), open.line, true, None)] + Run(Resume(tail), "", open.line)
  {
    var s := [Some(open)] + body + tail;
    assert s[1..] == body + tail;
    assert !IsWhiteSpaceChar(open.ch[0]);
    QuotedBodyOf(body, tail, open.ch);
    assert (body + tail)[|body + tail| - |Resume(tail)|..] == Resume(tail);
    assert Run(s, "", tokenLine) == Dispatch(body + tail, "", open, open.line);
  }

  lemma {:induction false} CommentBodyOf(body: Stream, tail: Stream)
    requires NoneMatch(body, "\n") && EndsAt(tail, "\n")
    ensures CommentBody(body + tail) == (Join(body), |body + tail| - |Resume(tail)|)
    decreases |body|
  {
    if body == [] {
      assert body + tail == tail;
    } else {
      assert (body + tail)[1..] == body[1..] + tail;
      CommentBodyOf(body[1..], tail);
    }
  }

  /**
   * A `#` opening a fresh token reads a comment: the `#` and every unit up
   * to the next newline, early stop or end of input, on the `#`'s line. The
   * newline is consumed without a token of its own.
   */
  lemma Comment(hash: CharLine, body: Stream, tail: Stream, tokenLine: nat)
    requires hash.ch == "#" && NoneMatch(body, "\n") && EndsAt(tail, "\n")
    ensures Run([Some(hash)] + body + tail, "", tokenLine)
      == [Unquoted("#" + Join(body), hash.line)] + Run(Resume(tail), "", tokenLine)
  {
    var s := [Some(hash)] + body + tail;
    assert s[1..] == body + tail;
    assert !IsWhiteSpaceChar(hash.ch[0]);
    CommentBodyOf(body, tail);
    assert (body + tail)[|body + tail| - |Resume(tail)|..] == Resume(tail);
  }

  /** Inside a word a quote or a `#` is an ordinary character. */
  lemma OrdinaryInWord(c: CharLine, s: Stream, token: string, tokenLine: nat)
    requires token != "" && (IsQuote(c.ch) || c.ch == "#")
    ensures Run([Some(c)] + s, token, tokenLine) == Run(s, token + c.ch, tokenLine)
  {
    assert ([Some(c)] + s)[1..] == s;
    assert !IsWhiteSpaceChar(c.ch[0]);
    assert Run([Some(c)] + s, token, tokenLine) == Dispatch(s, token, c, tokenLine);
  }

  /**
   * A structural unit that does not open a parameter expansion flushes the
   * pending word, then becomes an unquoted token of its own on its own
   * line; the buffer starts afresh.
   */
  lemma StructuralToken(c: CharLine, s: Stream, token: string, tokenLine: nat)
    requires IsStructural(c.ch) && !(c.ch == "{" && EndsWith(token, '$'))
    ensures var line := if token == "" then c.line else tokenLine;
      Run([Some(c)] + s, token, tokenLine) == Flush(token, line) + [Unquoted(c.ch, c.line)] + Run(s, "", line)
  {
    assert ([Some(c)] + s)[1..] == s;
    assert !IsWhiteSpaceChar(c.ch[0]);
    var line := if token == "" then c.line else tokenLine;
    assert Run([Some(c)] + s, token, tokenLine) == Dispatch(s, token, c, line);
  }
}
