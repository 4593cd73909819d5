/**
 * The lexer's entry point `lex` (src/lex.rs:33-35): the escape pass, line
 * numbering, tokenization and brace validation composed in that order.
 */
module Lexer {
  import opened Wrappers
  import opened Types
  import opened Escape
  import opened Lines
  import opened Tokenizer
  import opened TokenizerSoundness
  import opened Braces
  import opened TokenizerCases
  import opened TokenizerExpansion
  import opened PlainText

  /** The tokens before brace validation. */
  function Tokens(input: string): seq<NgxToken> {
    Tokenized(Numbered(Escaped(input), 1))
  }

  /** What `lex` returns for the text `input`. */
  function Lexed(input: string): seq<NgxToken> {
    Balanced(Tokens(input))
  }

  /** `lex`, running each stage to completion before the next. */
  method Lex(input: string) returns (tokens: seq<NgxToken>)
    ensures tokens == Lexed(input)
  {
    var units := EscapeChars(input);
    var items := LineCount(units);
    var raw := Tokenize(items);
    tokens := BalanceBraces(raw);
  }

  /** Tokens before validation are on ascending lines from line 1, and sound. */
  lemma TokensWellFormed(input: string)
    ensures Ordered(Tokens(input)) && TokensFrom(Tokens(input), 1)
    ensures Sound(Tokens(input))
  {
    NumberedAscending(Escaped(input), 1);
    TokenizedOrdered(Numbered(Escaped(input), 1));
    TokenizedSound(Numbered(Escaped(input), 1));
  }

  /**
   * What every caller of `lex` may rely on: lines ascend from 1, only the
   * last token may carry an error and then it is the empty unquoted
   * sentinel on its own line, every other token is a non-empty word or a
   * quoted string, and when nothing carries an error the output is the
   * tokenizer's output with its braces matched.
   */
  lemma LexedWellFormed(input: string)
    ensures var r := Lexed(input);
      && Ordered(r) && TokensFrom(r, 1)
      && (forall k :: 0 <= k < |r| && r[k].error.Some? ==>
            k == |r| - 1 && r[k].value == "" && !r[k].isQuoted && r[k].error.value.line == r[k].line)
      && (forall k :: 0 <= k < |r| && r[k].error.None? ==> r[k].isQuoted || r[k].value != "")
    ensures ErrorFree(Lexed(input)) ==>
      (Lexed(input) == Tokens(input) && NeverNegative(Tokens(input), |Tokens(input)|) && Depth(Tokens(input)) == 0)
  {
    var ts := Tokens(input);
    var r := Lexed(input);
    TokensWellFormed(input);
    BalancedShape(ts);
    if r == ts {
      BalancedIffMatched(ts);
    } else if |ts| > 0 && r == ts + [ErrorToken(UnexpectedEof, ts[|ts| - 1].line)] {
      assert r[|r| - 1].error.Some?;
    } else {
      var k :| 0 <= k < |ts| && r == [ErrorToken(UnexpectedClose, ts[k].line)];
      assert r[0].error.Some?;
    }
  }

  /**
   * A character that a word spells as itself and that starts none of the
   * special branches: not whitespace, not `{`, `}` or `;`, not a backslash,
   * a quote, `#` or `$`.
   */
  predicate WordChar(c: char) {
    && !IsWhiteSpaceChar(c) && c != '{' && c != '}' && c != ';'
    && c != '\\' && c != '"' && c != '\'' && c != '#' && c != '$'
  }

  /**
   * A word written back followed by a separator lexes to that word again,
   * unquoted, on line 1.
   */
  lemma WordRoundTrip(w: string)
    requires w != [] && forall i :: 0 <= i < |w| ==> WordChar(w[i])
    ensures Tokens(w + " ") == [Unquoted(w, 1)]
  {
    var t := w + " ";
    WordPlain(w);
    PlainStages(t, 1);
    WordSimple(w);
    TokenizedSimple(Lined(t, 1));
    WordSplit(w);
  }

  lemma WordPlain(w: string)
    requires forall i :: 0 <= i < |w| ==> WordChar(w[i])
    ensures Plain(w + " ")
    ensures forall i :: 0 <= i < |w + " "| ==> (w + " ")[i] != '\n'
  {
    var t := w + " ";
    forall i | 0 <= i < |t|
      ensures t[i] != '\\' && t[i] != '\r' && t[i] != '\n'
    {
      if i < |w| {
        assert t[i] == w[i];
      }
    }
  }

  /** No unit of a word and its separator opens a special branch. */
  lemma WordSimple(w: string)
    requires forall i :: 0 <= i < |w| ==> WordChar(w[i])
    ensures Simple(Lined(w + " ", 1), "")
  {
    var t := w + " ";
    WordPlain(w);
    LinedFlat(t, 1);
    var s := Lined(t, 1);
    forall k | 0 <= k < |s|
      ensures s[k].Some? && Ordinary(Last(s, k, ""), s[k].value.ch)
    {
      assert s[k] == Some(CharLine([t[k]], 1));
      assert k < |w| ==> t[k] == w[k];
      if k > 0 {
        assert s[k - 1] == Some(CharLine([t[k - 1]], 1)) && t[k - 1] == w[k - 1];
      }
      OrdinaryUnit(Last(s, k, ""), t[k], if k > 0 then w[k - 1] else ' ');
    }
  }

  /**
   * After an empty buffer or a word character, a word character or a space
   * opens no special branch.
   */
  lemma OrdinaryUnit(last: string, c: char, p: char)
    requires WordChar(c) || c == ' '
    requires last == "" || (last == [p] && WordChar(p))
    ensures Ordinary(last, [c])
  {
    assert [c][0] == c;
    if last != "" {
      assert last[0] == p;
    }
  }

  /** The reference splitting of a word and its separator is that word. */
  lemma WordSplit(w: string)
    requires w != [] && forall i :: 0 <= i < |w| ==> WordChar(w[i])
    ensures Present(Lined(w + " ", 1))
    ensures Split(Lined(w + " ", 1)) == [Unquoted(w, 1)]
  {
    var s := Lined(w + " ", 1);
    var n := WordRun(w);
    LinedConcat(w, " ", 1);
    assert s[..n] == Lined(w, 1);
    JoinLined(w, 1);
    SplitSeparator(s[n..]);
    assert Split(s) == [Unquoted(Join(s[..n]), s[0].value.line)] + Split(s[n..]);
  }

  /** In a word and its separator, the word units are exactly the word. */
  lemma WordRun(w: string) returns (n: nat)
    requires w != [] && forall i :: 0 <= i < |w| ==> WordChar(w[i])
    ensures Present(Lined(w + " ", 1))
    ensures n == |w| && n == WordLen(Lined(w + " ", 1))
    ensures Lined(w + " ", 1)[n..] == [Some(CharLine(" ", 1))]
    ensures Lined(w + " ", 1)[0].value == CharLine([w[0]], 1)
    ensures WordUnit(Lined(w + " ", 1)[0].value.ch)
  {
    var t := w + " ";
    WordPlain(w);
    LinedFlat(t, 1);
    var s := Lined(t, 1);
    forall k | 0 <= k < |w|
      ensures WordUnit(s[k].value.ch)
    {
      assert s[k].value.ch == [w[k]];
      WordCharUnit(w[k]);
    }
    assert !WordUnit(s[|w|].value.ch);
    n := |w|;
    assert s[0].value.ch == [w[0]];
  }

  /** The unit of a word character is a word unit that opens no special branch. */
  lemma WordCharUnit(c: char)
    requires WordChar(c)
    ensures WordUnit([c]) && !IsQuote([c]) && [c] != "#" && !EndsWith([c], '$')
  {
    assert [c][0] == c;
  }

  /** A lone blank unit splits into nothing. */
  lemma SplitSeparator(sep: Stream)
    requires sep == [Some(CharLine(" ", 1))]
    ensures Present(sep) && Split(sep) == []
  {
    assert IsBlank(sep[0].value.ch);
    assert Split(sep) == Split(sep[1..]);
  }

  /**
   * A string without backslashes or carriage returns, written back between
   * quote characters `q` it does not contain and followed by a separator,
   * lexes to one quoted token with that value, on line 1 even when it spans
   * several lines.
   */
  lemma QuotedRoundTrip(q: char, v: string)
    requires q == '"' || q == '\''
    requires forall i :: 0 <= i < |v| ==> v[i] != q && v[i] != '\\' && v[i] != '\r'
    ensures Tokens([q] + v + [q] + " ") == [NgxToken(v, 1, true, None)]
  {
    var t := [q] + v + [q] + " ";
    var open, body, tail := QuotedLined(q, v);
    QuotedString(open, body, tail, 1);
    UnescapeLined(v, 1, [q]);
    SeparatorRun(Resume(tail));
  }

  /** The stages before the tokenizer split a quoted string into its parts. */
  lemma QuotedLined(q: char, v: string) returns (open: CharLine, body: Stream, tail: Stream)
    requires q == '"' || q == '\''
    requires forall i :: 0 <= i < |v| ==> v[i] != q && v[i] != '\\' && v[i] != '\r'
    ensures Numbered(Escaped([q] + v + [q] + " "), 1) == [Some(open)] + body + tail
    ensures open == CharLine([q], 1) && IsQuote(open.ch)
    ensures body == Lined(v, 1) && NoneMatch(body, open.ch)
    ensures EndsAt(tail, open.ch) && Resume(tail) == [Some(CharLine(" ", 1 + CountNewlines(v)))]
  {
    var t := [q] + v + [q] + " ";
    assert t == [q] + (v + ([q] + " "));
    assert forall i :: 0 <= i < |v| ==> t[i + 1] == v[i];
    assert Plain(t);
    PlainStages(t, 1);
    open, body, tail := CharLine([q], 1), Lined(v, 1), Lined([q] + " ", 1 + CountNewlines(v));
    assert Lined(t, 1) == [Some(open)] + Lined(t[1..], 1);
    assert t[1..] == v + ([q] + " ");
    LinedConcat(v, [q] + " ", 1);
    LinedUnits(v, 1);
    forall k | 0 <= k < |body|
      ensures body[k].Some? && body[k].value.ch != open.ch
    {
      assert body[k].value.ch == [v[k]];
    }
  }

  /** A lone blank unit after a finished token pushes nothing. */
  lemma SeparatorRun(rest: Stream)
    requires |rest| == 1 && rest[0].Some? && rest[0].value.ch == " "
    ensures Run(rest, "", 1) == []
  {
    assert IsBlank(rest[0].value.ch);
    assert rest[1..][BlankRun(rest[1..])..] == [];
  }

  /**
   * A blank right after `${...}` skips the whitespace test, so a word with
   * an expansion at its end, followed by a space, lexes to one word that
   * keeps the space: `a${b} ` gives the single word `a${b} `.
   */
  lemma ExpansionKeepsBlank(w: string, b: string)
    requires forall i :: 0 <= i < |w| ==> WordChar(w[i])
    requires forall i :: 0 <= i < |b| ==> WordChar(b[i])
    ensures Tokens(w + "${" + b + "} ") == [Unquoted(w + "${" + b + "} ", 1)]
  {
    var word, body := w + "$", b + "}";
    var open, stop := CharLine("{", 1), CharLine(" ", 1);
    var rest := ExpansionStream(w, b);
    ExpansionText(w, b);
    WordJoins(word, rest, "");
    ExpansionBodyLined(b);
    BlankAfterExpansionJoins(open, Lined(body, 1), stop, [], word, 1);
    JoinLined(body, 1);
  }

  lemma ExpansionText(w: string, b: string)
    ensures "" + (w + "$") == w + "$"
    ensures w + "$" + "{" + (b + "}") + " " == w + "${" + b + "} "
  {
  }

  /** The stream the tokenizer gets for a word, `$`, `{`, a body, `}` and a space. */
  lemma ExpansionStream(w: string, b: string) returns (rest: Stream)
    requires forall i :: 0 <= i < |w| ==> WordChar(w[i])
    requires forall i :: 0 <= i < |b| ==> WordChar(b[i])
    ensures rest == [Some(CharLine("{", 1))] + Lined(b + "}", 1) + [Some(CharLine(" ", 1))] + []
    ensures Tokens(w + "${" + b + "} ") == Run(Lined(w + "$", 1) + rest, "", 1)
  {
    var word, body := w + "$", b + "}";
    var tail := "{" + (body + " ");
    var t := ExpansionChars(w, b);
    PlainStages(t, 1);
    assert Tokens(t) == Run(Lined(t, 1), "", 1);
    CountNewlinesNone(word);
    LinedConcat(word, tail, 1);
    rest := ExpansionTail(body);
  }

  /** `{`, a body on one line and a space, as units on line 1. */
  lemma ExpansionTail(body: string) returns (rest: Stream)
    requires forall i :: 0 <= i < |body| ==> body[i] != '\n'
    ensures rest == [Some(CharLine("{", 1))] + Lined(body, 1) + [Some(CharLine(" ", 1))] + []
    ensures Lined("{" + (body + " "), 1) == rest
  {
    var tail := "{" + (body + " ");
    assert tail[0] == '{' && [tail[0]] == "{" && tail[1..] == body + " ";
    assert Lined(tail, 1) == [Some(CharLine("{", 1))] + Lined(body + " ", 1);
    CountNewlinesNone(body);
    LinedConcat(body, " ", 1);
    assert " "[1..] == [] && [" "[0]] == " ";
    assert Lined(" ", 1) == [Some(CharLine(" ", 1))];
    rest := [Some(CharLine("{", 1))] + Lined(body, 1) + [Some(CharLine(" ", 1))] + [];
  }

  /** That text is plain and on one line. */
  lemma ExpansionChars(w: string, b: string) returns (t: string)
    requires forall i :: 0 <= i < |w| ==> WordChar(w[i])
    requires forall i :: 0 <= i < |b| ==> WordChar(b[i])
    ensures t == w + "${" + b + "} " && t == (w + "$") + ("{" + ((b + "}") + " "))
    ensures Plain(t)
    ensures forall i :: 0 <= i < |w + "$"| ==> (w + "$")[i] != '\n'
    ensures forall i :: 0 <= i < |b + "}"| ==> (b + "}")[i] != '\n'
  {
    t := w + "${" + b + "} ";
    assert t == (w + "$") + ("{" + ((b + "}") + " "));
    forall i | 0 <= i < |t|
      ensures t[i] != '\\' && t[i] != '\r' && t[i] != '\n'
    {
      if i < |w| {
        assert t[i] == w[i];
      } else if |w| + 2 <= i < |w| + 2 + |b| {
        assert t[i] == b[i - |w| - 2];
      }
    }
    assert forall i :: 0 <= i < |w + "$"| ==> (w + "$")[i] == t[i];
    assert forall i :: 0 <= i < |b + "}"| ==> (b + "}")[i] == t[i + |w| + 2];
  }

  /** The units of a body of word characters and `}` make a finished expansion. */
  lemma ExpansionBodyLined(b: string)
    requires forall i :: 0 <= i < |b| ==> WordChar(b[i])
    ensures var body := Lined(b + "}", 1);
      ExpansionBody(body) && body != [] && EndsWith(body[|body| - 1].value.ch, '}')
  {
    var t := b + "}";
    assert forall i :: 0 <= i < |b| ==> t[i] == b[i];
    LinedFlat(t, 1);
    var body := Lined(t, 1);
    forall k | 0 <= k < |body|
      ensures body[k].Some? && !IsBlank(body[k].value.ch) && (k < |body| - 1 ==> !EndsWith(body[k].value.ch, '}'))
    {
      assert body[k].value.ch == [t[k]] && [t[k]][0] == t[k];
    }
    assert body[|b|].value.ch == "}";
  }

  /**
   * Inside a word, or from an empty buffer, word characters and `$` are
   * appended one by one.
   */
  lemma {:induction false} WordJoins(w: string, rest: Stream, token: string)
    requires forall i :: 0 <= i < |w| ==> WordChar(w[i]) || w[i] == '$'
    ensures Run(Lined(w, 1) + rest, token, 1) == Run(rest, token + w, 1)
    decreases |w|
  {
    if w == [] {
      assert Lined(w, 1) + rest == rest && token + w == token;
    } else {
      var x, t2 := Lined(w[1..], 1) + rest, token + [w[0]];
      LinedCons(w, rest);
      AppendOne(w[0], x, token);
      assert forall i :: 0 <= i < |w[1..]| ==> w[1..][i] == w[i + 1];
      WordJoins(w[1..], rest, t2);
      AppendCons(token, w);
      calc {
        Run(Lined(w, 1) + rest, token, 1);
        Run([Some(CharLine([w[0]], 1))] + x, token, 1);
        Run(x, t2, 1);
        Run(rest, t2 + w[1..], 1);
        Run(rest, token + w, 1);
      }
    }
  }

  lemma AppendCons(token: string, w: string)
    requires w != []
    ensures token + [w[0]] + w[1..] == token + w
  {
    assert w == [w[0]] + w[1..];
  }

  lemma LinedCons(w: string, rest: Stream)
    requires w != [] && w[0] != '\n'
    ensures Lined(w, 1) + rest == [Some(CharLine([w[0]], 1))] + (Lined(w[1..], 1) + rest)
  {
  }

  /** A word character or `$` is appended to the buffer, whatever it holds. */
  lemma AppendOne(c: char, after: Stream, token: string)
    requires WordChar(c) || c == '$'
    ensures Run([Some(CharLine([c], 1))] + after, token, 1) == Run(after, token + [c], 1)
  {
    var u := [c];
    assert u[0] == c && !IsWhiteSpaceChar(c);
    assert !IsBlank(u) && u != "#" && u != "{" && !IsQuote(u) && !IsStructural(u);
    var s := [Some(CharLine(u, 1))] + after;
    assert s[1..] == after;
    assert Run(s, token, 1) == Dispatch(after, token, CharLine(u, 1), 1);
  }
}
