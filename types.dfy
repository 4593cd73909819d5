/**
 * Shared data model of the lexer (src/lex.rs): the token record, the error it
 * may carry, a character unit tagged with its line, and the whitespace test.
 */
module Types {
  import opened Wrappers

  /** A brace-balance error: its message and the line it was detected at. */
  datatype ParseError = ParseError(what: string, line: nat)

  /**
   * One lexed token. `error` is `Some` only on the sentinel token the brace
   * validator emits; such a token has an empty value.
   */
  datatype NgxToken = NgxToken(value: string, line: nat, isQuoted: bool, error: Option<ParseError>)

  /** A unit of one or two characters together with the line it was read on. */
  datatype CharLine = CharLine(ch: string, line: nat)

  /**
   * A stream of tagged units as the tokenizer pulls them. `None` is the
   * mid-stream end that the escape stage produces at a backslash-newline:
   * whichever loop pulls it stops, and a later pull resumes after it.
   */
  type Stream = seq<Option<CharLine>>

  /** The number of newline units in a stream of units. */
  function NewlineUnits(r: seq<Option<string>>): nat {
    if r == [] then 0 else (if r[0] == Some("\n") then 1 else 0) + NewlineUnits(r[1..])
  }

  lemma {:induction false} NewlineUnitsConcat(a: seq<Option<string>>, b: seq<Option<string>>)
    ensures NewlineUnits(a + b) == NewlineUnits(a) + NewlineUnits(b)
    decreases |a|
  {
    if a == [] {
      assert a + b == b;
    } else {
      assert (a + b)[1..] == a[1..] + b;
      NewlineUnitsConcat(a[1..], b);
    }
  }

  /** A word, comment or structural token: never quoted, never an error. */
  function Unquoted(value: string, line: nat): NgxToken {
    NgxToken(value, line, false, None)
  }

  /** The characters with Unicode's White_Space property, which Rust's `trim` removes. */
  predicate IsWhiteSpaceChar(c: char) {
    ('\t' <= c <= '\r') || c == ' ' || c == '\U{85}' || c == '\U{A0}' || c == '\U{1680}'
    || ('\U{2000}' <= c <= '\U{200A}') || c == '\U{2028}' || c == '\U{2029}'
    || c == '\U{202F}' || c == '\U{205F}' || c == '\U{3000}'
  }

  /** `u.trim().is_empty()`: every character of `u` is whitespace. */
  predicate IsBlank(u: string) {
    forall i :: 0 <= i < |u| ==> IsWhiteSpaceChar(u[i])
  }

  predicate EndsWith(s: string, c: char) {
    |s| > 0 && s[|s| - 1] == c
  }

  /** The units `{`, `}` and `;`, which stand as tokens of their own. */
  predicate IsStructural(u: string) {
    u == "{" || u == "}" || u == ";"
  }

  predicate IsQuote(u: string) {
    u == "\"" || u == "'"
  }

  /** Line numbers of the present units never decrease along the stream. */
  ghost predicate Ascending(s: Stream) {
    forall i, j :: 0 <= i < j < |s| && s[i].Some? && s[j].Some? ==> s[i].value.line <= s[j].value.line
  }

  /** Every present unit lies on line `lo` or later. */
  ghost predicate LinesFrom(s: Stream, lo: nat) {
    forall i :: 0 <= i < |s| && s[i].Some? ==> lo <= s[i].value.line
  }

  /** Token line numbers never decrease. */
  ghost predicate Ordered(ts: seq<NgxToken>) {
    forall i, j :: 0 <= i < j < |ts| ==> ts[i].line <= ts[j].line
  }

  /** Every token lies on line `lo` or later. */
  ghost predicate TokensFrom(ts: seq<NgxToken>, lo: nat) {
    forall i :: 0 <= i < |ts| ==> lo <= ts[i].line
  }

  /**
   * The fixture record of the test module and its comparison with a token:
   * a token matches when value and line agree, whatever its flags.
   */
  datatype TokenLine = TokenLine(value: string, line: nat)

  predicate Matches(t: NgxToken, expected: TokenLine) {
    t.value == expected.value && t.line == expected.line
  }

  /**
   * A fixture record cannot tell a quoted token from an unquoted one, nor
   * see an error: two tokens that match the same record differ at most in
   * those flags, and changing the flags never changes the verdict.
   */
  lemma MatchesIgnoresFlags(t: NgxToken, u: NgxToken, expected: TokenLine)
    ensures Matches(t, expected) <==> Matches(t.(isQuoted := u.isQuoted, error := u.error), expected)
    ensures Matches(t, expected) && Matches(u, expected) ==> t == u.(isQuoted := t.isQuoted, error := t.error)
    ensures Matches(t, TokenLine(t.value, t.line))
  {
  }
}
