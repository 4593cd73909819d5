/**
 * Backslash-newline. In `escape_chars` (src/lex.rs:246-248) it makes the
 * iterator return `None`, and the `while let` of `tokenize`
 * (src/lex.rs:87) ends at the first `None` it pulls, so every character
 * after the first line continuation outside a comment, quoted string or
 * parameter expansion is dropped. The evident intent is a line
 * continuation: drop the backslash and the newline and carry on. `Continued`
 * is that corrected escape stage, and `LexedContinued` the lexer built on it.
 */
module Continuation {
  import opened Wrappers
  import opened Types
  import opened Escape
  import opened Lines
  import opened Tokenizer
  import opened Braces
  import opened Lexer

  /** The escape stage with backslash-newline dropped as a continuation. */
  function Continued(s: seq<char>): seq<Option<string>>
    decreases |s|
  {
    if s == [] then []
    else if s[0] == '\\' then
      if |s| == 1 then [Some("\\")]
      else if s[1] == '\n' then Continued(s[2..])
      else [Some([s[0], s[1]])] + Continued(s[2..])
    else if s[0] == '\r' then Continued(s[1..])
    else [Some([s[0]])] + Continued(s[1..])
  }

  /** A stream with every early stop removed along with the unit after it. */
  function DropStops(r: seq<Option<string>>): seq<Option<string>>
    decreases |r|
  {
    if r == [] then []
    else if r[0].None? then (if |r| == 1 then [] else DropStops(r[2..]))
    else [r[0]] + DropStops(r[1..])
  }

  /**
   * The corrected stage yields exactly what `escape_chars` yields, less each
   * early stop and the newline after it.
   */
  lemma {:induction false} ContinuedDropsStops(s: seq<char>)
    ensures Continued(s) == DropStops(Escaped(s))
    decreases |s|
  {
    if s == [] {
    } else if s[0] == '\\' && |s| > 1 && s[1] == '\n' {
      ContinuedDropsStops(s[2..]);
      assert s[1..][1..] == s[2..];
      assert Escaped(s[1..]) == [Some("\n")] + Escaped(s[2..]);
      assert Escaped(s)[2..] == Escaped(s[2..]);
    } else if s[0] == '\\' && |s| > 1 {
      ContinuedDropsStops(s[2..]);
      assert Escaped(s)[1..] == Escaped(s[2..]);
    } else if s[0] == '\\' {
    } else if s[0] == '\r' {
      ContinuedDropsStops(s[1..]);
    } else {
      ContinuedDropsStops(s[1..]);
      assert Escaped(s)[1..] == Escaped(s[1..]);
    }
  }

  /** The corrected stage never stops early. */
  lemma {:induction false} ContinuedNeverStops(s: seq<char>)
    ensures forall i :: 0 <= i < |Continued(s)| ==> Continued(s)[i].Some?
    decreases |s|
  {
    if s == [] {
    } else if s[0] == '\\' && |s| > 1 {
      ContinuedNeverStops(s[2..]);
    } else if s[0] == '\\' {
    } else {
      ContinuedNeverStops(s[1..]);
    }
  }

  /** Without any backslash-newline, the correction changes nothing. */
  lemma {:induction false} ContinuedAgrees(s: seq<char>)
    requires forall i :: 0 <= i < |Escaped(s)| ==> Escaped(s)[i].Some?
    ensures Continued(s) == Escaped(s)
  {
    ContinuedDropsStops(s);
    NoStopsKept(Escaped(s));
  }

  lemma {:induction false} NoStopsKept(r: seq<Option<string>>)
    requires forall i :: 0 <= i < |r| ==> r[i].Some?
    ensures DropStops(r) == r
    decreases |r|
  {
    if r != [] {
      assert r[0].Some?;
      NoStopsKept(r[1..]);
    }
  }

  /** The lexer over the corrected escape stage. */
  function LexedContinued(input: string): seq<NgxToken> {
    Balanced(Tokenized(Numbered(Continued(input), 1)))
  }

  /**
   * As written: in `a`, backslash, newline, `b` the word `b` is lost and the
   * result holds `a` alone.
   */
  lemma ContinuationDropsRest()
    ensures Lexed("a\\\nb") == [Unquoted("a", 1)]
  {
    var input := "a\\\nb";
    assert Escaped(input[3..]) == [Some("b")];
    assert Escaped(input[2..]) == [Some("\n"), Some("b")];
    assert Escaped(input[1..]) == [None, Some("\n"), Some("b")];
    var units := Escaped(input);
    assert units == [Some("a"), None, Some("\n"), Some("b")];
    var s := Numbered(units, 1);
    assert s[1..] == Numbered(units[1..], 1);
    assert s[0] == Some(CharLine("a", 1)) && s[1].None?;
    assert !IsWhiteSpaceChar('a');
    assert "" + "a" == "a";
    assert Run(s[1..], "a", 1) == [Unquoted("a", 1)];
    assert Run(s, "", 1) == Dispatch(s[1..], "", CharLine("a", 1), 1);
    assert Tokens(input) == [Unquoted("a", 1)];
    assert Scan([Unquoted("a", 1)], 1, 0, 1, [Unquoted("a", 1)]) == [Unquoted("a", 1)];
  }

  /**
   * Corrected: the same input is the one word `ab` on line 1, the line it
   * continues.
   */
  lemma ContinuationJoinsWord()
    ensures LexedContinued("a\\\nb") == [Unquoted("ab", 1)]
  {
    var input := "a\\\nb";
    assert Continued(input[3..]) == [Some("b")];
    assert Continued(input[1..]) == [Some("b")];
    var units := Continued(input);
    assert units == [Some("a"), Some("b")];
    assert units[1..] == [Some("b")] && "a" != "\n" && "b" != "\n";
    assert Numbered(units[1..], 1) == [Some(CharLine("b", 1))];
    var s := Numbered(units, 1);
    assert s == [Some(CharLine("a", 1)), Some(CharLine("b", 1))];
    TwoLetterWord();
    assert Scan([Unquoted("ab", 1)], 1, 0, 1, [Unquoted("ab", 1)]) == [Unquoted("ab", 1)];
  }

  lemma TwoLetterWord()
    ensures Tokenized([Some(CharLine("a", 1)), Some(CharLine("b", 1))]) == [Unquoted("ab", 1)]
  {
    var s := [Some(CharLine("a", 1)), Some(CharLine("b", 1))];
    assert !IsWhiteSpaceChar('a') && !IsWhiteSpaceChar('b');
    assert "" + "a" == "a" && "a" + "b" == "ab";
    assert Run(s[2..], "ab", 1) == [Unquoted("ab", 1)];
    assert Run(s[1..], "a", 1) == Dispatch(s[2..], "a", CharLine("b", 1), 1);
    assert Run(s, "", 1) == Dispatch(s[1..], "", CharLine("a", 1), 1);
  }
}
