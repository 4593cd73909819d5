/**
 * Text that the escape pass leaves alone (no backslash, no carriage
 * return), and how the first two stages of the lexer see it: one unit per
 * character, each tagged with the line it is on.
 */
module PlainText {
  import opened Wrappers
  import opened Types
  import opened Escape
  import opened Lines
  import opened Tokenizer
  import opened TokenizerCases

  /** Text without backslashes or carriage returns. */
  predicate Plain(t: string) {
    forall i :: 0 <= i < |t| ==> t[i] != '\\' && t[i] != '\r'
  }

  /**
   * One unit per character of `t`, each on its line counted from `line`;
   * a newline is on the line it begins.
   */
  function Lined(t: string, line: nat): (r: Stream)
    ensures |r| == |t|
    decreases |t|
  {
    if t == [] then []
    else
      var next := if t[0] == '\n' then line + 1 else line;
      [Some(CharLine([t[0]], next))] + Lined(t[1..], next)
  }

  /** On plain text, escaping and line numbering give exactly `Lined`. */
  lemma {:induction false} PlainStages(t: string, line: nat)
    requires Plain(t)
    ensures Numbered(Escaped(t), line) == Lined(t, line)
    decreases |t|
  {
    if t != [] {
      var units := Escaped(t);
      assert units == [Some([t[0]])] + Escaped(t[1..]);
      assert units[1..] == Escaped(t[1..]);
      assert [t[0]] == "\n" <==> t[0] == '\n';
      PlainStages(t[1..], if t[0] == '\n' then line + 1 else line);
    }
  }

  /** The units of `Lined(t, line)` are the characters of `t`, in order. */
  lemma {:induction false} LinedUnits(t: string, line: nat)
    ensures forall k :: 0 <= k < |t| ==> Lined(t, line)[k].Some? && Lined(t, line)[k].value.ch == [t[k]]
    decreases |t|
  {
    if t != [] {
      var next := if t[0] == '\n' then line + 1 else line;
      LinedUnits(t[1..], next);
      forall k | 1 <= k < |t|
        ensures Lined(t, line)[k] == Lined(t[1..], next)[k - 1] && t[1..][k - 1] == t[k]
      {
      }
    }
  }

  /** Without newlines, every unit is on the starting line. */
  lemma {:induction false} LinedFlat(t: string, line: nat)
    requires forall i :: 0 <= i < |t| ==> t[i] != '\n'
    ensures forall k :: 0 <= k < |t| ==> Lined(t, line)[k] == Some(CharLine([t[k]], line))
    decreases |t|
  {
    if t != [] {
      LinedFlat(t[1..], line);
      forall k | 1 <= k < |t|
        ensures Lined(t, line)[k] == Lined(t[1..], line)[k - 1] && t[1..][k - 1] == t[k]
      {
      }
    }
  }

  /** Text split in two: the second part starts on the line the first ends on. */
  lemma {:induction false} LinedConcat(a: string, b: string, line: nat)
    ensures Lined(a + b, line) == Lined(a, line) + Lined(b, line + CountNewlines(a))
    decreases |a|
  {
    if a == [] {
      assert a + b == b;
    } else {
      var next := if a[0] == '\n' then line + 1 else line;
      assert (a + b)[1..] == a[1..] + b;
      LinedConcat(a[1..], b, next);
    }
  }

  /** Text without newlines has none to count. */
  lemma {:induction false} CountNewlinesNone(t: string)
    requires forall i :: 0 <= i < |t| ==> t[i] != '\n'
    ensures CountNewlines(t) == 0
    decreases |t|
  {
    if t != [] {
      CountNewlinesNone(t[1..]);
    }
  }

  /** Joining the units of `Lined(t, line)` spells `t`. */
  lemma {:induction false} JoinLined(t: string, line: nat)
    ensures Join(Lined(t, line)) == t
    decreases |t|
  {
    if t != [] {
      var next := if t[0] == '\n' then line + 1 else line;
      JoinLined(t[1..], next);
      assert t == [t[0]] + t[1..];
    }
  }

  /**
   * Single characters are never the two-character escape of a delimiter,
   * so the value of a quoted string of plain units is their text.
   */
  lemma {:induction false} UnescapeLined(t: string, line: nat, q: string)
    requires q != ""
    ensures Unescape(Lined(t, line), q) == t
    decreases |t|
  {
    if t != [] {
      var next := if t[0] == '\n' then line + 1 else line;
      UnescapeLined(t[1..], next, q);
      assert [t[0]] != "\\" + q;
      assert t == [t[0]] + t[1..];
    }
  }
}
