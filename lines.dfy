/**
 * The line stage `line_count` (src/lex.rs:230-238): tags each unit with a
 * line number. The counter starts at 1 and is incremented before a newline
 * unit is tagged, so a newline carries the number of the line it begins. An
 * early stop passes through untagged and leaves the counter alone.
 */
module Lines {
  import opened Wrappers
  import opened Types

  /** The tagged stream, given the counter's value before the first unit. */
  function Numbered(units: seq<Option<string>>, line: nat): (r: Stream)
    ensures |r| == |units|
    decreases |units|
  {
    if units == [] then []
    else match units[0]
      case None => [None] + Numbered(units[1..], line)
      case Some(u) =>
        var next := if u == "\n" then line + 1 else line;
        [Some(CharLine(u, next))] + Numbered(units[1..], next)
  }

  /** `line_count` pulled to exhaustion, the counter as a local variable. */
  method LineCount(units: seq<Option<string>>) returns (r: Stream)
    ensures r == Numbered(units, 1)
  {
    r := [];
    var line := 1;
    var i := 0;
    while i < |units|
      invariant 0 <= i <= |units|
      invariant r + Numbered(units[i..], line) == Numbered(units, 1)
    {
      assert units[i..][1..] == units[i + 1..];
      var x;
      if units[i].Some? {
        var u := units[i].value;
        if u == "\n" {
          line := line + 1;
        }
        x := Some(CharLine(u, line));
      } else {
        x := None;
      }
      assert (r + [x]) + Numbered(units[i + 1..], line) == r + ([x] + Numbered(units[i + 1..], line));
      r := r + [x];
      i := i + 1;
    }
  }

  /**
   * Element `i` of the tagged stream holds the `i`-th unit, on the starting
   * line plus the number of newline units among elements 0 to `i` inclusive.
   */
  lemma {:induction false} NumberedAt(units: seq<Option<string>>, line: nat, i: nat)
    requires i < |units|
    ensures Numbered(units, line)[i]
      == if units[i].None? then None else Some(CharLine(units[i].value, line + NewlineUnits(units[..i + 1])))
    decreases i
  {
    var next := if units[0] == Some("\n") then line + 1 else line;
    assert units[..i + 1][1..] == units[1..][..i];
    if i > 0 {
      NumberedAt(units[1..], next, i - 1);
    }
  }

  /**
   * Between two tagged units the line number rises by exactly the number of
   * newline units from just after the first up to and including the second.
   */
  lemma NumberedBetween(units: seq<Option<string>>, line: nat, i: nat, j: nat)
    requires i < j < |units| && units[i].Some? && units[j].Some?
    ensures var r := Numbered(units, line);
      r[i].Some? && r[j].Some? && r[j].value.line == r[i].value.line + NewlineUnits(units[i + 1..j + 1])
  {
    NumberedAt(units, line, i);
    NumberedAt(units, line, j);
    assert units[..j + 1] == units[..i + 1] + units[i + 1..j + 1];
    NewlineUnitsConcat(units[..i + 1], units[i + 1..j + 1]);
  }

  /** Line numbers never decrease and never fall below the starting line. */
  lemma NumberedAscending(units: seq<Option<string>>, line: nat)
    ensures Ascending(Numbered(units, line))
    ensures LinesFrom(Numbered(units, line), line)
  {
    var r := Numbered(units, line);
    forall i, j | 0 <= i < j < |r| && r[i].Some? && r[j].Some?
      ensures r[i].value.line <= r[j].value.line
    {
      NumberedAt(units, line, i);
      NumberedAt(units, line, j);
      NumberedBetween(units, line, i, j);
    }
    forall i | 0 <= i < |r| && r[i].Some?
      ensures line <= r[i].value.line
    {
      NumberedAt(units, line, i);
    }
  }
}
