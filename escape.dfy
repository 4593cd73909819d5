/**
 * The escape stage `escape_chars` (src/lex.rs:240-264): groups the input
 * characters into units of one or two characters.
 *
 * The Rust iterator is a `from_fn` closure and is not fused: at a
 * backslash-newline it returns `None` once, having consumed the backslash but
 * not the newline, and the next pull yields the newline. The stream of pulls
 * up to exhaustion of the input is materialised here, with that `None` kept
 * as an element.
 */
module Escape {
  import opened Wrappers
  import opened Types

  /** A unit the escape stage can yield. */
  predicate IsUnit(u: string) {
    (|u| == 1 && u[0] != '\r') || (|u| == 2 && u[0] == '\\' && u[1] != '\n')
  }

  /**
   * The successive results of pulling from `escape_chars` over `s`. The
   * source's second test `ch == "\\\r"` compares a one-character string with
   * a two-character one and never holds, so only the lone `\r` test remains.
   */
  function Escaped(s: seq<char>): seq<Option<string>>
    decreases |s|
  {
    if s == [] then []
    else if s[0] == '\\' then
      if |s| == 1 then [Some("\\")]
      else if s[1] == '\n' then [None] + Escaped(s[1..])
      else [Some([s[0], s[1]])] + Escaped(s[2..])
    else if s[0] == '\r' then Escaped(s[1..])
    else [Some([s[0]])] + Escaped(s[1..])
  }

  /**
   * The shape of an escaped stream: every unit is a single character other
   * than a carriage return, or a backslash pair whose second character is
   * not a newline; a lone backslash can only be the final unit; and an early
   * stop is always followed by the newline it stopped at.
   */
  ghost predicate WellEscaped(r: seq<Option<string>>) {
    && (forall i :: 0 <= i < |r| && r[i].Some? ==> IsUnit(r[i].value))
    && (forall i :: 0 <= i < |r| - 1 ==> r[i] != Some("\\"))
    && (forall i :: 0 <= i < |r| && r[i].None? ==> i + 1 < |r| && r[i + 1] == Some("\n"))
  }

  lemma WellEscapedCons(x: Option<string>, r: seq<Option<string>>)
    requires WellEscaped(r)
    requires x.Some? ==> IsUnit(x.value)
    requires x == Some("\\") ==> r == []
    requires x.None? ==> |r| > 0 && r[0] == Some("\n")
    ensures WellEscaped([x] + r)
  {
    var xr := [x] + r;
    forall i | 0 < i < |xr|
      ensures xr[i] == r[i - 1]
    {
    }
  }

  lemma {:induction false} EscapedWellFormed(s: seq<char>)
    ensures WellEscaped(Escaped(s))
    decreases |s|
  {
    if s == [] {
    } else if s[0] == '\\' && |s| > 1 && s[1] == '\n' {
      EscapedWellFormed(s[1..]);
      assert s[1..] == ['\n'] + s[2..];
      WellEscapedCons(None, Escaped(s[1..]));
    } else if s[0] == '\\' && |s| > 1 {
      EscapedWellFormed(s[2..]);
      WellEscapedCons(Some([s[0], s[1]]), Escaped(s[2..]));
    } else if s[0] == '\\' {
      WellEscapedCons(Some([s[0]]), []);
    } else if s[0] == '\r' {
      EscapedWellFormed(s[1..]);
    } else {
      EscapedWellFormed(s[1..]);
      WellEscapedCons(Some([s[0]]), Escaped(s[1..]));
    }
  }

  /** One round of `escape_chars` at position `i`, as `Escaped` unfolds it. */
  lemma EscapedStep(s: seq<char>, i: nat)
    requires i < |s|
    ensures s[i] == '\\' && i + 1 == |s| ==> Escaped(s[i..]) == [Some([s[i]])]
    ensures s[i] == '\\' && i + 1 < |s| && s[i + 1] == '\n' ==> Escaped(s[i..]) == [None] + Escaped(s[i + 1..])
    ensures s[i] == '\\' && i + 1 < |s| && s[i + 1] != '\n' ==>
      Escaped(s[i..]) == [Some([s[i], s[i + 1]])] + Escaped(s[i + 2..])
    ensures s[i] == '\r' ==> Escaped(s[i..]) == Escaped(s[i + 1..])
    ensures s[i] != '\\' && s[i] != '\r' ==> Escaped(s[i..]) == [Some([s[i]])] + Escaped(s[i + 1..])
  {
    var t := s[i..];
    assert t[1..] == s[i + 1..];
    if i + 1 < |s| {
      assert t[2..] == s[i + 2..];
    }
  }

  /**
   * One pass of the `while let` loop inside the `escape_chars` closure, from
   * position `i`: the result it returns, or nothing when it skips a carriage
   * return and goes round again, and where the next pass starts.
   */
  method Pull(s: seq<char>, i: nat) returns (x: seq<Option<string>>, j: nat)
    requires i < |s|
    ensures i < j <= i + 2 && j <= |s| && |x| <= 1
    ensures x == [] <==> s[i] == '\r'
    ensures x == [None] <==> s[i] == '\\' && i + 1 < |s| && s[i + 1] == '\n'
    ensures j == i + 2 <==> s[i] == '\\' && i + 1 < |s| && s[i + 1] != '\n'
    ensures x + Escaped(s[j..]) == Escaped(s[i..])
  {
    EscapedStep(s, i);
    var ch := s[i];
    j := i + 1;
    if ch == '\\' {
      if j == |s| {
        x := [Some([ch])];
      } else if s[j] == '\n' {
        x := [None];
      } else {
        x := [Some([ch, s[j]])];
        j := j + 1;
      }
    } else if ch != '\r' {
      x := [Some([ch])];
    } else {
      x := [];
    }
  }

  /** `escape_chars` pulled to exhaustion, one result per loop round. */
  method EscapeChars(s: seq<char>) returns (r: seq<Option<string>>)
    ensures r == Escaped(s)
  {
    r := [];
    var i := 0;
    while i < |s|
      invariant 0 <= i <= |s|
      invariant r + Escaped(s[i..]) == Escaped(s)
      decreases |s| - i
    {
      var x, j := Pull(s, i);
      assert (r + x) + Escaped(s[j..]) == r + (x + Escaped(s[j..]));
      r, i := r + x, j;
    }
    assert s[|s|..] == [];
  }

  /**
   * The text a stream was made from, reading the early stop as the backslash
   * it consumed.
   */
  function Flatten(r: seq<Option<string>>): string {
    if r == [] then []
    else (if r[0].Some? then r[0].value else "\\") + Flatten(r[1..])
  }

  /** `s` with every carriage return removed. */
  function StripCR(s: string): string {
    if s == [] then []
    else (if s[0] == '\r' then [] else [s[0]]) + StripCR(s[1..])
  }

  /** The number of newline characters in `s`. */
  function CountNewlines(s: string): nat {
    if s == [] then 0 else (if s[0] == '\n' then 1 else 0) + CountNewlines(s[1..])
  }

  lemma {:induction false} StripCRConcat(a: string, b: string)
    ensures StripCR(a + b) == StripCR(a) + StripCR(b)
    decreases |a|
  {
    if a == [] {
      assert a + b == b;
    } else {
      assert (a + b)[1..] == a[1..] + b;
      StripCRConcat(a[1..], b);
    }
  }

  lemma {:induction false} FlattenCons(x: Option<string>, r: seq<Option<string>>)
    ensures Flatten([x] + r) == (if x.Some? then x.value else "\\") + Flatten(r)
  {
    assert ([x] + r)[1..] == r;
  }

  /**
   * Round trip: the units (with each early stop read as its backslash)
   * spell the input again, up to the carriage returns that were dropped.
   */
  lemma EscapedRoundTrip(s: seq<char>)
    ensures StripCR(Flatten(Escaped(s))) == StripCR(s)
  {
    EscapedExact(s);
    StripDropLoneCR(s);
  }

  /** Stripping every carriage return also strips the ones `DropLoneCR` kept. */
  lemma {:induction false} StripDropLoneCR(s: string)
    ensures StripCR(DropLoneCR(s)) == StripCR(s)
    decreases |s|
  {
    if s == [] {
    } else if s[0] == '\\' && |s| > 1 {
      StripDropLoneCR(s[2..]);
      StripCRConcat([s[0], s[1]], DropLoneCR(s[2..]));
      assert s == [s[0], s[1]] + s[2..];
      StripCRConcat([s[0], s[1]], s[2..]);
    } else {
      StripDropLoneCR(s[1..]);
      assert s == [s[0]] + s[1..];
      StripCRConcat([s[0]], s[1..]);
      if s[0] != '\r' {
        StripCRConcat([s[0]], DropLoneCR(s[1..]));
      }
    }
  }

  /**
   * `s` with every carriage return removed that does not follow a
   * backslash: a backslash keeps the next character, whatever it is.
   */
  function DropLoneCR(s: string): string
    decreases |s|
  {
    if s == [] then []
    else if s[0] == '\\' && |s| > 1 then [s[0], s[1]] + DropLoneCR(s[2..])
    else if s[0] == '\r' then DropLoneCR(s[1..])
    else [s[0]] + DropLoneCR(s[1..])
  }

  /**
   * Exact round trip: the units (with each early stop read as its
   * backslash) spell the input less its lone carriage returns. A carriage
   * return right after a backslash stays inside that unit.
   */
  lemma {:induction false} EscapedExact(s: seq<char>)
    ensures Flatten(Escaped(s)) == DropLoneCR(s)
    decreases |s|
  {
    if s == [] {
    } else if s[0] == '\\' && |s| > 1 {
      EscapedExact(s[2..]);
      EscapedPairExact(s);
    } else if s[0] == '\\' {
      FlattenCons(Some("\\"), []);
    } else if s[0] == '\r' {
      EscapedExact(s[1..]);
    } else {
      EscapedExact(s[1..]);
      FlattenCons(Some([s[0]]), Escaped(s[1..]));
    }
  }

  /** A backslash pair, early stop or not, flattens back to its two characters. */
  lemma EscapedPairExact(s: seq<char>)
    requires |s| > 1 && s[0] == '\\'
    ensures Flatten(Escaped(s)) == [s[0], s[1]] + Flatten(Escaped(s[2..]))
  {
    if s[1] == '\n' {
      EscapedStopExact(s);
    } else {
      var tail := Escaped(s[2..]);
      assert Escaped(s) == [Some([s[0], s[1]])] + tail;
      FlattenCons(Some([s[0], s[1]]), tail);
    }
  }

  /** An early stop and the newline after it flatten back to backslash and newline. */
  lemma EscapedStopExact(s: seq<char>)
    requires |s| > 1 && s[0] == '\\' && s[1] == '\n'
    ensures Flatten(Escaped(s)) == [s[0], s[1]] + Flatten(Escaped(s[2..]))
  {
    var mid, tail := Escaped(s[1..]), Escaped(s[2..]);
    assert s[1..][1..] == s[2..];
    assert mid == [Some([s[1]])] + tail;
    calc {
      Flatten(Escaped(s));
      { assert Escaped(s) == [None] + mid; }
      Flatten([None] + mid);
      { FlattenCons(None, mid); }
      [s[0]] + Flatten(mid);
      { FlattenCons(Some([s[1]]), tail); }
      [s[0]] + ([s[1]] + Flatten(tail));
      [s[0], s[1]] + Flatten(tail);
    }
  }

  /** Without carriage returns the escape stage loses nothing at all. */
  lemma EscapedLossless(s: seq<char>)
    requires forall i :: 0 <= i < |s| ==> s[i] != '\r'
    ensures Flatten(Escaped(s)) == s
  {
    EscapedExact(s);
    DropLoneCRKeeps(s);
  }

  /** Text without carriage returns has none to drop. */
  lemma {:induction false} DropLoneCRKeeps(s: string)
    requires forall i :: 0 <= i < |s| ==> s[i] != '\r'
    ensures DropLoneCR(s) == s
    decreases |s|
  {
    if s == [] {
    } else if s[0] == '\\' && |s| > 1 {
      DropLoneCRKeeps(s[2..]);
      assert s == [s[0], s[1]] + s[2..];
    } else {
      DropLoneCRKeeps(s[1..]);
      assert s == [s[0]] + s[1..];
    }
  }

  /**
   * Every newline of the input reaches the next stage as a unit of its own,
   * even after a backslash, so no line break is ever lost.
   */
  lemma {:induction false} EscapedKeepsNewlines(s: seq<char>)
    ensures NewlineUnits(Escaped(s)) == CountNewlines(s)
    decreases |s|
  {
    if s == [] {
    } else if s[0] == '\\' && |s| > 1 && s[1] != '\n' {
      EscapedKeepsNewlines(s[2..]);
      var r := Escaped(s[2..]);
      assert ([Some([s[0], s[1]])] + r)[1..] == r;
      assert s[1..][1..] == s[2..];
    } else if s[0] == '\\' && |s| > 1 {
      EscapedKeepsNewlines(s[1..]);
      assert ([None] + Escaped(s[1..]))[1..] == Escaped(s[1..]);
    } else if s[0] == '\\' {
    } else if s[0] == '\r' {
      EscapedKeepsNewlines(s[1..]);
    } else {
      EscapedKeepsNewlines(s[1..]);
      assert ([Some([s[0]])] + Escaped(s[1..]))[1..] == Escaped(s[1..]);
    }
  }
}
