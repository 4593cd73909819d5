/**
 * The brace validator `balance_braces` (src/lex.rs:37-78): counts the depth
 * of unquoted `{` and `}` tokens and either passes the tokens through,
 * replaces them with a single error token, or appends one.
 */
module Braces {
  import opened Wrappers
  import opened Types

  const UnexpectedClose := "unexpected '}'"
  const UnexpectedEof := "unexpected end of file, expecting '}'"

  /** The sentinel token carrying error `what` at `line`. */
  function ErrorToken(what: string, line: nat): NgxToken {
    NgxToken("", line, false, Some(ParseError(what, line)))
  }

  /** How one token moves the depth; quoted tokens never do. */
  function Delta(t: NgxToken): int {
    if t.value == "}" && !t.isQuoted then -1
    else if t.value == "{" && !t.isQuoted then 1
    else 0
  }

  /** The depth after a run of tokens: unquoted `{` minus unquoted `}`. */
  function Depth(ts: seq<NgxToken>): int {
    if ts == [] then 0 else Depth(ts[..|ts| - 1]) + Delta(ts[|ts| - 1])
  }

  /**
   * The validator's loop from token `i` on, with the running `depth`, the
   * `line` of the last token seen and the tokens kept so far.
   */
  function Scan(tokens: seq<NgxToken>, i: nat, depth: int, line: nat, kept: seq<NgxToken>): seq<NgxToken>
    requires i <= |tokens|
    decreases |tokens| - i
  {
    if i == |tokens| then
      if depth > 0 then kept + [ErrorToken(UnexpectedEof, line)] else kept
    else
      var t := tokens[i];
      var d := depth + Delta(t);
      if d < 0 then [ErrorToken(UnexpectedClose, t.line)]
      else Scan(tokens, i + 1, d, t.line, kept + [t])
  }

  /** What `balance_braces` returns for `tokens`. */
  function Balanced(tokens: seq<NgxToken>): seq<NgxToken> {
    Scan(tokens, 0, 0, 0, [])
  }

  /** `balance_braces`, with its early return. */
  method BalanceBraces(tokens: seq<NgxToken>) returns (balanced: seq<NgxToken>)
    ensures balanced == Balanced(tokens)
  {
    balanced := [];
    var depth := 0;
    var line := 0;
    for i := 0 to |tokens|
      invariant Scan(tokens, i, depth, line, balanced) == Balanced(tokens)
    {
      var token := tokens[i];
      line := token.line;
      if token.value == "}" && !token.isQuoted {
        depth := depth - 1;
      } else if token.value == "{" && !token.isQuoted {
        depth := depth + 1;
      }
      if depth < 0 {
        return [ErrorToken(UnexpectedClose, line)];
      }
      balanced := balanced + [token];
    }
    if depth > 0 {
      balanced := balanced + [ErrorToken(UnexpectedEof, line)];
    }
  }

  /** The depth never went below zero over the first `n` tokens. */
  ghost predicate NeverNegative(tokens: seq<NgxToken>, n: nat)
    requires n <= |tokens|
  {
    forall k :: 0 <= k <= n ==> Depth(tokens[..k]) >= 0
  }

  lemma DepthStep(tokens: seq<NgxToken>, i: nat)
    requires i < |tokens|
    ensures Depth(tokens[..i + 1]) == Depth(tokens[..i]) + Delta(tokens[i])
  {
    assert tokens[..i + 1][..i] == tokens[..i];
  }

  /**
   * The loop's invariant: having kept the first `i` tokens with the depth
   * never negative, the outcome is decided by the rest as the three cases
   * say.
   */
  lemma {:induction false} ScanOutcome(tokens: seq<NgxToken>, i: nat, line: nat)
    requires i <= |tokens| && NeverNegative(tokens, i)
    requires i > 0 ==> line == tokens[i - 1].line
    ensures NeverNegative(tokens, |tokens|) && Depth(tokens) == 0
      ==> Scan(tokens, i, Depth(tokens[..i]), line, tokens[..i]) == tokens
    ensures NeverNegative(tokens, |tokens|) && Depth(tokens) > 0
      ==> Scan(tokens, i, Depth(tokens[..i]), line, tokens[..i])
          == tokens + [ErrorToken(UnexpectedEof, tokens[|tokens| - 1].line)]
    ensures forall k :: (i < k <= |tokens| && Depth(tokens[..k]) < 0 && NeverNegative(tokens, k - 1)
      ==> Scan(tokens, i, Depth(tokens[..i]), line, tokens[..i])
          == [ErrorToken(UnexpectedClose, tokens[k - 1].line)])
    decreases |tokens| - i
  {
    assert tokens[..|tokens|] == tokens;
    if i < |tokens| {
      DepthStep(tokens, i);
      assert tokens[..i] + [tokens[i]] == tokens[..i + 1];
      if Depth(tokens[..i + 1]) >= 0 {
        assert NeverNegative(tokens, i + 1);
        ScanOutcome(tokens, i + 1, tokens[i].line);
      } else {
        forall k | i < k <= |tokens| && Depth(tokens[..k]) < 0 && NeverNegative(tokens, k - 1)
          ensures k == i + 1
        {
        }
      }
    }
  }

  /**
   * When the depth never goes below zero and ends at zero, the tokens come
   * back unchanged.
   */
  lemma BalancedUnchanged(tokens: seq<NgxToken>)
    requires NeverNegative(tokens, |tokens|) && Depth(tokens) == 0
    ensures Balanced(tokens) == tokens
  {
    ScanOutcome(tokens, 0, 0);
  }

  /**
   * At the first token that takes the depth below zero, which is always an
   * unquoted `}`, everything is dropped for one error token on its line.
   */
  lemma BalancedStrayClose(tokens: seq<NgxToken>, k: nat)
    requires 0 < k <= |tokens| && Depth(tokens[..k]) < 0 && NeverNegative(tokens, k - 1)
    ensures Balanced(tokens) == [ErrorToken(UnexpectedClose, tokens[k - 1].line)]
    ensures tokens[k - 1].value == "}" && !tokens[k - 1].isQuoted
  {
    ScanOutcome(tokens, 0, 0);
    DepthStep(tokens, k - 1);
  }

  /**
   * When the depth never goes below zero but ends above it, one error token
   * on the last token's line is appended to the intact tokens.
   */
  lemma BalancedUnclosed(tokens: seq<NgxToken>)
    requires NeverNegative(tokens, |tokens|) && Depth(tokens) > 0
    ensures |tokens| > 0
    ensures Balanced(tokens) == tokens + [ErrorToken(UnexpectedEof, tokens[|tokens| - 1].line)]
  {
    ScanOutcome(tokens, 0, 0);
  }

  /** Every result has one of the three shapes. */
  lemma {:induction false} BalancedShape(tokens: seq<NgxToken>)
    ensures || Balanced(tokens) == tokens
            || (|tokens| > 0 && Balanced(tokens) == tokens + [ErrorToken(UnexpectedEof, tokens[|tokens| - 1].line)])
            || (exists k :: 0 <= k < |tokens| && Balanced(tokens) == [ErrorToken(UnexpectedClose, tokens[k].line)])
  {
    if NeverNegative(tokens, |tokens|) {
      assert tokens[..|tokens|] == tokens;
      if Depth(tokens) == 0 {
        BalancedUnchanged(tokens);
      } else {
        BalancedUnclosed(tokens);
      }
    } else {
      assert Depth(tokens[..0]) == 0;
      var k := FirstNegativeExists(tokens, 0);
      BalancedStrayClose(tokens, k);
    }
  }

  /** The first prefix length from `i` on at which the depth is negative. */
  lemma {:induction false} FirstNegativeExists(tokens: seq<NgxToken>, i: nat) returns (k: nat)
    requires i <= |tokens| && NeverNegative(tokens, i) && !NeverNegative(tokens, |tokens|)
    ensures i < k <= |tokens| && Depth(tokens[..k]) < 0 && NeverNegative(tokens, k - 1)
    decreases |tokens| - i
  {
    if Depth(tokens[..i + 1]) < 0 {
      k := i + 1;
    } else {
      k := FirstNegativeExists(tokens, i + 1);
    }
  }

  /** No token carries an error. */
  ghost predicate ErrorFree(ts: seq<NgxToken>) {
    forall k :: 0 <= k < |ts| ==> ts[k].error.None?
  }

  /**
   * The validator passes the tokens through exactly when every unquoted `}` closes an earlier unquoted `{` and every `{` is
   * closed.
   */
  lemma BalancedIffMatched(tokens: seq<NgxToken>)
    ensures Balanced(tokens) == tokens <==> NeverNegative(tokens, |tokens|) && Depth(tokens) == 0
  {
    if NeverNegative(tokens, |tokens|) {
      assert tokens[..|tokens|] == tokens;
      if Depth(tokens) == 0 {
        BalancedUnchanged(tokens);
      } else {
        BalancedUnclosed(tokens);
        assert |Balanced(tokens)| == |tokens| + 1;
      }
    } else {
      assert Depth(tokens[..0]) == 0;
      var k := FirstNegativeExists(tokens, 0);
      BalancedStrayClose(tokens, k);
      if |tokens| == 1 {
        assert k == 1 && Balanced(tokens)[0].value != tokens[0].value;
      }
    }
  }
}
