/**
 * The parameter-expansion branch of `tokenize` (src/lex.rs:137-148): a `{`
 * right after a word ending in `$` starts a `${...}` run that takes units
 * until the word ends in `}` or a blank unit comes. The unit that stops it
 * goes on to the quote, structural and append branches but never to the
 * whitespace branch; when nothing stops it, the `{` itself is dispatched.
 */
module TokenizerExpansion {
  import opened Wrappers
  import opened Types
  import opened Tokenizer

  /**
   * Units an expansion takes in one go: present, not blank, and none but
   * the last ending in `}`.
   */
  ghost predicate ExpansionBody(body: Stream) {
    forall k :: 0 <= k < |body| ==>
      body[k].Some? && !IsBlank(body[k].value.ch) && (k < |body| - 1 ==> !EndsWith(body[k].value.ch, '}'))
  }

  lemma ExpansionBodyTail(body: Stream)
    requires body != [] && ExpansionBody(body)
    ensures ExpansionBody(body[1..])
  {
    forall k | 0 <= k < |body[1..]|
      ensures body[1..][k] == body[k + 1]
    {
    }
  }

  lemma {:induction false} ExpandBody(t: string, body: Stream, tail: Stream)
    requires ExpansionBody(body)
    requires body != [] ==> !EndsWith(t, '}')
    ensures var (t2, c2, n2) := Expand(t + Join(body), tail);
      Expand(t, body + tail) == (t2, c2, n2 + |body|)
    decreases |body|
  {
    if body == [] {
      assert body + tail == tail;
      assert t + "" == t;
    } else {
      var u := body[0].value.ch;
      assert (body + tail)[1..] == body[1..] + tail;
      ExpansionBodyTail(body);
      if |body| > 1 {
        assert !EndsWith(u, '}') && u != [];
        assert (t + u)[|t + u| - 1] == u[|u| - 1];
      }
      ExpandBody(t + u, body[1..], tail);
      assert t + u + Join(body[1..]) == t + Join(body);
    }
  }

  lemma {:induction false} JoinLast(t: string, body: Stream, c: char)
    requires body != [] && ExpansionBody(body)
    ensures EndsWith(t + Join(body), c) <==> EndsWith(body[|body| - 1].value.ch, c)
    decreases |body|
  {
    var u := body[0].value.ch;
    assert !IsBlank(u) && u != [];
    if |body| == 1 {
      assert Join(body) == u + Join(body[1..]);
      assert t + Join(body) == t + u;
    } else {
      ExpansionBodyTail(body);
      JoinLast(t + u, body[1..], c);
      assert t + u + Join(body[1..]) == t + Join(body);
    }
  }

  /**
   * An expansion stopped by a unit `stop`, because the word now ends in `}`
   * or because `stop` is blank: the word takes the `{` and the body, and
   * `stop` is dispatched as if no whitespace test existed.
   */
  lemma ExpansionStops(open: CharLine, body: Stream, stop: CharLine, tail: Stream, token: string, tokenLine: nat)
    requires EndsWith(token, '$') && open.ch == "{" && ExpansionBody(body)
    requires (body != [] && EndsWith(body[|body| - 1].value.ch, '}')) || IsBlank(stop.ch)
    ensures Run([Some(open)] + body + [Some(stop)] + tail, token, tokenLine)
      == Dispatch(tail, token + "{" + Join(body), stop, tokenLine)
  {
    var s := [Some(open)] + body + [Some(stop)] + tail;
    var rest := body + ([Some(stop)] + tail);
    assert s[1..] == rest;
    assert !IsWhiteSpaceChar('{');
    assert !EndsWith(token + "{", '}');
    ExpandBody(token + "{", body, [Some(stop)] + tail);
    var t := token + "{" + Join(body);
    if body != [] {
      JoinLast(token + "{", body, '}');
    }
    assert ([Some(stop)] + tail)[1..] == tail;
    assert Expand(t, [Some(stop)] + tail) == (t, Some(stop), 1);
    assert rest[|body| + 1..] == tail;
    assert Run(s, token, tokenLine) == Dispatch(rest[|body| + 1..], t, stop, tokenLine);
  }

  /**
   * So a blank unit right after a closing `}` joins the word instead of
   * ending it, and the word goes on.
   */
  lemma BlankAfterExpansionJoins(open: CharLine, body: Stream, stop: CharLine, tail: Stream, token: string, tokenLine: nat)
    requires EndsWith(token, '$') && open.ch == "{" && ExpansionBody(body)
    requires body != [] && EndsWith(body[|body| - 1].value.ch, '}')
    requires stop.ch == " "
    ensures Run([Some(open)] + body + [Some(stop)] + tail, token, tokenLine)
      == Run(tail, token + "{" + Join(body) + " ", tokenLine)
  {
    ExpansionStops(open, body, stop, tail, token, tokenLine);
  }

  /**
   * An expansion that runs to the end of input leaves the `{` as the picked
   * unit: the word is flushed and an extra structural `{` follows on the
   * `{`'s line.
   */
  lemma ExpansionAtEnd(open: CharLine, body: Stream, token: string, tokenLine: nat)
    requires EndsWith(token, '$') && open.ch == "{" && ExpansionBody(body)
    ensures Run([Some(open)] + body, token, tokenLine)
      == [Unquoted(token + "{" + Join(body), tokenLine), Unquoted("{", open.line)]
  {
    var s := [Some(open)] + body;
    assert s[1..] == body;
    assert !IsWhiteSpaceChar('{');
    assert !EndsWith(token + "{", '}');
    assert body + [] == body;
    ExpandBody(token + "{", body, []);
    var t := token + "{" + Join(body);
    assert Run(s, token, tokenLine) == Dispatch([], t, open, tokenLine);
  }
}
