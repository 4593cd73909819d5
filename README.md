# Lexer for nginx-style configuration text, in Dafny

This project models the lexer of `rust-crossplane` (`src/lex.rs`). The lexer turns nginx-style configuration text into a flat list of tokens. A token is a word, a quoted string, a `#` comment, or one of the structural characters `{`, `}` and `;`. Each token carries the line it starts on and whether it was quoted. The lexer `lex` is a pipeline of four stages:

1. `escape_chars` groups characters into units of one or two characters. A backslash takes the next character with it, and a lone carriage return is dropped.
2. `line_count` tags each unit with a line number starting at 1.
3. `tokenize` is a one-pass state machine. It has a pending word buffer and branches for whitespace, comments, `${...}` parameter expansion, quoted strings, structural characters and ordinary characters.
4. `balance_braces` counts the depth of unquoted braces. It passes the tokens through, replaces them with a single error token, or appends one.

Each stage has three parts:
- a recursive specification function: `Escaped`, `Numbered`, `Run` (through `Tokenized`) and `Balanced`;
- a method with the source's loops, proved equal to that function: `EscapeChars`, `LineCount`, `Tokenize` and `BalanceBraces`;
- lemmas that state what the stage promises.

`Lexer.Lex` chains the four methods.

Modules, one per file:
- `Wrappers` and `Types` (`wrappers.dfy`, `types.dfy`): the records `NgxToken`, `ParseError` and `CharLine`, the Unicode White_Space test used for "blank", and the line-order predicates.
- `Escape` (`escape.dfy`).
- `Lines` (`lines.dfy`).
- The tokenizer:
  - `Tokenizer` (`tokenizer.dfy`): the state machine;
  - `TokenizerSoundness` (`tokenizer_lines.dfy`): its line order and the form of its tokens;
  - `TokenizerCases` (`tokenizer_cases.dfy`): words, structural tokens, quoted strings and comments;
  - `TokenizerExpansion` (`tokenizer_expansion.dfy`): parameter expansion.
- `Braces` (`braces.dfy`).
- `Lexer` (`lexer.dfy`).
- `PlainText` (`plain_text.dfy`): how the first two stages see text without backslashes or carriage returns: one unit per character, each with its line number.
- `Continuation` (`continuation.dfy`): the finding below.

## Iterator stops

Rust's `escape_chars` is a `from_fn` iterator, and `from_fn` iterators are not fused. On a backslash followed by a newline, it consumes the backslash and returns `None` once. The newline stays unread, so the next pull yields it. The model keeps that `None` as an explicit element of the escaped stream. `Option<string>` and `Option<CharLine>`, where `None` is an early stop, carry it through line numbering. Each loop of `tokenize` then treats the stop exactly as the source does:
- The main `while let` loop ends at a stop. This includes a stop that the whitespace loop peeked and did not consume.
- The comment, expansion and quoted-string loops consume the stop, end, and let the main loop carry on with the newline.

## Quirks of the code that the model keeps

- **Newline line numbers.** `line_count` increments its counter before tagging a newline. A newline unit therefore carries the number of the line it begins, not the line it ends. `Lines.NumberedAt` states this.
- **Carriage return after a backslash.** A backslash followed by a carriage return is kept as a two-character unit. The second test on `src/lex.rs:256`, against the two-character string `"\\\r"`, can never hold, because the units it sees are single characters. Only a lone carriage return is dropped. `Escape.EscapedExact` states this.
- **What ends an expansion.** A parameter expansion ends at a `}` or at a blank unit. The unit that ends it skips the whitespace test. So a blank right after `${...}` joins the word: `a${b} ` lexes to the single word `a${b} `, trailing space included (`Lexer.ExpansionKeepsBlank`). A word written back from a token therefore reads back as the same word only when it holds no `${` (`Lexer.WordRoundTrip` excludes `$` altogether). If input ends inside an expansion, an extra structural `{` is emitted (`TokenizerExpansion`).
- **Backslash-newline.** It does not continue the line. It stops the main loop, as the finding below shows.

## Model

| member | source | states |
|---|---|---|
| Escape.EscapeChars | src/lex.rs:240-264 | Pulling `escape_chars` to exhaustion yields exactly `Escaped(s)`. |
| Escape.Pull | src/lex.rs:243-262 | One pass of the closure's `while let` loop. It consumes one character, or two for a backslash pair whose second character is not a newline. It returns at most one result: nothing exactly when it skips a `\r`, and an early stop exactly at a backslash before a newline. What it returns followed by `Escaped` of the rest is `Escaped` from where it started. |
| Escape.EscapedWellFormed | src/lex.rs:243-262 | Each unit has one of two forms: a single character other than `\r`, or a backslash pair whose second character is not a newline. A lone backslash can only be the last unit. Every early stop is directly followed by the newline it stopped at. |
| Escape.EscapedRoundTrip | src/lex.rs:243-262 | Joining the units back, with a stop read as its backslash, gives the input, apart from carriage returns. It follows from `EscapedExact`. |
| Escape.EscapedExact | src/lex.rs:243-262 | Joining the units back, with a stop read as its backslash, gives exactly the input with every carriage return removed except one that follows a backslash, which stays in its pair. |
| Escape.EscapedLossless | src/lex.rs:243-262 | For input without carriage returns, joining the units back gives the input exactly. |
| Escape.EscapedKeepsNewlines | src/lex.rs:246-248 | Every newline of the input reaches the output as a unit of its own, including the one after a stop. |
| Lines.Numbered | src/lex.rs:230-238 | Line numbering yields one element per unit. |
| Lines.LineCount | src/lex.rs:230-238 | The counter loop yields exactly `Numbered(units, 1)`. |
| Lines.NumberedAt | src/lex.rs:231-236 | Element `i` keeps unit `i`. Its line is the start line plus the number of newline units among elements 0 to `i` inclusive. |
| Lines.NumberedBetween | src/lex.rs:231-236 | Between two elements, the line grows by exactly the number of newline units after the first, up to and including the second. |
| Lines.NumberedAscending | src/lex.rs:230-238 | Line numbers never decrease and are never below the start line. |
| Tokenizer.BlankRun | src/lex.rs:101-106 | The peek loop skips the longest run of blank units. It stops at a non-blank unit or an early stop. |
| Tokenizer.CommentBody | src/lex.rs:115-121 | The comment loop consumes at least one element of a non-empty stream and never more than the stream. |
| Tokenizer.Expand | src/lex.rs:140-147 | The expansion loop only extends the buffer. When a unit stops it, that unit is the last element consumed. |
| Tokenizer.QuotedBody | src/lex.rs:159-169 | The quoted-string loop consumes at least one element of a non-empty stream and never more than the stream. |
| Tokenizer.SkipBlank | src/lex.rs:101-106 | The peek loop leaves off after exactly `BlankRun` elements. |
| Tokenizer.ReadComment | src/lex.rs:113-121 | The comment loop appends exactly `CommentBody` and moves past what it consumed. |
| Tokenizer.ReadExpansion | src/lex.rs:137-148 | The expansion loop builds exactly `Expand`'s buffer. The picked unit becomes the stopping unit, or stays `{` when none stopped it. |
| Tokenizer.ReadQuoted | src/lex.rs:158-169 | The quoted-string loop builds exactly `QuotedBody`'s value. |
| Tokenizer.DispatchUnit | src/lex.rs:150-205 | The quote, structural and append branches push what `Dispatch` specifies. |
| Tokenizer.Advance | src/lex.rs:132-205 | A round for a unit that is neither blank nor a comment start. The start line becomes the unit's line when the buffer is empty and is kept otherwise. Then any expansion is read and the unit is dispatched, pushing what `Run` specifies. |
| Tokenizer.BlankRound | src/lex.rs:89-107 | A round for a blank unit pushes exactly the flushed buffer (nothing when it is empty) and moves on past the blank unit and the whole blank run after it. |
| Tokenizer.CommentRound | src/lex.rs:111-130 | A round for `#` with an empty buffer pushes exactly one unquoted token, `#` plus `CommentBody`'s text, on the `#`'s line, and moves past what the comment loop consumed. |
| Tokenizer.Round | src/lex.rs:87-206 | One round of the main loop pushes what `Run` specifies and moves strictly forward. |
| Tokenizer.Tokenize | src/lex.rs:80-218 | `tokenize` returns exactly `Tokenized(items)`: the main loop up to the first early stop or the end, then the final flush. |
| TokenizerSoundness.RunSound | src/lex.rs:87-215 | Every token the loop pushes carries no error, and every unquoted token is non-empty. So runs of whitespace never make tokens. |
| TokenizerSoundness.DispatchSound | src/lex.rs:150-205 | The same holds for the quote, structural and append branches. |
| TokenizerSoundness.TokenizedSound | src/lex.rs:80-218 | `tokenize` never produces an error token or an empty unquoted token. |
| TokenizerSoundness.RunQuotes | src/lex.rs:150-179 | Only the quote branch makes quoted tokens: every quoted token the loop pushes sits on the line of some quote unit of the stream. |
| TokenizerSoundness.DispatchQuotes | src/lex.rs:150-205 | The same for the quote, structural and append branches, when an empty buffer's start line is the dispatched unit's line. |
| TokenizerSoundness.TokenizedQuotes | src/lex.rs:80-218 | Every quoted token of `tokenize` lies on the line of a quote unit, so input without quote units gives no quoted token. |
| TokenizerSoundness.RunOrdered | src/lex.rs:87-215 | On a stream whose lines ascend from `lo`, the tokens' lines ascend from `lo`. |
| TokenizerSoundness.BlankOrdered | src/lex.rs:89-107 | The same for a round that starts with a blank unit. |
| TokenizerSoundness.CommentOrdered | src/lex.rs:111-130 | The same for a round that starts a comment. |
| TokenizerSoundness.PickOrdered | src/lex.rs:132-148 | The same for a round that picks a unit, with or without an expansion. |
| TokenizerSoundness.DispatchOrdered | src/lex.rs:150-205 | The same for the quote, structural and append branches. |
| TokenizerSoundness.TokenizedOrdered | src/lex.rs:80-218 | Over a numbered stream, token lines never decrease and start at line 1 or later. |
| TokenizerCases.WordUnitAppends | src/lex.rs:182-202 | Inside a word, an ordinary unit is appended to the buffer, and the rest of the input stays within the same domain. |
| TokenizerCases.WordEnds | src/lex.rs:89-202 | A pending word ends at a blank or structural unit: it is flushed at its start line and the rest is split from an empty buffer. |
| TokenizerCases.WordGrows | src/lex.rs:182-215 | A pending word that meets an ordinary unit absorbs it and continues. |
| TokenizerCases.RunWord | src/lex.rs:182-215 | A pending word absorbs the leading run of ordinary units and keeps its start line. The rest matches the reference splitting. |
| TokenizerCases.RunSimple | src/lex.rs:87-215 | The loop from an empty buffer equals the reference splitting `Split` on input without stops where no quote or `#` starts a token and no `$`-ended unit is followed by `{`. Quotes and `#` inside a word, and `$` not before `{`, are allowed. |
| TokenizerCases.TokenizedSimple | src/lex.rs:80-218 | `tokenize` equals `Split` on such input, in three respects. Whitespace runs of any length only separate. `{`, `}` and `;` units (never a backslash pair) become tokens of their own on their own lines. Words are maximal and sit on the line of their first unit. |
| TokenizerCases.SplitSkipsBlanks | src/lex.rs:101-106 | Leading blank units do not change the reference splitting. |
| TokenizerCases.StructuralToken | src/lex.rs:182-202 | A structural unit that opens no expansion works in three steps. It flushes the pending word at the word's start line. It becomes an unquoted token on its own line. Then the buffer restarts empty. |
| TokenizerCases.QuotedBodyOf | src/lex.rs:159-169 | Inside a quoted string, backslash plus the delimiter becomes the delimiter, and every other unit is kept verbatim. The string ends at the delimiter, a stop or the end of input. |
| TokenizerCases.QuotedString | src/lex.rs:151-179 | A quote opening a fresh token makes one quoted token on the quote's line. This includes an empty `""` and an unterminated string. The loop resumes after what ended the string. |
| TokenizerCases.CommentBodyOf | src/lex.rs:115-121 | A comment body runs up to, not including, the next newline, stop or end of input. |
| TokenizerCases.Comment | src/lex.rs:111-130 | `#` with an empty buffer makes one unquoted token: `#` plus the rest of the line, on the `#`'s line. The newline is consumed without a token. |
| TokenizerCases.OrdinaryInWord | src/lex.rs:151-156 | Inside a word, a quote is appended like any other character. So is `#`, because the comment test on line 111 needs an empty buffer. |
| TokenizerExpansion.ExpandBody | src/lex.rs:140-143 | The expansion loop takes every non-blank unit until the word ends in `}`. |
| TokenizerExpansion.ExpansionStops | src/lex.rs:137-148 | When a closing `}` or a blank unit stops the expansion, the word gets the `{` and the body. The stopping unit is then dispatched without the whitespace test. |
| TokenizerExpansion.BlankAfterExpansionJoins | src/lex.rs:137-148 | A space right after `${...}` is appended to the word and does not end it. |
| TokenizerExpansion.ExpansionAtEnd | src/lex.rs:137-148 | An expansion that runs to the end of input flushes the word and then emits an extra structural `{`. |
| Braces.BalanceBraces | src/lex.rs:37-78 | The loop, with its early return, yields exactly `Balanced(tokens)`. |
| Braces.ScanOutcome | src/lex.rs:42-75 | The loop invariant: once a prefix has been kept with the depth never negative, the outcome is decided by the rest, in one of the three cases below. |
| Braces.BalancedUnchanged | src/lex.rs:42-77 | If the count of unquoted `{` minus unquoted `}` never goes negative and ends at zero, the input comes back unchanged. |
| Braces.BalancedStrayClose | src/lex.rs:51-60 | At the first token that takes the count negative, the result is exactly one token. That token has an empty value, is unquoted, carries error "unexpected '}'", and has both its line and its error line equal to the offending token's line. The offending token is an unquoted `}`. |
| Braces.BalancedUnclosed | src/lex.rs:65-75 | If the count never goes negative but ends positive, the result is the whole input plus one token carrying error "unexpected end of file, expecting '}'" on the last input token's line. |
| Braces.BalancedShape | src/lex.rs:37-78 | Every result has one of those three shapes. |
| Braces.BalancedIffMatched | src/lex.rs:37-78 | For any tokens, the input comes back unchanged if and only if the braces match. |
| Lexer.Lex | src/lex.rs:33-35 | `lex` is the four stages composed: `Lexed(input)`. |
| Lexer.TokensWellFormed | src/lex.rs:80-238 | Before brace checking, token lines ascend from 1, no token carries an error, and no unquoted token is empty. |
| Lexer.WordRoundTrip | src/lex.rs:80-262 | A non-empty word with no whitespace, `{`, `}`, `;`, backslash, quote, `#` or `$`, written back and followed by a space, lexes to that word again: one unquoted token on line 1. |
| Lexer.QuotedRoundTrip | src/lex.rs:80-262 | A value without backslashes, carriage returns or the delimiter, written back between `"` or `'` delimiters and followed by a space, lexes to one quoted token with that value on line 1, even when it spans several lines. |
| Lexer.ExpansionKeepsBlank | src/lex.rs:137-205 | For any words `w` and `b` of such characters, the text `w${b}` followed by a space lexes to the single unquoted word `w${b} `, space included. |
| PlainText.PlainStages | src/lex.rs:230-262 | On text without backslashes or carriage returns, escaping and line numbering give one unit per character, each tagged with its line; a newline carries the line it begins. |
| Lexer.LexedWellFormed | src/lex.rs:33-78 | Output lines ascend from 1. Only the last token may carry an error, and then it is the empty unquoted sentinel whose error line is its own line. Every other token is a quoted string or a non-empty word. An error-free output is the tokenizer's output with matched braces. |
| Types.MatchesIgnoresFlags | src/lex.rs:266-270 | A token matches a test record by value and line only. Changing its quoted flag or error never changes the verdict, two tokens matching one record differ at most in those flags, and every token matches its own value and line. |
| Continuation.ContinuationDropsRest | src/lex.rs:246-248 | As written, `a`, backslash, newline, `b` lexes to the single word `a`, because the `while let` on line 87 ends at the stop. |
| Continuation.ContinuedDropsStops | src/lex.rs:243-262 | The corrected stage yields exactly what `escape_chars` yields, with each stop and its newline removed. |
| Continuation.ContinuedNeverStops | src/lex.rs:246-248 | The corrected stage never stops early. |
| Continuation.ContinuedAgrees | src/lex.rs:243-262 | Without a backslash-newline, the corrected stage equals `escape_chars`. |
| Continuation.ContinuationJoinsWord | src/lex.rs:246-248 | Corrected, the same input is the one word `ab` on line 1, the line it continues. |

## Left out

- `read_chars` (src/lex.rs:220-228) reads a `std::io::Read` and panics on invalid UTF-8. The model takes already-decoded text as a `seq<char>`.
- The test module (src/lex.rs:272-936) reads fixture files from `configs/`, and those files are not part of this model. Its expectations appear instead as general lemmas, for example: whole-input splitting for `events { worker_connections 1024; }`-shaped text, quoted strings with an escaped delimiter, comments, and the space after `${uri}`.
- Iterator laziness (`Peekable`, `from_fn`, `map`) is not modelled. Each stage is run to completion over a materialised sequence, and the early stops are kept as elements.
- Braces.BalanceBraces: the depth is an unbounded integer, not the source's 32-bit `i32`. Overflow would need more than 2^31 unmatched `{` tokens. Line numbers are likewise unbounded, not `usize`.
- Nothing the code does not do: there is no unterminated-string error, and the brace error stays a sentinel token rather than a separate result type.

## Findings

| source | as written | input that shows it | evidently intended | confidence | as-written member | corrected member |
|---|---|---|---|---|---|---|
| src/lex.rs:246-248 | Backslash-newline makes `escape_chars` return `None`. The `while let` of `tokenize` (line 87) ends at it, so all later text outside a comment, quoted string or expansion is dropped. | `a\` followed by a newline and `b` lexes to `[a]` | A line continuation: backslash and newline dropped, the next line joined to this one, giving `[ab]` on line 1 | medium, not executed | Continuation.ContinuationDropsRest | Continuation.ContinuedDropsStops, Continuation.ContinuationJoinsWord |
