# Pris core in Dafny

Pris is a small language for designing slides. Its source is turned into
tokens by a hand-written lexer (src/lexer.rs). Builtin functions such as
`fit`, `line`, `t` and `image` check their arguments against a signature
before they build frames (src/builtins.rs). The syntax tree of
src/ast.rs prints itself back as text.

This project models those three files and proves properties of the model.

- **`Lexer`** (lexer.dfy) models the lexer.
  - `Lexer.Lexer` is a class with the source's fields: the input bytes, `start`, `state` and the token list.
  - It has one method per scanner of the source.
  - Each method is proved equal to a pure scan function: `Lexer.Dispatch` for one state, and `Lexer.RunFrom` for the driver loop.
  - A step ends in one of three ways: the next state and start, a located lexical error, or the slice panic of `make_parse_error`.
- **`LexerTheory`** (lexer_theory.dfy) states what each scanner promises: the extent and kind of the token it emits, and which error it reports.
  - It shows that no keyword token is ever produced.
  - It shows how the byte-order-mark checks shadow each other.
  - The unit tests of src/lexer.rs are stated as lemmas about `Lexer.Lexed`.
- **`LexerFindings`** (lexer_findings.dfy) holds two discrepancies in the lexer (see "Findings"), each with a corrected definition.
  - The corrected lexer always ends and emits ordered tokens. Between, before and after its tokens lie only spaces, newlines and `//` comments.
  - On inputs with no `#` after byte 0, the lexer as written gives the corrected lexer's result, except that it panics where the corrected one reports a non-ASCII byte. So these properties carry over to it on such inputs.
- **`LexerLayout`** (lexer_layout.dfy) says what the lexer skips: spaces, newlines and `//` comments, each comment through its newline or to the end of the input.
  - Every scanner but the colour one either skips such layout or emits adjacent tokens from where it starts to where it hands over.
- **`Values`** (values.dfy) holds runtime values and their type tags, as far as the builtins need them.
- **`Text`** (text.dfy) splits and joins text at a separator.
- **`Builtins`** (builtins.dfy) models argument validation, the validation prefix of each builtin, `split_lines`, the `text_align` match and the `.svg` guard.
  - Whatever follows validation in a builtin is a function parameter. The contracts say what reaches it and which errors come before it.
- **`Ast`** (ast.dfy) holds the syntax tree and its printers, with round trips for units, hexadecimal and identifier paths.
  - It proves that printed terms are balanced in parentheses.
- **`AstLexing`** (ast_lexing.dfy) relates the printers to the lexer:
  - a printed operator lexes as the matching token;
  - a number with a unit lexes as a number token followed by a unit token;
  - a padded colour lexes as one colour token.

`Lexer.Lexer.Run` and `Lexer.Lexed` take a `fuel` bound on driver iterations. A
run that exhausts it ends in `OutOfFuel`.
`LexerFindings.IntendedLexTerminates` shows that 4·n + 2 iterations always
suffice for the corrected lexer on n bytes.

The model follows the code as written, including two behaviours a reader may
not expect:

- Colours print with unpadded `{:x}` channels, not as `#rrggbb`.
- The lexer is not total: it can loop or panic on some inputs.

## Model

| member | source | states |
|---|---|---|
| Values.TypeOf | src/builtins.rs:30-31 | each value kind maps to its own type tag; numbers and coordinates keep their unit exponent |
| Lexer.Punctuation | src/lexer.rs:178-190 | a byte gives a single-byte token exactly when it is one of the thirteen punctuation bytes of the base state, and the token is one of the thirteen punctuation tokens |
| Lexer.ParseError | src/lexer.rs:498-540 | a parse error covers exactly the byte at the given index; the lexer panics exactly when that byte is non-ASCII and fewer than eight bytes remain |
| Lexer.EncodingError | src/lexer.rs:478-495 | a UTF-8, UTF-16 or UTF-32 byte order mark at the index is reported over its 3, 2 or 4 bytes, UTF-8 first; with no mark there, the result is the parse error of the byte |
| Lexer.BaseAction | src/lexer.rs:141-206 | a base byte either emits a punctuation token or ends the base scan in a state whose entry condition holds, with any error inside the input |
| Lexer.BaseScan | src/lexer.rs:140-210 | the base scan ends in Done at end of input, or hands over to a state whose entry condition holds; an error or panic lies inside the input |
| Lexer.ColorScan | src/lexer.rs:212-259 | the colour scan (end index as written) hands over to a valid state or reports an error inside the input |
| Lexer.CommentScan | src/lexer.rs:262-277 | a comment emits nothing, never fails, and hands over validly |
| Lexer.IdentScan | src/lexer.rs:280-299 | the identifier scan never fails and hands over to a valid state |
| Lexer.NumberScan | src/lexer.rs:302-355 | the number scan never fails and hands over to a valid state |
| Lexer.RawStringScan | src/lexer.rs:358-377 | the raw-string scan hands over validly or reports an unterminated raw string over its opening three bytes; it never panics |
| Lexer.StringScan | src/lexer.rs:380-409 | the string scan hands over validly or reports an unterminated string at its opening quote; it never panics |
| Lexer.SpaceScan | src/lexer.rs:412-437 | whitespace emits nothing, hands over validly, and reports errors inside the input |
| Lexer.Dispatch | src/lexer.rs:95-104 | each non-final state's scanner leaves the lexer in a state whose entry condition holds, and its errors and panics lie inside the input |
| Lexer.RunFrom | src/lexer.rs:93-111 | a finished run keeps the tokens collected before it as a prefix; an error is a non-empty range of the input and a panic is at a byte of it |
| Lexer.Lexed | src/lexer.rs:57-59 | lexing reports errors and panics only inside the input, and an empty input lexes to no tokens |
| Lexer.Lexer.constructor | src/lexer.rs:81-88 | a new lexer starts at byte 0 in the base state with no tokens |
| Lexer.Lexer.Run | src/lexer.rs:93-111 | the driver loop returns the outcome of the recursive run from its current state, tokens and start |
| Lexer.Lexer.StepOnce | src/lexer.rs:95-107 | one loop iteration appends what the state's scanner emits, returns its step, and moves the token start only where the base and number scanners push a token of their own |
| Lexer.Lexer.HasAt | src/lexer.rs:114-129 | true exactly when the expected bytes occur at the index, and false when they would run past the end |
| Lexer.Lexer.PushSingle | src/lexer.rs:132-137 | appends the one-byte token at the index and moves the start past it |
| Lexer.Lexer.LexBase | src/lexer.rs:140-210 | the base loop pushes exactly the punctuation tokens of the base scan and returns its step |
| Lexer.Lexer.MatchBase | src/lexer.rs:142-205 | the match on a base byte, with its lookaheads, chooses the base action |
| Lexer.Lexer.LexColor | src/lexer.rs:212-259 | the colour loop pushes and returns what the colour scan gives |
| Lexer.Lexer.LexComment | src/lexer.rs:262-277 | the comment loop returns the comment scan's step |
| Lexer.Lexer.LexIdent | src/lexer.rs:280-299 | the identifier loop pushes one identifier token and returns the identifier scan's step |
| Lexer.Lexer.LexNumber | src/lexer.rs:302-355 | the number loop pushes the number and unit tokens of the number scan and returns its step |
| Lexer.Lexer.LexRawString | src/lexer.rs:358-377 | the raw-string loop pushes and returns what the raw-string scan gives |
| Lexer.Lexer.LexString | src/lexer.rs:380-409 | the string loop pushes and returns what the string scan gives |
| Lexer.Lexer.LexSpace | src/lexer.rs:412-437 | the whitespace loop returns the whitespace scan's step |
| Lexer.Lex | src/lexer.rs:57-59 | lexing a file gives the outcome of the run from byte 0 in the base state |
| LexerTheory.SpaceRun | src/lexer.rs:412-437 | whitespace skips spaces and newlines, fails on the first tab or carriage return, and otherwise hands the next byte to the base state |
| LexerTheory.CommentRun | src/lexer.rs:262-277 | a comment runs to the first newline, which goes to the whitespace state, or to the end of input |
| LexerTheory.IdentRun | src/lexer.rs:280-299 | an identifier token spans the longest run of letters, digits and underscores |
| LexerTheory.IdentToken | src/lexer.rs:280-299 | entered at a letter, the identifier state emits one identifier token starting there |
| LexerTheory.NumberRun | src/lexer.rs:302-355 | a number token spans digits with at most one period, then an optional unit token, before the lexer returns to the base state |
| LexerTheory.NumberToken | src/lexer.rs:302-355 | entered at a digit, the number state emits a number token that starts there, maybe followed by a unit |
| LexerTheory.QuoteEnd | src/lexer.rs:384-403 | the closing quote found is a quote byte at or after the index |
| LexerTheory.StringRun | src/lexer.rs:380-409 | a string ends at the first quote not escaped by a backslash; without one it fails at the opening quote |
| LexerTheory.StringToken | src/lexer.rs:380-409 | a string token spans from the opening quote through the closing quote, and lexing resumes after it |
| LexerTheory.RawStringRun | src/lexer.rs:358-377 | a raw string ends after the first "---" past its opening, or fails when there is none |
| LexerTheory.RawStringToken | src/lexer.rs:358-377 | a raw string fails exactly when no closing "---" follows its opening |
| LexerTheory.ColorRun | src/lexer.rs:212-259 | a colour needs six hex digits; a non-hex byte among them, or a seventh alphanumeric byte, is an error at the place the source names |
| LexerTheory.ColorToken | src/lexer.rs:212-259 | entered at '#', the colour state reports each error case or emits a colour token |
| LexerTheory.BaseByte | src/lexer.rs:141-206 | classifies every base byte: the two lookaheads, each state-changing byte, the punctuation bytes, the byte-order-mark starts and the parse errors |
| LexerTheory.BaseRun | src/lexer.rs:140-210 | the base scan emits punctuation tokens for consecutive bytes and stops at the first byte that is not punctuation |
| LexerTheory.Utf16MarkShadowsUtf32 | src/lexer.rs:478-495 | a little-endian UTF-32 mark is reported as a UTF-16 mark of two bytes, because that check comes first |
| LexerTheory.Utf32MarkIsBigEndian | src/lexer.rs:478-495 | only the big-endian UTF-32 mark is ever reported as UTF-32 |
| LexerTheory.DispatchNoKeywords | src/lexer.rs:95-104 | no scanner emits a keyword token |
| LexerTheory.RunFromNoKeywords | src/lexer.rs:93-111 | a run whose tokens so far hold no keyword never adds one |
| LexerTheory.LexNeverEmitsKeywords | src/lexer.rs:57-59 | the keyword tokens are never produced by the lexer |
| LexerTheory.LexesTwoIdentifiers | src/lexer.rs:543-549 | "foo bar" lexes as two identifiers at [0,3) and [4,7) |
| LexerTheory.LexesStringAfterIdentifier | src/lexer.rs:552-558 | `foo "bar"` lexes as an identifier and a string at [4,9) |
| LexerTheory.LexesStringWithEscapedQuote | src/lexer.rs:561-566 | a string with an escaped quote lexes as one string token |
| LexerTheory.StripsComment | src/lexer.rs:569-575 | a comment line between two identifiers yields no token |
| LexerTheory.LexesRawString | src/lexer.rs:578-585 | "foo---bar---baz" lexes as identifier, raw string [3,12), identifier |
| LexerLayout.BaseCovers | src/lexer.rs:140-210 | the base scan emits adjacent one-byte tokens from its start to where it hands over, and without a token it hands over where it started |
| LexerLayout.SpaceCovers | src/lexer.rs:412-437 | the whitespace scan skips only spaces and newlines |
| LexerLayout.CommentScanTail | src/lexer.rs:262-277 | the comment loop skips the comment up to and including its newline, or to the end of the input |
| LexerLayout.CommentCovers | src/lexer.rs:262-277 | the comment state skips exactly a `//` comment with its newline |
| LexerLayout.IdentCovers | src/lexer.rs:280-299 | the identifier token runs from its start to where lexing resumes |
| LexerLayout.NumberCovers | src/lexer.rs:302-355 | the number token and its unit token are adjacent and run from the start to where lexing resumes |
| LexerLayout.RawStringCovers | src/lexer.rs:358-377 | a closed raw string is one token up to where lexing resumes |
| LexerLayout.StringCovers | src/lexer.rs:380-409 | a closed string is one token up to where lexing resumes |
| LexerLayout.DispatchCovers | src/lexer.rs:95-104 | every scanner but the colour one skips only layout or emits adjacent tokens from its start to where it hands over |
| LexerLayout.StepKeepsLayout | src/lexer.rs:93-111 | appending what such a scanner emits keeps only layout before each token, and leaves only layout up to where the next scanner starts |
| LexerFindings.IntendedColorScan | src/lexer.rs:212-259 | the corrected colour scan hands over validly or reports an error |
| LexerFindings.Settle | src/lexer.rs:498-540 | the corrected parse error turns the slice panic into a one-byte non-ASCII error and changes nothing else |
| LexerFindings.IntendedDispatch | src/lexer.rs:95-104 | with both corrections no step panics |
| LexerFindings.IntendedColorRun | src/lexer.rs:212-259 | the corrected colour token ends at the absolute index after its six digits, and the lexer resumes there |
| LexerFindings.ColorScansAgreeAtZero | src/lexer.rs:212-259 | a colour at byte 0 scans the same with either end index |
| LexerFindings.IntendedDispatchProgress | src/lexer.rs:93-111 | every corrected step emits ordered tokens within the input and strictly lowers a measure of remaining work |
| LexerFindings.IntendedRunFromTotal | src/lexer.rs:93-111 | with enough fuel the corrected run neither panics nor runs out, and its tokens are ordered and within the input |
| LexerFindings.IntendedColorCovers | src/lexer.rs:212-259 | the corrected colour token runs from the '#' to where lexing resumes, or to the end of the input |
| LexerFindings.IntendedDispatchCovers | src/lexer.rs:95-104 | every corrected scanner skips only layout or emits adjacent tokens from its start to where it hands over |
| LexerFindings.IntendedRunFromLayout | src/lexer.rs:93-111 | a corrected run that starts after layout returns tokens with only spaces, newlines and comments before, between and after them |
| LexerFindings.IntendedLexTerminates | src/lexer.rs:57-59 | the corrected lexer ends in tokens or an error on every input; its tokens are ordered, and only spaces, newlines and `//` comments lie outside them |
| LexerFindings.IntendedRunFromFuel | src/lexer.rs:93-111 | more fuel never changes a finished corrected run |
| LexerFindings.RunsAgree | src/lexer.rs:93-111 | without a '#' past byte 0 the run as written equals the corrected run, up to the panic |
| LexerFindings.LexAgreesWithoutLateHash | src/lexer.rs:57-59 | the same for the whole lexer |
| LexerFindings.LexTerminatesWithoutLateHash | src/lexer.rs:57-59 | without a '#' past byte 0 the lexer as written always ends; its tokens are ordered, and only spaces, newlines and `//` comments lie outside them |
| LexerFindings.LateColorNeverEnds | src/lexer.rs:248-250 | seven spaces then "#000000 " make the lexer as written loop whatever the fuel |
| LexerFindings.LateColorIntended | src/lexer.rs:248-250 | the corrected lexer gives that input one colour token [7,14) |
| LexerFindings.NonAsciiNearEndPanics | src/lexer.rs:523 | the two bytes of "é" alone make the lexer as written panic at byte 0 |
| LexerFindings.NonAsciiNearEndIntended | src/lexer.rs:523 | the corrected lexer reports a one-byte non-ASCII error there |
| LexerFindings.IntendedNonAsciiError | src/lexer.rs:517-536 | any non-ASCII byte gives a one-byte non-ASCII error once the panic is settled |
| Text.Find | src/builtins.rs:213 | the first index of the separator, or none exactly when the text lacks it |
| Text.Split | src/builtins.rs:208-219 | cutting at every separator gives at least one piece |
| Text.SplitCount | src/builtins.rs:221-226 | there is one piece more than there are separators |
| Text.SplitPiecesLackSeparator | src/builtins.rs:208-219 | no piece contains the separator |
| Text.JoinSplit | src/builtins.rs:208-219 | joining the pieces with the separator gives back the text |
| Text.SplitJoin | src/builtins.rs:208-219 | splitting a join of separator-free pieces gives back the pieces |
| Builtins.FirstMismatch | src/builtins.rs:30-37 | the first argument whose type differs from the signature, or none exactly when all match |
| Builtins.Validation | src/builtins.rs:21-38 | a wrong count is an arity error with both counts; otherwise validation succeeds exactly when every argument has its expected type, and fails at a mismatching one |
| Builtins.ValidateArgs | src/builtins.rs:21-38 | the validation loop computes the validation outcome |
| Builtins.Fit | src/builtins.rs:40-52 | fit fails with the validation error, or passes its frame and box size to the rest |
| Builtins.Line | src/builtins.rs:97-105 | line fails with the validation error, or passes its length offset to the rest |
| Builtins.FillRectangle | src/builtins.rs:124-132 | fill_rectangle fails with the validation error, or passes its size to the rest |
| Builtins.StrBuiltin | src/builtins.rs:154-166 | str fails with the validation error, or gives the printed plain number |
| Builtins.Glyph | src/builtins.rs:318-326 | glyph fails with the validation error, or passes its index to the rest |
| Builtins.TextAlignOf | src/builtins.rs:258-272 | exactly "left", "center" and "right" select an alignment; anything else is a value error quoting the setting |
| Builtins.TextAlignRoundTrip | src/builtins.rs:258-272 | each alignment is selected by its own name and by no other text |
| Builtins.T | src/builtins.rs:228-272 | t fails first on validation, then on a failed lookup, then on a missing font, then on a bad alignment, and otherwise lays out the text split at newlines |
| Builtins.Image | src/builtins.rs:373-398 | image fails on validation, then rejects any path not ending in ".svg" with a message naming it; only ".svg" paths are opened |
| Builtins.ValidationComesFirst | src/builtins.rs:44 | for each of the seven builtins, when validation fails, what the builtin does afterwards cannot change its result |
| Builtins.ImageGuardComesBeforeOpen | src/builtins.rs:383-386 | a non-svg path is rejected without being opened |
| Builtins.SplitLines | src/builtins.rs:208-219 | the loop's lines are the text cut at every newline, the last piece included |
| Builtins.SplitsTrailingNewline | src/builtins.rs:221-226 | "\nfoo\nbar\n" splits into "", "foo", "bar", "" |
| Ast.ShowBinOp | src/ast.rs:112-122 | an operator prints as one character |
| Ast.BinOpPrintingInjective | src/ast.rs:112-122 | different operators print differently |
| Ast.ShowUnit | src/ast.rs:71-80 | a unit prints as one or two letters |
| Ast.UnitPrintingInjective | src/ast.rs:71-80 | different units print differently |
| Ast.ShowNum | src/ast.rs:61-69 | a number prints its float, followed by its unit when it has one |
| Ast.NoUnitSuffix | src/ast.rs:61-80 | text that does not end in a unit letter reads back as a number without a unit |
| Ast.UnitSuffixAfter | src/ast.rs:61-80 | a unit printed after such text reads back as that unit |
| Ast.NumUnitRoundTrip | src/ast.rs:61-80 | the unit can be read back from the end of a printed number when the float text does not end in a unit letter |
| Ast.Hex | src/ast.rs:84 | lowercase hex without leading zeros, one digit below 16 and at most two below 256 |
| Ast.HexRoundTrip | src/ast.rs:84 | reading the hex digits back gives the number |
| Ast.ShowColor | src/ast.rs:82-86 | a colour prints as '#' and three to six lowercase hex digits |
| Ast.ColorPrintingCollides | src/ast.rs:84 | two different colours both print as "#1234" |
| Ast.ShowColorPadded | src/ast.rs:84 | the corrected printer always gives '#' and six lowercase hex digits |
| Ast.PaddedColorPrintingInjective | src/ast.rs:84 | the corrected printer prints different colours differently |
| Ast.ShowIdents | src/ast.rs:88-98 | a path of one segment prints as that segment |
| Ast.WriteIdents | src/ast.rs:88-98 | the printing loop writes the segments joined by periods |
| Ast.IdentsAreJoined | src/ast.rs:88-98 | a path prints as its segments joined by periods |
| Ast.IdentsRoundTrip | src/ast.rs:88-98 | splitting a printed path at its periods gives back its segments when none contains a period |
| Ast.ShowTerm | src/ast.rs:48-59 | a string term prints verbatim; coordinates and binary terms are wrapped in parentheses |
| Ast.PrintedTermsAreParenthesised | src/ast.rs:100-110 | a printed term has balanced parentheses, and a printed coordinate or binary term is one parenthesised group |
| Ast.JoinParenFree | src/ast.rs:88-98 | a printed path adds no parentheses to its segments |
| AstLexing.PrintedOperatorLexes | src/ast.rs:112-122 | each printed operator lexes as its one operator token |
| AstLexing.PrintedUnitLexes | src/ast.rs:61-80 | digits followed by a printed unit lex as a number token followed by that unit's token |
| AstLexing.PaddedColorLexes | src/ast.rs:84 | a corrected colour print before ')' lexes as one colour token and the parenthesis |
| AstLexing.UnpaddedColorFailsToLex | src/ast.rs:84 | black prints as "#000", which the lexer rejects for lacking hex digits |

## Left out

- Reading files, terminal output and the process exit status are not modelled; the lexer works on a byte sequence that is passed in.
- Floating-point values are opaque bit patterns. Float printing is a function parameter of `Ast.ShowNum`, `Ast.ShowTerm` and `Builtins.StrBuiltin`.
- The text of lexical error messages is not modelled. An error kind plus its byte range stands in for each message.
- The UTF-8 decoding in `make_parse_error`, which only picks the message, is not modelled. Every non-ASCII byte gets the same error kind.
- Integer casts (`as u32` in builtins.rs, `usize` indices) are not modelled. The integers are unbounded, and no realistic input reaches those limits.
- The `assert!` of lex_color (src/lexer.rs:253) is not modelled, because no input reaches it: at i == 7 every branch above it returns.
- The `debug_assert!` of lex_color is a precondition (`Lexer.Entry`) of the colour state.
- The keyword tokens exist in the token type. The lexer never produces them, as `LexerTheory.LexNeverEmitsKeywords` shows.
- Lexer.Lexer.Run: the driver loop carries a fuel bound and returns `OutOfFuel` when the bound is exhausted. The source loops without limit.
- Lexer.Lexed: carries the same fuel bound as `Lexer.Lexer.Run`.
- src/types.rs, src/runtime.rs and src/error.rs are not part of this model. `Values` and `Builtins.Error` stand in for what the builtins use of them.
- After validation, a builtin's work is a function parameter. This covers environment lookups, the font map, FreeType shaping, rsvg image loading, frame and bounding-box construction, and the aspect-ratio arithmetic of `fit`.
- Builtins.Glyph: the check that the glyph index is a whole number is not modelled, because it needs float-to-integer conversion.
- Builtins.Fit: the zero-size check on the box is not modelled, because it compares floats.
- Builtins.T: the per-line typesetting and alignment offsets are float arithmetic and belong to the layout parameter. The colour lookup after layout belongs there too.
- Ast.ShowIdents: the `assert!` that a path is non-empty is the precondition `Ast.WellFormed` / `|parts| > 0`.
- src/elements.rs and src/lib.rs are not part of this model.

## Findings

| source | as written | input that shows it | evidently intended | confidence | as-written member | corrected member |
|---|---|---|---|---|---|---|
| src/lexer.rs:248-250 | a colour ending before a non-hex byte is pushed with end `i` and resumes at `i`, an index relative to the colour's start | seven spaces then "#000000 " (a '#' at byte 7) | end and resume at `start + i`, past the six digits | high; not executed | LexerFindings.LateColorNeverEnds | LexerFindings.IntendedColorScan |
| src/lexer.rs:523 | `&input[..8]` slices eight bytes even when fewer remain | the two bytes 0xc3 0xa9 ("é") | decode at most the bytes that remain and report an error | high; not executed | LexerFindings.NonAsciiNearEndPanics | LexerFindings.Settle |
| src/ast.rs:84 | each channel prints with `{:x}`, without padding to two digits | Color(0x01, 0x23, 0x04) and Color(0x12, 0x03, 0x04) both print "#1234" | `{:02x}` per channel, giving "#rrggbb" | medium; not executed | Ast.ColorPrintingCollides | Ast.ShowColorPadded |

For the first finding, `LexerFindings.IntendedLexTerminates` proves that the
corrected lexer ends with ordered tokens and only layout around them. `LexerFindings.LateColorIntended`
shows the corrected lexer on the same input.

For the second finding, `LexerFindings.IntendedNonAsciiError` and
`LexerFindings.NonAsciiNearEndIntended` state the corrected error.

For the third finding, `Ast.PaddedColorPrintingInjective` and
`AstLexing.PaddedColorLexes` prove the intended property of the padded
printer, and `AstLexing.UnpaddedColorFailsToLex` shows what the unpadded
printer breaks. `Ast.ShowTerm` keeps the printer as written, since printing
is not used by the rest of the model.
