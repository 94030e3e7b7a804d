# reblar core in Dafny

A Dafny model of the core of reblar, a Rust toolkit for stylesheets. The model covers five parts:

- **The lexer** (`src/lex.rs`). It is a one-pass character state machine with states 0–8. Each character class gets a change code from `proc_digit`, `proc_letter`, `proc_dot`, `proc_quote` or a fixed code (6 for `"`, 8 for newline and tab, 255 for anything else). On a real change (1..254), `push` pops the buffer into a token.
- **The preprocessor** (`src/preproc.rs`). It splices `$`-variables into a token vector in place.
- **The stylesheet token loop** (`src/asset/style/mod.rs`). This is the loop inside `Asset::file`. It tracks a status byte, a `u8` brace depth, an optional property, the last token and a parent-linked selector chain.
- **The background value pieces** (`src/asset/style/rules/bg.rs`). These are the value types, hue validity, the value-step dispatch, the hand-written gradient renderings and `ConicGradient::from_str`.
- **The CLI letter dispatch** (`src/cli.rs`).

How Rust behaviour is represented:

- Rust panics are kept apart from returned errors. `Outcomes.Outcome` has an `Ok`, an `Err` and a `Panic` arm. Panics include:
  - an `unwrap` on `None`;
  - a failed `parse().unwrap()`;
  - a `u8`/`usize` overflow in a debug build.
- `String::len` is the UTF-8 byte length (`Lexer.ByteLen`).
- `i64` parsing is modelled exactly.
- A float payload is kept as its lexeme, checked against the grammar that `f64::from_str` accepts.
- The renderings of colours and floats are parameters (`fmtColor`, `fmtFloat`), because the source leaves them to derived or library `Display` impls.

Files:

- `outcomes.dfy`: `Outcomes` and `Text`, the shared helpers.
- `tokens.dfy`: `Tokens`.
- `lexer.dfy`: `Lexer`.
- `lexer_properties.dfy`: `LexerProperties`.
- `preproc.dfy`: `Preproc`.
- `background.dfy`: `Background`.
- `style_state.dfy`: `StyleState`, plus `BackgroundStep`, the value step.
- `style.dfy`: `Style`.
- `cli.dfy`: `Cli`.

One token type serves both the lexer and the parser. `src/asset/style/mod.rs` was written against a newer lexer. That lexer has a kinded `Token::Indent(kind)` with a `NewLine` kind, a `Token::None`, and mode fields that `src/lex.rs` does not have. So `Tokens.Token` adds `Indent(kind)` and a `NoToken` sentinel:

- The lexer only emits `Indent(Unmarked)`, which is the payload-less `Indent` of `src/lex.rs`.
- The stylesheet's two lexer modes both have `strict_literals: false`. They map to `Lexer.Mode(false, sassy)`, and the lexer never reads the second field.

## Behaviour of the code

Some consequences of the code as written, each proved in the model:

- **Letters alone.** The buffer still open at end of input is dropped, so a run of letters and digits lexes to no token at all (`LexerProperties.IdentifierAloneYieldsNothing`).
- **Character-literal length.** It is counted in UTF-8 bytes, not characters. So in strict mode a single non-ASCII character between quotes is rejected.
- **Character literals are cut, not only closed.** In strict mode a dot, double quote, newline or tab after the one character ends the literal as a closing quote does: `'a.` gives `CharLiteral('a')` (`LexerProperties.StrictCharLiteral`). Any of these, or a quote, right after the opening quote panics on the empty buffer (`LexerProperties.StrictEmptyLiteralPanics`).
- **Escapes.** A backslash drops itself and appends the next character without a transition, so an escaped quote stays inside a string literal and any text can be written as one (`LexerProperties.StringAlone`, `LexerProperties.AnyTextIsALiteral`).
- **Decimals split at the dot.** A dot after digits pops them as an integer, so `1.5` lexes to `Integer(1)` and the float lexeme `.5` (`LexerProperties.DecimalSplitsAtDot`).
- **Whitespace and punctuation.** There are no per-class whitespace flags:
  - newline and tab always move to state 8;
  - a space is an "other" character that joins the current buffer;
  - other punctuation also joins the buffer rather than becoming a token of its own.
- **String literals end early.** A dot, a newline, a tab or a single quote ends a string literal: `"a.b"` lexes to the literal `a`, the token `.` and the identifier `b` (`LexerProperties.DotSplitsString`, `LexerProperties.StringEndsAt`).
- **Only dotted `Other` tokens.** Outside strict mode every `Other` token holds a dot, so the lexer never emits a lone `{`, `}` or `:` (`LexerProperties.LooseOthersHaveDot`).
- **Variable substitution.** A variable's value is inserted one place early, and a variable in first position underflows the index: `[$x]` panics instead of giving `[red]` (see Findings).
- **Value grammars.** The value step recognises nothing. Every token after a property goes to a stub that returns the state unchanged. So `InvalidValue` is never returned, no rule is ever stored, and a `}` after a property is swallowed by the value step.
- **Stylesheet errors.** Lexing cannot return `None` in the modes the stylesheet uses, so `Error::Unknown` is never returned. The lexer also never emits a lone brace, a colon or a `NewLine` indent, so from a source file the loop never reaches its brace, colon or newline error rules: `Asset::file` never returns an error other than I/O errors (`Style.StyleSource`). The loop's own rules (`Style.BraceRules`, `Style.ColonRule`, `Style.RejectionExamples`) describe it on token sequences given directly.
- **Value-step dispatch.** The source passes the loop's `Option<BackgroundProperty>` where `bg::parse` expects a `BackgroundProperty`, so that call does not type-check as written. The model sends `None` (the `background` shorthand) to `root`; since every routine is a stub, the choice has no observable effect.

## Model

| member | source | states |
|---|---|---|
| Tokens.AsIdentifier | src/lex.rs:25-30 | answers exactly for identifiers, with their text |
| Tokens.AsCharLiteral | src/lex.rs:32-37 | answers exactly for character literals, with their character |
| Tokens.AsStrLiteral | src/lex.rs:38-43 | answers exactly for string literals, with their text |
| Tokens.AsFloat | src/lex.rs:44-49 | answers exactly for floats, with their payload |
| Tokens.AsInteger | src/lex.rs:50-55 | answers exactly for integers, with their value |
| Tokens.AsOther | src/lex.rs:56-61 | answers exactly for other tokens, with their text |
| Tokens.AccessorsPartition | src/lex.rs:25-61 | each payload-carrying token is answered by exactly one accessor, indents by none |
| Tokens.Eq | src/lex.rs:114-152 | `PartialEq for Token`, each arm asking `self` for the variant of `other`; Tokens.EqIsStructural and Tokens.EqIsEquivalence state what it is |
| Tokens.IndentAsWrittenNeverReturns | src/lex.rs:31 | `indent` and the `Indent` arm of `eq` call each other forever: no amount of stack makes `indent` return |
| Tokens.EqIsStructural | src/lex.rs:114-152 | with `indent` corrected, variant-wise equality is structural equality (indents of any kind compare equal) |
| Tokens.EqIsEquivalence | src/lex.rs:114-152 | hence equality is reflexive, symmetric and transitive |
| Lexer.TransitionTables | src/lex.rs:155-190 | the three tables in full: digits give 0 in states 1–3 and 5–6, 3 in state 4, 1 otherwise; letters give 0 in 2, 5, 6 and 2 otherwise; dots give 3 in state 1 and 4 otherwise |
| Lexer.QuoteChangeByMode | src/lex.rs:94-101 | a single quote changes to 6 in loose mode, like a double quote; in strict mode to 7 in state 5 and to 5 elsewhere |
| Lexer.ByteLenAscii | src/lex.rs:200 | the length test counts bytes: it equals the character count exactly on ASCII text |
| Lexer.ParseI64 | src/lex.rs:196 | a parsed integer is within the i64 range and the text starts with a sign or a digit |
| Lexer.ParseI64RoundTrip | src/lex.rs:196 | every i64 value renders to a numeral that parses back to it, also behind a `+` |
| Lexer.ParseI64OutOfRange | src/lex.rs:196 | a numeral beyond the i64 range, signed or not, does not parse (and the integer `unwrap` then panics) |
| Lexer.IsF64Lexeme | src/lex.rs:198 | the texts the float `unwrap` accepts; Lexer.F64LexemeAccepts, Lexer.F64ExponentAccepted and Lexer.F64LexemeRejects state its cases |
| Lexer.F64LexemeAccepts | src/lex.rs:198 | `.5`, `1.` and `-inf` are floats: a digit on one side of the dot is enough, and the infinities take a sign |
| Lexer.F64ExponentAccepted | src/lex.rs:198 | `2.5e-3` is a float: a signed exponent may follow the mantissa |
| Lexer.F64LexemeRejects | src/lex.rs:198 | `.`, `1.2.3` and `1e` are not floats, so a decimal buffer holding them panics when popped |
| Lexer.Pop | src/lex.rs:193-206 | the token of each state: none for 0, the parsed `Integer` for 1 (panicking exactly when the text is not an i64), `Identifier(buffer)` for 2, `Float` for 3 (panicking exactly when the text is not an `f64`), `CharLiteral` of the one byte for 5 (failing above one byte, panicking when empty), `StrLiteral(buffer)` for 6, an indent for 8 and `Other(buffer)` for every other state |
| Lexer.AdvanceGrows | src/lex.rs:214-222 | after a pop the state moves only on a real change; the token list only grows, by exactly the popped token, which comes last; without a token the old buffer stays a prefix of the new one; the character ends the buffer unless it opens a literal (change 5 or 6) |
| Lexer.Push | src/lex.rs:210-224 | changes 0 and 255 only append; a real change out of state 0 keeps tokens and buffer; out of any other state it appends exactly one token; the only rejections are a long character literal and the strict check |
| Lexer.Step | src/lex.rs:79-108 | one character of the loop; its behaviour is stated by StayStep, MoveStep, StartStep and EscapeAppendsVerbatim below |
| Lexer.Scan | src/lex.rs:78-109 | the loop over the remaining characters, stopping at the first rejection or panic; LexerProperties.ScanAppend: scanning a concatenation scans the parts in turn |
| Lexer.Tokenize | src/lex.rs:62-111 | `Token::parse` as a function; LexerProperties.LooseNeverRejects and LexerProperties.TokensWellformed state what it returns |
| Lexer.Parse | src/lex.rs:62-111 | the character loop computes the token vector of the whole input, `Err` being the source's `None` |
| LexerProperties.StayStep | src/lex.rs:210-222 | a character with change 0 or 255 is appended and nothing else changes |
| LexerProperties.MoveStep | src/lex.rs:210-222 | a real change out of a non-zero state emits the popped token and restarts the buffer with the character (empty for either quote, whichever mode) |
| LexerProperties.StartStep | src/lex.rs:210-222 | a real change out of state 0 emits nothing and keeps the buffer |
| LexerProperties.EscapeAppendsVerbatim | src/lex.rs:79-90 | a backslash is dropped and sets the escape flag; the next character is appended verbatim with no transition; the guard `state > 6 && state < 5` never fires |
| LexerProperties.LooseNeverRejects | src/lex.rs:94-108 | without strict literals the lexer never answers `None` |
| LexerProperties.IndentFlagIgnored | src/lex.rs:14-17 | the `indent_sensitive` flag never changes the result |
| LexerProperties.TokensWellformed | src/lex.rs:193-206 | every emitted token is one the lexer can build: i64 integers, `f64`-parsable float lexemes, payload-less indents, never the sentinel |
| LexerProperties.IdentifierAloneYieldsNothing | src/lex.rs:78-110 | the last buffer is dropped, so letters and digits alone yield no token |
| LexerProperties.IdentifierThenString | src/lex.rs:78-110 | an identifier then a double-quoted body yields exactly the identifier and the body's literal, escapes resolved, in any mode |
| LexerProperties.StringAlone | src/lex.rs:79-105 | a double-quoted body (no unescaped dot, quote, newline or tab; every backslash followed by a character) lexes to exactly one string literal, with each escaped character standing for itself, in any mode |
| LexerProperties.EscapeRoundTrip | src/lex.rs:79-90 | writing every character that would end a literal behind a backslash gives a body that reads back as the original text |
| LexerProperties.AnyTextIsALiteral | src/lex.rs:79-105 | every text, escaped, lexes back to exactly one string literal holding it |
| LexerProperties.EscapedQuoteExample | src/lex.rs:79-90 | an escaped double quote stays inside the literal: `"a\"b"` lexes to the literal `a"b` |
| LexerProperties.StringEndsAt | src/lex.rs:93-104 | inside a string literal an unescaped dot, newline, tab or single quote emits the body so far as a literal and moves to the dot, indent or quote state |
| LexerProperties.DotSplitsString | src/lex.rs:93 | `"a.b"` lexes to the literal `a`, `Other(".")` and the identifier `b` |
| LexerProperties.LooseOthersHaveDot | src/lex.rs:193-206 | without strict literals every `Other` token the lexer emits contains a dot |
| LexerProperties.LooseExample | src/tests/lex.rs:4-12 | `hello14641"hey friend"` lexes loosely to the identifier and the string literal |
| LexerProperties.DecimalSplitsAtDot | src/lex.rs:93-98 | a dot after digits pops them as an integer: `1.5` followed by a newline lexes to `Integer(1)` and the float lexeme `.5` |
| LexerProperties.StrictCharLiteral | src/lex.rs:199-202 | in strict mode a literal holding one ASCII character other than a backslash, dot, quote, newline or tab yields exactly `CharLiteral` of it, whether it is closed by a single quote or cut by a dot, double quote, newline or tab |
| LexerProperties.StrictEmptyLiteralPanics | src/lex.rs:199-201 | in strict mode a quote, dot, double quote, newline or tab right after the opening quote reaches the `unwrap` of an empty buffer and panics |
| LexerProperties.StrictRejectsTwoCharacters | src/lex.rs:223 | in strict mode, after one ASCII character inside single quotes, any second character that neither ends the literal nor is a backslash rejects the input at once |
| LexerProperties.StrictRejectsNonAsciiCharacter | src/lex.rs:223 | a non-ASCII character inside single quotes takes two or more bytes and is rejected in strict mode |
| LexerProperties.NumberWithSpacePanics | src/lex.rs:196 | "other" characters join a number's buffer, so `1 a` panics in the integer `unwrap` |
| Preproc.Splice | src/preproc.rs:8-24 | the left-to-right reading of the loop; Preproc.Process computes it and the lemmas below state its effect |
| Preproc.Process | src/preproc.rs:6-27 | the in-place loop with its index arithmetic computes the left-to-right splice (failing on the index-0 underflow) |
| Preproc.InsertAll | src/preproc.rs:16-19 | the insert loop puts the value, in order, at the index and leaves the index just after it |
| Preproc.ExpandWithoutVariables | src/preproc.rs:11-13 | tokens that are not `$`-identifiers with a map entry pass through unchanged |
| Preproc.ExpandWithEmptyMap | src/preproc.rs:12-13 | with an empty map the output equals the input |
| Preproc.UnderflowIffFirstExpands | src/preproc.rs:15 | the splice fails exactly when the very first token is an expandable variable |
| Preproc.ExpandLength | src/preproc.rs:14-19 | each expansion changes the length by the value's length minus one |
| Preproc.SpliceLandsEarly | src/preproc.rs:15-18 | `[A, $x, B]` with `$x` bound to `[r]` becomes `[r, A, B]` |
| Preproc.NoRecursiveExpansion | src/preproc.rs:16-19 | inserted tokens are not rescanned: a self-referencing variable expands once |
| Preproc.Substitute | src/preproc.rs:6-27 | the corrected splice, each token replaced in place; partnered with Preproc.ProcessInPlace and the lemmas below |
| Preproc.SubstituteAppend | src/preproc.rs:6-27 | the corrected splice works token by token and distributes over concatenation |
| Preproc.SubstituteInPlace | src/preproc.rs:14-19 | corrected, `[A, $x, B]` becomes `[A, r, B]` and a leading variable is replaced like any other |
| Preproc.ProcessInPlace | src/preproc.rs:6-27 | the in-place loop with the index kept in step computes the corrected splice |
| Background.HueBoundary | src/asset/style/rules/bg.rs:164-171 | 0 and 360 are valid hues, 361 and 400 are not |
| Background.HueValid | src/asset/style/rules/bg.rs:167-171 | `IsValid for Hue`; Background.HueValidIsFullTurn states which hues pass |
| Background.HueValidIsFullTurn | src/asset/style/rules/bg.rs:167-171 | the valid hues are exactly those below 361: every smaller hue than a valid one is valid, every larger one than an invalid one is not |
| Background.DirectionRoundTrip | src/asset/style/rules/bg.rs:31-41 | a direction renders as its lower-case name and parses back; only those names parse |
| Background.PositionRendering | src/asset/style/rules/bg.rs:147-163 | keyword positions render as names that parse back; numeric ones as the number and a unit, the nine units being distinct |
| Background.ShowLinear | src/asset/style/rules/bg.rs:93-105 | `Display for LinearGradient`; Background.LinearRendering states its output |
| Background.LinearRendering | src/asset/style/rules/bg.rs:93-105 | `linear-gradient(` + directions + every colour in declared order, joined by `", "`, + `)` |
| Background.ShowRadial | src/asset/style/rules/bg.rs:121-139 | `Display for RadialGradient`; Background.RadialRendering and Background.RadialEmptyFirstColor state its output |
| Background.RadialRendering | src/asset/style/rules/bg.rs:121-139 | the name reflects `repeats`; colours are joined by `", "` with no leading separator; `elipsis`, `position` and `size` are not rendered |
| Background.RadialEmptyFirstColor | src/asset/style/rules/bg.rs:130-137 | a first colour that renders empty swallows the next colour's separator |
| Background.ShowConicAsWritten | src/asset/style/rules/bg.rs:54-70 | `Display for ConicGradient` as written; Background.ConicAsWrittenUnclosed states its output |
| Background.ShowConic | src/asset/style/rules/bg.rs:54-70 | the same with the closing `)`; Background.ConicRendering states its output |
| Background.ConicAsWrittenUnclosed | src/asset/style/rules/bg.rs:54-70 | as written every conic gradient renders ending in `}` |
| Background.ConicRendering | src/asset/style/rules/bg.rs:54-70 | corrected: `conic-gradient(`, the angle, the position behind `", "` only after an angle, `)`, in each of the four cases; colours are never rendered |
| Background.ConicFromStr | src/asset/style/rules/bg.rs:72-87 | `ConicGradient::from_str`; Background.ConicFromStrNeverParses states its result |
| Background.ConicFromStrNeverParses | src/asset/style/rules/bg.rs:72-87 | parsing always fails: "expected keyword" without the prefix, "unknown error" with it, including on any rendered gradient |
| Background.ShowImage | src/asset/style/rules/bg.rs:245-255 | the derived `Display for BackgroundImage`, delegating to each gradient's own rendering as written; Background.ImageRenderingIsCall states its output |
| Background.ImageRenderingIsCall | src/asset/style/rules/bg.rs:245-255 | every image renders as its function name and `(`; a URL as `url(...)`; URLs, linear and radial gradients end in `)`, while conic gradients end in `}` as their own rendering does |
| BackgroundStep.RoutineFor | src/asset/style/rules/bg.rs:300-311 | attachment, blend mode and image go to their own routines; every other sub-property goes to `root`, and so does the shorthand (a choice of the model, see above) |
| BackgroundStep.Parse | src/asset/style/rules/bg.rs:300-343 | whatever the sub-property and the token, the value step returns the state unchanged and no value |
| Style.ValueStep | src/asset/style/mod.rs:206-210 | the value step dispatches on the property and, like every background routine, returns the state unchanged and no value |
| Style.PropertyFromStr | src/asset/style/mod.rs:85-101 | `Property::from_str`; Style.PropertyTable states the table |
| Style.PropertyTable | src/asset/style/mod.rs:85-101 | exactly the nine names parse, each to its property and back; anything else is `InvalidProperty` |
| Style.DisplayAgreesOnlyForColorAndImage | src/asset/style/rules/bg.rs:268-286 | `"background"` + a sub-property's display string is a known name only for colour and image |
| Style.ToStringAsWritten | src/asset/style/mod.rs:73-83 | `Selector::to_string` as written; Style.ToStringAsWrittenPanicsWhenNested states its outcome |
| Style.SelectorToString | src/asset/style/mod.rs:73-83 | the corrected rendering; Style.SelectorToStringJoinsChain and Style.RenderSelector state it |
| Style.ToStringAsWrittenPanicsWhenNested | src/asset/style/mod.rs:73-83 | as written a parentless selector renders as its name and every nested selector panics |
| Style.SelectorToStringJoinsChain | src/asset/style/mod.rs:73-83 | corrected, a selector renders as its chain of names, outermost first, joined by single spaces |
| Style.RenderSelector | src/asset/style/mod.rs:75-82 | the corrected loop, which tests the cursor, yields the space-joined chain |
| Style.NestedSelectorExample | src/asset/style/mod.rs:73-83 | `.title` under `.card`: as written it panics, corrected it renders `.card .title` |
| Style.Structural | src/asset/style/mod.rs:149-200 | the token match of the loop body; Style.BraceRules, Style.ColonRule and Style.IdentifierRule state its arms |
| Style.Step | src/asset/style/mod.rs:140-200 | one iteration: the value step once a property is known, the token match before; Style.StepKeepsInvariant and Style.PropertyIsSticky state it |
| Style.Run | src/asset/style/mod.rs:139-201 | the loop over the remaining tokens; Style.RunLoop computes it and Style.RunKeepsInvariant states what it keeps |
| Style.StepKeepsInvariant | src/asset/style/mod.rs:142-200 | one iteration keeps `ok` true and the status among 0x01, 0x11, 0x02, 0x0f while no property is known; it fails only with `SyntaxError` or `InvalidProperty`; an indent never fails |
| Style.RunKeepsInvariant | src/asset/style/mod.rs:139-201 | the same over any run of tokens |
| Style.RunLoop | src/asset/style/mod.rs:137-201 | the index loop computes the token-by-token run |
| Style.StyleFile | src/asset/style/mod.rs:131-202 | succeeds exactly when the loop does, with the given name and an empty rule map; fails only with `SyntaxError` or `InvalidProperty` |
| Style.RunHarmless | src/asset/style/mod.rs:139-201 | over tokens that are neither a lone brace, a colon nor a `NewLine` indent, the loop never returns an error |
| Style.LexedTokensHarmless | src/asset/style/mod.rs:123-130 | the tokens the lexer emits in both stylesheet modes are all of that kind |
| Style.StyleSource | src/asset/style/mod.rs:123-202 | from the source text `Asset::file` never returns an error: lexing never rejects, so no `Unknown`, and the loop never fails on lexed tokens |
| Style.BraceRules | src/asset/style/mod.rs:179-186 | `{` is an error in sassy mode and otherwise deepens by one (overflowing at 255); `}` is an error in sassy mode or at depth 0 and otherwise goes up one |
| Style.ColonRule | src/asset/style/mod.rs:187-195 | `:` at status 0x11 sets status 2 without recording the token; after an identifier it resolves the property or fails with `InvalidProperty`; otherwise it is only recorded |
| Style.IdentifierRule | src/asset/style/mod.rs:150-166 | after an identifier, an unnamed selector takes that name, a named one becomes the parent of a selector named by the current identifier (with `:` after status 2); otherwise the selector stays |
| Style.PropertyIsSticky | src/asset/style/mod.rs:142-148 | once a property is known, every later token goes to the value step, which cannot fail and keeps selector, depth and property |
| Style.PropertyEndsStructure | src/asset/style/mod.rs:134-148 | after a property has been found, no suffix of tokens can make the loop fail |
| Style.DepthCountsBraces | src/asset/style/mod.rs:179-186 | while no property is known, the depth is the start depth plus opening minus closing braces |
| Style.LoopErrors | src/asset/style/mod.rs:145-174 | from the default state `InvalidValue` is never returned and the status 0x31 that a newline rejects is never seen |
| Style.BlockExample | src/asset/style/mod.rs:139-201 | `div { background : red }` succeeds with depth 1, the shorthand property, an unnamed selector and no rules |
| Style.RejectionExamples | src/asset/style/mod.rs:179-193 | an unmatched `}` and any brace in sassy mode are syntax errors; `foo:` is an invalid property |
| Cli.CommandIndex | src/cli.rs:13-14 | a lower-case letter's offset from `a` lies inside the 26-entry table and recovers the letter |
| Cli.RunBuild | src/cli.rs:21-23 | `build` succeeds whatever its arguments |
| Cli.ProcessCommand | src/cli.rs:5-23 | the result is `Ok(())` exactly for `b`; every other character gives "Invalid command"; nothing panics |

## Left out

- File I/O in `Asset::file`: opening, reading, and turning the path into a name. The name is a parameter of `Style.StyleFile`.
- `IOError` has no payload: `std::io::Error` is not modelled.
- The numeric value of floats. A float token keeps its lexeme, so two floats are equal only when their lexemes are. The model does not cover `1.0 == 1.00`, NaN inequality, or the `f64` value itself.
- `Saturation` and `Lightness` validity (`<= 100.0` on `f64`): they are floating-point checks.
- Colour and float rendering (the derived `Display` of `Color` and `f64::to_string`). They are the parameters `fmtColor` and `fmtFloat`.
- `parse_display`-derived `FromStr` impls, beyond the keyword display strings modelled here: the macro crate is not part of this model.
- `RadialGradient::from_str`: its body is empty and does not compile.
- The derived `Display` of `BackgroundPosition` and `BackgroundSize` (src/asset/style/rules/bg.rs:42-47 and 236-244): format strings over the position rendering, which `Background.PositionRendering` covers; the model uses neither.
- `src/asset/style/bg.rs`, `src/asset/style.rs`, the media codecs, the trait and module declarations, `main`, and the stylesheet tests over files that are not part of this model. They carry no logic of the core.
- The `strict` lexer test: it expects `Indent(NewLine)` and a tab inside a string literal, and neither matches `src/lex.rs`.
- Release-build wrap-around. `u8`/`usize` overflow is modelled as the debug-build panic.
- Background.RadialRendering: states the plain join only when no colour renders empty, because an empty first colour changes the separators (shown separately by Background.RadialEmptyFirstColor).

## Findings

| source | as written | input that shows it | evidently intended | confidence | as-written member | corrected member |
|---|---|---|---|---|---|---|
| src/lex.rs:31 | `indent` tests `*self == Self::Indent`, and the `Indent` arm of `eq` calls `indent` again | any call of `Token::indent`, or any comparison against `Token::Indent` | a variant test that returns whether the token is an indent | high; not executed | Tokens.IndentAsWrittenNeverReturns | Tokens.EqIsStructural |
| src/asset/style/mod.rs:77 | the loop guard tests `self.parent`, which never changes, instead of the cursor | selector `.title` whose parent is `.card`: the second iteration unwraps `None` | walk the cursor until it is `None`, rendering `.card .title` | high; not executed | Style.ToStringAsWrittenPanicsWhenNested | Style.SelectorToStringJoinsChain |
| src/asset/style/rules/bg.rs:69 | the rendering closes with `}` | a conic gradient with no angle and no position renders `conic-gradient(}` | close with `)` | high; not executed | Background.ConicAsWrittenUnclosed | Background.ConicRendering |
| src/preproc.rs:15 | `index -= 1` runs before the inserts | `[A, $x, B]` with `$x` bound to `[r]` gives `[r, A, B]`; `[$x]` underflows the index | replace the variable in place: `[A, r, B]`, and `[$x]` gives `[r]` | medium; not executed | Preproc.SpliceLandsEarly | Preproc.SubstituteInPlace |
