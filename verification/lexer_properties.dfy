/** Whole-input properties of the lexer of src/lex.rs. */
module LexerProperties {
  import opened Outcomes
  import opened Text
  import opened Tokens
  import opened Lexer

  /** Scanning a concatenation is scanning the parts one after the other. */
  lemma {:induction false} ScanAppend(sc: Scanner, a: string, b: string, mode: Mode)
    ensures Scan(sc, a + b, mode) ==
              match Scan(sc, a, mode)
              case Ok(mid) => Scan(mid, b, mode)
              case Err(e) => Err(e)
              case Panic(why) => Panic(why)
    decreases |a|
  {
    if |a| > 0 {
      assert (a + b)[0] == a[0];
      assert (a + b)[1..] == a[1..] + b;
      match Step(sc, a[0], mode)
      case Ok(next) => ScanAppend(next, a[1..], b, mode);
      case Err(_) =>
      case Panic(_) =>
    } else {
      assert a + b == b;
    }
  }

  /** One character off the front of the input. */
  lemma ScanOne(sc: Scanner, c: char, rest: string, mode: Mode, next: Scanner)
    requires Step(sc, c, mode) == Ok(next)
    ensures Scan(sc, [c] + rest, mode) == Scan(next, rest, mode)
  {
    assert ([c] + rest)[0] == c && ([c] + rest)[1..] == rest;
  }

  /* ---------------- single steps ---------------- */

  /** A character whose change is 0 or 255 is appended and nothing else
      happens (outside the character-literal state). */
  lemma StayStep(sc: Scanner, c: char, mode: Mode)
    requires !sc.escaped && c != '\\' && sc.state != 5
    requires Change(sc.state, c, mode) == 0 || Change(sc.state, c, mode) == 255
    ensures Step(sc, c, mode) == Ok(sc.(buffer := sc.buffer + [c]))
  {
    var change := Change(sc.state, c, mode);
    var n := Advance(sc, None, c, change);
    assert n == sc.(buffer := sc.buffer + [c]);
    assert !StrictRejects(n, mode);
    assert Push(sc, c, change, mode) == Ok(n);
  }

  /** A real change out of a non-zero state emits the popped token. */
  lemma MoveStep(sc: Scanner, c: char, mode: Mode, tok: Token)
    requires !sc.escaped && c != '\\'
    requires 0 < Change(sc.state, c, mode) < 255
    requires Pop(sc.state, sc.buffer) == Ok(Some(tok))
    ensures Step(sc, c, mode) ==
              Ok(Scanner(Change(sc.state, c, mode), sc.tokens + [tok],
                         if Change(sc.state, c, mode) in {5, 6} then "" else [c], false))
  {
    var change := Change(sc.state, c, mode);
    var n := Advance(sc, Some(tok), c, change);
    assert !StrictRejects(n, mode);
    assert Push(sc, c, change, mode) == Ok(n);
  }

  /** A real change out of state 0 emits nothing and keeps the buffer. */
  lemma StartStep(sc: Scanner, c: char, mode: Mode)
    requires !sc.escaped && c != '\\' && sc.state == 0
    requires 0 < Change(sc.state, c, mode) < 255
    requires Change(sc.state, c, mode) == 5 ==> ByteLen(sc.buffer) < 2
    ensures Step(sc, c, mode) ==
              Ok(sc.(state := Change(sc.state, c, mode),
                     buffer := sc.buffer + (if Change(sc.state, c, mode) in {5, 6} then "" else [c])))
  {
    var change := Change(sc.state, c, mode);
    var n := Advance(sc, None, c, change);
    assert !StrictRejects(n, mode);
    assert Push(sc, c, change, mode) == Ok(n);
  }

  /* ---------------- escapes ---------------- */

  /** A backslash is dropped and only raises the escape flag; the character
      after it is appended verbatim, with no transition and no token. */
  lemma EscapeAppendsVerbatim(sc: Scanner, c: char, mode: Mode)
    requires !sc.escaped
    ensures Step(sc, '\\', mode) == Ok(sc.(escaped := true))
    ensures Step(sc.(escaped := true), c, mode) == Ok(sc.(buffer := sc.buffer + [c]))
  {
  }

  /* ---------------- loose mode never rejects ---------------- */

  /** Without strict literals no change code is 5, so the character-literal
      state is never entered and nothing can be rejected. */
  lemma LooseStep(sc: Scanner, c: char, mode: Mode)
    requires !mode.strictLiterals && sc.state != 5
    ensures !Step(sc, c, mode).Err?
    ensures Step(sc, c, mode).Ok? ==> Step(sc, c, mode).value.state != 5
  {
    if !sc.escaped && c != '\\' {
      var change := Change(sc.state, c, mode);
      assert change != 5;
    }
  }

  lemma {:induction false} LooseScan(sc: Scanner, rest: string, mode: Mode)
    requires !mode.strictLiterals && sc.state != 5
    ensures !Scan(sc, rest, mode).Err?
    decreases |rest|
  {
    if |rest| > 0 {
      LooseStep(sc, rest[0], mode);
      match Step(sc, rest[0], mode)
      case Ok(next) => LooseScan(next, rest[1..], mode);
      case Panic(_) =>
    }
  }

  /** `Token::parse` in loose mode never answers `None`. */
  lemma LooseNeverRejects(src: string, mode: Mode)
    requires !mode.strictLiterals
    ensures !Tokenize(src, mode).Err?
  {
    LooseScan(Start, src, mode);
  }

  /* ---------------- the indent flag is never read ---------------- */

  lemma {:induction false} IndentFlagIgnoredScan(sc: Scanner, rest: string, strict: bool, a: bool, b: bool)
    ensures Scan(sc, rest, Mode(strict, a)) == Scan(sc, rest, Mode(strict, b))
    decreases |rest|
  {
    if |rest| > 0 {
      assert Change(sc.state, rest[0], Mode(strict, a)) == Change(sc.state, rest[0], Mode(strict, b));
      assert Step(sc, rest[0], Mode(strict, a)) == Step(sc, rest[0], Mode(strict, b));
      match Step(sc, rest[0], Mode(strict, a))
      case Ok(next) => IndentFlagIgnoredScan(next, rest[1..], strict, a, b);
      case Err(_) =>
      case Panic(_) =>
    }
  }

  /** `indent_sensitive` changes nothing: newlines and tabs always go to
      state 8. */
  lemma IndentFlagIgnored(src: string, strict: bool, a: bool, b: bool)
    ensures Tokenize(src, Mode(strict, a)) == Tokenize(src, Mode(strict, b))
  {
    IndentFlagIgnoredScan(Start, src, strict, a, b);
  }

  /* ---------------- what the lexer emits ---------------- */

  predicate Wellformed(sc: Scanner) {
    && sc.state <= 8
    && forall i :: 0 <= i < |sc.tokens| ==> LexerEmits(sc.tokens[i])
  }

  lemma StepWellformed(sc: Scanner, c: char, mode: Mode)
    requires Wellformed(sc)
    ensures Step(sc, c, mode).Ok? ==> Wellformed(Step(sc, c, mode).value)
  {
    if !sc.escaped && c != '\\' {
      var change := Change(sc.state, c, mode);
      assert change <= 8 || change == 255;
      var r := Push(sc, c, change, mode);
      if r.Ok? {
        assert r.value.tokens[..|sc.tokens|] == sc.tokens;
        forall i | 0 <= i < |r.value.tokens|
          ensures LexerEmits(r.value.tokens[i])
        {
          if i < |sc.tokens| {
            assert r.value.tokens[i] == r.value.tokens[..|sc.tokens|][i];
          }
        }
      }
    }
  }

  lemma {:induction false} ScanWellformed(sc: Scanner, rest: string, mode: Mode)
    requires Wellformed(sc)
    ensures Scan(sc, rest, mode).Ok? ==> Wellformed(Scan(sc, rest, mode).value)
    decreases |rest|
  {
    if |rest| > 0 {
      StepWellformed(sc, rest[0], mode);
      match Step(sc, rest[0], mode)
      case Ok(next) => ScanWellformed(next, rest[1..], mode);
      case Err(_) =>
      case Panic(_) =>
    }
  }

  /** The lexer never produces a `NewLine` indent or the `None` sentinel,
      integers are i64 values and float lexemes are ones `f64` accepts. */
  lemma TokensWellformed(src: string, mode: Mode)
    ensures Tokenize(src, mode).Ok? ==>
              forall i :: 0 <= i < |Tokenize(src, mode).value| ==> LexerEmits(Tokenize(src, mode).value[i])
  {
    ScanWellformed(Start, src, mode);
  }

  /* ---------------- where `Other` tokens come from ---------------- */

  /** Without strict literals state 7 is never entered, and state 4 is
      entered only by a dot, so every `Other` token holds a dot. */
  predicate OthersHaveDot(sc: Scanner) {
    && sc.state <= 8 && sc.state != 7
    && (sc.state == 4 ==> '.' in sc.buffer)
    && forall i :: 0 <= i < |sc.tokens| ==> (sc.tokens[i].Other? ==> '.' in sc.tokens[i].text)
  }

  lemma StepKeepsDot(sc: Scanner, c: char, mode: Mode)
    requires !mode.strictLiterals && OthersHaveDot(sc)
    ensures Step(sc, c, mode).Ok? ==> OthersHaveDot(Step(sc, c, mode).value)
  {
    if sc.escaped {
      assert '.' in sc.buffer ==> '.' in sc.buffer + [c];
    } else if c != '\\' {
      var change := Change(sc.state, c, mode);
      assert change != 7 && (change <= 8 || change == 255);
      if change == 0 || change == 255 {
        assert Push(sc, c, change, mode) == Ok(sc.(buffer := sc.buffer + [c]));
        assert '.' in sc.buffer ==> '.' in sc.buffer + [c];
      } else {
        MoveKeepsDot(sc, c, mode);
      }
    }
  }

  /** A real change keeps the invariant: a popped `Other` comes from state
      4, and state 4 is entered by a dot, which starts the new buffer. */
  lemma MoveKeepsDot(sc: Scanner, c: char, mode: Mode)
    requires !mode.strictLiterals && OthersHaveDot(sc)
    requires !sc.escaped && c != '\\' && 0 < Change(sc.state, c, mode) < 255
    ensures Push(sc, c, Change(sc.state, c, mode), mode).Ok? ==>
              OthersHaveDot(Push(sc, c, Change(sc.state, c, mode), mode).value)
  {
    var change := Change(sc.state, c, mode);
    assert change != 7 && change <= 8;
    assert change == 4 ==> c == '.';
    var popped := Pop(sc.state, sc.buffer);
    if popped.Ok? {
      var res := popped.value;
      assert res.Some? && res.value.Other? ==> sc.state == 4 && res.value.text == sc.buffer;
      var next := Advance(sc, res, c, change);
      AdvanceGrows(sc, res, c, change, next);
      assert Push(sc, c, change, mode) == Ok(next);
      assert change == 4 ==> next.buffer[|next.buffer| - 1] == '.';
      forall i | 0 <= i < |next.tokens| && next.tokens[i].Other?
        ensures '.' in next.tokens[i].text
      {
        if i < |sc.tokens| {
          assert next.tokens[i] == next.tokens[..|sc.tokens|][i];
        }
      }
    }
  }


  lemma {:induction false} ScanKeepsDot(sc: Scanner, rest: string, mode: Mode)
    requires !mode.strictLiterals && OthersHaveDot(sc)
    ensures Scan(sc, rest, mode).Ok? ==> OthersHaveDot(Scan(sc, rest, mode).value)
    decreases |rest|
  {
    if |rest| > 0 {
      StepKeepsDot(sc, rest[0], mode);
      match Step(sc, rest[0], mode)
      case Ok(next) => ScanKeepsDot(next, rest[1..], mode);
      case Err(_) =>
      case Panic(_) =>
    }
  }

  /** Without strict literals every `Other` token the lexer emits contains
      a dot: braces, colons and other punctuation never stand alone. */
  lemma LooseOthersHaveDot(src: string, mode: Mode)
    requires !mode.strictLiterals
    ensures Tokenize(src, mode).Ok? ==>
              forall i :: 0 <= i < |Tokenize(src, mode).value| ==>
                (Tokenize(src, mode).value[i].Other? ==> '.' in Tokenize(src, mode).value[i].text)
  {
    ScanKeepsDot(Start, src, mode);
  }

  /* ---------------- runs that stay in one state ---------------- */

  predicate IdentifierChar(c: char) { IsAsciiLetter(c) || IsAsciiDigit(c) }

  /** Characters that a string literal keeps without leaving state 6. */
  predicate PlainStringChar(c: char) {
    c != '.' && c != '\'' && c != '"' && c != '\n' && c != '\t' && c != '\\'
  }

  lemma {:induction false} IdentifierRun(sc: Scanner, run: string, mode: Mode)
    requires sc.state == 2 && !sc.escaped
    requires forall i :: 0 <= i < |run| ==> IdentifierChar(run[i])
    ensures Scan(sc, run, mode) == Ok(sc.(buffer := sc.buffer + run))
    decreases |run|
  {
    if |run| > 0 {
      var next := sc.(buffer := sc.buffer + [run[0]]);
      assert IdentifierChar(run[0]);
      StayStep(sc, run[0], mode);
      assert Scan(sc, run, mode) == Scan(next, run[1..], mode);
      assert forall i :: 0 <= i < |run[1..]| ==> IdentifierChar(run[1..][i]);
      IdentifierRun(next, run[1..], mode);
      assert sc.buffer + [run[0]] + run[1..] == sc.buffer + run;
    } else {
      assert sc.buffer + run == sc.buffer;
    }
  }

  /** The text between the quotes of a string literal that stays one
      literal: plain characters, and backslashes each followed by the
      character they escape. */
  predicate StringBody(s: string)
    decreases |s|
  {
    || |s| == 0
    || (PlainStringChar(s[0]) && StringBody(s[1..]))
    || (s[0] == '\\' && |s| >= 2 && StringBody(s[2..]))
  }

  /** The literal's payload: the backslashes dropped, each escaped
      character standing for itself. */
  function Unescaped(s: string): (r: string)
    requires StringBody(s)
    ensures |r| <= |s|
    decreases |s|
  {
    if |s| == 0 then ""
    else if s[0] == '\\' then [s[1]] + Unescaped(s[2..])
    else [s[0]] + Unescaped(s[1..])
  }

  /** How to write any text as a literal body: plain characters as they
      are, every other character behind a backslash. */
  function Escape(t: string): string
    decreases |t|
  {
    if |t| == 0 then ""
    else (if PlainStringChar(t[0]) then [t[0]] else ['\\', t[0]]) + Escape(t[1..])
  }

  /** `Escape` writes a body that reads back as the original text. */
  lemma {:induction false} EscapeRoundTrip(t: string)
    ensures StringBody(Escape(t)) && Unescaped(Escape(t)) == t
    decreases |t|
  {
    if |t| > 0 {
      EscapeRoundTrip(t[1..]);
      var e := Escape(t);
      var r := Escape(t[1..]);
      if PlainStringChar(t[0]) {
        assert e == [t[0]] + r && e[0] == t[0] && e[1..] == r;
      } else {
        assert e == ['\\', t[0]] + r && e[0] == '\\' && e[1] == t[0] && e[2..] == r;
      }
      assert [t[0]] + t[1..] == t;
    }
  }

  /** Plain text is a body that stands for itself. */
  lemma {:induction false} PlainIsBody(text: string)
    requires forall i :: 0 <= i < |text| ==> PlainStringChar(text[i])
    ensures StringBody(text) && Unescaped(text) == text
    decreases |text|
  {
    if |text| > 0 {
      assert forall i :: 0 <= i < |text[1..]| ==> PlainStringChar(text[1..][i]);
      PlainIsBody(text[1..]);
      assert [text[0]] + text[1..] == text;
    }
  }

  /** A backslash and the character after it append that character. */
  lemma EscapePair(sc: Scanner, c: char, rest: string, mode: Mode)
    requires !sc.escaped
    ensures Scan(sc, ['\\', c] + rest, mode) == Scan(sc.(buffer := sc.buffer + [c]), rest, mode)
  {
    EscapeAppendsVerbatim(sc, c, mode);
    ScanOne(sc, '\\', [c] + rest, mode, sc.(escaped := true));
    ScanOne(sc.(escaped := true), c, rest, mode, sc.(buffer := sc.buffer + [c]));
    assert ['\\', c] + rest == ['\\'] + ([c] + rest);
  }

  /** A plain character inside a string literal is appended. */
  lemma PlainInString(sc: Scanner, c: char, rest: string, mode: Mode)
    requires sc.state == 6 && !sc.escaped && PlainStringChar(c)
    ensures Scan(sc, [c] + rest, mode) == Scan(sc.(buffer := sc.buffer + [c]), rest, mode)
  {
    assert Change(6, c, mode) == 0 || Change(6, c, mode) == 255;
    StayStep(sc, c, mode);
    ScanOne(sc, c, rest, mode, sc.(buffer := sc.buffer + [c]));
  }

  /** The first unit of a body: one plain character, or a backslash and
      the character it escapes. */
  lemma BodyHead(sc: Scanner, text: string, mode: Mode) returns (c: char, k: nat)
    requires sc.state == 6 && !sc.escaped
    requires StringBody(text) && |text| > 0
    ensures 0 < k <= |text| && StringBody(text[k..])
    ensures Unescaped(text) == [c] + Unescaped(text[k..])
    ensures Scan(sc, text, mode) == Scan(sc.(buffer := sc.buffer + [c]), text[k..], mode)
  {
    if text[0] == '\\' {
      c, k := text[1], 2;
      assert text == ['\\', c] + text[2..];
      EscapePair(sc, c, text[2..], mode);
    } else {
      c, k := text[0], 1;
      assert text == [c] + text[1..];
      PlainInString(sc, c, text[1..], mode);
    }
  }

  /** The head of a body and the run over the rest make the run over all of it. */
  lemma BodyChain(sc: Scanner, text: string, c: char, k: nat, mode: Mode)
    requires StringBody(text) && 0 < k <= |text| && StringBody(text[k..])
    requires Unescaped(text) == [c] + Unescaped(text[k..])
    requires Scan(sc, text, mode) == Scan(sc.(buffer := sc.buffer + [c]), text[k..], mode)
    requires Scan(sc.(buffer := sc.buffer + [c]), text[k..], mode)
             == Ok(sc.(buffer := sc.buffer + [c]).(buffer := sc.buffer + [c] + Unescaped(text[k..])))
    ensures Scan(sc, text, mode) == Ok(sc.(buffer := sc.buffer + Unescaped(text)))
  {
    assert sc.buffer + [c] + Unescaped(text[k..]) == sc.buffer + Unescaped(text);
  }

  /** Inside a string literal a body is taken in without a transition:
      plain characters are appended, a backslash is dropped and the
      character after it appended whatever it is. */
  lemma {:induction false} StringBodyRun(sc: Scanner, text: string, mode: Mode)
    requires sc.state == 6 && !sc.escaped
    requires StringBody(text)
    ensures Scan(sc, text, mode) == Ok(sc.(buffer := sc.buffer + Unescaped(text)))
    decreases |text|
  {
    if |text| == 0 {
      assert sc.buffer + Unescaped(text) == sc.buffer;
    } else {
      var c, k := BodyHead(sc, text, mode);
      StringBodyRun(sc.(buffer := sc.buffer + [c]), text[k..], mode);
      BodyChain(sc, text, c, k, mode);
    }
  }

  /** Reading a first letter from the start state opens an identifier. */
  lemma FirstLetter(c: char, mode: Mode)
    requires IsAsciiLetter(c)
    ensures Step(Start, c, mode) == Ok(Scanner(2, [], [c], false))
  {
    assert !IsAsciiDigit(c) && Change(0, c, mode) == 2;
    StartStep(Start, c, mode);
    assert Start.(state := 2, buffer := "" + [c]) == Scanner(2, [], [c], false);
  }

  /** Tokens are emitted only at transitions and the last buffer is
      dropped: a run of letters and digits alone yields no token at all. */
  lemma IdentifierAloneYieldsNothing(src: string, mode: Mode)
    requires |src| > 0 && IsAsciiLetter(src[0])
    requires forall i :: 0 <= i < |src| ==> IdentifierChar(src[i])
    ensures Tokenize(src, mode) == Ok([])
  {
    IdentifierFromStart(src, mode);
  }

  /** A letter-led run of letters and digits from the start state is held
      in the buffer of state 2. */
  lemma IdentifierFromStart(name: string, mode: Mode)
    requires |name| > 0 && IsAsciiLetter(name[0])
    requires forall i :: 0 <= i < |name| ==> IdentifierChar(name[i])
    ensures Scan(Start, name, mode) == Ok(Scanner(2, [], name, false))
  {
    var first := Scanner(2, [], [name[0]], false);
    FirstLetter(name[0], mode);
    IdentifierRun(first, name[1..], mode);
    ScanOne(Start, name[0], name[1..], mode, first);
    assert [name[0]] + name[1..] == name;
  }

  /** From an open string literal, a body and a closing quote emit the
      literal and leave state 6 with an empty buffer. */
  lemma StringToClose(toks: seq<Token>, text: string, mode: Mode)
    requires StringBody(text)
    ensures Scan(Scanner(6, toks, "", false), text + "\"", mode)
            == Ok(Scanner(6, toks + [StrLiteral(Unescaped(text))], "", false))
  {
    var s2 := Scanner(6, toks, "", false);
    StringBodyRun(s2, text, mode);
    var body := Unescaped(text);
    var s3 := Scanner(6, toks, body, false);
    assert s2.buffer + body == body;
    assert s2.(buffer := s2.buffer + body) == s3;
    var s4 := Scanner(6, toks + [StrLiteral(body)], "", false);
    assert Change(6, '"', mode) == 6;
    assert Pop(6, body) == Ok(Some(StrLiteral(body)));
    MoveStep(s3, '"', mode, StrLiteral(body));
    assert Step(s3, '"', mode) == Ok(s4);
    ScanSnoc(s2, text, '"', mode, s3, s4);
    assert text + ['"'] == text + "\"";
  }

  /** A double-quoted body on its own yields exactly one string literal,
      holding the body with its escapes resolved (an escaped quote does
      not end the literal); the closing quote opens a new literal that
      the end of input drops. */
  lemma StringAlone(text: string, mode: Mode)
    requires StringBody(text)
    ensures Tokenize("\"" + text + "\"", mode) == Ok([StrLiteral(Unescaped(text))])
  {
    var s1 := Scanner(6, [], "", false);
    assert Change(0, '"', mode) == 6;
    StartStep(Start, '"', mode);
    assert Start.(state := 6, buffer := "" + "") == s1;
    StringToClose([], text, mode);
    ScanOne(Start, '"', text + "\"", mode, s1);
    assert "\"" + text + "\"" == ['"'] + (text + "\"");
    assert [] + [StrLiteral(Unescaped(text))] == [StrLiteral(Unescaped(text))];
  }

  /** Every text can be written as a string literal: escaped, it lexes
      back to exactly that text. */
  lemma AnyTextIsALiteral(t: string, mode: Mode)
    ensures Tokenize("\"" + Escape(t) + "\"", mode) == Ok([StrLiteral(t)])
  {
    EscapeRoundTrip(t);
    StringAlone(Escape(t), mode);
  }

  /** An escaped double quote stays inside the literal. */
  lemma EscapedQuoteExample()
    ensures Tokenize("\"a\\\"b\"", Loose) == Ok([StrLiteral("a\"b")])
  {
    var body := "a\\\"b";
    assert StringBody(body[3..]) && Unescaped(body[3..]) == "b";
    assert StringBody(body[1..]) && Unescaped(body[1..]) == "\"b";
    assert StringBody(body) && Unescaped(body) == "a\"b";
    StringAlone(body, Loose);
    assert "\"" + body + "\"" == "\"a\\\"b\"";
  }

  /** A string literal is cut short by a dot, a newline, a tab or a single
      quote: the text so far is emitted as a literal and the character
      starts a token of its own kind (a single quote a new literal). */
  lemma StringEndsAt(toks: seq<Token>, text: string, c: char, mode: Mode)
    requires StringBody(text)
    requires c in {'.', '\n', '\t', '\''}
    ensures Change(6, c, mode) == (if c == '.' then 4 else if c == '\'' then (if mode.strictLiterals then 5 else 6) else 8)
    ensures Scan(Scanner(6, toks, "", false), text + [c], mode)
            == Ok(Scanner(Change(6, c, mode), toks + [StrLiteral(Unescaped(text))], if c == '\'' then "" else [c], false))
  {
    var s2 := Scanner(6, toks, "", false);
    StringBodyRun(s2, text, mode);
    var body := Unescaped(text);
    var s3 := Scanner(6, toks, body, false);
    assert s2.buffer + body == body;
    assert s2.(buffer := s2.buffer + body) == s3;
    StringEndStep(toks, body, c, mode);
    ScanSnoc(s2, text, c, mode, s3,
             Scanner(Change(6, c, mode), toks + [StrLiteral(body)], if c == '\'' then "" else [c], false));
  }

  /** The step that ends a string literal early. */
  lemma StringEndStep(toks: seq<Token>, text: string, c: char, mode: Mode)
    requires c in {'.', '\n', '\t', '\''}
    ensures Change(6, c, mode) == (if c == '.' then 4 else if c == '\'' then (if mode.strictLiterals then 5 else 6) else 8)
    ensures Step(Scanner(6, toks, text, false), c, mode)
            == Ok(Scanner(Change(6, c, mode), toks + [StrLiteral(text)], if c == '\'' then "" else [c], false))
  {
    assert Pop(6, text) == Ok(Some(StrLiteral(text)));
    MoveStep(Scanner(6, toks, text, false), c, mode, StrLiteral(text));
  }

  /** One more character after a scan. */
  lemma ScanSnoc(sc: Scanner, a: string, c: char, mode: Mode, mid: Scanner, next: Scanner)
    requires Scan(sc, a, mode) == Ok(mid) && Step(mid, c, mode) == Ok(next)
    ensures Scan(sc, a + [c], mode) == Ok(next)
  {
    ScanOne(mid, c, "", mode, next);
    assert [c] + "" == [c];
    ScanAppend(sc, a, [c], mode);
  }


  /** `"a.b"` is not one literal: the dot splits it into the literal `a`,
      the dot and the identifier `b`, whatever the mode. */
  lemma DotSplitsString(mode: Mode)
    ensures Tokenize("\"a.b\"", mode) == Ok([StrLiteral("a"), Other("."), Identifier("b")])
  {
    UpToDot(mode);
    AfterDot(mode);
    ScanAppend(Start, "\"a.", "b\"", mode);
    assert "\"a." + "b\"" == "\"a.b\"";
  }

  /** Up to the dot of `"a.b"`: the literal `a` is out and the dot is held. */
  lemma UpToDot(mode: Mode)
    ensures Scan(Start, "\"a.", mode) == Ok(Scanner(4, [StrLiteral("a")], ".", false))
  {
    var s1 := Scanner(6, [], "", false);
    assert Change(0, '"', mode) == 6;
    StartStep(Start, '"', mode);
    assert Start.(state := 6, buffer := "" + "") == s1;
    InsideUpToDot(mode);
    ScanOne(Start, '"', "a.", mode, s1);
    assert ['"'] + "a." == "\"a.";
  }

  /** Inside the literal of `"a.b"`, the dot emits `a` and is held. */
  lemma InsideUpToDot(mode: Mode)
    ensures Scan(Scanner(6, [], "", false), "a.", mode) == Ok(Scanner(4, [StrLiteral("a")], ".", false))
  {
    PlainIsBody("a");
    StringEndsAt([], "a", '.', mode);
    assert [] + [StrLiteral("a")] == [StrLiteral("a")];
    assert "a" + ['.'] == "a.";
  }

  /** After the dot of `"a.b"`: the letter closes the dot's token and the
      quote closes the identifier. */
  lemma AfterDot(mode: Mode)
    ensures Scan(Scanner(4, [StrLiteral("a")], ".", false), "b\"", mode)
            == Ok(Scanner(6, [StrLiteral("a"), Other("."), Identifier("b")], "", false))
  {
    var s3 := Scanner(4, [StrLiteral("a")], ".", false);
    var s4 := Scanner(2, [StrLiteral("a"), Other(".")], "b", false);
    var s5 := Scanner(6, [StrLiteral("a"), Other("."), Identifier("b")], "", false);
    DotThenLetter(mode);
    LetterThenQuote(mode);
    ScanOne(s4, '"', "", mode, s5);
    assert ['"'] + "" == "\"";
    ScanOne(s3, 'b', "\"", mode, s4);
    assert ['b'] + "\"" == "b\"";
  }

  lemma DotThenLetter(mode: Mode)
    ensures Step(Scanner(4, [StrLiteral("a")], ".", false), 'b', mode)
            == Ok(Scanner(2, [StrLiteral("a"), Other(".")], "b", false))
  {
    assert Change(4, 'b', mode) == 2;
    assert Pop(4, ".") == Ok(Some(Other(".")));
    MoveStep(Scanner(4, [StrLiteral("a")], ".", false), 'b', mode, Other("."));
    assert [StrLiteral("a")] + [Other(".")] == [StrLiteral("a"), Other(".")];
    assert ['b'] == "b";
  }

  lemma LetterThenQuote(mode: Mode)
    ensures Step(Scanner(2, [StrLiteral("a"), Other(".")], "b", false), '"', mode)
            == Ok(Scanner(6, [StrLiteral("a"), Other("."), Identifier("b")], "", false))
  {
    assert Change(2, '"', mode) == 6;
    assert Pop(2, "b") == Ok(Some(Identifier("b")));
    MoveStep(Scanner(2, [StrLiteral("a"), Other(".")], "b", false), '"', mode, Identifier("b"));
    assert [StrLiteral("a"), Other(".")] + [Identifier("b")] == [StrLiteral("a"), Other("."), Identifier("b")];
  }

  /** An identifier in the buffer, then a quoted literal. */
  lemma IdentifierCloses(name: string, text: string, mode: Mode)
    requires StringBody(text)
    ensures Scan(Scanner(2, [], name, false), "\"" + (text + "\""), mode)
            == Ok(Scanner(6, [Identifier(name), StrLiteral(Unescaped(text))], "", false))
  {
    var s1 := Scanner(2, [], name, false);
    var s2 := Scanner(6, [Identifier(name)], "", false);
    assert Change(2, '"', mode) == 6;
    MoveStep(s1, '"', mode, Identifier(name));
    StringToClose([Identifier(name)], text, mode);
    ScanOne(s1, '"', text + "\"", mode, s2);
    assert [Identifier(name)] + [StrLiteral(Unescaped(text))] == [Identifier(name), StrLiteral(Unescaped(text))];
  }

  /** An identifier followed by a double-quoted literal yields exactly the
      identifier and the literal's text, whatever the mode. */
  lemma IdentifierThenString(name: string, text: string, mode: Mode)
    requires |name| > 0 && IsAsciiLetter(name[0])
    requires forall i :: 0 <= i < |name| ==> IdentifierChar(name[i])
    requires StringBody(text)
    ensures Tokenize(name + "\"" + text + "\"", mode) == Ok([Identifier(name), StrLiteral(Unescaped(text))])
  {
    var rest := "\"" + (text + "\"");
    var full := name + "\"" + text + "\"";
    assert full == name + rest;
    var last := Scanner(6, [Identifier(name), StrLiteral(Unescaped(text))], "", false);
    IdentifierFromStart(name, mode);
    IdentifierCloses(name, text, mode);
    ScanAppend(Start, name, rest, mode);
    assert Scan(Start, full, mode) == Ok(last);
  }

  /** The loose-mode unit test of src/tests/lex.rs. */
  lemma LooseExample()
    ensures Tokenize("hello14641\"hey friend\"", Loose)
            == Ok([Identifier("hello14641"), StrLiteral("hey friend")])
  {
    var name := "hello14641";
    var text := "hey friend";
    ExampleParts(name, text);
    assert name + "\"" + text + "\"" == "hello14641\"hey friend\"";
  }

  /** The unit test's input is an identifier and a plain quoted text. */
  lemma ExampleParts(name: string, text: string)
    requires name == "hello14641" && text == "hey friend"
    ensures Tokenize(name + "\"" + text + "\"", Loose) == Ok([Identifier(name), StrLiteral(text)])
  {
    assert forall i :: 0 <= i < |text| ==> PlainStringChar(text[i]);
    assert forall i :: 0 <= i < |name| ==> IdentifierChar(name[i]);
    PlainIsBody(text);
    IdentifierThenString(name, text, Loose);
  }

  /* ---------------- strict character literals ---------------- */

  /** Opening a character literal in strict mode from the start state. */
  lemma StrictOpen()
    ensures Step(Start, '\'', Strict) == Ok(Scanner(5, [], "", false))
  {
    StartStep(Start, '\'', Strict);
  }

  /** Characters that end a character literal: each makes a real change
      out of state 5. */
  predicate LiteralCloser(c: char) {
    c == '.' || c == '\'' || c == '"' || c == '\n' || c == '\t'
  }

  /** Characters that stay inside a strict character literal: everything
      but a closer and the backslash. */
  predicate LiteralBody(c: char) {
    !LiteralCloser(c) && c != '\\'
  }

  /** An ASCII character that stays inside the literal is held as its one byte. */
  lemma StrictHoldsOne(x: char)
    requires LiteralBody(x) && x as int < 0x80
    ensures Step(Scanner(5, [], "", false), x, Strict) == Ok(Scanner(5, [], [x], false))
  {
    var s1 := Scanner(5, [], "", false);
    assert Change(5, x, Strict) == 0 || Change(5, x, Strict) == 255;
    assert ByteLen([x]) == 1;
    var n := Advance(s1, None, x, Change(5, x, Strict));
    assert n == Scanner(5, [], [x], false);
    assert !StrictRejects(n, Strict);
  }

  /** In strict mode a literal holding one ASCII character `x` yields
      `CharLiteral(x)` when it is closed, by a quote or by any other
      character that changes the state. */
  lemma StrictCharLiteral(x: char, c: char)
    requires LiteralBody(x) && x as int < 0x80
    requires LiteralCloser(c)
    ensures Tokenize(['\'', x, c], Strict) == Ok([CharLiteral(x)])
  {
    StrictOpen();
    var s1 := Scanner(5, [], "", false);
    var s2 := Scanner(5, [], [x], false);
    StrictHoldsOne(x);
    var change := Change(5, c, Strict);
    assert 0 < change < 255 && change != 5;
    assert ByteLen([x]) == 1;
    assert Pop(5, [x]) == Ok(Some(CharLiteral(x)));
    MoveStep(s2, c, Strict, CharLiteral(x));
    var s3 := Scanner(change, [CharLiteral(x)], if change in {5, 6} then "" else [c], false);
    assert Step(s2, c, Strict) == Ok(s3);
    ScanOne(s2, c, [], Strict, s3);
    ScanOne(s1, x, [c], Strict, s2);
    ScanOne(Start, '\'', [x, c], Strict, s1);
    assert ['\''] + ([x] + [c]) == ['\'', x, c];
    assert Scan(Start, ['\'', x, c], Strict) == Ok(s3);
  }

  /** Closing a strict character literal before any character has gone in
      reaches the `unwrap` of the empty buffer's first character. */
  lemma StrictEmptyLiteralPanics(c: char, tail: string)
    requires LiteralCloser(c)
    ensures Tokenize(['\'', c] + tail, Strict).Panic?
  {
    StrictOpen();
    var s1 := Scanner(5, [], "", false);
    assert 0 < Change(5, c, Strict) < 255;
    assert ByteLen("") == 0;
    assert Pop(5, "").Panic?;
    assert Step(s1, c, Strict).Panic?;
    assert Scan(s1, [c] + tail, Strict).Panic? by {
      assert ([c] + tail)[0] == c;
    }
    ScanOne(Start, '\'', [c] + tail, Strict, s1);
    assert ['\''] + ([c] + tail) == ['\'', c] + tail;
  }

  /** In strict mode a second character inside single quotes rejects the
      whole input at once, whatever that character is. */
  lemma StrictRejectsTwoCharacters(x: char, y: char, tail: string)
    requires LiteralBody(x) && x as int < 0x80
    requires LiteralBody(y)
    ensures Tokenize(['\'', x, y] + tail, Strict) == Err(MalformedCharLiteral)
  {
    StrictOpen();
    var s1 := Scanner(5, [], "", false);
    var s2 := Scanner(5, [], [x], false);
    StrictHoldsOne(x);
    SecondCharRejects(x, y);
    ScanStops(s2, y, tail, Strict);
    ScanOne(s1, x, [y] + tail, Strict, s2);
    ScanOne(Start, '\'', [x] + ([y] + tail), Strict, s1);
    assert ['\''] + ([x] + ([y] + tail)) == ['\'', x, y] + tail;
  }

  /** The step that brings a strict character literal to two characters. */
  lemma SecondCharRejects(x: char, y: char)
    requires x as int < 0x80
    requires LiteralBody(y)
    ensures Step(Scanner(5, [], [x], false), y, Strict) == Err(MalformedCharLiteral)
  {
    var s2 := Scanner(5, [], [x], false);
    assert Change(5, y, Strict) == 0 || Change(5, y, Strict) == 255;
    assert ByteLen(s2.buffer + [y]) >= 2 by {
      assert s2.buffer + [y] == [x, y] && [x, y][..1] == [x];
      assert ByteLen([x]) == 1 by { assert [x][..0] == []; }
      assert ByteLen([x, y]) == ByteLen([x]) + Utf8Width(y);
    }
    StrictLongLiteralStep(s2, y);
  }

  /** Inside a strict character literal, a character that keeps the state
      and brings the buffer to two bytes rejects. */
  lemma StrictLongLiteralStep(sc: Scanner, c: char)
    requires sc.state == 5 && !sc.escaped && c != '\\'
    requires Change(5, c, Strict) == 0 || Change(5, c, Strict) == 255
    requires ByteLen(sc.buffer + [c]) >= 2
    ensures Step(sc, c, Strict) == Err(MalformedCharLiteral)
  {
    var n := Advance(sc, None, c, Change(5, c, Strict));
    assert n.buffer == sc.buffer + [c] && n.state == 5;
    assert StrictRejects(n, Strict);
  }

  /** A rejected character ends the scan. */
  lemma ScanStops(sc: Scanner, c: char, rest: string, mode: Mode)
    requires Step(sc, c, mode).Err?
    ensures Scan(sc, [c] + rest, mode) == Err(Step(sc, c, mode).error)
  {
    assert ([c] + rest)[0] == c;
  }

  /** The length checks count UTF-8 bytes, so in strict mode even a single
      non-ASCII character between quotes is rejected. */
  lemma StrictRejectsNonAsciiCharacter(x: char, tail: string)
    requires x as int >= 0x80
    ensures Tokenize(['\'', x] + tail, Strict) == Err(MalformedCharLiteral)
  {
    StrictOpen();
    var s1 := Scanner(5, [], "", false);
    NonAsciiInLiteral(x);
    ScanStops(s1, x, tail, Strict);
    ScanOne(Start, '\'', [x] + tail, Strict, s1);
    assert ['\''] + ([x] + tail) == ['\'', x] + tail;
  }

  /** A non-ASCII character alone already takes two bytes or more. */
  lemma OneWideCharacter(x: char)
    requires x as int >= 0x80
    ensures ByteLen([x]) >= 2
  {
    assert [x][..0] == [];
  }

  /** A non-ASCII character as the first of a strict literal is already
      two bytes long. */
  lemma NonAsciiInLiteral(x: char)
    requires x as int >= 0x80
    ensures Step(Scanner(5, [], "", false), x, Strict) == Err(MalformedCharLiteral)
  {
    var s1 := Scanner(5, [], "", false);
    assert Change(5, x, Strict) == 255 by {
      assert !IsAsciiDigit(x) && !IsAsciiLetter(x);
    }
    OneWideCharacter(x);
    assert s1.buffer + [x] == [x];
    StrictLongLiteralStep(s1, x);
  }

  /* ---------------- numbers ---------------- */

  /** A dot after digits pops them as an integer and starts a decimal
      buffer with the dot, so `1.5` ends as the integer 1 and the float
      lexeme `.5` once something closes it. */
  lemma DecimalSplitsAtDot(mode: Mode)
    ensures Tokenize("1.5\n", mode) == Ok([Integer(1), Float(".5")])
  {
    DecimalPrefix(mode);
    NewlineClosesDecimal(mode);
    ScanSnoc(Start, "1.5", '\n', mode, Scanner(3, [Integer(1)], ".5", false),
             Scanner(8, [Integer(1), Float(".5")], "\n", false));
    assert "1.5" + ['\n'] == "1.5\n";
  }

  /** `1.5` leaves the integer out and the decimal `.5` in the buffer. */
  lemma DecimalPrefix(mode: Mode)
    ensures Scan(Start, "1.5", mode) == Ok(Scanner(3, [Integer(1)], ".5", false))
  {
    var s1 := Scanner(1, [], "1", false);
    var s2 := Scanner(3, [Integer(1)], ".", false);
    var s3 := Scanner(3, [Integer(1)], ".5", false);
    DigitFromStart(mode);
    DotAfterDigit(mode);
    DigitAfterDot(mode);
    ScanOne(s2, '5', "", mode, s3);
    ScanOne(s1, '.', "5", mode, s2);
    ScanOne(Start, '1', ".5", mode, s1);
    assert ['1'] + (['.'] + (['5'] + "")) == "1.5";
  }

  lemma DigitFromStart(mode: Mode)
    ensures Step(Start, '1', mode) == Ok(Scanner(1, [], "1", false))
  {
    assert Change(0, '1', mode) == 1;
    StartStep(Start, '1', mode);
    assert "" + ['1'] == "1";
  }

  lemma DotAfterDigit(mode: Mode)
    ensures Step(Scanner(1, [], "1", false), '.', mode) == Ok(Scanner(3, [Integer(1)], ".", false))
  {
    assert Change(1, '.', mode) == 3;
    assert ParseI64("1") == Some(1) by {
      assert AllDigits("1") && DigitsValue("1") == 1 by { assert "1"[..0] == ""; }
    }
    MoveStep(Scanner(1, [], "1", false), '.', mode, Integer(1));
    assert [] + [Integer(1)] == [Integer(1)];
  }

  lemma DigitAfterDot(mode: Mode)
    ensures Step(Scanner(3, [Integer(1)], ".", false), '5', mode) == Ok(Scanner(3, [Integer(1)], ".5", false))
  {
    assert Change(3, '5', mode) == 0;
    StayStep(Scanner(3, [Integer(1)], ".", false), '5', mode);
    assert "." + ['5'] == ".5";
  }

  lemma NewlineClosesDecimal(mode: Mode)
    ensures Step(Scanner(3, [Integer(1)], ".5", false), '\n', mode)
            == Ok(Scanner(8, [Integer(1), Float(".5")], "\n", false))
  {
    assert Change(3, '\n', mode) == 8;
    F64LexemeAccepts();
    MoveStep(Scanner(3, [Integer(1)], ".5", false), '\n', mode, Float(".5"));
    assert [Integer(1)] + [Float(".5")] == [Integer(1), Float(".5")];
  }

  /** Characters without a class of their own are appended to a number's
      buffer, and the `unwrap` of its parse then panics: `1 a` panics. */
  lemma NumberWithSpacePanics()
    ensures Tokenize("1 a", Loose).Panic?
  {
    var s1 := Scanner(1, [], "1", false);
    assert Change(0, '1', Loose) == 1;
    StartStep(Start, '1', Loose);
    assert Start.(state := 1, buffer := "" + ['1']) == s1;
    var s2 := Scanner(1, [], "1 ", false);
    assert Change(1, ' ', Loose) == 255;
    StayStep(s1, ' ', Loose);
    assert s1.(buffer := s1.buffer + [' ']) == s2;
    UnparsedNumberPanics(s2, 'a');
    ScanOne(s1, ' ', "a", Loose, s2);
    ScanOne(Start, '1', " a", Loose, s1);
    assert "1" + (" " + "a") == "1 a";
  }

  /** The pop of the number buffer `1 ` fails its `unwrap`, so the letter
      that ends the number panics the scan. */
  lemma UnparsedNumberPanics(sc: Scanner, c: char)
    requires sc == Scanner(1, [], "1 ", false)
    requires c == 'a'
    ensures Scan(sc, [c], Loose).Panic?
  {
    assert !IsAsciiDigit("1 "[1]);
    assert ParseI64("1 ") == None;
    assert Pop(1, "1 ").Panic?;
    assert Change(1, c, Loose) == 2;
    assert Push(sc, c, 2, Loose).Panic?;
    assert Step(sc, c, Loose).Panic?;
  }
}
