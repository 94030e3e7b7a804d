/** The one-pass character state machine of src/lex.rs (`Token::parse`).

    The scan state is a byte with nine meaningful values:
      0 undecided, 1 number, 2 identifier, 3 decimal number, 4 undecided dot,
      5 character literal, 6 string literal, 7 reserved, 8 indent.
    A per-character "change" code says where to go next; 0 and 255 mean
    "stay".  Every real change (1..254) first closes the buffer into a token
    (`Pop`), even when the new state equals the old one.
 */
module Lexer {
  import opened Outcomes
  import opened Text
  import opened Tokens

  /** `Mode` of src/lex.rs.  `indentSensitive` is never read by the lexer. */
  datatype Mode = Mode(strictLiterals: bool, indentSensitive: bool)

  const Loose: Mode := Mode(false, false)
  const Strict: Mode := Mode(true, true)

  /** The only way `Token::parse` returns `None`. */
  datatype LexRejection = MalformedCharLiteral

  /* ---------------- transition helpers ---------------- */

  function ProcDigit(state: u8): u8 {
    if 1 <= state <= 3 || 5 <= state <= 6 then 0
    else if state == 4 then 3
    else 1
  }

  function ProcQuote(state: u8, single: bool): u8 {
    if state == 5 then 7
    else if single then 5
    else 6
  }

  function ProcLetter(state: u8): u8 {
    if state == 2 || state == 5 || state == 6 then 0 else 2
  }

  function ProcDot(state: u8): u8 {
    if state == 1 then 3 else 4
  }

  /** The branch-free change for a single quote, computed with the same
      byte arithmetic as the source. */
  function QuoteChange(state: u8, mode: Mode): u8 {
    var s := if mode.strictLiterals then 1 else 0;
    var l := 6 * (1 - s);
    l + ProcQuote(state, true) * s
  }

  /** The change code for a character other than a backslash. */
  function Change(state: u8, c: char, mode: Mode): u8 {
    if IsAsciiDigit(c) then ProcDigit(state)
    else if IsAsciiLetter(c) then ProcLetter(state)
    else if c == '.' then ProcDot(state)
    else if c == '\'' then QuoteChange(state, mode)
    else if c == '\n' || c == '\t' then 8
    else if c == '"' then 6
    else 255
  }

  /** The transition tables are total and only ever name the states that
      digits, letters and dots belong to: none of them answers 5 or 6. */
  lemma TransitionTables(state: u8)
    ensures ProcDigit(state) == 0 <==> state in {1, 2, 3, 5, 6}
    ensures ProcDigit(state) == 3 <==> state == 4
    ensures ProcDigit(state) == 1 <==> state !in {1, 2, 3, 4, 5, 6}
    ensures ProcLetter(state) == 0 <==> state in {2, 5, 6}
    ensures ProcLetter(state) == 2 <==> state !in {2, 5, 6}
    ensures ProcDot(state) == 3 <==> state == 1
    ensures ProcDot(state) == 4 <==> state != 1
  {
  }

  /** A single quote behaves like a double quote in loose mode; in strict
      mode it opens a character literal, or closes one into state 7. */
  lemma QuoteChangeByMode(state: u8, mode: Mode)
    ensures !mode.strictLiterals ==> QuoteChange(state, mode) == 6
    ensures mode.strictLiterals ==> QuoteChange(state, mode) == (if state == 5 then 7 else 5)
  {
  }

  /* ---------------- payload parsing ---------------- */

  /** UTF-8 width of a Unicode scalar value; `String::len` counts bytes. */
  function Utf8Width(c: char): nat {
    if c as int < 0x80 then 1
    else if c as int < 0x800 then 2
    else if c as int < 0x1_0000 then 3
    else 4
  }

  function ByteLen(s: string): (n: nat)
    ensures n >= |s|
  {
    if |s| == 0 then 0 else ByteLen(s[..|s| - 1]) + Utf8Width(s[|s| - 1])
  }

  /** On ASCII text bytes and characters coincide; any other character
      takes more than one byte. */
  lemma {:induction false} ByteLenAscii(s: string)
    ensures ByteLen(s) == |s| <==> forall i :: 0 <= i < |s| ==> s[i] as int < 0x80
    decreases |s|
  {
    if |s| > 0 {
      ByteLenAscii(s[..|s| - 1]);
      var p := s[..|s| - 1];
      assert forall i :: 0 <= i < |p| ==> p[i] == s[i];
    }
  }

  predicate AllDigits(s: string) {
    forall i :: 0 <= i < |s| ==> IsAsciiDigit(s[i])
  }

  function DigitsValue(s: string): nat
    requires AllDigits(s)
  {
    if |s| == 0 then 0
    else DigitsValue(s[..|s| - 1]) * 10 + (s[|s| - 1] as int - '0' as int)
  }

  /** `str::parse::<i64>`: an optional sign, at least one ASCII digit, and a
      value inside the i64 range. */
  function ParseI64(s: string): (r: Option<int>)
    ensures r.Some? ==> I64Min <= r.value <= I64Max
    ensures r.Some? ==> |s| > 0 && (IsAsciiDigit(s[0]) || s[0] == '+' || s[0] == '-')
  {
    if |s| == 0 then None
    else
      var negative := s[0] == '-';
      var digits := if s[0] == '+' || s[0] == '-' then s[1..] else s;
      if |digits| == 0 || !AllDigits(digits) then None
      else
        var v: int := if negative then -(DigitsValue(digits) as int) else DigitsValue(digits);
        if I64Min <= v <= I64Max then Some(v) else None
  }

  /** The decimal digits of `n`, most significant first, without leading zeros. */
  function DecimalDigits(n: nat): (s: string)
    ensures |s| > 0 && AllDigits(s)
    decreases n
  {
    if n < 10 then [('0' as int + n) as char]
    else DecimalDigits(n / 10) + [('0' as int + n % 10) as char]
  }

  /** `i64::to_string`. */
  function ShowI64(v: int): string
    requires I64Min <= v <= I64Max
  {
    if v < 0 then "-" + DecimalDigits(-v) else DecimalDigits(v)
  }

  lemma {:induction false} DigitsValueOfDecimal(n: nat)
    ensures DigitsValue(DecimalDigits(n)) == n
    decreases n
  {
    if n >= 10 {
      DigitsValueOfDecimal(n / 10);
      var s := DecimalDigits(n);
      assert s[..|s| - 1] == DecimalDigits(n / 10);
    }
  }

  /** Parsing inverts rendering on the whole i64 range, and a value that
      only differs in a leading `+` parses to the same integer. */
  lemma ParseI64RoundTrip(v: int)
    requires I64Min <= v <= I64Max
    ensures ParseI64(ShowI64(v)) == Some(v)
    ensures v >= 0 ==> ParseI64("+" + ShowI64(v)) == Some(v)
  {
    if v < 0 {
      ParseSignedDecimal('-', -v);
    } else {
      ParseUnsignedDecimal(v);
      ParseSignedDecimal('+', v);
    }
  }

  lemma ParseUnsignedDecimal(n: nat)
    ensures ParseI64(DecimalDigits(n)) == if n <= I64Max then Some(n) else None
  {
    var s := DecimalDigits(n);
    DigitsValueOfDecimal(n);
    assert IsAsciiDigit(s[0]);
  }

  lemma ParseSignedDecimal(sign: char, n: nat)
    requires sign == '+' || sign == '-'
    ensures var v: int := if sign == '-' then -(n as int) else n as int;
            ParseI64([sign] + DecimalDigits(n)) == if I64Min <= v <= I64Max then Some(v) else None
  {
    var s := DecimalDigits(n);
    DigitsValueOfDecimal(n);
    assert ([sign] + s)[0] == sign;
    assert ([sign] + s)[1..] == s;
  }

  /** A decimal numeral outside the i64 range does not parse, with or
      without a sign. */
  lemma ParseI64OutOfRange(n: nat)
    ensures n > I64Max ==> ParseI64(DecimalDigits(n)) == None && ParseI64("+" + DecimalDigits(n)) == None
    ensures n > -I64Min ==> ParseI64("-" + DecimalDigits(n)) == None
  {
    ParseUnsignedDecimal(n);
    ParseSignedDecimal('+', n);
    ParseSignedDecimal('-', n);
  }

  /** The mantissa of a decimal float: digits with at most one dot and at
      least one digit. */
  predicate IsMantissa(m: string) {
    && (forall i :: 0 <= i < |m| ==> IsAsciiDigit(m[i]) || m[i] == '.')
    && (forall i, j :: 0 <= i < j < |m| && m[i] == '.' ==> m[j] != '.')
    && (exists i :: 0 <= i < |m| && IsAsciiDigit(m[i]))
  }

  /** `e` or `E`, an optional sign, at least one digit. */
  predicate IsExponent(e: string) {
    && |e| >= 2
    && (e[0] == 'e' || e[0] == 'E')
    && var rest := if e[1] == '+' || e[1] == '-' then e[2..] else e[1..];
       |rest| > 0 && AllDigits(rest)
  }

  /** Index of the first `e`/`E`, or `|s|` when there is none. */
  function ExponentStart(s: string): (k: nat)
    ensures k <= |s|
    ensures forall i :: 0 <= i < k ==> s[i] != 'e' && s[i] != 'E'
    ensures k < |s| ==> s[k] == 'e' || s[k] == 'E'
  {
    if |s| == 0 then 0
    else if s[0] == 'e' || s[0] == 'E' then 0
    else 1 + ExponentStart(s[1..])
  }

  /** The strings `str::parse::<f64>` accepts. */
  predicate IsF64Lexeme(s: string) {
    var body := if |s| > 0 && (s[0] == '+' || s[0] == '-') then s[1..] else s;
    || EqualsIgnoreAsciiCase(body, "inf")
    || EqualsIgnoreAsciiCase(body, "infinity")
    || EqualsIgnoreAsciiCase(body, "nan")
    || var k := ExponentStart(body);
       IsMantissa(body[..k]) && (k == |body| || IsExponent(body[k..]))
  }

  /** Like `f64::from_str`, a mantissa needs a digit on one side of its
      dot only, and an exponent or a sign may follow or lead. */
  lemma F64LexemeAccepts()
    ensures IsF64Lexeme(".5") && IsF64Lexeme("1.") && IsF64Lexeme("-inf")
  {
    assert IsF64Lexeme(".5") by {
      assert IsAsciiDigit(".5"[1]) && ExponentStart(".5") == 2 && ".5"[..2] == ".5";
    }
    assert IsF64Lexeme("1.") by {
      assert IsAsciiDigit("1."[0]) && ExponentStart("1.") == 2 && "1."[..2] == "1.";
    }
    assert IsF64Lexeme("-inf") by {
      assert "-inf"[1..] == "inf";
    }
  }

  /** An exponent with a sign follows the mantissa. */
  lemma F64ExponentAccepted()
    ensures IsF64Lexeme("2.5e-3")
  {
    var m := "2.5";
    assert IsMantissa(m) by {
      assert IsAsciiDigit(m[0]) && m[1] == '.' && IsAsciiDigit(m[2]);
    }
    assert IsExponent("e-3") by {
      assert "e-3"[2..] == "3";
    }
    assert ExponentStart("2.5e-3") == 3 by {
      assert "2.5e-3"[1..] == ".5e-3" && ".5e-3"[1..] == "5e-3" && "5e-3"[1..] == "e-3";
    }
    assert "2.5e-3"[..3] == m && "2.5e-3"[3..] == "e-3";
  }

  /** A dot alone, a second dot and an exponent without digits are not
      floats. */
  lemma F64LexemeRejects()
    ensures !IsF64Lexeme(".") && !IsF64Lexeme("1.2.3") && !IsF64Lexeme("1e")
  {
    assert !IsF64Lexeme(".") by {
      assert ExponentStart(".") == 1 && "."[..1] == ".";
    }
    assert !IsF64Lexeme("1.2.3") by {
      assert ExponentStart("1.2.3") == 5 && "1.2.3"[..5] == "1.2.3" && "1.2.3"[1] == '.' && "1.2.3"[3] == '.';
    }
    assert !IsF64Lexeme("1e") by {
      assert ExponentStart("1e") == 1 && "1e"[1..] == "e";
    }
  }

  /* ---------------- pop / push ---------------- */

  /** What the lexer itself can emit: never a `NewLine` indent or the
      parser's sentinel, and numeric payloads that parsed. */
  predicate LexerEmits(t: Token) {
    match t
    case Integer(i) => I64Min <= i <= I64Max
    case Float(f) => IsF64Lexeme(f)
    case Indent(k) => k == Unmarked
    case NoToken => false
    case _ => true
  }

  /** Closes the buffer of `state` into a token.  `Err` is the source's
      `(false, None)`; `Panic` is an `unwrap` that fails. */
  function Pop(state: u8, buf: string): (r: Outcome<Option<Token>, LexRejection>)
    ensures state == 0 ==> r == Ok(None)
    ensures state == 5 && ByteLen(buf) > 1 ==> r == Err(MalformedCharLiteral)
    ensures state == 5 && |buf| == 0 ==> r.Panic?
    ensures state == 5 && ByteLen(buf) == 1 ==> |buf| == 1 && r == Ok(Some(CharLiteral(buf[0])))
    ensures state == 1 ==> (r.Panic? <==> ParseI64(buf).None?)
    ensures state == 1 && ParseI64(buf).Some? ==> r == Ok(Some(Integer(ParseI64(buf).value)))
    ensures state == 2 ==> r == Ok(Some(Identifier(buf)))
    ensures state == 3 ==> (r.Panic? <==> !IsF64Lexeme(buf))
    ensures state == 3 && IsF64Lexeme(buf) ==> r == Ok(Some(Float(buf)))
    ensures state == 6 ==> r == Ok(Some(StrLiteral(buf)))
    ensures state == 8 ==> r == Ok(Some(Indent(Unmarked)))
    ensures state !in {0, 1, 2, 3, 5, 6, 8} ==> r == Ok(Some(Other(buf)))
    ensures r.Err? ==> state == 5
    ensures r.Panic? ==> state in {1, 3, 5}
    ensures r.Ok? && r.value.Some? ==> LexerEmits(r.value.value)
    ensures r.Ok? && state != 0 ==> r.value.Some?
  {
    if state == 0 then Ok(None)
    else if state == 1 then
      match ParseI64(buf)
      case Some(v) => Ok(Some(Integer(v)))
      case None => Panic("called `Result::unwrap()` on an `Err` value (integer)")
    else if state == 2 then Ok(Some(Identifier(buf)))
    else if state == 3 then
      if IsF64Lexeme(buf) then Ok(Some(Float(buf)))
      else Panic("called `Result::unwrap()` on an `Err` value (float)")
    else if state == 5 then
      if ByteLen(buf) > 1 then Err(MalformedCharLiteral)
      else if |buf| == 0 then Panic("called `Option::unwrap()` on a `None` value")
      else Ok(Some(CharLiteral(buf[0])))
    else if state == 6 then Ok(Some(StrLiteral(buf)))
    else if state == 8 then Ok(Some(Indent(Unmarked)))
    else Ok(Some(Other(buf)))
  }

  /** The scanner's whole state between two characters. */
  datatype Scanner = Scanner(state: u8, tokens: seq<Token>, buffer: string, escaped: bool)

  const Start: Scanner := Scanner(0, [], "", false)

  /** The part of `push` after a successful `pop`: adopt the new state,
      record the token and clear the buffer if one came out, and append the
      character unless the change is 5 or 6. */
  function Advance(sc: Scanner, res: Option<Token>, c: char, change: u8): Scanner
  {
    Scanner(if 0 < change < 255 then change else sc.state,
            if res.Some? then sc.tokens + [res.value] else sc.tokens,
            (if res.Some? then "" else sc.buffer) + (if change > 6 || change < 5 then [c] else ""),
            sc.escaped)
  }

  /** What `Advance` does to the scanner: the state moves only on a real
      change, the token list only grows (by exactly the popped token, if
      any), and the buffer either restarts or is kept and extended. */
  lemma AdvanceGrows(sc: Scanner, res: Option<Token>, c: char, change: u8, next: Scanner)
    requires next == Advance(sc, res, c, change)
    ensures 0 < change < 255 ==> next.state == change
    ensures !(0 < change < 255) ==> next.state == sc.state
    ensures next.escaped == sc.escaped
    // the token list only grows, by exactly the popped token if there is one
    ensures |next.tokens| == |sc.tokens| + (if res.Some? then 1 else 0)
    ensures next.tokens[..|sc.tokens|] == sc.tokens
    ensures res.Some? ==> next.tokens[|sc.tokens|] == res.value
    // without a token the buffer is kept and at most extended; with one it restarts
    ensures res.None? ==> |next.buffer| >= |sc.buffer| && next.buffer[..|sc.buffer|] == sc.buffer
    ensures |next.buffer| <= (if res.Some? then 0 else |sc.buffer|) + 1
    // the character lands at the end unless it is a quote that opens a literal
    ensures change != 5 && change != 6 ==> |next.buffer| > 0 && next.buffer[|next.buffer| - 1] == c
    ensures change == 5 || change == 6 ==> |next.buffer| == (if res.Some? then 0 else |sc.buffer|)
  {
  }


  /** The strict-literal check that ends `push`. */
  predicate StrictRejects(sc: Scanner, mode: Mode) {
    mode.strictLiterals && ByteLen(sc.buffer) >= 2 && sc.state == 5
  }

  /** `push`: a real change (1..254) pops the buffer and moves to the new
      state, clearing the buffer only when a token came out (so never out of
      state 0); a change of 0 or 255 keeps the state, the tokens and the
      buffer, and only appends the character. */
  function Push(sc: Scanner, c: char, change: u8, mode: Mode): (r: Outcome<Scanner, LexRejection>)
    ensures (change == 0 || change == 255) ==> !r.Panic?
    ensures (change == 0 || change == 255) && r.Ok? ==>
              r.value == sc.(buffer := sc.buffer + [c])
    ensures 0 < change < 255 && r.Ok? ==> r.value.state == change
    ensures 0 < change < 255 && r.Ok? && sc.state == 0 ==>
              r.value.tokens == sc.tokens && r.value.buffer == sc.buffer + (if change == 5 || change == 6 then "" else [c])
    ensures 0 < change < 255 && r.Ok? && sc.state != 0 ==>
              |r.value.tokens| == |sc.tokens| + 1 && r.value.tokens[..|sc.tokens|] == sc.tokens
              && r.value.buffer == (if change == 5 || change == 6 then "" else [c])
    ensures r.Ok? ==> forall i :: |sc.tokens| <= i < |r.value.tokens| ==> LexerEmits(r.value.tokens[i])
    ensures 0 < change < 255 && sc.state == 5 && ByteLen(sc.buffer) > 1 ==> r == Err(MalformedCharLiteral)
    ensures r.Err? ==> (0 < change < 255 && sc.state == 5)
                       || (mode.strictLiterals && (if 0 < change < 255 then change else sc.state) == 5)
  {
    var popped := if 0 < change < 255 then Pop(sc.state, sc.buffer) else Ok(None);
    match popped
    case Err(e) => Err(e)
    case Panic(why) => Panic(why)
    case Ok(res) =>
      var next := Advance(sc, res, c, change);
      if StrictRejects(next, mode) then Err(MalformedCharLiteral) else Ok(next)
  }

  /** One character of the `for c in src.chars()` loop. */
  function Step(sc: Scanner, c: char, mode: Mode): Outcome<Scanner, LexRejection> {
    if sc.escaped then
      Ok(sc.(buffer := sc.buffer + [c], escaped := false))
    else if c == '\\' then
      // the source's guard `state > 6 && state < 5` can never hold
      if sc.state > 6 && sc.state < 5 then Ok(sc) else Ok(sc.(escaped := true))
    else
      Push(sc, c, Change(sc.state, c, mode), mode)
  }

  function Scan(sc: Scanner, rest: string, mode: Mode): Outcome<Scanner, LexRejection>
    decreases |rest|
  {
    if |rest| == 0 then Ok(sc)
    else
      match Step(sc, rest[0], mode)
      case Ok(next) => Scan(next, rest[1..], mode)
      case Err(e) => Err(e)
      case Panic(why) => Panic(why)
  }

  /** `Token::parse`: `Err` is its `None`.  The buffer still open at the
      end of input is dropped. */
  function Tokenize(src: string, mode: Mode): Outcome<seq<Token>, LexRejection> {
    match Scan(Start, src, mode)
    case Ok(sc) => Ok(sc.tokens)
    case Err(e) => Err(e)
    case Panic(why) => Panic(why)
  }

  /** The loop of `Token::parse`, character by character. */
  method Parse(src: string, mode: Mode) returns (r: Outcome<seq<Token>, LexRejection>)
    ensures r == Tokenize(src, mode)
  {
    var sc := Start;
    var i := 0;
    while i < |src|
      invariant 0 <= i <= |src|
      invariant Scan(Start, src, mode) == Scan(sc, src[i..], mode)
    {
      var next := Step(sc, src[i], mode);
      assert src[i..][0] == src[i] && src[i..][1..] == src[i + 1..];
      match next {
        case Err(e) => return Err(e);
        case Panic(why) => return Panic(why);
        case Ok(s) => sc := s;
      }
      i := i + 1;
    }
    r := Ok(sc.tokens);
  }
}
