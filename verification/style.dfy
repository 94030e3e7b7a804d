/** The stylesheet parser of src/asset/style/mod.rs: the property-name
    table, selector rendering, and the token loop of `Asset::file` as a
    pure function of the token vector and the `sassy` flag.

    Opening and reading the file and turning its path into the asset's
    name are left to the caller: the name is a parameter.
 */
module Style {
  import opened Outcomes
  import opened Text
  import opened Tokens
  import opened StyleState
  import BG = Background
  import BackgroundStep
  import Lexer
  import LexerProperties

  /** `Error` of the source; the `std::io::Error` payload of `IOError` is
      not modelled. */
  datatype Error = IOError | SyntaxError | InvalidValue | InvalidProperty | Unknown

  /** A selector and the chain of selectors it is nested in. */
  datatype Selector = Selector(name: string, parent: Option<Selector>)

  /** `Selector::empty()`. */
  const EmptySelector: Selector := Selector("", None)

  datatype Rule = Rule(property: Property, value: Value)

  datatype Asset = Asset(name: string, rules: map<Selector, seq<Rule>>)

  /* ---------------- property names ---------------- */

  /** The name `Property::from_str` accepts for `p`. */
  function PropertyName(p: Property): string {
    match p.sub
    case None => "background"
    case Some(b) =>
      match b
      case Attachment => "background-attachment"
      case BlendMode => "background-blend-mode"
      case Clip => "background-clip"
      case Color => "background-color"
      case Image => "background-image"
      case Origin => "background-origin"
      case Repeat => "background-repeat"
      case Size => "background-size"
  }

  /** `Property::from_str`. */
  function PropertyFromStr(s: string): Outcome<Property, Error> {
    if s == "background" then Ok(Property.Background(None))
    else if s == "background-attachment" then Ok(Property.Background(Some(BG.BackgroundProperty.Attachment)))
    else if s == "background-blend-mode" then Ok(Property.Background(Some(BG.BackgroundProperty.BlendMode)))
    else if s == "background-clip" then Ok(Property.Background(Some(BG.BackgroundProperty.Clip)))
    else if s == "background-color" then Ok(Property.Background(Some(BG.BackgroundProperty.Color)))
    else if s == "background-image" then Ok(Property.Background(Some(BG.BackgroundProperty.Image)))
    else if s == "background-origin" then Ok(Property.Background(Some(BG.BackgroundProperty.Origin)))
    else if s == "background-repeat" then Ok(Property.Background(Some(BG.BackgroundProperty.Repeat)))
    else if s == "background-size" then Ok(Property.Background(Some(BG.BackgroundProperty.Size)))
    else Err(InvalidProperty)
  }

  /** The table is exactly the nine names: each property's name parses
      back to it, whatever parses is the name of what it parsed to, and
      the only error is `InvalidProperty`. */
  lemma PropertyTable(p: Property, s: string)
    ensures PropertyFromStr(PropertyName(p)) == Ok(p)
    ensures PropertyFromStr(s).Ok? ==> PropertyName(PropertyFromStr(s).value) == s
    ensures !PropertyFromStr(s).Ok? ==> PropertyFromStr(s) == Err(InvalidProperty)
  {
    NameParses(p);
    ParsedIsNamed(s);
  }

  lemma NameParses(p: Property)
    ensures PropertyFromStr(PropertyName(p)) == Ok(p)
  {
    match p.sub
    case None =>
    case Some(b) =>
  }

  lemma ParsedIsNamed(s: string)
    ensures PropertyFromStr(s).Ok? ==> PropertyName(PropertyFromStr(s).value) == s
    ensures !PropertyFromStr(s).Ok? ==> PropertyFromStr(s) == Err(InvalidProperty)
  {
  }

  /** The sub-properties' display strings agree with the table only for
      colour and image: `"background" + display` is a known name for those
      two and unknown for the other six, whose display lacks the hyphen. */
  lemma DisplayAgreesOnlyForColorAndImage(b: BG.BackgroundProperty)
    ensures PropertyFromStr("background" + BG.SubpropertyDisplay(b)).Ok?
            <==> b == BG.BackgroundProperty.Color || b == BG.BackgroundProperty.Image
    ensures PropertyFromStr("background" + BG.SubpropertyDisplay(b)).Ok? ==>
              PropertyFromStr("background" + BG.SubpropertyDisplay(b)) == Ok(Property.Background(Some(b)))
  {
    match b
    case Color =>
      assert "background" + "-color" == "background-color";
    case Image =>
      assert "background" + "-image" == "background-image";
    case Attachment =>
      assert ("background" + "attachment")[10] == 'a';
    case BlendMode =>
      assert ("background" + "blend-mode")[10] == 'b';
    case Clip =>
      assert ("background" + "clip")[10] == 'c';
    case Origin =>
      assert ("background" + "origin")[10] == 'o';
    case Repeat =>
      assert ("background" + "repeat")[10] == 'r';
    case Size =>
      assert ("background" + "size")[10] == 's';
  }

  /* ---------------- selector rendering ---------------- */

  /** The loop of `to_string` as written: its guard tests the selector's
      own parent, which never changes, so after the cursor has walked off
      the root the next `unwrap` panics. */
  function ToStringLoopAsWritten(selfHasParent: bool, str: string, cursor: Option<Selector>): Outcome<string, ()>
    decreases cursor
  {
    if !selfHasParent then Ok(str)
    else
      match cursor
      case None => Panic("called `Option::unwrap()` on a `None` value")
      case Some(c) => ToStringLoopAsWritten(selfHasParent, c.name + " " + str, c.parent)
  }

  /** `Selector::to_string` as written. */
  function ToStringAsWritten(sel: Selector): Outcome<string, ()> {
    ToStringLoopAsWritten(sel.parent.Some?, sel.name, sel.parent)
  }

  lemma {:induction false} LoopAsWrittenPanics(str: string, cursor: Option<Selector>)
    ensures ToStringLoopAsWritten(true, str, cursor).Panic?
    decreases cursor
  {
    match cursor
    case None =>
    case Some(c) => LoopAsWrittenPanics(c.name + " " + str, c.parent);
  }

  /** As written, rendering succeeds exactly for parentless selectors, and
      every nested selector panics. */
  lemma ToStringAsWrittenPanicsWhenNested(sel: Selector)
    ensures sel.parent.None? ==> ToStringAsWritten(sel) == Ok(sel.name)
    ensures ToStringAsWritten(sel).Panic? <==> sel.parent.Some?
  {
    if sel.parent.Some? {
      LoopAsWrittenPanics(sel.name, sel.parent);
    }
  }

  /** The names along the chain, outermost first. */
  function Chain(sel: Selector): (r: seq<string>)
    ensures |r| > 0 && r[|r| - 1] == sel.name
    decreases sel
  {
    match sel.parent
    case None => [sel.name]
    case Some(p) => Chain(p) + [sel.name]
  }

  /** The evidently intended `to_string`, which tests the cursor. */
  function SelectorToString(sel: Selector): string
    decreases sel
  {
    match sel.parent
    case None => sel.name
    case Some(p) => SelectorToString(p) + " " + sel.name
  }

  /** A selector renders as its chain of names, outermost first, separated
      by single spaces. */
  lemma {:induction false} SelectorToStringJoinsChain(sel: Selector)
    ensures SelectorToString(sel) == Join(" ", Chain(sel))
    decreases sel
  {
    match sel.parent
    case None =>
    case Some(p) =>
      SelectorToStringJoinsChain(p);
      JoinSnoc(" ", Chain(p), sel.name);
  }

  /** What the cursor still has to prepend. */
  function Pending(cursor: Option<Selector>): string {
    match cursor
    case None => ""
    case Some(c) => SelectorToString(c) + " "
  }

  /** The corrected loop, prepending each ancestor's name and a space. */
  method RenderSelector(sel: Selector) returns (str: string)
    ensures str == Join(" ", Chain(sel))
  {
    str := sel.name;
    var cursor := sel.parent;
    while cursor.Some?
      invariant SelectorToString(sel) == Pending(cursor) + str
      decreases cursor
    {
      var inuse := cursor.value;
      str := inuse.name + " " + str;
      cursor := inuse.parent;
    }
    SelectorToStringJoinsChain(sel);
  }

  /** A descendant selector: as written it panics, as intended it renders
      outermost first. */
  lemma NestedSelectorExample()
    ensures ToStringAsWritten(Selector(".title", Some(Selector(".card", None)))).Panic?
    ensures SelectorToString(Selector(".title", Some(Selector(".card", None)))) == ".card .title"
  {
    ToStringAsWrittenPanicsWhenNested(Selector(".title", Some(Selector(".card", None))));
  }

  /* ---------------- the token loop ---------------- */

  /** The loop's variables: `selector`, `block_indent`, `property` and
      `state` of `Asset::file`. */
  datatype Loop = Loop(selector: Selector, depth: u8, property: Option<Property>, state: ParseState)

  const Initial: Loop := Loop(EmptySelector, 0, None, DefaultState)

  /** The private `parse` of the source: the value step of a property. */
  function ValueStep(state: ParseState, token: Token, property: Property): (r: InnerParseOutput)
    ensures r.0 == state && r.1.None?
  {
    match property
    case Background(b) => BackgroundStep.Parse(state, b, token)
  }

  /** The selector after an identifier `n` when the previous token is
      identifier `i` (if any). */
  function NextSelector(sel: Selector, i: Option<string>, n: string, status: u8): Selector {
    var n' := if status == 2 then ":" + n else n;
    if i.None? then sel
    else if |sel.name| == 0 then sel.(name := i.value)
    else Selector(n', Some(sel))
  }

  /** The part of the loop body below `match token`, for a loop that has
      no property yet.  Branches that `continue` do not record `lastTok`. */
  function Structural(l: Loop, token: Token, sassy: bool): Outcome<Loop, Error> {
    var keep := l.state.(lastTok := token);
    match token
    case Identifier(n) =>
      Ok(l.(selector := NextSelector(l.selector, AsIdentifier(l.state.lastTok), n, l.state.status), state := keep))
    case Indent(k) =>
      if k == NewLine && l.state.status == 0x31 then Err(SyntaxError)
      else
        var status := if k == NewLine then 0x11 else l.state.status;
        if !sassy then Ok(l.(state := l.state.(status := 0x0f)))
        else Ok(l.(state := keep.(status := status)))
    case Other(c) =>
      if c == "{" then
        if sassy then Err(SyntaxError)
        else if l.depth == 255 then Panic("attempt to add with overflow")
        else Ok(l.(depth := l.depth + 1, state := keep))
      else if c == "}" then
        if l.depth == 0 || sassy then Err(SyntaxError)
        else Ok(l.(depth := l.depth - 1, state := keep))
      else if c == ":" then
        if l.state.status == 0x11 then Ok(l.(state := l.state.(status := 2)))
        else
          var ident := AsIdentifier(l.state.lastTok);
          if ident.None? then Ok(l.(state := keep))
          else
            match PropertyFromStr(ident.value)
            case Ok(p) => Ok(l.(property := Some(p), state := keep))
            case Err(e) => Err(e)
            case Panic(why) => Panic(why)
      else Ok(l.(state := keep))
    case _ => Ok(l.(state := keep))
  }

  /** One iteration of the loop: once a property is known every token goes
      to the value step, and status `0x01` becomes `0x31`. */
  function Step(l: Loop, token: Token, sassy: bool): Outcome<Loop, Error> {
    if l.property.Some? then
      var next := ValueStep(l.state, token, l.property.value).0;
      if !next.ok then Err(InvalidValue)
      else Ok(l.(state := if next.status == 0x01 then next.(status := 0x31) else next))
    else Structural(l, token, sassy)
  }

  /** The loop over the remaining tokens. */
  function Run(l: Loop, tokens: seq<Token>, sassy: bool): Outcome<Loop, Error>
    decreases |tokens|
  {
    if |tokens| == 0 then Ok(l)
    else
      match Step(l, tokens[0], sassy)
      case Ok(next) => Run(next, tokens[1..], sassy)
      case Err(e) => Err(e)
      case Panic(why) => Panic(why)
  }

  /** What the loop keeps true: the value step never clears `ok`, and
      before a property is known the status is one of the four values the
      selector phase writes. */
  predicate Invariant(l: Loop) {
    l.state.ok && (l.property.None? ==> l.state.status in {0x01, 0x11, 0x02, 0x0f})
  }

  lemma StepKeepsInvariant(l: Loop, token: Token, sassy: bool)
    requires Invariant(l)
    ensures Step(l, token, sassy).Ok? ==> Invariant(Step(l, token, sassy).value)
    ensures Step(l, token, sassy).Err? ==> Step(l, token, sassy).error in {SyntaxError, InvalidProperty}
    ensures token.Indent? ==> !Step(l, token, sassy).Err?
  {
  }

  lemma {:induction false} RunKeepsInvariant(l: Loop, tokens: seq<Token>, sassy: bool)
    requires Invariant(l)
    ensures Run(l, tokens, sassy).Ok? ==> Invariant(Run(l, tokens, sassy).value)
    ensures Run(l, tokens, sassy).Err? ==> Run(l, tokens, sassy).error in {SyntaxError, InvalidProperty}
    decreases |tokens|
  {
    if |tokens| > 0 {
      StepKeepsInvariant(l, tokens[0], sassy);
      if Step(l, tokens[0], sassy).Ok? {
        RunKeepsInvariant(Step(l, tokens[0], sassy).value, tokens[1..], sassy);
      }
    }
  }

  /** The loop as a method over an index, as `Asset::file` runs it. */
  method RunLoop(tokens: seq<Token>, sassy: bool) returns (r: Outcome<Loop, Error>)
    ensures r == Run(Initial, tokens, sassy)
  {
    var l := Initial;
    var index := 0;
    while index < |tokens|
      invariant 0 <= index <= |tokens|
      invariant Run(Initial, tokens, sassy) == Run(l, tokens[index..], sassy)
    {
      var token := tokens[index];
      assert tokens[index..][0] == token && tokens[index..][1..] == tokens[index + 1..];
      index := index + 1;
      var step := Step(l, token, sassy);
      match step
      case Ok(next) => l := next;
      case Err(e) => return Err(e);
      case Panic(why) => return Panic(why);
    }
    return Ok(l);
  }

  /** `Asset::file` after the tokens are known: the loop's outcome, and on
      success an asset with the given name and no rules. */
  function StyleFile(tokens: seq<Token>, sassy: bool, name: string): (r: Outcome<Asset, Error>)
    ensures r.Ok? <==> Run(Initial, tokens, sassy).Ok?
    ensures r.Ok? ==> r.value == Asset(name, map[])
    ensures r.Err? ==> r.error in {SyntaxError, InvalidProperty}
  {
    RunKeepsInvariant(Initial, tokens, sassy);
    match Run(Initial, tokens, sassy)
    case Ok(_) => Ok(Asset(name, map[]))
    case Err(e) => Err(e)
    case Panic(why) => Panic(why)
  }

  /** The tokens that can make the structural part of the loop fail: a
      brace, a colon, and a newline indent. */
  predicate Harmless(t: Token) {
    && !(t.Other? && (t.text == "{" || t.text == "}" || t.text == ":"))
    && !(t.Indent? && t.kind == NewLine)
  }

  lemma StepHarmless(l: Loop, token: Token, sassy: bool)
    requires Invariant(l) && Harmless(token)
    ensures !Step(l, token, sassy).Err?
  {
  }

  /** Over harmless tokens the loop never fails (it may still panic). */
  lemma {:induction false} RunHarmless(l: Loop, tokens: seq<Token>, sassy: bool)
    requires Invariant(l)
    requires forall i :: 0 <= i < |tokens| ==> Harmless(tokens[i])
    ensures !Run(l, tokens, sassy).Err?
    decreases |tokens|
  {
    if |tokens| > 0 {
      StepHarmless(l, tokens[0], sassy);
      StepKeepsInvariant(l, tokens[0], sassy);
      if Step(l, tokens[0], sassy).Ok? {
        assert forall i :: 0 <= i < |tokens[1..]| ==> tokens[1..][i] == tokens[i + 1];
        RunHarmless(Step(l, tokens[0], sassy).value, tokens[1..], sassy);
      }
    }
  }

  /** The lexer in the stylesheet's modes emits only harmless tokens: its
      indents are never `NewLine`, and each of its `Other` tokens holds a
      dot, so none is a lone brace or colon. */
  lemma LexedTokensHarmless(src: string, sassy: bool)
    ensures Lexer.Tokenize(src, Lexer.Mode(false, sassy)).Ok? ==>
              forall i :: 0 <= i < |Lexer.Tokenize(src, Lexer.Mode(false, sassy)).value| ==>
                Harmless(Lexer.Tokenize(src, Lexer.Mode(false, sassy)).value[i])
  {
    var mode := Lexer.Mode(false, sassy);
    LexerProperties.TokensWellformed(src, mode);
    LexerProperties.LooseOthersHaveDot(src, mode);
    if Lexer.Tokenize(src, mode).Ok? {
      var toks := Lexer.Tokenize(src, mode).value;
      forall i | 0 <= i < |toks|
        ensures Harmless(toks[i])
      {
        assert Lexer.LexerEmits(toks[i]);
        assert toks[i].Other? ==> '.' in toks[i].text;
        assert '.' !in "{" && '.' !in "}" && '.' !in ":";
      }
    }
  }

  lemma LexedRunNeverFails(src: string, sassy: bool)
    ensures Lexer.Tokenize(src, Lexer.Mode(false, sassy)).Ok? ==>
              !Run(Initial, Lexer.Tokenize(src, Lexer.Mode(false, sassy)).value, sassy).Err?
  {
    LexedTokensHarmless(src, sassy);
    if Lexer.Tokenize(src, Lexer.Mode(false, sassy)).Ok? {
      RunHarmless(Initial, Lexer.Tokenize(src, Lexer.Mode(false, sassy)).value, sassy);
    }
  }

  /** `Asset::file` from the source text on.  Both lexer modes of the
      source have `strict_literals: false`, so lexing never rejects and
      `Error::Unknown` cannot be returned; and the tokens the lexer emits
      never trigger the brace, colon or newline rules, so the whole
      pipeline never returns an error at all. */
  function StyleSource(src: string, sassy: bool, name: string): (r: Outcome<Asset, Error>)
    ensures !r.Err?
  {
    LexerProperties.LooseNeverRejects(src, Lexer.Mode(false, sassy));
    LexedRunNeverFails(src, sassy);
    match Lexer.Tokenize(src, Lexer.Mode(false, sassy))
    case Ok(tokens) => StyleFile(tokens, sassy, name)
    case Err(_) => Err(Unknown)
    case Panic(why) => Panic(why)
  }

  /* ---------------- properties of the loop ---------------- */

  /** Braces before a property: `{` is a syntax error in sassy mode and
      otherwise deepens by one (a `u8`, so the 256th level overflows); `}`
      is a syntax error in sassy mode or at depth 0 and otherwise goes up
      one level. */
  lemma BraceRules(l: Loop, sassy: bool)
    requires l.property.None?
    ensures sassy ==> Step(l, Other("{"), sassy) == Err(SyntaxError)
    ensures !sassy && l.depth < 255 ==>
              Step(l, Other("{"), sassy).Ok? && Step(l, Other("{"), sassy).value.depth == l.depth + 1
    ensures !sassy && l.depth == 255 ==> Step(l, Other("{"), sassy).Panic?
    ensures Step(l, Other("}"), sassy).Err? <==> sassy || l.depth == 0
    ensures !sassy && l.depth > 0 ==>
              Step(l, Other("}"), sassy).Ok? && Step(l, Other("}"), sassy).value.depth == l.depth - 1
  {
  }

  /** `:` right after a newline marks a pseudo-selector (status 2) and is
      not recorded; otherwise, after an identifier, it resolves that
      identifier as a property name, and an unknown name is an error. */
  lemma ColonRule(l: Loop, sassy: bool)
    requires l.property.None?
    ensures l.state.status == 0x11 ==>
              Step(l, Other(":"), sassy) == Ok(l.(state := l.state.(status := 2)))
    ensures l.state.status != 0x11 && l.state.lastTok.Identifier? ==>
              match PropertyFromStr(l.state.lastTok.name)
              case Ok(p) => Step(l, Other(":"), sassy).Ok?
                            && Step(l, Other(":"), sassy).value.property == Some(p)
              case _ => Step(l, Other(":"), sassy) == Err(InvalidProperty)
    ensures l.state.status != 0x11 && !l.state.lastTok.Identifier? ==>
              Step(l, Other(":"), sassy) == Ok(l.(state := l.state.(lastTok := Other(":"))))
  {
    if l.state.status != 0x11 && l.state.lastTok.Identifier? {
      PropertyTable(Property.Background(None), l.state.lastTok.name);
    }
  }

  /** An identifier after an identifier: an unnamed selector takes the
      previous identifier's name; a named one becomes the parent of a new
      selector named by the current identifier (with a `:` in front after
      a pseudo-selector colon).  After anything else the selector stays. */
  lemma IdentifierRule(l: Loop, n: string, sassy: bool)
    requires l.property.None?
    ensures Step(l, Identifier(n), sassy).Ok?
    ensures var next := Step(l, Identifier(n), sassy).value;
            && next.state.lastTok == Identifier(n)
            && (!l.state.lastTok.Identifier? ==> next.selector == l.selector)
            && (l.state.lastTok.Identifier? && l.selector.name == "" ==>
                  next.selector == l.selector.(name := l.state.lastTok.name))
            && (l.state.lastTok.Identifier? && l.selector.name != "" ==>
                  next.selector == Selector(if l.state.status == 2 then ":" + n else n, Some(l.selector)))
  {
  }

  /** Once a property is known it is never reset: every further token goes
      to the value step, which leaves the selector, the depth and the
      property alone and cannot fail. */
  lemma {:induction false} PropertyIsSticky(l: Loop, tokens: seq<Token>, sassy: bool)
    requires l.property.Some? && l.state.ok
    ensures Run(l, tokens, sassy).Ok?
    ensures Run(l, tokens, sassy).value.property == l.property
    ensures Run(l, tokens, sassy).value.selector == l.selector
    ensures Run(l, tokens, sassy).value.depth == l.depth
    decreases |tokens|
  {
    if |tokens| > 0 {
      PropertyIsSticky(Step(l, tokens[0], sassy).value, tokens[1..], sassy);
    }
  }

  /** A property found in the middle of the tokens decides the outcome:
      whatever follows, the loop succeeds. */
  lemma {:induction false} PropertyEndsStructure(l: Loop, before: seq<Token>, after: seq<Token>, sassy: bool)
    requires Run(l, before, sassy).Ok? && Run(l, before, sassy).value.property.Some?
    requires Invariant(l)
    ensures Run(l, before + after, sassy).Ok?
    ensures Run(l, before + after, sassy).value.property == Run(l, before, sassy).value.property
    decreases |before|
  {
    RunKeepsInvariant(l, before, sassy);
    if |before| == 0 {
      assert before + after == after;
      PropertyIsSticky(l, after, sassy);
    } else {
      assert (before + after)[0] == before[0];
      assert (before + after)[1..] == before[1..] + after;
      StepKeepsInvariant(l, before[0], sassy);
      PropertyEndsStructure(Step(l, before[0], sassy).value, before[1..], after, sassy);
    }
  }

  function Opens(tokens: seq<Token>): nat {
    if |tokens| == 0 then 0 else (if tokens[0] == Other("{") then 1 else 0) + Opens(tokens[1..])
  }

  function Closes(tokens: seq<Token>): nat {
    if |tokens| == 0 then 0 else (if tokens[0] == Other("}") then 1 else 0) + Closes(tokens[1..])
  }

  /** While no property is known the depth counts the braces seen so far:
      each `{` adds one and each `}` takes one away. */
  lemma {:induction false} DepthCountsBraces(l: Loop, tokens: seq<Token>, sassy: bool)
    requires Run(l, tokens, sassy).Ok? && Run(l, tokens, sassy).value.property.None?
    requires l.state.ok
    ensures Run(l, tokens, sassy).value.depth == l.depth + Opens(tokens) - Closes(tokens)
    decreases |tokens|
  {
    if |tokens| > 0 {
      var next := Step(l, tokens[0], sassy).value;
      if l.property.Some? {
        PropertyIsSticky(l, tokens, sassy);
        assert false;
      }
      assert next.state.ok;
      DepthCountsBraces(next, tokens[1..], sassy);
    }
  }

  /** A loop that starts from the default state fails only with a syntax
      error or an unknown property name: `InvalidValue` is never returned,
      and no newline meets the value status `0x31`. */
  lemma LoopErrors(tokens: seq<Token>, sassy: bool)
    ensures Run(Initial, tokens, sassy).Err? ==>
              Run(Initial, tokens, sassy).error in {SyntaxError, InvalidProperty}
    ensures Run(Initial, tokens, sassy).Ok? && Run(Initial, tokens, sassy).value.property.None? ==>
              Run(Initial, tokens, sassy).value.state.status != 0x31
  {
    RunKeepsInvariant(Initial, tokens, sassy);
  }

  /** A block whose property is found: the closing brace goes to the value
      step, so the depth stays one, and a lone identifier before the brace
      names no selector. */
  lemma BlockExample()
    ensures var tokens := [Identifier("div"), Other("{"), Identifier("background"), Other(":"),
                           Identifier("red"), Other("}")];
            && Run(Initial, tokens, false).Ok?
            && Run(Initial, tokens, false).value.depth == 1
            && Run(Initial, tokens, false).value.property == Some(Property.Background(None))
            && Run(Initial, tokens, false).value.selector == EmptySelector
            && StyleFile(tokens, false, "site.css") == Ok(Asset("site.css", map[]))
  {
    var tokens := [Identifier("div"), Other("{"), Identifier("background"), Other(":"),
                   Identifier("red"), Other("}")];
    var l1 := Initial.(state := Initial.state.(lastTok := Identifier("div")));
    var l2 := l1.(depth := 1, state := l1.state.(lastTok := Other("{")));
    var l3 := l2.(state := l2.state.(lastTok := Identifier("background")));
    var l4 := l3.(property := Some(Property.Background(None)), state := l3.state.(lastTok := Other(":")));
    var l5 := l4.(state := l4.state.(status := 0x31));
    assert Step(Initial, tokens[0], false) == Ok(l1);
    assert Step(l1, tokens[1], false) == Ok(l2);
    assert Step(l2, tokens[2], false) == Ok(l3);
    assert Step(l3, tokens[3], false) == Ok(l4);
    PropertyIsSticky(l4, tokens[4..], false);
    assert Run(Initial, tokens, false) == Run(l1, tokens[1..], false);
    assert Run(l1, tokens[1..], false) == Run(l2, tokens[2..], false);
    assert Run(l2, tokens[2..], false) == Run(l3, tokens[3..], false);
    assert Run(l3, tokens[3..], false) == Run(l4, tokens[4..], false);
  }

  /** An unmatched closing brace is a syntax error, any brace is one in
      sassy mode, and an unknown property name is rejected. */
  lemma RejectionExamples()
    ensures Run(Initial, [Identifier("a"), Other("{"), Other("}"), Other("}")], false) == Err(SyntaxError)
    ensures Run(Initial, [Identifier("a"), Other("{")], true) == Err(SyntaxError)
    ensures Run(Initial, [Identifier("a"), Other("{"), Identifier("foo"), Other(":")], false) == Err(InvalidProperty)
  {
    var l1 := Initial.(state := Initial.state.(lastTok := Identifier("a")));
    var l2 := l1.(depth := 1, state := l1.state.(lastTok := Other("{")));
    var l3 := l2.(depth := 0, state := l2.state.(lastTok := Other("}")));
    var t1 := [Identifier("a"), Other("{"), Other("}"), Other("}")];
    assert Step(Initial, t1[0], false) == Ok(l1);
    assert Step(l1, t1[1], false) == Ok(l2);
    assert Step(l2, t1[2], false) == Ok(l3);
    assert Step(l3, t1[3], false) == Err(SyntaxError);
    assert Run(Initial, t1, false) == Run(l1, t1[1..], false);
    assert Run(l1, t1[1..], false) == Run(l2, t1[2..], false);
    assert Run(l2, t1[2..], false) == Run(l3, t1[3..], false);
    var t2 := [Identifier("a"), Other("{")];
    assert Step(Initial, t2[0], true) == Ok(l1);
    assert Run(Initial, t2, true) == Run(l1, t2[1..], true);
    var t3 := [Identifier("a"), Other("{"), Identifier("foo"), Other(":")];
    var l4 := l2.(state := l2.state.(lastTok := Identifier("foo")));
    assert Step(Initial, t3[0], false) == Ok(l1);
    assert Step(l1, t3[1], false) == Ok(l2);
    assert Step(l2, t3[2], false) == Ok(l4);
    assert PropertyFromStr("foo") == Err(InvalidProperty);
    assert Step(l4, t3[3], false) == Err(InvalidProperty);
    assert Run(Initial, t3, false) == Run(l1, t3[1..], false);
    assert Run(l1, t3[1..], false) == Run(l2, t3[2..], false);
    assert Run(l2, t3[2..], false) == Run(l4, t3[3..], false);
  }
}
