/** The lexer's `Token` (src/lex.rs) with its accessors and its hand-written
    variant-wise equality.

    The stylesheet parser (src/asset/style/mod.rs) was written against a
    newer token type that has a kinded `Indent(kind)` and a `None` sentinel.
    Both are included here so that one token type serves the lexer and the
    parser: `Indent(Unmarked)` is the payload-less `Indent` that src/lex.rs
    emits, `Indent(NewLine)` and `NoToken` only ever come from elsewhere.
 */
module Tokens {
  import opened Outcomes

  datatype IndentKind = NewLine | Unmarked

  /** Floating-point payloads are kept as their lexeme (the characters the
      lexer accepted); their numeric value is not modelled. */
  datatype Token =
    | Identifier(name: string)     // `Identifior` in the source
    | Integer(ival: int)           // always within i64 when built by the lexer
    | Float(lexeme: string)        // `Floater(f64)` in the source
    | StrLiteral(str: string)
    | CharLiteral(chr: char)
    | Indent(kind: IndentKind)
    | Other(text: string)
    | NoToken                      // `Token::None` of the stylesheet parser

  function AsIdentifier(t: Token): (r: Option<string>)
    ensures r.Some? <==> t.Identifier?
    ensures r.Some? ==> Identifier(r.value) == t
  {
    match t
    case Identifier(s) => Some(s)
    case _ => None
  }

  function AsCharLiteral(t: Token): (r: Option<char>)
    ensures r.Some? <==> t.CharLiteral?
    ensures r.Some? ==> CharLiteral(r.value) == t
  {
    match t
    case CharLiteral(c) => Some(c)
    case _ => None
  }

  function AsStrLiteral(t: Token): (r: Option<string>)
    ensures r.Some? <==> t.StrLiteral?
    ensures r.Some? ==> StrLiteral(r.value) == t
  {
    match t
    case StrLiteral(s) => Some(s)
    case _ => None
  }

  function AsFloat(t: Token): (r: Option<string>)
    ensures r.Some? <==> t.Float?
    ensures r.Some? ==> Float(r.value) == t
  {
    match t
    case Float(f) => Some(f)
    case _ => None
  }

  function AsInteger(t: Token): (r: Option<int>)
    ensures r.Some? <==> t.Integer?
    ensures r.Some? ==> Integer(r.value) == t
  {
    match t
    case Integer(i) => Some(i)
    case _ => None
  }

  function AsOther(t: Token): (r: Option<string>)
    ensures r.Some? <==> t.Other?
    ensures r.Some? ==> Other(r.value) == t
  {
    match t
    case Other(s) => Some(s)
    case _ => None
  }

  /** The number of payload accessors that answer `Some` for `t`. */
  function AnsweringAccessors(t: Token): nat {
    (if AsIdentifier(t).Some? then 1 else 0)
    + (if AsCharLiteral(t).Some? then 1 else 0)
    + (if AsStrLiteral(t).Some? then 1 else 0)
    + (if AsFloat(t).Some? then 1 else 0)
    + (if AsInteger(t).Some? then 1 else 0)
    + (if AsOther(t).Some? then 1 else 0)
  }

  /** Every payload-carrying token is seen by exactly one accessor, and the
      payload-less ones by none. */
  lemma AccessorsPartition(t: Token)
    ensures AnsweringAccessors(t) == (if t.Indent? || t.NoToken? then 0 else 1)
  {
  }

  /* ---------------------------------------------------------------------
     `Token::indent` as written: `*self == Self::Indent`, and the `Indent`
     arm of `PartialEq::eq` answers with `self.indent()`.  The two call each
     other forever.  `fuel` bounds the number of calls; `None` means the
     call chain has not returned yet.
     --------------------------------------------------------------------- */

  function IndentAsWritten(t: Token, fuel: nat): Option<bool>
    decreases fuel, 0
  {
    if fuel == 0 then None else EqAsWritten(t, Indent(Unmarked), fuel - 1)
  }

  function EqAsWritten(self: Token, other: Token, fuel: nat): Option<bool>
    decreases fuel, 1
  {
    match other
    case Indent(_) => IndentAsWritten(self, fuel)
    case _ => Some(Eq(self, other))
  }

  /** However much stack it is given, `Token::indent` never returns. */
  lemma {:induction false} IndentAsWrittenNeverReturns(t: Token, fuel: nat)
    ensures IndentAsWritten(t, fuel) == None
    decreases fuel
  {
    if fuel > 0 {
      IndentAsWrittenNeverReturns(t, fuel - 1);
    }
  }

  /** The evidently intended `Token::indent`. */
  predicate IsIndent(t: Token) {
    t.Indent?
  }

  /** `PartialEq for Token`, matching on `other` and asking `self` for the
      same variant's payload; the `Indent` arm uses the corrected `IsIndent`.
      The `NoToken` arm is not in the source (the variant is not either). */
  predicate Eq(self: Token, other: Token) {
    match other
    case Identifier(n) => AsIdentifier(self) == Some(n)
    case CharLiteral(c) => AsCharLiteral(self) == Some(c)
    case Float(f) => AsFloat(self) == Some(f)
    case Integer(i) => AsInteger(self) == Some(i)
    case StrLiteral(s) => AsStrLiteral(self) == Some(s)
    case Other(s) => AsOther(self) == Some(s)
    case Indent(_) => IsIndent(self)
    case NoToken => self.NoToken?
  }

  /** Variant-wise equality is structural equality, except that indents of
      different kinds compare equal (the source's `Indent` has no kind). */
  lemma EqIsStructural(a: Token, b: Token)
    ensures Eq(a, b) <==> (a == b || (a.Indent? && b.Indent?))
  {
  }

  /** Hence `Eq` is an equivalence relation. */
  lemma EqIsEquivalence(a: Token, b: Token, c: Token)
    ensures Eq(a, a)
    ensures Eq(a, b) ==> Eq(b, a)
    ensures Eq(a, b) && Eq(b, c) ==> Eq(a, c)
  {
    EqIsStructural(a, a);
    EqIsStructural(a, b);
    EqIsStructural(b, a);
    EqIsStructural(b, c);
    EqIsStructural(a, c);
  }
}
