/** Variable substitution over a token vector (src/preproc.rs, `process`).

    Written as the source writes it: at position `index`, a `$`-prefixed
    identifier with a map entry is removed, `index` is decremented, the
    replacement tokens are inserted one by one at `index` (incrementing it
    each time), and the loop's own `index += 1` follows.  The replacement
    therefore lands one place early, in front of the token that preceded
    the variable, and a variable at index 0 underflows the `usize` index.
 */
module Preproc {
  import opened Outcomes
  import opened Text
  import opened Tokens

  /** `Variables` of the source: variable name to replacement tokens. */
  type Variables = map<string, seq<Token>>

  /** A token the splice replaces. */
  predicate Expands(vars: Variables, t: Token) {
    t.Identifier? && StartsWith(t.name, "$") && t.name in vars
  }

  /** Reference reading of the splice, left to right: `done` is what lies
      before the scan position and `rest` what is still to be scanned.  A
      variable replaces itself by its value placed before the last token of
      `done`; with nothing before it, the index underflows (`None`). */
  function Splice(vars: Variables, done: seq<Token>, rest: seq<Token>): Option<seq<Token>>
    decreases |rest|
  {
    if |rest| == 0 then Some(done)
    else if Expands(vars, rest[0]) then
      if |done| == 0 then None
      else Splice(vars, done[..|done| - 1] + vars[rest[0].name] + [done[|done| - 1]], rest[1..])
    else Splice(vars, done + [rest[0]], rest[1..])
  }

  function Expand(vars: Variables, toks: seq<Token>): Option<seq<Token>> {
    Splice(vars, [], toks)
  }

  /** The `for item in val { toks.insert(index, item); index += 1 }` loop:
      `val` ends up at `index`, and `index` just behind it. */
  method InsertAll(toks: seq<Token>, index: nat, val: seq<Token>) returns (out: seq<Token>, next: nat)
    requires index <= |toks|
    ensures out == toks[..index] + val + toks[index..]
    ensures next == index + |val|
  {
    out := toks;
    next := index;
    var k := 0;
    while k < |val|
      invariant 0 <= k <= |val|
      invariant next == index + k
      invariant out == toks[..index] + val[..k] + toks[index..]
    {
      out := out[..next] + [val[k]] + out[next..];
      assert val[..k + 1] == val[..k] + [val[k]];
      next := next + 1;
      k := k + 1;
    }
    assert val[..|val|] == val;
  }

  /** `process`, with the in-place `remove`/`insert` steps on a sequence.
      `None` is the panic of `index -= 1` at index 0. */
  method Process(vars: Variables, toks: seq<Token>) returns (r: Option<seq<Token>>)
    ensures r == Expand(vars, toks)
  {
    var out := toks;
    var index := 0;
    ghost var scanned := 0;
    while index < |out|
      invariant 0 <= index <= |out|
      invariant Expand(vars, toks) == Splice(vars, out[..index], out[index..])
      invariant |out| - index + scanned == |toks|
      decreases |out| - index
    {
      var tok := out[index];
      if tok.Identifier? && StartsWith(tok.name, "$") && tok.name in vars {
        var val := vars[tok.name];
        ghost var done := out[..index];
        ghost var rest := out[index..];
        assert rest[0] == tok && rest[1..] == out[index + 1..];
        out := out[..index] + out[index + 1..];
        if index == 0 {
          return None;
        }
        index := index - 1;
        assert out[..index] == done[..|done| - 1];
        assert out[index..] == [done[|done| - 1]] + rest[1..];
        out, index := InsertAll(out, index, val);
        assert out[..index + 1] == done[..|done| - 1] + val + [done[|done| - 1]];
        assert out[index + 1..] == rest[1..];
      } else {
        assert out[..index + 1] == out[..index] + [out[index]];
        assert out[index..][1..] == out[index + 1..];
      }
      index := index + 1;
      scanned := scanned + 1;
    }
    assert out[..index] == out;
    r := Some(out);
  }

  /* ---------------- properties of the splice ---------------- */

  /** Tokens that are not expandable variables pass through unchanged. */
  lemma {:induction false} SpliceWithoutVariables(vars: Variables, done: seq<Token>, rest: seq<Token>)
    requires forall i :: 0 <= i < |rest| ==> !Expands(vars, rest[i])
    ensures Splice(vars, done, rest) == Some(done + rest)
    decreases |rest|
  {
    if |rest| == 0 {
      assert done + rest == done;
    } else {
      SpliceWithoutVariables(vars, done + [rest[0]], rest[1..]);
      assert done + [rest[0]] + rest[1..] == done + rest;
    }
  }

  /** Non-identifiers, identifiers without `$` and unknown variables are
      left alone: without an expandable token the output is the input. */
  lemma ExpandWithoutVariables(vars: Variables, toks: seq<Token>)
    requires forall i :: 0 <= i < |toks| ==> !Expands(vars, toks[i])
    ensures Expand(vars, toks) == Some(toks)
  {
    SpliceWithoutVariables(vars, [], toks);
    assert [] + toks == toks;
  }

  /** With an empty variable map the output equals the input. */
  lemma ExpandWithEmptyMap(toks: seq<Token>)
    ensures Expand(map[], toks) == Some(toks)
  {
    ExpandWithoutVariables(map[], toks);
  }

  /** Once something lies before the scan position the splice cannot fail. */
  lemma {:induction false} SpliceAfterFirstSucceeds(vars: Variables, done: seq<Token>, rest: seq<Token>)
    requires |done| > 0
    ensures Splice(vars, done, rest).Some?
    decreases |rest|
  {
    if |rest| > 0 {
      if Expands(vars, rest[0]) {
        SpliceAfterFirstSucceeds(vars, done[..|done| - 1] + vars[rest[0].name] + [done[|done| - 1]], rest[1..]);
      } else {
        SpliceAfterFirstSucceeds(vars, done + [rest[0]], rest[1..]);
      }
    }
  }

  /** `process` panics exactly when its very first token is an expandable
      variable: later on the index is always at least one. */
  lemma UnderflowIffFirstExpands(vars: Variables, toks: seq<Token>)
    ensures Expand(vars, toks).None? <==> |toks| > 0 && Expands(vars, toks[0])
  {
    if |toks| > 0 && !Expands(vars, toks[0]) {
      SpliceAfterFirstSucceeds(vars, [toks[0]], toks[1..]);
      assert [] + [toks[0]] == [toks[0]];
    }
  }

  /** How much the variables in `toks` grow the vector: each one removes
      one token and inserts its value. */
  function Growth(vars: Variables, toks: seq<Token>): int
    decreases |toks|
  {
    if |toks| == 0 then 0
    else (if Expands(vars, toks[0]) then |vars[toks[0].name]| - 1 else 0) + Growth(vars, toks[1..])
  }

  lemma {:induction false} SpliceLength(vars: Variables, done: seq<Token>, rest: seq<Token>)
    ensures Splice(vars, done, rest).Some? ==>
              |Splice(vars, done, rest).value| == |done| + |rest| + Growth(vars, rest)
    decreases |rest|
  {
    if |rest| > 0 {
      if Expands(vars, rest[0]) {
        if |done| > 0 {
          SpliceLength(vars, done[..|done| - 1] + vars[rest[0].name] + [done[|done| - 1]], rest[1..]);
        }
      } else {
        SpliceLength(vars, done + [rest[0]], rest[1..]);
      }
    }
  }

  /** Each expansion changes the length by the value's length minus one. */
  lemma ExpandLength(vars: Variables, toks: seq<Token>)
    ensures Expand(vars, toks).Some? ==> |Expand(vars, toks).value| == |toks| + Growth(vars, toks)
  {
    SpliceLength(vars, [], toks);
  }

  /** The replacement lands before the token that preceded the variable:
      `[A, $x, B]` with `$x` bound to `[r]` becomes `[r, A, B]`. */
  lemma SpliceLandsEarly(a: Token, b: Token, r: Token)
    requires !Expands(map["$x" := [r]], a) && !Expands(map["$x" := [r]], b)
    ensures Expand(map["$x" := [r]], [a, Identifier("$x"), b]) == Some([r, a, b])
  {
    var vars := map["$x" := [r]];
    var toks := [a, Identifier("$x"), b];
    assert StartsWith("$x", "$");
    assert Expands(vars, toks[1]);
    assert Splice(vars, [], toks) == Splice(vars, [a], toks[1..]);
    assert [a][..0] + [r] + [a] == [r, a];
    assert Splice(vars, [a], toks[1..]) == Splice(vars, [r, a], toks[2..]);
    assert toks[2..] == [b] && [r, a] + [b] == [r, a, b];
    assert Splice(vars, [r, a], toks[2..]) == Splice(vars, [r, a, b], []);
  }

  /** Inserted tokens are never rescanned, so a variable whose value
      mentions itself is expanded once only. */
  lemma NoRecursiveExpansion(a: Token)
    requires !Expands(map["$x" := [Identifier("$x")]], a)
    ensures Expand(map["$x" := [Identifier("$x")]], [a, Identifier("$x")])
            == Some([Identifier("$x"), a])
  {
    var vars := map["$x" := [Identifier("$x")]];
    var toks := [a, Identifier("$x")];
    assert StartsWith("$x", "$");
    assert Splice(vars, [], toks) == Splice(vars, [a], toks[1..]);
    assert [a][..0] + [Identifier("$x")] + [a] == [Identifier("$x"), a];
    assert Splice(vars, [a], toks[1..]) == Splice(vars, [Identifier("$x"), a], []);
  }

  /* ---------------------------------------------------------------------
     The evidently intended splice: each variable is replaced in place by
     its value, and a variable at the front is no different from any other.
     --------------------------------------------------------------------- */

  /** What a single token becomes. */
  function Replacement(vars: Variables, t: Token): seq<Token> {
    if Expands(vars, t) then vars[t.name] else [t]
  }

  /** Every token replaced in place, left to right. */
  function Substitute(vars: Variables, toks: seq<Token>): seq<Token>
    decreases |toks|
  {
    if |toks| == 0 then [] else Substitute(vars, toks[..|toks| - 1]) + Replacement(vars, toks[|toks| - 1])
  }

  /** Substitution works token by token, so it distributes over
      concatenation: what precedes a variable stays in front of its value. */
  lemma {:induction false} SubstituteAppend(vars: Variables, a: seq<Token>, b: seq<Token>)
    ensures Substitute(vars, a + b) == Substitute(vars, a) + Substitute(vars, b)
    decreases |b|
  {
    if |b| == 0 {
      assert a + b == a;
    } else {
      var n := |b| - 1;
      assert (a + b)[..|a + b| - 1] == a + b[..n];
      assert (a + b)[|a + b| - 1] == b[n];
      SubstituteAppend(vars, a, b[..n]);
    }
  }

  /** Substituting one more token appends its replacement. */
  lemma SubstituteSnoc(vars: Variables, toks: seq<Token>, t: Token)
    ensures Substitute(vars, toks + [t]) == Substitute(vars, toks) + Replacement(vars, t)
  {
    assert (toks + [t])[..|toks|] == toks;
  }

  /** `[A, $x, B]` with `$x` bound to `[r]` becomes `[A, r, B]`, and a
      variable in front is replaced like any other. */
  lemma SubstituteInPlace(vars: Variables, a: Token, x: Token, b: Token)
    requires !Expands(vars, a) && Expands(vars, x) && !Expands(vars, b)
    ensures Substitute(vars, [a, x, b]) == [a] + vars[x.name] + [b]
    ensures Substitute(vars, [x]) == vars[x.name]
  {
    var v := vars[x.name];
    assert Replacement(vars, a) == [a] && Replacement(vars, x) == v && Replacement(vars, b) == [b];
    SubstituteSnoc(vars, [], a);
    assert [] + [a] == [a];
    assert Substitute(vars, [a]) == [a];
    SubstituteSnoc(vars, [a], x);
    assert [a] + [x] == [a, x];
    assert Substitute(vars, [a, x]) == [a] + v;
    SubstituteSnoc(vars, [a, x], b);
    assert [a, x] + [b] == [a, x, b];
    SubstituteSnoc(vars, [], x);
    assert [] + [x] == [x];
  }

  /** The prefix grows by one token's replacement. */
  lemma SubstitutePrefix(vars: Variables, toks: seq<Token>, k: nat)
    requires k < |toks|
    ensures Substitute(vars, toks[..k + 1]) == Substitute(vars, toks[..k]) + Replacement(vars, toks[k])
  {
    assert toks[..k + 1] == toks[..k] + [toks[k]];
    SubstituteSnoc(vars, toks[..k], toks[k]);
  }

  /** One step of the in-place splice: with the first `k` tokens already
      substituted, replacing the token at `index` substitutes `k + 1`. */
  lemma SpliceStep(vars: Variables, toks: seq<Token>, k: nat, out: seq<Token>, index: nat)
    requires k < |toks|
    requires index == |Substitute(vars, toks[..k])|
    requires out == Substitute(vars, toks[..k]) + toks[k..]
    ensures index < |out| && out[index] == toks[k]
    ensures var val := Replacement(vars, toks[k]);
            && out[..index] + val + out[index + 1..] == Substitute(vars, toks[..k + 1]) + toks[k + 1..]
            && index + |val| == |Substitute(vars, toks[..k + 1])|
  {
    var pre := Substitute(vars, toks[..k]);
    var post := toks[k + 1..];
    assert toks[k..] == [toks[k]] + post;
    assert out == pre + [toks[k]] + post;
    assert out[..index] == pre;
    assert out[index + 1..] == post;
    SubstitutePrefix(vars, toks, k);
  }

  /** The splice with the index kept in step: the value is inserted where
      the variable was, and scanning resumes after it. */
  method ProcessInPlace(vars: Variables, toks: seq<Token>) returns (out: seq<Token>)
    ensures out == Substitute(vars, toks)
  {
    out := toks;
    var index := 0;
    ghost var scanned := 0;
    assert toks[..0] == [];
    while index < |out|
      invariant 0 <= scanned <= |toks|
      invariant index == |Substitute(vars, toks[..scanned])|
      invariant out == Substitute(vars, toks[..scanned]) + toks[scanned..]
      decreases |toks| - scanned
    {
      SpliceStep(vars, toks, scanned, out, index);
      var tok := out[index];
      // a variable's value, or the token itself
      var val := Replacement(vars, tok);
      out := out[..index] + val + out[index + 1..];
      index := index + |val|;
      scanned := scanned + 1;
    }
    assert toks[scanned..] == [];
    assert toks[..scanned] == toks;
  }
}
