/**
 * The grammar of src/parser/grammar.rs as a relation between token sequences and trees, read
 * straight off its left-recursive productions and semantic actions, and the proof that the
 * precedence-climbing parser of `Grammar` computes exactly that relation: a token stream
 * parses to a tree iff the productions derive that tree from it. Since the parser is a
 * function, the grammar is unambiguous.
 */
module Derivations {
  import opened Results
  import opened Values
  import opened Ops
  import opened Exprs
  import opened ParameterNames
  import opened Lexer
  import opened Grammar

  /** `(Value ",")* Value?`, the inside of `Array<Value>`, with the values it denotes in order. */
  ghost predicate ArrayBody(ts: seq<Token>, vs: seq<Value>)
    decreases |ts|
  {
    if ts == [] then vs == []
    else
      IsValueToken(ts[0]) && ValueOf(ts[0]).Ok? && |vs| > 0 && vs[0] == ValueOf(ts[0]).value &&
      (|ts| == 1 ==> |vs| == 1) &&
      (|ts| > 1 ==> ts[1] == Fixed(",") && ArrayBody(ts[2..], vs[1..]))
  }

  /**
   * The productions of level `k` derive the tree `e` from exactly the tokens `ts`. Level 0 is
   * `Term`; a level above is either the level below or itself, an operator of the level and
   * the level below (left recursion).
   */
  ghost predicate Derives(k: nat, ts: seq<Token>, e: Expr)
    requires k <= ExprLevel
    decreases |ts|, k, 1
  {
    if k == 0 then
      (|ts| == 1 && IsValueToken(ts[0]) && ValueOf(ts[0]).Ok? && e == Literal(ValueOf(ts[0]).value)) ||
      (|ts| == 1 && ts[0].IdentLit? && e == Identifier(ParameterName(ts[0].text))) ||
      (|ts| >= 2 && ts[0] == Fixed("(") && ts[|ts| - 1] == Fixed(")") && Derives(ExprLevel, ts[1..|ts| - 1], e)) ||
      (|ts| >= 2 && ts[0] == Fixed("[") && ts[|ts| - 1] == Fixed("]") &&
       e.Literal? && e.value.Array? && ArrayBody(ts[1..|ts| - 1], e.value.elems))
    else
      Derives(k - 1, ts, e) ||
      (e.BinOp? && exists i :: SplitsAt(k, ts, e, i))
  }

  /** `ts` derives the node `e` at level `k` with its operator token at index `i`. */
  ghost predicate SplitsAt(k: nat, ts: seq<Token>, e: Expr, i: int)
    requires 1 <= k <= ExprLevel && e.BinOp?
    decreases |ts|, k, 0
  {
    0 < i < |ts| - 1 && LevelOp(k, ts[i]) == Some(e.op) &&
    Derives(k, ts[..i], e.left) && Derives(k - 1, ts[i + 1..], e.right)
  }

  // ---------------------------------------------------------------------------------------
  // Soundness: what the parser returns is derived
  // ---------------------------------------------------------------------------------------

  lemma {:induction false} ArraySound(toks: seq<Token>, pos: nat, acc: seq<Value>)
    requires pos <= |toks| && ParseArray(toks, pos, acc).Ok?
    ensures var r := ParseArray(toks, pos, acc).value;
      toks[r.1 - 1] == Fixed("]") && |acc| <= |r.0| && r.0[..|acc|] == acc &&
      ArrayBody(toks[pos..r.1 - 1], r.0[|acc|..])
    decreases |toks| - pos
  {
    var r := ParseArray(toks, pos, acc).value;
    if pos < |toks| && toks[pos] == Fixed("]") {
      assert toks[pos..r.1 - 1] == [];
    } else {
      var v := ValueOf(toks[pos]).value;
      var ts := toks[pos..r.1 - 1];
      if toks[pos + 1] == Fixed(",") {
        ArraySound(toks, pos + 2, acc + [v]);
        assert ts[2..] == toks[pos + 2..r.1 - 1];
        assert r.0[|acc|..][1..] == r.0[|acc| + 1..];
        assert r.0[..|acc|] == (acc + [v])[..|acc|];
      } else {
        assert ts == [toks[pos]];
        assert r.0[|acc|..] == [v];
      }
    }
  }

  lemma {:induction false} TermSound(toks: seq<Token>, pos: nat)
    requires pos <= |toks| && ParseTerm(toks, pos).Ok?
    ensures Derives(0, toks[pos..ParseTerm(toks, pos).value.1], ParseTerm(toks, pos).value.0)
    decreases |toks| - pos, 0, 0
  {
    var r := ParseTerm(toks, pos).value;
    var ts := toks[pos..r.1];
    if IsValueToken(toks[pos]) {
      assert ts == [toks[pos]];
    } else if toks[pos].IdentLit? {
      assert ts == [toks[pos]];
    } else if toks[pos] == Fixed("(") {
      LevelSound(ExprLevel, toks, pos + 1);
      assert ts[1..|ts| - 1] == toks[pos + 1..r.1 - 1];
    } else {
      TermSoundArray(toks, pos);
    }
  }

  /** The array case of `TermSound`: `[`, then an array body the productions derive. */
  lemma TermSoundArray(toks: seq<Token>, pos: nat)
    requires pos < |toks| && toks[pos] == Fixed("[") && ParseTerm(toks, pos).Ok?
    ensures Derives(0, toks[pos..ParseTerm(toks, pos).value.1], ParseTerm(toks, pos).value.0)
  {
    assert !IsValueToken(toks[pos]) && !toks[pos].IdentLit? && toks[pos] != Fixed("(");
    var a := ParseArray(toks, pos + 1, []).value;
    assert ParseTerm(toks, pos).value == (Literal(Array(a.0)), a.1);
    ArraySound(toks, pos + 1, []);
    assert a.0[0..] == a.0;
    var ts := toks[pos..a.1];
    assert ts[1..|ts| - 1] == toks[pos + 1..a.1 - 1];
    assert |ts| >= 2 && ts[0] == Fixed("[") && ts[|ts| - 1] == Fixed("]") && ArrayBody(ts[1..|ts| - 1], a.0);
  }

  lemma {:induction false} LevelSound(k: nat, toks: seq<Token>, pos: nat)
    requires k <= ExprLevel && pos <= |toks| && ParseLevel(k, toks, pos).Ok?
    ensures Derives(k, toks[pos..ParseLevel(k, toks, pos).value.1], ParseLevel(k, toks, pos).value.0)
    decreases |toks| - pos, k, 1
  {
    if k == 0 {
      TermSound(toks, pos);
    } else {
      var first := ParseLevel(k - 1, toks, pos).value;
      LevelSound(k - 1, toks, pos);
      FoldSound(k, toks, pos, first.0, first.1);
    }
  }

  lemma {:induction false} FoldSound(k: nat, toks: seq<Token>, start: nat, acc: Expr, pos: nat)
    requires 1 <= k <= ExprLevel && start < pos <= |toks|
    requires Derives(k, toks[start..pos], acc) && FoldRest(k, toks, acc, pos).Ok?
    ensures Derives(k, toks[start..FoldRest(k, toks, acc, pos).value.1], FoldRest(k, toks, acc, pos).value.0)
    decreases |toks| - pos, k, 0
  {
    if pos < |toks| && LevelOp(k, toks[pos]).Some? {
      var op := LevelOp(k, toks[pos]).value;
      var right := ParseLevel(k - 1, toks, pos + 1).value;
      LevelSound(k - 1, toks, pos + 1);
      Join(k, toks[start..pos], toks[pos], toks[pos + 1..right.1], acc, right.0);
      assert toks[start..pos] + [toks[pos]] + toks[pos + 1..right.1] == toks[start..right.1];
      assert FoldRest(k, toks, acc, pos) == FoldRest(k, toks, BinOp(acc, op, right.0), right.1);
      FoldSound(k, toks, start, BinOp(acc, op, right.0), right.1);
    }
  }

  // ---------------------------------------------------------------------------------------
  // Completeness: what is derived, the parser returns
  // ---------------------------------------------------------------------------------------

  /** A tree of level `k` cannot be extended at token index `q`: the stream ends or the token is no operator of level `k` or below. */
  predicate Stops(k: nat, toks: seq<Token>, q: nat)
    requires q <= |toks|
  {
    q == |toks| || TokenLevel(toks[q]) == 0 || TokenLevel(toks[q]) > k
  }

  lemma {:induction false} ArrayComplete(toks: seq<Token>, pos: nat, q: nat, ws: seq<Value>, acc: seq<Value>)
    requires pos <= q < |toks| && toks[q] == Fixed("]") && ArrayBody(toks[pos..q], ws)
    ensures ParseArray(toks, pos, acc) == Ok((acc + ws, q + 1))
    decreases q - pos
  {
    var ts := toks[pos..q];
    if ts == [] {
      assert acc + ws == acc;
    } else if |ts| == 1 {
      assert ts[0] == toks[pos];
      assert ws == [ValueOf(toks[pos]).value];
    } else {
      assert ts[2..] == toks[pos + 2..q];
      ArrayComplete(toks, pos + 2, q, ws[1..], acc + [ws[0]]);
      assert acc + [ws[0]] + ws[1..] == acc + ws;
    }
  }

  lemma InnerSlice(toks: seq<Token>, pos: nat, q: nat)
    requires pos + 2 <= q <= |toks|
    ensures toks[pos..q][1..q - pos - 1] == toks[pos + 1..q - 1]
  {
    var ts := toks[pos..q];
    var inner, middle := ts[1..q - pos - 1], toks[pos + 1..q - 1];
    assert |inner| == |middle|;
    forall j | 0 <= j < |inner|
      ensures inner[j] == middle[j]
    {
      assert inner[j] == ts[j + 1] == toks[pos + j + 1];
    }
  }

  lemma {:induction false} TermComplete(toks: seq<Token>, pos: nat, q: nat, e: Expr)
    requires pos <= q <= |toks| && Derives(0, toks[pos..q], e)
    ensures ParseTerm(toks, pos) == Ok((e, q))
    decreases q - pos, 0, 0
  {
    var ts := toks[pos..q];
    if |ts| == 1 && IsValueToken(ts[0]) && ValueOf(ts[0]).Ok? && e == Literal(ValueOf(ts[0]).value) {
    } else if |ts| == 1 && ts[0].IdentLit? && e == Identifier(ParameterName(ts[0].text)) {
    } else if |ts| >= 2 && ts[0] == Fixed("(") && ts[|ts| - 1] == Fixed(")") && Derives(ExprLevel, ts[1..|ts| - 1], e) {
      InnerSlice(toks, pos, q);
      assert toks[q - 1] == Fixed(")");
      LevelComplete(ExprLevel, toks, pos + 1, q - 1, e);
    } else {
      InnerSlice(toks, pos, q);
      ArrayComplete(toks, pos + 1, q - 1, e.value.elems, []);
      assert [] + e.value.elems == e.value.elems;
    }
  }

  lemma {:induction false} LevelComplete(k: nat, toks: seq<Token>, pos: nat, q: nat, e: Expr)
    requires k <= ExprLevel && pos <= q <= |toks| && Derives(k, toks[pos..q], e) && Stops(k, toks, q)
    ensures ParseLevel(k, toks, pos) == Ok((e, q))
    decreases q - pos, k, 1
  {
    if k == 0 {
      TermComplete(toks, pos, q, e);
    } else {
      FoldPrefix(k, toks, pos, q, e);
      if q < |toks| {
        TokenLevelOp(k, toks[q]);
      }
    }
  }

  /** Parsing level `k` from a derived prefix reaches the fold with that prefix's tree as accumulator. */
  lemma {:induction false} FoldPrefix(k: nat, toks: seq<Token>, pos: nat, q: nat, e: Expr)
    requires 1 <= k <= ExprLevel && pos <= q <= |toks| && Derives(k, toks[pos..q], e) && Stops(k - 1, toks, q)
    ensures ParseLevel(k, toks, pos) == FoldRest(k, toks, e, q)
    decreases q - pos, k, 0
  {
    var ts := toks[pos..q];
    if Derives(k - 1, ts, e) {
      LevelComplete(k - 1, toks, pos, q, e);
    } else {
      var i :| SplitsAt(k, ts, e, i);
      var m := pos + i;
      SplitInStream(k, toks, pos, q, e, i);
      FoldPrefix(k, toks, pos, m, e.left);
      LevelComplete(k - 1, toks, m + 1, q, e.right);
      assert FoldRest(k, toks, e.left, m) == FoldRest(k, toks, BinOp(e.left, e.op, e.right), q);
    }
  }

  /** A split of the slice `toks[pos..q]` at `i`, read back in the positions of the whole stream. */
  lemma SplitInStream(k: nat, toks: seq<Token>, pos: nat, q: nat, e: Expr, i: int)
    requires 1 <= k <= ExprLevel && pos <= q <= |toks| && e.BinOp? && SplitsAt(k, toks[pos..q], e, i)
    ensures pos < pos + i < q && LevelOp(k, toks[pos + i]) == Some(e.op) && Stops(k - 1, toks, pos + i)
    ensures Derives(k, toks[pos..pos + i], e.left) && Derives(k - 1, toks[pos + i + 1..q], e.right)
  {
    var ts := toks[pos..q];
    assert ts[..i] == toks[pos..pos + i];
    assert ts[i + 1..] == toks[pos + i + 1..q];
    TokenLevelOp(k, toks[pos + i]);
  }

  // ---------------------------------------------------------------------------------------
  // The parser is the grammar
  // ---------------------------------------------------------------------------------------

  /** `ExprParser` returns `e` for a token stream exactly when the productions derive `e` from the whole stream. */
  lemma ParseTokensCorrect(toks: seq<Token>, e: Expr)
    ensures ParseTokens(toks) == Ok(e) <==> Derives(ExprLevel, toks, e)
  {
    if ParseTokens(toks) == Ok(e) {
      LevelSound(ExprLevel, toks, 0);
      assert toks[0..|toks|] == toks;
    }
    if Derives(ExprLevel, toks, e) {
      assert toks[0..|toks|] == toks;
      LevelComplete(ExprLevel, toks, 0, |toks|, e);
    }
  }

  /** No token stream derives two different trees. */
  lemma Unambiguous(toks: seq<Token>, e1: Expr, e2: Expr)
    requires Derives(ExprLevel, toks, e1) && Derives(ExprLevel, toks, e2)
    ensures e1 == e2
  {
    ParseTokensCorrect(toks, e1);
    ParseTokensCorrect(toks, e2);
  }

  // ---------------------------------------------------------------------------------------
  // Shapes of the trees
  // ---------------------------------------------------------------------------------------

  /** Every derivation covers at least one token. */
  lemma DerivesNonEmpty(k: nat, ts: seq<Token>, e: Expr)
    requires k <= ExprLevel && Derives(k, ts, e)
    ensures |ts| > 0
    decreases k
  {
    if k > 0 && Derives(k - 1, ts, e) {
      DerivesNonEmpty(k - 1, ts, e);
    }
  }

  /** What a level derives, every level above it derives too. */
  lemma {:induction false} Lift(j: nat, k: nat, ts: seq<Token>, e: Expr)
    requires j <= k <= ExprLevel && Derives(j, ts, e)
    ensures Derives(k, ts, e)
    decreases k - j
  {
    if j < k {
      Lift(j, k - 1, ts, e);
    }
  }

  /** `ts` derives at level `k` the node joining `l` (from `tl`, level `k`) and `r` (from `tr`, level `k - 1`) by `o`. */
  lemma Join(k: nat, tl: seq<Token>, o: Token, tr: seq<Token>, l: Expr, r: Expr)
    requires 1 <= k <= ExprLevel && LevelOp(k, o).Some?
    requires Derives(k, tl, l) && Derives(k - 1, tr, r)
    ensures Derives(k, tl + [o] + tr, BinOp(l, LevelOp(k, o).value, r))
  {
    DerivesNonEmpty(k, tl, l);
    DerivesNonEmpty(k - 1, tr, r);
    var ts := tl + [o] + tr;
    assert ts[..|tl|] == tl;
    assert ts[|tl| + 1..] == tr;
    assert SplitsAt(k, ts, BinOp(l, LevelOp(k, o).value, r), |tl|);
  }

  /**
   * Each binary level folds to the left: `x o1 y o2 z` with two operators of the same level
   * is `(x o1 y) o2 z`, so `a - b - c` is `(a - b) - c`.
   */
  lemma LeftFold(k: nat, tx: seq<Token>, ty: seq<Token>, tz: seq<Token>, x: Expr, y: Expr, z: Expr, o1: Token, o2: Token)
    requires 1 <= k <= ExprLevel && LevelOp(k, o1).Some? && LevelOp(k, o2).Some?
    requires Derives(k - 1, tx, x) && Derives(k - 1, ty, y) && Derives(k - 1, tz, z)
    ensures ParseTokens(tx + [o1] + ty + [o2] + tz) ==
      Ok(BinOp(BinOp(x, LevelOp(k, o1).value, y), LevelOp(k, o2).value, z))
  {
    Lift(k - 1, k, tx, x);
    Join(k, tx, o1, ty, x, y);
    var left := BinOp(x, LevelOp(k, o1).value, y);
    Join(k, tx + [o1] + ty, o2, tz, left, z);
    var e := BinOp(left, LevelOp(k, o2).value, z);
    Lift(k, ExprLevel, tx + [o1] + ty + [o2] + tz, e);
    ParseTokensCorrect(tx + [o1] + ty + [o2] + tz, e);
  }

  /**
   * An operator of a lower level binds tighter, on either side: with `*` below `+`,
   * `x + y * z` is `x + (y * z)` and `x * y + z` is `(x * y) + z`.
   */
  lemma Precedence(j: nat, k: nat, tx: seq<Token>, ty: seq<Token>, tz: seq<Token>, x: Expr, y: Expr, z: Expr, oj: Token, ok: Token)
    requires 1 <= j < k <= ExprLevel && LevelOp(j, oj).Some? && LevelOp(k, ok).Some?
    requires Derives(0, tx, x) && Derives(0, ty, y) && Derives(0, tz, z)
    ensures ParseTokens(tx + [ok] + ty + [oj] + tz) ==
      Ok(BinOp(x, LevelOp(k, ok).value, BinOp(y, LevelOp(j, oj).value, z)))
    ensures ParseTokens(tx + [oj] + ty + [ok] + tz) ==
      Ok(BinOp(BinOp(x, LevelOp(j, oj).value, y), LevelOp(k, ok).value, z))
  {
    TighterOnRight(j, k, tx, ty, tz, x, y, z, oj, ok);
    TighterOnLeft(j, k, tx, ty, tz, x, y, z, oj, ok);
  }

  /** `x ok y oj z` with `oj` of the lower level groups the right-hand pair. */
  lemma TighterOnRight(j: nat, k: nat, tx: seq<Token>, ty: seq<Token>, tz: seq<Token>, x: Expr, y: Expr, z: Expr, oj: Token, ok: Token)
    requires 1 <= j < k <= ExprLevel && LevelOp(j, oj).Some? && LevelOp(k, ok).Some?
    requires Derives(0, tx, x) && Derives(0, ty, y) && Derives(0, tz, z)
    ensures ParseTokens(tx + [ok] + ty + [oj] + tz) ==
      Ok(BinOp(x, LevelOp(k, ok).value, BinOp(y, LevelOp(j, oj).value, z)))
  {
    var e := BinOp(x, LevelOp(k, ok).value, BinOp(y, LevelOp(j, oj).value, z));
    var ts := tx + [ok] + ty + [oj] + tz;
    RightPairDerives(j, k, tx, ty, tz, x, y, z, oj, ok);
    Lift(k, ExprLevel, ts, e);
    ParseTokensCorrect(ts, e);
  }

  lemma RightPairDerives(j: nat, k: nat, tx: seq<Token>, ty: seq<Token>, tz: seq<Token>, x: Expr, y: Expr, z: Expr, oj: Token, ok: Token)
    requires 1 <= j < k <= ExprLevel && LevelOp(j, oj).Some? && LevelOp(k, ok).Some?
    requires Derives(0, tx, x) && Derives(0, ty, y) && Derives(0, tz, z)
    ensures Derives(k, tx + [ok] + ty + [oj] + tz, BinOp(x, LevelOp(k, ok).value, BinOp(y, LevelOp(j, oj).value, z)))
  {
    var opj := LevelOp(j, oj).value;
    Lift(0, j, ty, y);
    Lift(0, j - 1, tz, z);
    Join(j, ty, oj, tz, y, z);
    Lift(j, k - 1, ty + [oj] + tz, BinOp(y, opj, z));
    Lift(0, k, tx, x);
    Join(k, tx, ok, ty + [oj] + tz, x, BinOp(y, opj, z));
    assert tx + [ok] + (ty + [oj] + tz) == tx + [ok] + ty + [oj] + tz;
  }

  /** `x oj y ok z` with `oj` of the lower level groups the left-hand pair. */
  lemma TighterOnLeft(j: nat, k: nat, tx: seq<Token>, ty: seq<Token>, tz: seq<Token>, x: Expr, y: Expr, z: Expr, oj: Token, ok: Token)
    requires 1 <= j < k <= ExprLevel && LevelOp(j, oj).Some? && LevelOp(k, ok).Some?
    requires Derives(0, tx, x) && Derives(0, ty, y) && Derives(0, tz, z)
    ensures ParseTokens(tx + [oj] + ty + [ok] + tz) ==
      Ok(BinOp(BinOp(x, LevelOp(j, oj).value, y), LevelOp(k, ok).value, z))
  {
    var e := BinOp(BinOp(x, LevelOp(j, oj).value, y), LevelOp(k, ok).value, z);
    var ts := tx + [oj] + ty + [ok] + tz;
    LeftPairDerives(j, k, tx, ty, tz, x, y, z, oj, ok);
    Lift(k, ExprLevel, ts, e);
    ParseTokensCorrect(ts, e);
  }

  lemma LeftPairDerives(j: nat, k: nat, tx: seq<Token>, ty: seq<Token>, tz: seq<Token>, x: Expr, y: Expr, z: Expr, oj: Token, ok: Token)
    requires 1 <= j < k <= ExprLevel && LevelOp(j, oj).Some? && LevelOp(k, ok).Some?
    requires Derives(0, tx, x) && Derives(0, ty, y) && Derives(0, tz, z)
    ensures Derives(k, tx + [oj] + ty + [ok] + tz, BinOp(BinOp(x, LevelOp(j, oj).value, y), LevelOp(k, ok).value, z))
  {
    var opj := LevelOp(j, oj).value;
    Lift(0, j, tx, x);
    Lift(0, j - 1, ty, y);
    Join(j, tx, oj, ty, x, y);
    Lift(j, k, tx + [oj] + ty, BinOp(x, opj, y));
    Lift(0, k - 1, tz, z);
    Join(k, tx + [oj] + ty, ok, tz, BinOp(x, opj, y), z);
  }

  /** Parentheses around an expression give the same tree, with no node of their own. */
  lemma Parenthesised(ts: seq<Token>, e: Expr)
    requires ParseTokens(ts) == Ok(e)
    ensures ParseTokens([Fixed("(")] + ts + [Fixed(")")]) == Ok(e)
  {
    ParseTokensCorrect(ts, e);
    var ps := [Fixed("(")] + ts + [Fixed(")")];
    assert ps[1..|ps| - 1] == ts;
    assert Derives(0, ps, e);
    Lift(0, ExprLevel, ps, e);
    ParseTokensCorrect(ps, e);
  }
}
