/**
 * Worked examples of the crate's documented behaviour on concrete inputs: texts through the
 * lexer and the grammar to the tree and the evaluated value, and JSON documents through the
 * JSON front-end. Trees are derived with the productions of `Derivations`.
 */
module Scenarios {
  import opened Results
  import opened Numbers
  import opened Values
  import opened Ops
  import opened Exprs
  import opened ParameterNames
  import opened JsonModel
  import opened Lexer
  import opened Grammar
  import opened Derivations
  import opened Parser
  import opened Evaluator
  import opened SampleTexts

  lemma IdentifierLeaf(name: string)
    ensures Derives(0, [IdentLit("{" + name + "}")], Identifier(name))
  {
    BracesRoundTrip(name);
  }

  lemma DigitLeaf(c: char)
    requires IsDigit(c)
    ensures Derives(0, [IntLit([c])], Literal(Number(Finite((c as int - '0' as int) as real))))
  {
    assert DigitsValue([c]) == DigitsValue([]) + DigitValue(c);
  }

  // ---------------------------------------------------------------------------------------
  // The examples, from text to tree to value
  // ---------------------------------------------------------------------------------------

  /** `{a} + 2 + 3`: additions fold to the left, and the parameter is read from the map. */
  lemma SumExample()
    ensures var e := BinOp(BinOp(Identifier("a"), Additive(Add), Literal(Number(Finite(2.0)))), Additive(Add), Literal(Number(Finite(3.0))));
      ParseExprFromStr("{a} + 2 + 3") == Ok(e) &&
      Evaluate(e, map["a" := Number(Finite(4.0))]) == Ok(Number(Finite(9.0)))
  {
    SumTokens("{a} + 2 + 3", 0);
    SumTree();
    SumValue();
  }

  lemma SumTree()
    ensures ParseTokens([IdentLit("{a}"), Fixed("+"), IntLit("2"), Fixed("+"), IntLit("3")]) ==
      Ok(BinOp(BinOp(Identifier("a"), Additive(Add), Literal(Number(Finite(2.0)))), Additive(Add), Literal(Number(Finite(3.0)))))
  {
    IdentifierLeaf("a");
    assert "{" + "a" + "}" == "{a}";
    DigitLeaf('2');
    DigitLeaf('3');
    Lift(0, 1, [IdentLit("{a}")], Identifier("a"));
    Lift(0, 1, [IntLit("2")], Literal(Number(Finite(2.0))));
    Lift(0, 1, [IntLit("3")], Literal(Number(Finite(3.0))));
    LeftFold(2, [IdentLit("{a}")], [IntLit("2")], [IntLit("3")],
      Identifier("a"), Literal(Number(Finite(2.0))), Literal(Number(Finite(3.0))), Fixed("+"), Fixed("+"));
    assert [IdentLit("{a}")] + [Fixed("+")] + [IntLit("2")] + [Fixed("+")] + [IntLit("3")] ==
      [IdentLit("{a}"), Fixed("+"), IntLit("2"), Fixed("+"), IntLit("3")];
  }

  lemma SumValue()
    ensures Evaluate(BinOp(BinOp(Identifier("a"), Additive(Add), Literal(Number(Finite(2.0)))), Additive(Add), Literal(Number(Finite(3.0)))),
                     map["a" := Number(Finite(4.0))]) == Ok(Number(Finite(9.0)))
  {
    var p := map["a" := Number(Finite(4.0))];
    var inner := BinOp(Identifier("a"), Additive(Add), Literal(Number(Finite(2.0))));
    assert Evaluate(inner, p) == Ok(Number(Finite(6.0)));
  }

  /** `1 + 2 * 3`: multiplication binds tighter than addition, and the result is 7. */
  lemma TighterProductExample()
    ensures var e := BinOp(Literal(Number(Finite(1.0))), Additive(Add),
                           BinOp(Literal(Number(Finite(2.0))), Multiplicative(Mul), Literal(Number(Finite(3.0)))));
      ParseExprFromStr("1 + 2 * 3") == Ok(e) &&
      Evaluate(e, map[]) == Ok(Number(Finite(7.0)))
  {
    TighterProductTokens("1 + 2 * 3", 0);
    TighterProductTree();
    TighterProductValue();
  }

  lemma TighterProductValue()
    ensures Evaluate(BinOp(Literal(Number(Finite(1.0))), Additive(Add),
                           BinOp(Literal(Number(Finite(2.0))), Multiplicative(Mul), Literal(Number(Finite(3.0))))), map[]) ==
      Ok(Number(Finite(7.0)))
  {
    var product := BinOp(Literal(Number(Finite(2.0))), Multiplicative(Mul), Literal(Number(Finite(3.0))));
    assert Evaluate(product, map[]) == Ok(Number(Finite(6.0)));
  }

  lemma TighterProductTree()
    ensures ParseTokens([IntLit("1"), Fixed("+"), IntLit("2"), Fixed("*"), IntLit("3")]) ==
      Ok(BinOp(Literal(Number(Finite(1.0))), Additive(Add),
               BinOp(Literal(Number(Finite(2.0))), Multiplicative(Mul), Literal(Number(Finite(3.0))))))
  {
    DigitLeaf('1');
    DigitLeaf('2');
    DigitLeaf('3');
    Precedence(1, 2, [IntLit("1")], [IntLit("2")], [IntLit("3")],
      Literal(Number(Finite(1.0))), Literal(Number(Finite(2.0))), Literal(Number(Finite(3.0))), Fixed("*"), Fixed("+"));
    assert [IntLit("1")] + [Fixed("+")] + [IntLit("2")] + [Fixed("*")] + [IntLit("3")] ==
      [IntLit("1"), Fixed("+"), IntLit("2"), Fixed("*"), IntLit("3")];
  }

  /** `(1 + 2) * 3`: the parenthesised sum is the left operand, and the result is 9. */
  lemma GroupedSumExample()
    ensures var e := BinOp(BinOp(Literal(Number(Finite(1.0))), Additive(Add), Literal(Number(Finite(2.0)))),
                           Multiplicative(Mul), Literal(Number(Finite(3.0))));
      ParseExprFromStr("(1 + 2) * 3") == Ok(e) &&
      Evaluate(e, map[]) == Ok(Number(Finite(9.0)))
  {
    GroupedSumTokens("(1 + 2) * 3", 0);
    GroupedSumTree();
    GroupedSumValue();
  }

  lemma GroupedSumValue()
    ensures Evaluate(BinOp(BinOp(Literal(Number(Finite(1.0))), Additive(Add), Literal(Number(Finite(2.0)))),
                           Multiplicative(Mul), Literal(Number(Finite(3.0)))), map[]) == Ok(Number(Finite(9.0)))
  {
    var sum := BinOp(Literal(Number(Finite(1.0))), Additive(Add), Literal(Number(Finite(2.0))));
    assert Evaluate(sum, map[]) == Ok(Number(Finite(3.0)));
  }

  lemma GroupedSumTree()
    ensures ParseTokens([Fixed("("), IntLit("1"), Fixed("+"), IntLit("2"), Fixed(")"), Fixed("*"), IntLit("3")]) ==
      Ok(BinOp(BinOp(Literal(Number(Finite(1.0))), Additive(Add), Literal(Number(Finite(2.0)))),
               Multiplicative(Mul), Literal(Number(Finite(3.0)))))
  {
    var sum := BinOp(Literal(Number(Finite(1.0))), Additive(Add), Literal(Number(Finite(2.0))));
    var three := Literal(Number(Finite(3.0)));
    var group := [Fixed("("), IntLit("1"), Fixed("+"), IntLit("2"), Fixed(")")];
    GroupedSumTerm();
    DigitLeaf('3');
    Lift(0, 1, group, sum);
    Join(1, group, Fixed("*"), [IntLit("3")], sum, three);
    var ts := group + [Fixed("*")] + [IntLit("3")];
    assert ts == [Fixed("("), IntLit("1"), Fixed("+"), IntLit("2"), Fixed(")"), Fixed("*"), IntLit("3")];
    Lift(1, ExprLevel, ts, BinOp(sum, Multiplicative(Mul), three));
    ParseTokensCorrect(ts, BinOp(sum, Multiplicative(Mul), three));
  }

  /** `(1 + 2)` is a `Term` whose tree is the sum inside. */
  lemma GroupedSumTerm()
    ensures Derives(0, [Fixed("("), IntLit("1"), Fixed("+"), IntLit("2"), Fixed(")")],
                    BinOp(Literal(Number(Finite(1.0))), Additive(Add), Literal(Number(Finite(2.0)))))
  {
    var one, two := Literal(Number(Finite(1.0))), Literal(Number(Finite(2.0)));
    DigitLeaf('1');
    DigitLeaf('2');
    var inner := [IntLit("1"), Fixed("+"), IntLit("2")];
    var sum := BinOp(one, Additive(Add), two);
    Lift(0, 2, [IntLit("1")], one);
    Lift(0, 1, [IntLit("2")], two);
    Join(2, [IntLit("1")], Fixed("+"), [IntLit("2")], one, two);
    assert [IntLit("1")] + [Fixed("+")] + [IntLit("2")] == inner;
    Lift(2, ExprLevel, inner, sum);
    var group := [Fixed("(")] + inner + [Fixed(")")];
    assert group[1..|group| - 1] == inner;
    assert group == [Fixed("("), IntLit("1"), Fixed("+"), IntLit("2"), Fixed(")")];
  }

  /** `{name} > 1`: a comparison of a parameter with a number literal, true for 2 and false for 0. */
  lemma GreaterThanExample()
    ensures var e := BinOp(Identifier("name"), Relational(Gt), Literal(Number(Finite(1.0))));
      ParseExprFromStr("{name} > 1") == Ok(e) &&
      Evaluate(e, map["name" := Number(Finite(2.0))]) == Ok(Bool(true)) &&
      Evaluate(e, map["name" := Number(Finite(0.0))]) == Ok(Bool(false))
  {
    GreaterThanTokens("{name} > 1", 0);
    GreaterThanTree();
    GreaterThan(Finite(2.0));
    GreaterThan(Finite(0.0));
  }

  lemma GreaterThanTree()
    ensures ParseTokens([IdentLit("{name}"), Fixed(">"), IntLit("1")]) ==
      Ok(BinOp(Identifier("name"), Relational(Gt), Literal(Number(Finite(1.0)))))
  {
    IdentifierLeaf("name");
    assert "{" + "name" + "}" == "{name}";
    DigitLeaf('1');
    var l, r := Identifier("name"), Literal(Number(Finite(1.0)));
    Lift(0, 3, [IdentLit("{name}")], l);
    Lift(0, 2, [IntLit("1")], r);
    Join(3, [IdentLit("{name}")], Fixed(">"), [IntLit("1")], l, r);
    assert LevelOp(3, Fixed(">")) == Some(Relational(Gt));
    assert [IdentLit("{name}")] + [Fixed(">")] + [IntLit("1")] == [IdentLit("{name}"), Fixed(">"), IntLit("1")];
    Lift(3, ExprLevel, [IdentLit("{name}"), Fixed(">"), IntLit("1")], BinOp(l, Relational(Gt), r));
    ParseTokensCorrect([IdentLit("{name}"), Fixed(">"), IntLit("1")], BinOp(l, Relational(Gt), r));
  }

  /** Evaluating `{name} > 1` with `name` bound to a number compares that number with one. */
  lemma GreaterThan(x: F64)
    ensures Evaluate(BinOp(Identifier("name"), Relational(Gt), Literal(Number(Finite(1.0)))), map["name" := Number(x)]) ==
      Ok(Bool(Numbers.Gt(x, Finite(1.0))))
  {
    var p := map["name" := Number(x)];
    assert Evaluate(Identifier("name"), p) == Ok(Number(x));
  }

  /** `1 in [1, 2]` and `3 in [1, 2]`: an array literal, and membership of a number in it. */
  lemma MembershipExample()
    ensures var arr := Literal(Array([Number(Finite(1.0)), Number(Finite(2.0))]));
      var yes := BinOp(Literal(Number(Finite(1.0))), Equality(In), arr);
      var no := BinOp(Literal(Number(Finite(3.0))), Equality(In), arr);
      ParseExprFromStr("1 in [1, 2]") == Ok(yes) && Evaluate(yes, map[]) == Ok(Bool(true)) &&
      ParseExprFromStr("3 in [1, 2]") == Ok(no) && Evaluate(no, map[]) == Ok(Bool(false))
  {
    DigitMembershipParses("1 in [1, 2]", '1');
    DigitMembershipParses("3 in [1, 2]", '3');
    MembershipValues();
  }

  lemma MembershipValues()
    ensures var arr := Literal(Array([Number(Finite(1.0)), Number(Finite(2.0))]));
      Evaluate(BinOp(Literal(Number(Finite(1.0))), Equality(In), arr), map[]) == Ok(Bool(true)) &&
      Evaluate(BinOp(Literal(Number(Finite(3.0))), Equality(In), arr), map[]) == Ok(Bool(false))
  {
    var vs := [Number(Finite(1.0)), Number(Finite(2.0))];
    LiteralMembership(Number(Finite(1.0)), vs);
    LiteralMembership(Number(Finite(3.0)), vs);
  }

  /** `d in [1, 2]`, for a digit `d`, parses to the membership test of that number. */
  lemma DigitMembershipParses(s: string, d: char)
    requires IsDigit(d)
    requires |s| == 11 && s[0] == d && s[1] == ' ' && s[2] == 'i' && s[3] == 'n' && s[4] == ' '
    requires s[5] == '[' && s[6] == '1' && s[7] == ',' && s[8] == ' ' && s[9] == '2' && s[10] == ']'
    ensures ParseExprFromStr(s) ==
      Ok(BinOp(Literal(Number(Finite((d as int - '0' as int) as real))), Equality(In),
               Literal(Array([Number(Finite(1.0)), Number(Finite(2.0))]))))
  {
    MembershipTokens(s, d, 0);
    MembershipTree(d);
  }

  lemma MembershipTree(c: char)
    requires IsDigit(c)
    ensures ParseTokens([IntLit([c]), Fixed("in"), Fixed("["), IntLit("1"), Fixed(","), IntLit("2"), Fixed("]")]) ==
      Ok(BinOp(Literal(Number(Finite((c as int - '0' as int) as real))), Equality(In),
               Literal(Array([Number(Finite(1.0)), Number(Finite(2.0))]))))
  {
    var vs := [Number(Finite(1.0)), Number(Finite(2.0))];
    var body := [IntLit("1"), Fixed(","), IntLit("2")];
    DigitLeaf(c);
    DigitLeaf('1');
    DigitLeaf('2');
    assert ArrayBody(body[2..], vs[1..]);
    assert ArrayBody(body, vs);
    var arr := [Fixed("[")] + body + [Fixed("]")];
    assert arr[1..|arr| - 1] == body;
    assert Derives(0, arr, Literal(Array(vs)));
    var l, r := Literal(Number(Finite((c as int - '0' as int) as real))), Literal(Array(vs));
    Lift(0, 3, [IntLit([c])], l);
    Lift(0, 2, arr, r);
    Join(3, [IntLit([c])], Fixed("in"), arr, l, r);
    var ts := [IntLit([c])] + [Fixed("in")] + arr;
    assert ts == [IntLit([c]), Fixed("in"), Fixed("["), IntLit("1"), Fixed(","), IntLit("2"), Fixed("]")];
    Lift(3, ExprLevel, ts, BinOp(l, Equality(In), r));
    ParseTokensCorrect(ts, BinOp(l, Equality(In), r));
  }

  /** Membership of a finite number literal in an array literal is that number's membership. */
  lemma LiteralMembership(x: Value, vs: seq<Value>)
    requires x.Number? && x.n.Finite?
    ensures Evaluate(BinOp(Literal(x), Equality(In), Literal(Array(vs))), map[]) == Ok(Bool(x in vs))
  {
    InIsMembership(x, vs);
    assert Evaluate(Literal(x), map[]) == Ok(x);
    assert Evaluate(Literal(Array(vs)), map[]) == Ok(Array(vs));
  }

  /** Evaluating `{a} in [...]` with `a` bound to a number is that number's membership. */
  lemma Membership(x: Value, vs: seq<Value>)
    requires x.Number? && x.n.Finite?
    ensures Evaluate(BinOp(Identifier("a"), Equality(In), Literal(Array(vs))), map["a" := x]) == Ok(Bool(x in vs))
  {
    InIsMembership(x, vs);
    var p := map["a" := x];
    assert Evaluate(Identifier("a"), p) == Ok(x);
    assert Evaluate(Literal(Array(vs)), p) == Ok(Array(vs));
  }

  /** The text `1 + 2` and the document `{"lhs": 1, "op": "+", "rhs": 2}` give the same tree. */
  lemma FrontEndsAgree(jsonText: Json -> string)
    ensures var e := BinOp(Literal(Number(Finite(1.0))), Additive(Add), Literal(Number(Finite(2.0))));
      ParseExprFromStr("1 + 2") == Ok(e) &&
      ParseExprFromJson(JObject(map["lhs" := JNumber(Finite(1.0)), "op" := JString("+"), "rhs" := JNumber(Finite(2.0))]), jsonText) == Ok(e)
  {
    OnePlusTwoTokens("1 + 2", 0);
    OnePlusTwoTree();
    SumDocumentTree(jsonText);
  }

  lemma OnePlusTwoTree()
    ensures ParseTokens([IntLit("1"), Fixed("+"), IntLit("2")]) ==
      Ok(BinOp(Literal(Number(Finite(1.0))), Additive(Add), Literal(Number(Finite(2.0)))))
  {
    var ts := [IntLit("1"), Fixed("+"), IntLit("2")];
    DigitLeaf('1');
    DigitLeaf('2');
    var l, r := Literal(Number(Finite(1.0))), Literal(Number(Finite(2.0)));
    Lift(0, 2, [IntLit("1")], l);
    Lift(0, 1, [IntLit("2")], r);
    Join(2, [IntLit("1")], Fixed("+"), [IntLit("2")], l, r);
    assert LevelOp(2, Fixed("+")) == Some(Additive(Add));
    assert [IntLit("1")] + [Fixed("+")] + [IntLit("2")] == ts;
    Lift(2, ExprLevel, ts, BinOp(l, Additive(Add), r));
    ParseTokensCorrect(ts, BinOp(l, Additive(Add), r));
  }

  /** `{"lhs": "{a}", "op": "in", "rhs": [4, 5, 6]}` */
  const MembershipDocument: Json :=
    JObject(map["lhs" := JString("{a}"), "op" := JString("in"),
                "rhs" := JArray([JNumber(Finite(4.0)), JNumber(Finite(5.0)), JNumber(Finite(6.0))])])

  /** The documented JSON document: a parameter string, an operator string and an array of numbers. */
  lemma JsonMembershipExample(jsonText: Json -> string)
    ensures var e := BinOp(Identifier("a"), Equality(In),
                           Literal(Array([Number(Finite(4.0)), Number(Finite(5.0)), Number(Finite(6.0))])));
      ParseExprFromJson(MembershipDocument, jsonText) == Ok(e) &&
      Evaluate(e, map["a" := Number(Finite(4.0))]) == Ok(Bool(true)) &&
      Evaluate(e, map["a" := Number(Finite(7.0))]) == Ok(Bool(false)) &&
      Evaluate(e, map[]) == Err(InvalidParameter("a"))
  {
    var vs := [Number(Finite(4.0)), Number(Finite(5.0)), Number(Finite(6.0))];
    MembershipDocumentTree(jsonText);
    Membership(Number(Finite(4.0)), vs);
    Membership(Number(Finite(7.0)), vs);
  }

  lemma MembershipDocumentTree(jsonText: Json -> string)
    ensures ParseExprFromJson(MembershipDocument, jsonText) ==
      Ok(BinOp(Identifier("a"), Equality(In), Literal(Array([Number(Finite(4.0)), Number(Finite(5.0)), Number(Finite(6.0))]))))
  {
    var fields := MembershipDocument.fields;
    assert "lhs" in fields && "op" in fields && "rhs" in fields;
    assert fields["lhs"] == JString("{a}");
    assert fields["op"] == JString("in");
    assert fields["rhs"] == JArray([JNumber(Finite(4.0)), JNumber(Finite(5.0)), JNumber(Finite(6.0))]);
    OperatorIn();
    BracedParameter(jsonText);
    NumberArray(jsonText);
    OperatorNode(fields["lhs"], fields["op"], fields["rhs"], fields, jsonText);
  }

  lemma BracedParameter(jsonText: Json -> string)
    ensures ParseExprFromJson(JString("{a}"), jsonText) == Ok(Identifier("a"))
  {
    assert IsIdentifierName("a");
    JsonStrings("a", "{a}", jsonText);
    assert "{" + "a" + "}" == "{a}";
  }

  lemma NumberArray(jsonText: Json -> string)
    ensures ParseExprFromJson(JArray([JNumber(Finite(4.0)), JNumber(Finite(5.0)), JNumber(Finite(6.0))]), jsonText) ==
      Ok(Literal(Array([Number(Finite(4.0)), Number(Finite(5.0)), Number(Finite(6.0))])))
  {
    var items := [JNumber(Finite(4.0)), JNumber(Finite(5.0)), JNumber(Finite(6.0))];
    var vs := [Number(Finite(4.0)), Number(Finite(5.0)), Number(Finite(6.0))];
    ItemsToValuesSpec(items);
    assert forall i :: 0 <= i < 3 ==> JsonToValue(items[i]) == Ok(vs[i]);
    assert ItemsToValues(items).value == vs;
    JsonScalars(JArray(items), jsonText);
  }

  lemma OperatorIn()
    ensures OpOfString("in") == Some(Equality(In))
  {
    OperatorStrings(Equality(In), "in");
    assert Symbol(Equality(In)) == "in";
  }

  lemma SumDocumentTree(jsonText: Json -> string)
    ensures ParseExprFromJson(JObject(map["lhs" := JNumber(Finite(1.0)), "op" := JString("+"), "rhs" := JNumber(Finite(2.0))]), jsonText) ==
      Ok(BinOp(Literal(Number(Finite(1.0))), Additive(Add), Literal(Number(Finite(2.0)))))
  {
    var fields := map["lhs" := JNumber(Finite(1.0)), "op" := JString("+"), "rhs" := JNumber(Finite(2.0))];
    assert "lhs" in fields && "op" in fields && "rhs" in fields;
    assert fields["lhs"] == JNumber(Finite(1.0));
    assert fields["op"] == JString("+");
    assert fields["rhs"] == JNumber(Finite(2.0));
    OperatorStrings(Additive(Add), "+");
    assert Symbol(Additive(Add)) == "+";
    JsonScalars(fields["lhs"], jsonText);
    JsonScalars(fields["rhs"], jsonText);
    OperatorNode(fields["lhs"], fields["op"], fields["rhs"], fields, jsonText);
  }

  /** An operator spelled as a word is not an operator: the node is rejected with that word. */
  lemma OperatorByName(jsonText: Json -> string)
    ensures ParseExprFromJson(JObject(map["lhs" := JNumber(Finite(1.0)), "op" := JString("add"), "rhs" := JNumber(Finite(2.0))]), jsonText) ==
      Err(InvalidOp("add"))
  {
    UnknownStart("add", 0);
    assert OpOfString("add").None?;
  }
}
