/** How the parser of Parser.cpp tells its constructs apart, and what it builds for each. */
module ParserFacts {
  import opened Wrappers
  import opened Tokens
  import opened Ast
  import opened ParserSpec

  /** A cursor on token `i` with the budget `fuel`, still running, with the reports `errors`. */
  function On(ts: seq<Token>, i: nat, fuel: nat, errors: seq<SyntaxError>): (c: Cursor)
    requires i < |ts|
    ensures Coherent(ts, c) && c.index == i && c.halt == Running
  {
    Cursor(i, ts[i].Type(), fuel, Running, errors)
  }

  /** A name that `expr` gives no special treatment. */
  predicate Ordinary(t: Token)
  {
    t.Name? && t.name != "list" && t.name != "map" && t.name != "if"
  }

  /** `advance` past the last token goes to -1 and keeps the type; from -1 it re-enters at token 0. */
  lemma AdvanceWrapsAround(ts: seq<Token>, c: Cursor)
    requires Coherent(ts, c) && |ts| > 0
    ensures c.index == |ts| - 1 ==> Advance(ts, c).index == -1 && Advance(ts, c).kind == c.kind
    ensures c.index == -1 ==> Advance(ts, c).index == 0 && Advance(ts, c).kind == ts[0].Type()
  {
  }

  /** No tokens: the parser starts at -1 and `parse` returns null without a report. */
  lemma EmptyInput(fuel: nat)
    ensures Start([], fuel).index == -1
    ensures Parse([], fuel) == Parsed(None, Start([], fuel))
  {
  }

  /** A leading number is a factor node, and parsing it consumes exactly that token. */
  lemma LeadingNumber(ts: seq<Token>, fuel: nat)
    requires |ts| > 0 && ts[0].Type() == Number && fuel > 0
    ensures Parse(ts, fuel).node == Some(Node.Factor(ts[0]))
    ensures Parse(ts, fuel).at.index == (if |ts| > 1 then 1 else -1)
    ensures Parse(ts, fuel).at.errors == []
  {
  }

  /** `name <- e` is a user function whose definition is the tree of `e`, with no arguments. */
  lemma Declaration(ts: seq<Token>, i: nat, fuel: nat, errors: seq<SyntaxError>)
    requires i + 1 < |ts| && Ordinary(ts[i]) && ts[i + 1].Type() == Arrow
    ensures var e := Expr(ts, On(ts, i + 1, fuel, errors).(index := i + 2, kind := if i + 2 < |ts| then ts[i + 2].Type() else Arrow).(index := if i + 2 < |ts| then i + 2 else -1));
      Expr(ts, On(ts, i, fuel + 1, errors)) == Parsed(Some(UserFunction(ts[i], e.node, [])), e.at)
  {
  }

  /** A name followed by ',' or ')' (which is consumed) is a user function with no definition and no arguments. */
  lemma BareName(ts: seq<Token>, i: nat, fuel: nat, errors: seq<SyntaxError>)
    requires i + 1 < |ts| && Ordinary(ts[i]) && ts[i + 1].Type() in {Comma, ClosingBracket}
    ensures Expr(ts, On(ts, i, fuel + 1, errors))
         == Parsed(Some(UserFunction(ts[i], None, [])), Advance(ts, On(ts, i + 1, fuel, errors)))
  {
  }

  /** A name that is the last token is a user function with no definition and no arguments. */
  lemma BareNameAtEnd(ts: seq<Token>, fuel: nat, errors: seq<SyntaxError>)
    requires |ts| > 0 && Ordinary(ts[|ts| - 1])
    ensures Expr(ts, On(ts, |ts| - 1, fuel + 1, errors))
         == Parsed(Some(UserFunction(ts[|ts| - 1], None, [])), On(ts, |ts| - 1, fuel, errors).(index := -1))
  {
    var i := |ts| - 1;
    var c := On(ts, i, fuel, errors);
    assert Advance(ts, c) == c.(index := -1);
    assert Expr(ts, On(ts, i, fuel + 1, errors)) == Operation(ts, ts[i], c.(index := -1));
  }

  /** A name followed by a number, an argument or another name is a syntax error and yields null. */
  lemma NameThenOperand(ts: seq<Token>, i: nat, fuel: nat, errors: seq<SyntaxError>)
    requires i + 1 < |ts| && Ordinary(ts[i]) && ts[i + 1].Type() in {Number, Argument, FunctionName}
    ensures Expr(ts, On(ts, i, fuel + 1, errors))
         == Parsed(None, On(ts, i + 1, fuel, errors + [SyntaxError("Expected '(' or list. Received: ", Some(ts[i + 1]))]))
  {
  }

  /** `name(` at the end of the input is an unexpected end of input. */
  lemma OpenAtEnd(ts: seq<Token>, fuel: nat, errors: seq<SyntaxError>)
    requires |ts| >= 2 && Ordinary(ts[|ts| - 2]) && ts[|ts| - 1].Type() == OpeningBracket
    ensures Expr(ts, On(ts, |ts| - 2, fuel + 1, errors))
         == Parsed(None, On(ts, |ts| - 1, fuel, errors + [SyntaxError("Unexpected end of input", None)]).(index := -1))
  {
  }

  /** The cursor is on a token of kind `k`. */
  predicate Sees(c: Cursor, k: Kind)
  {
    c.index != -1 && c.kind == k
  }

  /**
   * `name(` at token `i`, for a name other than `list` and `map`, with a
   * name, a number or an argument after the '(': a call with operands.
   */
  predicate CallAt(ts: seq<Token>, i: nat)
  {
    i + 2 < |ts| && ts[i].Name? && ts[i].name != "list" && ts[i].name != "map"
      && ts[i + 1].Type() == OpeningBracket && ts[i + 2].Type() in {FunctionName, Number, Argument}
  }

  /** The first operand of the call at `i`, of whatever form, and the cursor after it. */
  function First(ts: seq<Token>, i: nat, fuel: nat, errors: seq<SyntaxError>): (r: Parsed)
    requires i + 2 < |ts|
    ensures Coherent(ts, r.at)
  {
    Operand(ts, On(ts, i + 2, fuel, errors))
  }

  /** Whether the first operand is followed by ',' and another token. */
  predicate CommaAfterFirst(ts: seq<Token>, i: nat, fuel: nat, errors: seq<SyntaxError>)
    requires i + 2 < |ts|
  {
    Sees(First(ts, i, fuel, errors).at, Comma) && First(ts, i, fuel, errors).at.index + 1 < |ts|
  }

  /** The second operand of the call at `i`, read after the ',' that follows the first. */
  function Second(ts: seq<Token>, i: nat, fuel: nat, errors: seq<SyntaxError>): (r: Parsed)
    requires i + 2 < |ts| && CommaAfterFirst(ts, i, fuel, errors)
    ensures Coherent(ts, r.at)
  {
    Operand(ts, Advance(ts, First(ts, i, fuel, errors).at))
  }

  /** `name(` followed by an operand: the first operand is read, and what follows it decides the call's form. */
  lemma CallOpens(ts: seq<Token>, i: nat, fuel: nat, errors: seq<SyntaxError>)
    requires CallAt(ts, i)
    ensures var left := First(ts, i, fuel, errors);
      Expr(ts, On(ts, i, fuel + 1, errors)) == AfterLeft(ts, ts[i], left.node, left.at)
  {
    var c := On(ts, i, fuel + 1, errors);
    assert Advance(ts, c.(fuel := fuel)) == On(ts, i + 1, fuel, errors);
    assert Expr(ts, c) == Operation(ts, ts[i], On(ts, i + 1, fuel, errors));
    assert Advance(ts, On(ts, i + 1, fuel, errors)) == On(ts, i + 2, fuel, errors);
  }

  /**
   * `name(a)`: whatever the operand `a` is (a number, an argument reference
   * or a nested call), a ')' after it makes a unary node over `a`, and the
   * ')' is left unconsumed.
   */
  lemma UnaryCall(ts: seq<Token>, i: nat, fuel: nat, errors: seq<SyntaxError>)
    requires CallAt(ts, i) && Sees(First(ts, i, fuel, errors).at, ClosingBracket)
    ensures var left := First(ts, i, fuel, errors);
      Expr(ts, On(ts, i, fuel + 1, errors)) == Parsed(Some(Unary(ts[i], left.node)), left.at)
  {
    CallOpens(ts, i, fuel, errors);
  }

  /** `name(a` followed by the end of input, or by a token that is neither ',' nor ')', is a syntax error and yields null. */
  lemma MissingComma(ts: seq<Token>, i: nat, fuel: nat, errors: seq<SyntaxError>)
    requires CallAt(ts, i)
    ensures var left := First(ts, i, fuel, errors);
      left.at.index == -1 ==> Expr(ts, On(ts, i, fuel + 1, errors)) == Parsed(None, Report(left.at, "Expected ','", None))
    ensures var left := First(ts, i, fuel, errors);
      left.at.index != -1 && left.at.kind != Comma && left.at.kind != ClosingBracket ==>
        Expr(ts, On(ts, i, fuel + 1, errors)) == Parsed(None, Report(left.at, "Expected ','. Received: ", Some(ts[left.at.index])))
  {
    CallOpens(ts, i, fuel, errors);
  }

  /** `name(a, b`: after the ',' the second operand is read, whatever its form, and what follows it decides. */
  lemma SecondOperandRead(ts: seq<Token>, i: nat, fuel: nat, errors: seq<SyntaxError>)
    requires CallAt(ts, i) && CommaAfterFirst(ts, i, fuel, errors)
    ensures var left, right := First(ts, i, fuel, errors), Second(ts, i, fuel, errors);
      Expr(ts, On(ts, i, fuel + 1, errors)) == AfterRight(ts, ts[i], left.node, right.node, right.at)
  {
    CallOpens(ts, i, fuel, errors);
  }

  /** `name(a, b)`: a ')' after the second operand makes a binary node over `a` and `b`; the ')' is left unconsumed. */
  lemma BinaryCall(ts: seq<Token>, i: nat, fuel: nat, errors: seq<SyntaxError>)
    requires CallAt(ts, i) && CommaAfterFirst(ts, i, fuel, errors)
    requires Sees(Second(ts, i, fuel, errors).at, ClosingBracket)
    ensures var left, right := First(ts, i, fuel, errors), Second(ts, i, fuel, errors);
      Expr(ts, On(ts, i, fuel + 1, errors)) == Parsed(Some(Binary(ts[i], left.node, right.node)), right.at)
  {
    SecondOperandRead(ts, i, fuel, errors);
  }

  /** `name(a, b` with the second operand ending the input is a binary node too. */
  lemma BinaryCallAtEnd(ts: seq<Token>, i: nat, fuel: nat, errors: seq<SyntaxError>)
    requires CallAt(ts, i) && CommaAfterFirst(ts, i, fuel, errors)
    requires Second(ts, i, fuel, errors).at.index == -1
    ensures var left, right := First(ts, i, fuel, errors), Second(ts, i, fuel, errors);
      Expr(ts, On(ts, i, fuel + 1, errors)) == Parsed(Some(Binary(ts[i], left.node, right.node)), right.at)
  {
    SecondOperandRead(ts, i, fuel, errors);
  }

  /** `name(a, b z`: a token other than ',' or ')' after the second operand is a syntax error and yields null. */
  lemma MissingClosingBracket(ts: seq<Token>, i: nat, fuel: nat, errors: seq<SyntaxError>)
    requires CallAt(ts, i) && CommaAfterFirst(ts, i, fuel, errors)
    requires var c := Second(ts, i, fuel, errors).at; c.index != -1 && c.kind != Comma && c.kind != ClosingBracket
    ensures var c := Second(ts, i, fuel, errors).at;
      Expr(ts, On(ts, i, fuel + 1, errors)) == Parsed(None, Report(c, "Expected ')'. Received: ", Some(ts[c.index])))
  {
    SecondOperandRead(ts, i, fuel, errors);
  }

  /**
   * `list` followed by a token other than '(', or ending the input, is a
   * syntax error; at the end the cursor stays at index -1 with the type kept.
   */
  lemma ListWithoutBracket(ts: seq<Token>, i: nat, fuel: nat, errors: seq<SyntaxError>)
    requires i < |ts| && ts[i] == Name("list")
    ensures i + 1 < |ts| && ts[i + 1].Type() != OpeningBracket ==>
      Expr(ts, On(ts, i, fuel + 1, errors))
        == Parsed(None, On(ts, i + 1, fuel, errors + [SyntaxError("Expected '('", None)]))
    ensures i + 1 == |ts| ==>
      Expr(ts, On(ts, i, fuel + 1, errors))
        == Parsed(None, On(ts, i, fuel, errors + [SyntaxError("Expected '('", None)]).(index := -1))
  {
  }

  const One := Num(1.0)
  const Two := Num(2.0)
  const Three := Num(3.0)
  const Open := Plain(OpeningBracket)
  const Close := Plain(ClosingBracket)
  const Separator := Plain(Comma)

  /** The expression after the ',' that follows the second operand. */
  function Third(ts: seq<Token>, i: nat, fuel: nat, errors: seq<SyntaxError>): (r: Parsed)
    requires i + 2 < |ts| && CommaAfterFirst(ts, i, fuel, errors)
    requires Sees(Second(ts, i, fuel, errors).at, Comma)
  {
    Expr(ts, Advance(ts, Second(ts, i, fuel, errors).at))
  }

  /**
   * `if(c, t, e)`: with `c` and `t` read as operands, the ',' after `t`
   * makes an `if` node whose else branch is the expression after it.
   */
  lemma IfCall(ts: seq<Token>, i: nat, fuel: nat, errors: seq<SyntaxError>)
    requires CallAt(ts, i) && ts[i] == Name("if") && CommaAfterFirst(ts, i, fuel, errors)
    requires Sees(Second(ts, i, fuel, errors).at, Comma)
    ensures var check, taken, otherwise := First(ts, i, fuel, errors), Second(ts, i, fuel, errors), Third(ts, i, fuel, errors);
      Expr(ts, On(ts, i, fuel + 1, errors)) == Parsed(Some(If(ts[i], check.node, taken.node, otherwise.node)), otherwise.at)
  {
    SecondOperandRead(ts, i, fuel, errors);
  }

  /**
   * The operands the loop of a longer call gathers from `n` on, and the
   * cursor it stops at: `n` and the operands after it, up to the first null.
   */
  function NaryRest(ts: seq<Token>, n: Option<Node>, c: Cursor): (r: (seq<Option<Node>>, Cursor))
    requires Coherent(ts, c)
    ensures n.None? <==> r.0 == []
    ensures n.Some? ==> r.0[0] == n
    ensures forall k :: 0 <= k < |r.0| ==> r.0[k].Some?
    decreases c.fuel, if n.Some? then 1 else 0
  {
    if n.None? then ([], c)
    else
      var c1 := Advance(ts, c);
      var c2 := if c1.kind == Comma then Advance(ts, c1) else c1;
      var next := Expr(ts, c2);
      var rest := NaryRest(ts, next.node, next.at);
      ([n] + rest.0, rest.1)
  }

  /**
   * The operand loop keeps what it has gathered as a prefix: its result is
   * a user function over `arguments` followed by the operands `NaryRest`
   * gathers from `n` on, and it stops where `NaryRest` stops.
   */
  lemma {:induction false} NaryTailGathers(ts: seq<Token>, op: Token, arguments: seq<Option<Node>>, n: Option<Node>, c: Cursor)
    requires Coherent(ts, c)
    ensures var rest := NaryRest(ts, n, c);
      NaryTail(ts, op, arguments, n, c) == Parsed(Some(UserFunction(op, None, arguments + rest.0)), rest.1)
    decreases c.fuel, if n.Some? then 1 else 0
  {
    if n.Some? {
      var c1 := Advance(ts, c);
      var c2 := if c1.kind == Comma then Advance(ts, c1) else c1;
      var next := Expr(ts, c2);
      NaryTailGathers(ts, op, arguments + [n], next.node, next.at);
      var rest := NaryRest(ts, next.node, next.at);
      assert arguments + [n] + rest.0 == arguments + ([n] + rest.0);
    } else {
      assert arguments + [] == arguments;
    }
  }

  /**
   * `name(a, b, c, ...)` for a name other than `if`: a user function with no
   * definition whose operands start with `a`, `b` and the expression after
   * the second ',', in source order, all present.
   */
  lemma NaryCall(ts: seq<Token>, i: nat, fuel: nat, errors: seq<SyntaxError>)
    requires CallAt(ts, i) && ts[i] != Name("if") && CommaAfterFirst(ts, i, fuel, errors)
    requires Sees(Second(ts, i, fuel, errors).at, Comma)
    ensures var left, right, n := First(ts, i, fuel, errors), Second(ts, i, fuel, errors), Third(ts, i, fuel, errors);
      var r := Expr(ts, On(ts, i, fuel + 1, errors));
      r.node.Some? && r.node.value.UserFunction? && r.node.value.token == ts[i] && r.node.value.definition.None?
      && |r.node.value.arguments| >= 2 && r.node.value.arguments[..2] == [left.node, right.node]
      && (n.node.Some? <==> |r.node.value.arguments| > 2)
      && (n.node.Some? ==> r.node.value.arguments[2] == n.node)
      && forall k :: 2 <= k < |r.node.value.arguments| ==> r.node.value.arguments[k].Some?
  {
    SecondOperandRead(ts, i, fuel, errors);
    var left, right, n := First(ts, i, fuel, errors), Second(ts, i, fuel, errors), Third(ts, i, fuel, errors);
    assert AfterRight(ts, ts[i], left.node, right.node, right.at) == NaryTail(ts, ts[i], [left.node, right.node], n.node, n.at);
    NaryTailGathers(ts, ts[i], [left.node, right.node], n.node, n.at);
    var rest := NaryRest(ts, n.node, n.at).0;
    var all := [left.node, right.node] + rest;
    assert all[..2] == [left.node, right.node];
    assert forall k :: 2 <= k < |all| ==> all[k] == rest[k - 2];
  }

  /**
   * `f(1, 2, 3)`: the loop that gathers the operands ends on the `expr` call
   * that meets the final ')' at index -1, which advances back to the first token.
   */
  lemma NaryCallReentersAtStart()
    ensures var r := Parse([Name("f"), Open, One, Separator, Two, Separator, Three, Close], 5);
      r.node == Some(UserFunction(Name("f"), None, [Some(Node.Factor(One)), Some(Node.Factor(Two)), Some(Node.Factor(Three))]))
      && r.at.index == 0 && r.at.errors == []
  {
    var t := [Name("f"), Open, One, Separator, Two, Separator, Three, Close];
    assert Start(t, 5) == On(t, 0, 5, []);
    assert First(t, 0, 4, []) == Parsed(Some(Node.Factor(One)), On(t, 3, 4, []));
    assert Advance(t, On(t, 3, 4, [])) == On(t, 4, 4, []);
    assert Second(t, 0, 4, []) == Parsed(Some(Node.Factor(Two)), On(t, 5, 4, []));
    SecondOperandRead(t, 0, 4, []);
    var l, r := Some(Node.Factor(One)), Some(Node.Factor(Two));
    assert Advance(t, On(t, 5, 4, [])) == On(t, 6, 4, []);
    var third := Expr(t, On(t, 6, 4, []));
    assert third == Parsed(Some(Node.Factor(Three)), On(t, 7, 3, []));
    assert AfterRight(t, Name("f"), l, r, On(t, 5, 4, [])) == NaryTail(t, Name("f"), [l, r], third.node, third.at);
    var atEnd := On(t, 7, 3, []).(index := -1);
    assert Advance(t, On(t, 7, 3, [])) == atEnd;
    assert Expr(t, atEnd) == Parsed(None, On(t, 0, 2, []));
    assert [l, r] + [third.node] == [l, r, third.node];
    assert NaryTail(t, Name("f"), [l, r], third.node, third.at) == NaryTail(t, Name("f"), [l, r, third.node], None, On(t, 0, 2, []));
  }

  /** `list(` is read, and the list loop starts on the token after the '('. */
  lemma ListCallHead(ts: seq<Token>, i: nat, fuel: nat, errors: seq<SyntaxError>)
    requires i + 2 < |ts| && ts[i] == Name("list") && ts[i + 1].Type() == OpeningBracket
    ensures Expr(ts, On(ts, i, fuel + 1, errors)) == ListTail(ts, ts[i], On(ts, i + 2, fuel, errors), [])
  {
    assert Advance(ts, On(ts, i, fuel, errors)) == On(ts, i + 1, fuel, errors);
    assert Advance(ts, On(ts, i + 1, fuel, errors)) == On(ts, i + 2, fuel, errors);
  }

  /** Where the list loop reads its next element from `c`: past a leading ','. */
  function ElementCursor(ts: seq<Token>, c: Cursor): Cursor
    requires Coherent(ts, c)
  {
    if c.kind == Comma then Advance(ts, c) else c
  }

  /**
   * The list loop keeps the elements gathered so far as a prefix: its
   * result is a list of `elements` followed by what the loop gathers from
   * `c` with nothing gathered yet, which begins with the expression read at
   * `c`; a null result does not depend on what was gathered.
   */
  lemma {:induction false} ListCallTail(ts: seq<Token>, op: Token, c: Cursor, elements: seq<Option<Node>>)
    requires Coherent(ts, c)
    ensures var r, r0 := ListTail(ts, op, c, elements), ListTail(ts, op, c, []);
      r.at == r0.at && (r.node.Some? <==> r0.node.Some?)
      && (r0.node.Some? ==> r0.node.value.List? && r.node == Some(List(op, elements + r0.node.value.contents)))
      && (r0.node.Some? ==>
            c.index != -1 && |r0.node.value.contents| > 0 && r0.node.value.contents[0] == Expr(ts, ElementCursor(ts, c)).node)
    decreases c.fuel
  {
    if c.index != -1 {
      var e := Expr(ts, ElementCursor(ts, c));
      if e.at.halt == Running {
        var (stop, c2) := AfterElement(ts, e.at);
        assert [] + [e.node] == [e.node];
        if !stop {
          ListCallTail(ts, op, c2, elements + [e.node]);
          ListCallTail(ts, op, c2, [e.node]);
          var rest := ListTail(ts, op, c2, []);
          if rest.node.Some? {
            assert elements + [e.node] + rest.node.value.contents == elements + ([e.node] + rest.node.value.contents);
          }
        }
      }
    }
  }

  /**
   * `list(e, ...)`: a list node, when one is built, carries the `list`
   * token and has the expression after the '(' as its first element.
   */
  lemma ListCall(ts: seq<Token>, i: nat, fuel: nat, errors: seq<SyntaxError>)
    requires i + 2 < |ts| && ts[i] == Name("list") && ts[i + 1].Type() == OpeningBracket
    ensures var r, c := Expr(ts, On(ts, i, fuel + 1, errors)), On(ts, i + 2, fuel, errors);
      r.node.Some? ==>
        r.node.value.List? && r.node.value.token == ts[i] && |r.node.value.contents| > 0
        && r.node.value.contents[0] == Expr(ts, ElementCursor(ts, c)).node
  {
    ListCallHead(ts, i, fuel, errors);
    ListCallTail(ts, ts[i], On(ts, i + 2, fuel, errors), []);
  }
}
