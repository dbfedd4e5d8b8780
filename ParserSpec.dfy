/**
 * What `Parser` of Parser.cpp computes, as functions of the token vector and
 * the cursor: `Advance`, `Factor` and `Expr` follow `Parser::advance`,
 * `Parser::factor` and `Parser::expr` branch by branch, with `expr` split at
 * the points where it changes phase (`Operation` after the head token,
 * `ListTail` for the `do`-`while` of a list, `Operand`, `AfterLeft`,
 * `AfterRight`, and `NaryTail` for the `while` that gathers further operands).
 *
 * `advance` at the last token sets the index to -1 and keeps the type, and
 * `expr` on a ')' advances, so an index of -1 re-enters the vector at 0: the
 * source has no decreasing measure. The cursor therefore carries a step
 * budget, `fuel`, of which every `expr` call spends one; an empty budget halts
 * the parse with `OutOfFuel`. Reading `m_tokens[-1]` (a function name, or an
 * error report, at index -1) halts it with `Undefined`. A halted parse makes
 * every later `expr` return null and its result means nothing.
 */
module ParserSpec {
  import opened Wrappers
  import opened Tokens
  import opened Ast

  datatype Halt = Running | OutOfFuel | Undefined

  /**
   * A syntax error report: `Illegal_Syntax(details)` printed, followed, for
   * the "Received: " reports, by the token under the cursor.
   */
  datatype SyntaxError = SyntaxError(details: string, received: Option<Token>)

  /**
   * The parser's mutable state: `m_current_index`, `m_current_type`, the step
   * budget, whether the parse has halted, and the reports printed so far.
   */
  datatype Cursor = Cursor(index: int, kind: Kind, fuel: nat, halt: Halt, errors: seq<SyntaxError>)

  /** A node pointer returned by a parsing function, with the cursor after it. */
  datatype Parsed = Parsed(node: Option<Node>, at: Cursor)

  /** The index is -1 or valid, and a valid index's token has the current type. */
  predicate Coherent(ts: seq<Token>, c: Cursor)
  {
    -1 <= c.index < |ts| && (c.index >= 0 ==> c.kind == ts[c.index].Type())
  }

  /** The same cursor position, budget and halt state. */
  predicate SamePlace(c: Cursor, d: Cursor)
  {
    c.index == d.index && c.kind == d.kind && c.fuel == d.fuel && c.halt == d.halt
  }

  /** `Parser::advance`. */
  function Advance(ts: seq<Token>, c: Cursor): (r: Cursor)
    requires Coherent(ts, c)
    ensures Coherent(ts, r) && r.fuel == c.fuel && r.halt == c.halt && r.errors == c.errors
    ensures c.index + 1 < |ts| ==> r.index == c.index + 1
    ensures c.index + 1 == |ts| ==> r.index == -1 && r.kind == c.kind
  {
    if c.index + 1 < |ts| then c.(index := c.index + 1, kind := ts[c.index + 1].Type())
    else c.(index := -1)
  }

  /** Printing a syntax error. */
  function Report(c: Cursor, details: string, received: Option<Token>): (r: Cursor)
    ensures SamePlace(r, c) && r.errors == c.errors + [SyntaxError(details, received)]
  {
    c.(errors := c.errors + [SyntaxError(details, received)])
  }

  /** The result of every parsing function keeps the cursor coherent and never gains fuel. */
  predicate Step(ts: seq<Token>, c: Cursor, r: Parsed)
  {
    Coherent(ts, r.at) && r.at.fuel <= c.fuel && (c.halt != Running ==> r.at.halt == c.halt)
  }

  /** `Parser::factor`: a node for the current token when the index is valid. */
  function Factor(ts: seq<Token>, c: Cursor): (r: Parsed)
    requires Coherent(ts, c)
    ensures Step(ts, c, r) && r.at.fuel == c.fuel && r.at.halt == c.halt
    ensures r.node.Some? <==> c.index != -1
    ensures c.index != -1 ==> r.node == Some(Node.Factor(ts[c.index])) && r.at == Advance(ts, c)
    ensures c.index == -1 ==> r.at == Report(c, "Expected a number", None)
  {
    if c.index != -1 then Parsed(Some(Node.Factor(ts[c.index])), Advance(ts, c))
    else Parsed(None, Report(c, "Expected a number", None))
  }

  /** Whether the token is a function name token with the given name. */
  predicate Named(t: Token, name: string)
  {
    t.Name? && t.name == name
  }

  /** `Parser::expr`. */
  function Expr(ts: seq<Token>, c: Cursor): (r: Parsed)
    requires Coherent(ts, c)
    ensures Step(ts, c, r)
    ensures c.halt != Running ==> r == Parsed(None, c)
    ensures r.at.halt == Running ==> r.at.fuel < c.fuel
    ensures r.node.Some? ==> r.at.fuel < c.fuel
    decreases c.fuel, 1
  {
    if c.halt != Running then Parsed(None, c)
    else if c.fuel == 0 then Parsed(None, c.(halt := OutOfFuel))
    else
      var c := c.(fuel := c.fuel - 1);
      if c.kind == Number then Factor(ts, c)
      else if c.kind != FunctionName then
        if c.kind == ClosingBracket then Parsed(None, Advance(ts, c))
        else if c.index == -1 then Parsed(None, c.(halt := Undefined))
        else Parsed(None, Report(c, "Expected a function name. Received: ", Some(ts[c.index])))
      else if c.index == -1 then Parsed(None, c.(halt := Undefined))
      else Operation(ts, ts[c.index], Advance(ts, c))
  }

  /** `expr` after it has read a function name `op` and advanced past it. */
  function Operation(ts: seq<Token>, op: Token, c: Cursor): (r: Parsed)
    requires Coherent(ts, c)
    ensures Step(ts, c, r)
    decreases c.fuel, 5
  {
    if Named(op, "list") then
      if c.index == -1 || c.kind != OpeningBracket then Parsed(None, Report(c, "Expected '('", None))
      else ListTail(ts, op, Advance(ts, c), [])
    else if Named(op, "map") then
      var functor := Expr(ts, Advance(ts, c));
      var list := Expr(ts, functor.at);
      Parsed(Some(Map(op, functor.node, list.node)), list.at)
    else if c.index == -1 || c.kind != OpeningBracket then
      if c.kind == Arrow then
        var definition := Expr(ts, Advance(ts, c));
        Parsed(Some(UserFunction(op, definition.node, [])), definition.at)
      else if c.kind == Comma || c.kind == ClosingBracket then
        Parsed(Some(UserFunction(op, None, [])), Advance(ts, c))
      else if c.index != -1 then
        Parsed(None, Report(c, "Expected '(' or list. Received: ", Some(ts[c.index])))
      else
        Parsed(Some(UserFunction(op, None, [])), c)
    else
      var c := Advance(ts, c);
      if c.index == -1 then Parsed(None, Report(c, "Unexpected end of input", None))
      else if c.kind == FunctionName || c.kind == Number || c.kind == Argument then
        var left := Operand(ts, c);
        AfterLeft(ts, op, left.node, left.at)
      else
        var definition := Expr(ts, c);
        Parsed(Some(UserFunction(op, definition.node, [])), definition.at)
  }

  /**
   * One operand of a call: a nested call (after which the cursor steps over
   * one more token), an argument reference, or a factor.
   */
  function Operand(ts: seq<Token>, c: Cursor): (r: Parsed)
    requires Coherent(ts, c) && c.index != -1
    ensures Step(ts, c, r)
    decreases c.fuel, 2
  {
    if c.kind == FunctionName then
      var e := Expr(ts, c);
      Parsed(e.node, Advance(ts, e.at))
    else if c.kind == Argument then
      Parsed(Some(ArgumentRef(ts[c.index])), Advance(ts, c))
    else
      Factor(ts, c)
  }

  /** After the first operand: a ')' ends a unary call, a ',' leads to the second operand. */
  function AfterLeft(ts: seq<Token>, op: Token, left: Option<Node>, c: Cursor): (r: Parsed)
    requires Coherent(ts, c)
    ensures Step(ts, c, r)
    decreases c.fuel, 4
  {
    if c.index == -1 then Parsed(None, Report(c, "Expected ','", None))
    else if c.kind != Comma then
      if c.kind == ClosingBracket then Parsed(Some(Unary(op, left)), c)
      else Parsed(None, Report(c, "Expected ','. Received: ", Some(ts[c.index])))
    else
      var c := Advance(ts, c);
      if c.index == -1 then Parsed(None, Report(c, "Unexpected end of input", None))
      else
        var right := Operand(ts, c);
        AfterRight(ts, op, left, right.node, right.at)
  }

  /**
   * After the second operand: a ')' or the end of input makes a binary node;
   * a ',' makes an `if` node or starts gathering the operands of a longer call.
   */
  function AfterRight(ts: seq<Token>, op: Token, left: Option<Node>, right: Option<Node>, c: Cursor): (r: Parsed)
    requires Coherent(ts, c)
    ensures Step(ts, c, r)
    decreases c.fuel, 3
  {
    if c.index != -1 && c.kind != ClosingBracket then
      if c.kind == Comma then
        if Named(op, "if") then
          var otherwise := Expr(ts, Advance(ts, c));
          Parsed(Some(If(op, left, right, otherwise.node)), otherwise.at)
        else
          var n := Expr(ts, Advance(ts, c));
          NaryTail(ts, op, [left, right], n.node, n.at)
      else
        Parsed(None, Report(c, "Expected ')'. Received: ", Some(ts[c.index])))
    else
      Parsed(Some(Binary(op, left, right)), c)
  }

  /**
   * The `while (n)` that gathers the operands of a call with three or more:
   * each non-null operand is kept, the cursor steps over one token and an
   * optional ','; the first null ends the call.
   */
  function NaryTail(ts: seq<Token>, op: Token, arguments: seq<Option<Node>>, n: Option<Node>, c: Cursor): (r: Parsed)
    requires Coherent(ts, c)
    ensures Step(ts, c, r)
    decreases c.fuel, if n.Some? then 2 else 0
  {
    if n.None? then Parsed(Some(UserFunction(op, None, arguments)), c)
    else
      var c1 := Advance(ts, c);
      var c2 := if c1.kind == Comma then Advance(ts, c1) else c1;
      var next := Expr(ts, c2);
      NaryTail(ts, op, arguments + [n], next.node, next.at)
  }

  /** Whether the list loop stops after an element: a ')' that closes the list. */
  predicate ListCloses(ts: seq<Token>, c: Cursor)
    requires Coherent(ts, c)
    ensures ListCloses(ts, c) ==> c.kind == ClosingBracket
    ensures c.kind == ClosingBracket && c.index + 2 >= |ts| ==> ListCloses(ts, c)
  {
    var i := c.index;
    c.kind == ClosingBracket
      && (i + 1 >= |ts| || ts[i + 1].Type() == ClosingBracket || i + 2 >= |ts| || ts[i + 2].Type() == FunctionName)
  }

  /** Whether the `do`-`while` of the list loop runs again. */
  predicate ListGoesOn(c: Cursor)
    ensures ListGoesOn(c) ==> c.index != -1 && c.kind !in {Arrow, Argument, OpeningBracket, ClosingBracket}
  {
    c.index != -1 && (c.kind == FunctionName || c.kind == Comma || c.kind == Number)
  }

  /**
   * The rest of a pass of the list loop after an element: where the cursor
   * ends up, and whether the loop stops there (`break`, or the `while`
   * condition failing).
   */
  function AfterElement(ts: seq<Token>, c: Cursor): (r: (bool, Cursor))
    requires Coherent(ts, c)
    ensures Coherent(ts, r.1) && r.1.fuel == c.fuel && r.1.halt == c.halt && r.1.errors == c.errors
    ensures !r.0 ==> ListGoesOn(r.1)
  {
    if ListCloses(ts, c) then
      (true, if c.index + 1 < |ts| && ts[c.index + 1].Type() == ClosingBracket then Advance(ts, c) else c)
    else
      var c3 := Advance(ts, c);
      if c3.index != -1 && c3.kind == ClosingBracket then
        var c5 := Advance(ts, c3);
        if c5.index == -1 then (true, c5)
        else
          var c4 := if c5.kind == Comma then Advance(ts, c5) else c5;
          (!ListGoesOn(c4), c4)
      else
        (!ListGoesOn(c3), c3)
  }

  /** One pass of the list loop's body from `c`, with the elements gathered so far. */
  function ListTail(ts: seq<Token>, op: Token, c: Cursor, elements: seq<Option<Node>>): (r: Parsed)
    requires Coherent(ts, c)
    ensures Step(ts, c, r)
    decreases c.fuel, 2
  {
    if c.index == -1 then Parsed(None, Report(c, "Unexpected end of input", None))
    else
      var c1 := if c.kind == Comma then Advance(ts, c) else c;
      var e := Expr(ts, c1);
      var elements := elements + [e.node];
      if e.at.halt != Running then Parsed(None, e.at)
      else
        var (stop, c2) := AfterElement(ts, e.at);
        if stop then Parsed(Some(List(op, elements)), c2)
        else ListTail(ts, op, c2, elements)
  }

  /** The cursor the constructor leaves: index -1, then one `advance`. */
  function Start(ts: seq<Token>, fuel: nat): (c: Cursor)
    ensures Coherent(ts, c) && c.fuel == fuel && c.halt == Running && c.errors == []
    ensures c.index == if ts == [] then -1 else 0
  {
    Advance(ts, Cursor(-1, Number, fuel, Running, []))
  }

  /** `Parser::parse` on a freshly constructed parser with the given budget. */
  function Parse(ts: seq<Token>, fuel: nat): (r: Parsed)
    ensures Coherent(ts, r.at)
    ensures ts == [] ==> r.node.None? && r.at.errors == []
  {
    var c := Start(ts, fuel);
    if c.index == -1 then Parsed(None, c) else Expr(ts, c)
  }
}
