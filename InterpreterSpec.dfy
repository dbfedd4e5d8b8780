/**
 * What the visitor of Interpreter.cpp computes, as functions from the
 * interpreter state to the state after a visit and its outcome.
 *
 * The state is the four fields of Interpreter.h (result stack, flat
 * argument buffer, frame offset, registry of declarations) plus the text
 * written to the output stream. A visit ends `Ok` (the source returns
 * true), `Failed` (the source prints a runtime error and returns false) or
 * `Stuck`: where the source has undefined behaviour (a pop on an empty
 * stack or vector, an out-of-range read, a null dereference, rendering an
 * empty list) the model stops with `Undefined`; where it calls a
 * floating-point library function (`sqrt`, `sin`, `cos`, `pow`) it stops
 * with `Unmodelled`; and each visit spends one unit of a step budget, so
 * that a definition which calls itself forever stops with `OutOfFuel`.
 */
module InterpreterSpec {
  import opened Wrappers
  import opened Tokens
  import opened Ast

  datatype Why = Undefined | OutOfFuel | Unmodelled

  datatype Status = Ok | Failed | Stuck(why: Why)

  /** One item written to the output stream: text, or a number in the stream's own format. */
  datatype Out = Text(text: string) | Value(value: real)

  /** The top of `results` is its last element. */
  datatype State = State(results: seq<real>, arguments: seq<real>, offset: int, functions: seq<Node>, output: seq<Out>)

  datatype Run = Run(status: Status, state: State)

  /** A new interpreter: everything empty and the offset 0. */
  const Initial: State := State([], [], 0, [], [])

  /** The registry and the output only ever grow at their ends. */
  predicate Extends(s: State, t: State)
  {
    s.functions <= t.functions && s.output <= t.output
  }

  function Halt(s: State, why: Why): (r: Run)
    ensures r.status.Stuck? && Extends(s, r.state)
  {
    Run(Stuck(why), s)
  }

  /** `Runtime_Error(details).print(out); return false;` */
  function Fail(s: State, details: string): (r: Run)
    ensures r.status == Failed && Extends(s, r.state)
    ensures r.state.output == s.output + [Text(RuntimeError(details).Render())]
  {
    Run(Failed, s.(output := s.output + [Text(RuntimeError(details).Render())]))
  }

  function Push(s: State, v: real): State
  {
    s.(results := s.results + [v])
  }

  function Top(s: State): real
    requires |s.results| > 0
  {
    s.results[|s.results| - 1]
  }

  function Popped(s: State): State
    requires |s.results| > 0
  {
    s.(results := s.results[..|s.results| - 1])
  }

  /** A comparison result as the source pushes it: a `bool` converted to `double`. */
  function Truth(b: bool): (r: real)
    ensures b <==> r == 1.0
    ensures !b <==> r == 0.0
  {
    if b then 1.0 else 0.0
  }

  /** The outcome of a search of the registry by name. */
  datatype Lookup = Found(entry: Node) | Missing | Broken

  /**
   * The loop over `m_user_functions` in `visit_unary`, `visit_binary` and
   * `visit_user`: the first declaration whose name is the name of `t`.
   * Reading the name of a token that is not a function token is a null
   * dereference (`Broken`).
   */
  function Find(functions: seq<Node>, t: Token, i: nat): (r: Lookup)
    requires i <= |functions|
    ensures r.Found? ==>
      r.entry in functions[i..] && r.entry.UserFunction? && r.entry.token.Name? && t.Name? && r.entry.token.name == t.name
    ensures r.Missing? && t.Name? ==> forall k :: i <= k < |functions| && functions[k].UserFunction? ==>
      functions[k].token.Name? && functions[k].token.name != t.name
    decreases |functions| - i
  {
    if i == |functions| then Missing
    else if !functions[i].UserFunction? then Find(functions, t, i + 1)
    else if !functions[i].token.Name? || !t.Name? then Broken
    else if functions[i].token.name == t.name then Found(functions[i])
    else Find(functions, t, i + 1)
  }

  /**
   * `visit`: the dispatch on the dynamic type of the node. A null node and a
   * plain `Node` match no case and fail. Every other function here is
   * called with the budget already reduced by this visit.
   */
  function Visit(n: Option<Node>, s: State, fuel: nat): (r: Run)
    ensures Extends(s, r.state)
    decreases fuel, 0, 0
  {
    if fuel == 0 then Halt(s, OutOfFuel)
    else if n.None? then Fail(s, "No matching definition found")
    else VisitNode(n.value, s, fuel - 1)
  }

  /** The dispatch on the kind of a present node. */
  function VisitNode(node: Node, s: State, fuel: nat): (r: Run)
    ensures Extends(s, r.state)
    decreases fuel, 4, 0
  {
    match node
    case Factor(t) => VisitFactor(t, s)
    case ArgumentRef(t) => VisitArgument(t, s)
    case Unary(t, argument) => UnaryNode(t, argument, s, fuel)
    case Binary(t, left, right) => BinaryNode(t, left, right, s, fuel)
    case If(_, check, left, right) => VisitIf(check, left, right, s, fuel)
    case List(_, contents) => VisitList(contents, s, fuel)
    case Map(_, functor, list) => VisitMap(functor, list, s, fuel)
    case UserFunction(_, _, _) => VisitUser(node, s, fuel)
    case Base(_) => Fail(s, "No matching definition found")
  }

  /** A unary node: its argument first, then the call on the value it leaves. */
  function UnaryNode(t: Token, argument: Option<Node>, s: State, fuel: nat): (r: Run)
    ensures Extends(s, r.state)
    decreases fuel, 3, 0
  {
    var a := Visit(argument, s, fuel);
    if a.status != Ok then a else VisitUnary(t, a.state, fuel)
  }

  /** A binary node: `concat` on its own, otherwise the left operand, the right one, then the operation. */
  function BinaryNode(t: Token, left: Option<Node>, right: Option<Node>, s: State, fuel: nat): (r: Run)
    ensures Extends(s, r.state)
    decreases fuel, 3, 0
  {
    if !t.Name? then Halt(s, Undefined)
    else if t.name == "concat" then Concat(left, right, s, fuel)
    else
      var a := Visit(left, s, fuel);
      if a.status != Ok then a
      else
        var b := Visit(right, a.state, fuel);
        if b.status != Ok then b else VisitBinary(t, b.state, fuel)
  }

  /** `visit_factor`: a number token's value is pushed. */
  function VisitFactor(t: Token, s: State): (r: Run)
    ensures Extends(s, r.state)
  {
    if t.Num? then Run(Ok, Push(s, t.value)) else Fail(s, "Expected a number")
  }

  /**
   * `visit_argument`: the index is checked against the length of the whole
   * buffer, but the value read is at `offset + index`, computed in 32-bit
   * unsigned arithmetic; a read past the end is undefined.
   */
  function VisitArgument(t: Token, s: State): (r: Run)
    ensures Extends(s, r.state)
  {
    if !t.Arg? then Fail(s, "Expected an argument")
    else if t.index >= |s.arguments| then Fail(s, "Too few arguments in function call")
    else
      var at := (s.offset + t.index) % UnsignedLimit;
      if at < |s.arguments| then Run(Ok, Push(s, s.arguments[at])) else Halt(s, Undefined)
  }

  /**
   * The frame of a unary or binary user call: the offset becomes the old
   * buffer length (`size == 0 ? 0 : size` is `size`), the operands are
   * appended, the definition is visited, then the offset is moved back by
   * the distance it was moved and as many values as were appended are
   * popped off the end of the buffer.
   */
  function Call(definition: Option<Node>, s: State, pushed: seq<real>, fuel: nat): (r: Run)
    ensures Extends(s, r.state)
    decreases fuel, 1, 0
  {
    var size := |s.arguments|;
    var diff := size - s.offset;
    var b := Visit(definition, s.(offset := size, arguments := s.arguments + pushed), fuel);
    if b.status != Ok then b
    else if |b.state.arguments| < |pushed| then Halt(b.state, Undefined)
    else Run(Ok, b.state.(offset := b.state.offset - diff,
                          arguments := b.state.arguments[..|b.state.arguments| - |pushed|]))
  }

  /** `visit_unary`, after the argument has been visited. */
  function VisitUnary(t: Token, s: State, fuel: nat): (r: Run)
    ensures Extends(s, r.state)
    decreases fuel, 2, 0
  {
    if !t.Name? then Halt(s, Undefined)
    else if t.name == "sqrt" || t.name == "sin" || t.name == "cos" then Halt(s, Unmodelled)
    else
      match Find(s.functions, t, 0)
      case Broken => Halt(s, Undefined)
      case Missing => Fail(s, "No matching function definition found")
      case Found(entry) =>
        if |s.results| == 0 then Halt(s, Undefined)
        else Call(entry.definition, Popped(s), [Top(s)], fuel)
  }

  /** The built-in binary operations other than `pow`. */
  predicate IsArithmetic(name: string)
  {
    name in ["add", "sub", "mul", "div", "eq", "le", "nand"]
  }

  /** The value a built-in pushes; comparisons push 1 or 0. */
  function Arithmetic(name: string, left: real, right: real): (r: real)
    requires IsArithmetic(name) && (name == "div" ==> right != 0.0)
    ensures name == "div" ==> r * right == left
    ensures name == "sub" ==> r + right == left
    ensures name in ["eq", "le", "nand"] ==> r == 0.0 || r == 1.0
    ensures name == "nand" ==> (r == 1.0 <==> !(left != 0.0 && right != 0.0))
  {
    if name == "add" then left + right
    else if name == "sub" then left - right
    else if name == "mul" then left * right
    else if name == "div" then left / right
    else if name == "eq" then Truth(left == right)
    else if name == "le" then Truth(left < right)
    else Truth(left == 0.0 || right == 0.0)
  }

  /**
   * `visit_binary`, after both operands have been visited: pop the right
   * operand, then the left, then apply a built-in or call a declaration.
   */
  function VisitBinary(t: Token, s: State, fuel: nat): (r: Run)
    requires t.Name?
    ensures Extends(s, r.state)
    decreases fuel, 2, 0
  {
    if |s.results| < 2 then Halt(s, Undefined)
    else
      var right := s.results[|s.results| - 1];
      var left := s.results[|s.results| - 2];
      Operate(t, left, right, s.(results := s.results[..|s.results| - 2]), fuel)
  }

  /** A binary operation once both operands are popped: a built-in, or a call of a user function with both. */
  function Operate(t: Token, left: real, right: real, p: State, fuel: nat): (r: Run)
    requires t.Name?
    ensures Extends(p, r.state)
    decreases fuel, 1, 1
  {
    if t.name == "div" && right == 0.0 then Fail(p, "Division by 0")
    else if t.name == "pow" then Halt(p, Unmodelled)
    else if IsArithmetic(t.name) then Run(Ok, Push(p, Arithmetic(t.name, left, right)))
    else
      match Find(p.functions, t, 0)
      case Broken => Halt(p, Undefined)
      case Missing => Fail(p, "No matching function definition found")
      case Found(entry) => Call(entry.definition, p, [left, right], fuel)
  }

  /** `visit_if`: the condition is visited and popped; 0 selects `right`, anything else `left`. */
  function VisitIf(check: Option<Node>, left: Option<Node>, right: Option<Node>, s: State, fuel: nat): (r: Run)
    ensures Extends(s, r.state)
    decreases fuel, 2, 0
  {
    var a := Visit(check, s, fuel);
    if a.status != Ok then a
    else if |a.state.results| == 0 then Halt(a.state, Undefined)
    else if Top(a.state) == 0.0 then Visit(right, Popped(a.state), fuel)
    else Visit(left, Popped(a.state), fuel)
  }

  predicate AllCloneable(contents: seq<Option<Node>>)
  {
    forall k :: 0 <= k < |contents| ==> contents[k].Some? && Cloneable(contents[k].value)
  }

  /** The clones `concat` appends, in order. */
  function Clones(contents: seq<Option<Node>>): (r: seq<Option<Node>>)
    requires AllCloneable(contents)
    ensures |r| == |contents|
    ensures forall k :: 0 <= k < |r| ==> r[k] == Some(Clone(contents[k].value))
  {
    seq(|contents|, k requires 0 <= k < |contents| => Some(Clone(contents[k].value)))
  }

  /**
   * The `concat` case of `visit`: a new list of the left list's elements
   * followed by clones of the right list's elements is visited. Operands
   * that are not lists, and elements that cannot be cloned, are undefined.
   */
  function Concat(left: Option<Node>, right: Option<Node>, s: State, fuel: nat): (r: Run)
    ensures Extends(s, r.state)
    decreases fuel, 2, 0
  {
    if !(left.Some? && left.value.List? && right.Some? && right.value.List?) then Halt(s, Undefined)
    else if !AllCloneable(right.value.contents) then Halt(s, Undefined)
    else
      var joined := left.value.contents + Clones(right.value.contents);
      Visit(Some(List(Plain(left.value.token.Type()), joined)), s, fuel)
  }

  /** `visit_list`: `[`, then each element's value followed by `, ` or, for the last, `]`. */
  function VisitList(contents: seq<Option<Node>>, s: State, fuel: nat): (r: Run)
    ensures Extends(s, r.state)
    decreases fuel, 3, 0
  {
    if |contents| == 0 then Halt(s, Undefined)
    else ListItems(contents, 0, s.(output := s.output + [Text("[")]), fuel)
  }

  /** One element of a list: visit it, pop its value and print the value and `separator`. */
  function Element(n: Option<Node>, separator: string, s: State, fuel: nat): (r: Run)
    ensures Extends(s, r.state)
    decreases fuel, 1, 0
  {
    var a := Visit(n, s, fuel);
    if a.status != Ok then a
    else if |a.state.results| == 0 then Halt(a.state, Undefined)
    else Run(Ok, Popped(a.state).(output := a.state.output + [Value(Top(a.state)), Text(separator)]))
  }

  /** The elements from `i` on. */
  function ListItems(contents: seq<Option<Node>>, i: nat, s: State, fuel: nat): (r: Run)
    requires i < |contents|
    ensures Extends(s, r.state)
    decreases fuel, 2, |contents| - i
  {
    if i + 1 < |contents| then
      var a := Element(contents[i], ", ", s, fuel);
      if a.status != Ok then a else ListItems(contents, i + 1, a.state, fuel)
    else Element(contents[i], "]", s, fuel)
  }

  /** The declaration a `map` uses for its function and the contents of the list it maps over, as found so far. */
  datatype Search = Searched(mapEntry: Option<Node>, listContents: Option<seq<Option<Node>>>, count: nat) | SearchBroken

  /** `dynamic_cast<const List_Operation_Node*>` of a definition. */
  function ListOf(definition: Option<Node>): Option<seq<Option<Node>>>
  {
    if definition.Some? && definition.value.List? then Some(definition.value.contents) else None
  }

  /**
   * The registry loop of `visit_map`: a declaration named `fname` becomes the
   * mapped function, one named `lname` supplies the list, each match is
   * counted, and the loop stops once two have been counted.
   */
  function MapSearch(functions: seq<Node>, fname: string, lname: string, i: nat, found: Search): (r: Search)
    requires i <= |functions| && found.Searched?
    requires found.mapEntry.Some? ==> found.mapEntry.value.UserFunction? && found.mapEntry.value.token.Name? && found.mapEntry.value.token.name == fname
    ensures r.Searched? ==> found.count <= r.count
    ensures r.Searched? && r.mapEntry.Some? ==>
      r.mapEntry.value.UserFunction? && r.mapEntry.value.token.Name? && r.mapEntry.value.token.name == fname
    decreases |functions| - i
  {
    if i == |functions| then found
    else
      var e := functions[i];
      var step :=
        if !e.UserFunction? then found
        else if !e.token.Name? then SearchBroken
        else if e.token.name == fname then found.(mapEntry := Some(e), count := found.count + 1)
        else if e.token.name == lname then found.(listContents := ListOf(e.definition), count := found.count + 1)
        else found;
      if step.SearchBroken? || step.count == 2 then step
      else MapSearch(functions, fname, lname, i + 1, step)
  }

  /** A failure inside `visit_map` returns no elements, and rendering those is undefined. */
  function Escalate(r: Run): (e: Run)
    requires r.status != Ok
    ensures e.status.Stuck? && e.state == r.state
  {
    if r.status == Failed then Halt(r.state, Undefined) else r
  }

  datatype MapRun = MapRun(run: Run, values: seq<real>)

  /**
   * One pass of the element loop of `visit_map`: visit the element, move its
   * value to the end of the buffer, then apply the mapped definition.
   */
  function MapStep(element: Option<Node>, definition: Option<Node>, s: State, fuel: nat): (m: MapRun)
    ensures Extends(s, m.run.state)
    ensures m.run.status == Ok ==> |m.values| == 1
    decreases fuel, 1, 1
  {
    var a := Visit(element, s, fuel);
    if a.status != Ok then MapRun(Escalate(a), [])
    else if |a.state.results| == 0 then MapRun(Halt(a.state, Undefined), [])
    else MapApply(definition, Popped(a.state).(arguments := a.state.arguments + [Top(a.state)]), fuel)
  }

  /**
   * The rest of the pass: visit the mapped definition, collect the value it
   * leaves, and drop the buffer's last value again. The `++m_offset` and
   * `--m_offset` around the collection cancel out.
   */
  function MapApply(definition: Option<Node>, s: State, fuel: nat): (m: MapRun)
    ensures Extends(s, m.run.state)
    ensures m.run.status == Ok ==> |m.values| == 1
    decreases fuel, 1, 0
  {
    var b := Visit(definition, s, fuel);
    if b.status != Ok then MapRun(Escalate(b), [])
    else if |b.state.results| == 0 || |b.state.arguments| == 0 then MapRun(Halt(b.state, Undefined), [])
    else MapRun(Run(Ok, Popped(b.state).(arguments := b.state.arguments[..|b.state.arguments| - 1])), [Top(b.state)])
  }

  /** The element loop of `visit_map` from element `i` on, with the values collected so far. */
  function MapElements(contents: seq<Option<Node>>, i: nat, definition: Option<Node>, s: State, fuel: nat, values: seq<real>): (m: MapRun)
    requires i <= |contents|
    ensures Extends(s, m.run.state)
    ensures m.run.status == Ok ==> |m.values| == |values| + |contents| - i
    decreases fuel, 2, |contents| - i
  {
    if i == |contents| then MapRun(Run(Ok, s), values)
    else
      var m := MapStep(contents[i], definition, s, fuel);
      if m.run.status != Ok then MapRun(m.run, values)
      else MapElements(contents, i + 1, definition, m.run.state, fuel, values + m.values)
  }

  /** The values a `map` collected, as the factor nodes of the list it renders. */
  function Factors(values: seq<real>): (r: seq<Option<Node>>)
    ensures |r| == |values|
    ensures forall k :: 0 <= k < |r| ==> r[k] == Some(Factor(Num(values[k])))
  {
    seq(|values|, k requires 0 <= k < |values| => Some(Factor(Num(values[k]))))
  }

  /**
   * The `map` case of `visit` with `visit_map`: the function's name is read
   * from the `list` slot and the list's name from the `functor` slot; the
   * collected values are rendered as a list. Every error path of
   * `visit_map` returns no elements, whose rendering is undefined.
   */
  function VisitMap(functor: Option<Node>, list: Option<Node>, s: State, fuel: nat): (r: Run)
    ensures Extends(s, r.state)
    decreases fuel, 3, 0
  {
    if functor.None? || list.None? then Halt(s, Undefined)
    else if !list.value.token.Name? || !functor.value.token.Name? then Halt(s, Undefined)
    else
      var found := MapSearch(s.functions, list.value.token.name, functor.value.token.name, 0, Searched(None, None, 0));
      if found.SearchBroken? || found.count < 2 || found.mapEntry.None? || found.listContents.None? then Halt(s, Undefined)
      else
        var m := MapElements(found.listContents.value, 0, found.mapEntry.value.definition, s, fuel, []);
        if m.run.status != Ok then m.run
        else if |m.values| == 0 then Halt(m.run.state, Undefined)
        else Visit(Some(List(Plain(functor.value.token.Type()), Factors(m.values))), m.run.state, fuel)
  }

  /** The arguments of an N-ary call from `i` on, left to right, stopping at the first failure. */
  function VisitAll(arguments: seq<Option<Node>>, i: nat, s: State, fuel: nat): (r: Run)
    requires i <= |arguments|
    ensures Extends(s, r.state)
    decreases fuel, 1, |arguments| - i
  {
    if i == |arguments| then Run(Ok, s)
    else
      var a := Visit(arguments[i], s, fuel);
      if a.status != Ok then a else VisitAll(arguments, i + 1, a.state, fuel)
  }

  /**
   * The body of a user function called with arguments: every value on the
   * results stack moves to the argument buffer, the frame starts where they
   * start, and afterwards the frame is shifted back and the buffer cleared.
   */
  function Body(definition: Option<Node>, s: State, fuel: nat): (r: Run)
    ensures Extends(s, r.state)
    decreases fuel, 1, 0
  {
    var diff := |s.arguments| - s.offset;
    var b := Visit(definition, s.(offset := |s.arguments|, arguments := s.arguments + s.results, results := []), fuel);
    if b.status != Ok then b
    else Run(Ok, b.state.(offset := b.state.offset - diff, arguments := []))
  }

  /**
   * `visit_user`. For a registered name: a redefinition fails; a call
   * without arguments visits the definition; an N-ary call visits its
   * arguments, moves the whole result stack to the end of the buffer
   * (bottom first) with the offset at the old buffer length, visits the
   * definition, moves the offset back and clears the buffer. For a new
   * name: a bare name fails, a definition headed by its own name is
   * refused, and anything else is registered.
   */
  function VisitUser(node: Node, s: State, fuel: nat): (r: Run)
    requires node.UserFunction?
    ensures Extends(s, r.state)
    decreases fuel, 2, 0
  {
    match Find(s.functions, node.token, 0)
    case Broken => Halt(s, Undefined)
    case Found(entry) =>
      if node.definition.Some? then Fail(s, "A function with the same name already exists")
      else if |node.arguments| == 0 then Visit(entry.definition, s, fuel)
      else
        var a := VisitAll(node.arguments, 0, s, fuel);
        if a.status != Ok then a else Body(entry.definition, a.state, fuel)
    case Missing =>
      if node.definition.None? then Fail(s, "Expected \"<-\"")
      else if node.token.Name? && node.definition.value.token.Name? && node.token.name == node.definition.value.token.name then
        Fail(s, "Function will cause stack overflow and hence will not be created")
      else Run(Ok, s.(functions := s.functions + [node]))
  }

  /** After a failed line: the frame, the argument buffer and the results stack are emptied. */
  function Cleared(s: State): (r: State)
    ensures r.offset == 0 && r.arguments == [] && r.results == []
    ensures r.functions == s.functions && r.output == s.output
  {
    s.(offset := 0, arguments := [], results := [])
  }

  /** After a good line: the value on top of the stack, if any, is popped and printed. */
  function Printed(s: State): (r: State)
    ensures |s.results| == 0 ==> r == s
    ensures |s.results| > 0 ==> r.results + [Top(s)] == s.results && r.output == s.output + [Value(Top(s))]
    ensures r.arguments == s.arguments && r.offset == s.offset && r.functions == s.functions
  {
    if |s.results| > 0 then Popped(s).(output := s.output + [Value(Top(s))]) else s
  }

  /**
   * `interpret`: after a failure the frame is reset; after success the top
   * value, if any, is printed, and anything left over is reported.
   */
  function Interpret(n: Option<Node>, s: State, fuel: nat): (r: Run)
    ensures Extends(s, r.state)
  {
    var a := Visit(n, s, fuel);
    if a.status.Stuck? then a
    else if a.status == Failed then Run(Failed, Cleared(a.state))
    else
      var p := Printed(a.state);
      if |p.results| > 0 || |p.arguments| > 0 || p.offset != 0 then Run(Ok, Fail(p, "Unexpected argument").state)
      else Run(Ok, p)
  }
}
