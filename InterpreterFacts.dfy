/**
 * Properties of single visits: argument reads and their bound check, the
 * built-in operations, `if`, declarations, list rendering, `concat`, the
 * N-ary call's use of the whole stack, and `interpret`.
 */
module InterpreterFacts {
  import opened Wrappers
  import opened Tokens
  import opened Ast
  import opened InterpreterSpec

  // Argument references

  /** An index inside the current frame pushes the buffer value at `offset + index`. */
  lemma ArgumentInFrame(t: Token, s: State)
    requires t.Arg? && 0 <= s.offset && s.offset + t.index < |s.arguments| && s.offset + t.index < UnsignedLimit
    ensures VisitArgument(t, s) == Run(Ok, s.(results := s.results + [s.arguments[s.offset + t.index]]))
  {
  }

  /** An index at or past the length of the whole buffer fails and pushes nothing. */
  lemma TooFewArguments(t: Token, s: State)
    requires t.Arg? && t.index >= |s.arguments|
    ensures var r := VisitArgument(t, s);
      r.status == Failed && r.state.results == s.results
      && r.state.output == s.output + [Text(RuntimeError("Too few arguments in function call").Render())]
  {
  }

  /**
   * The check compares the index with the whole buffer, not with the
   * current frame: an index that passes it can still point past the end
   * once the offset is added, and that read is undefined.
   */
  lemma CheckedIndexCanLeaveBuffer(t: Token, s: State)
    requires t.Arg? && t.index < |s.arguments| && 0 <= s.offset
    requires |s.arguments| <= s.offset + t.index < UnsignedLimit
    ensures VisitArgument(t, s) == Run(Stuck(Undefined), s)
  {
  }

  /**
   * Inside a unary call made while another frame is open, `#1` passes the
   * check (the buffer holds the outer frame's values too) but is read past
   * the end of the buffer instead of failing with "Too few arguments".
   */
  lemma SecondArgumentOfNestedUnaryCall(s: State, v: real, fuel: nat)
    requires |s.arguments| >= 1 && fuel >= 1 && |s.arguments| + 1 < UnsignedLimit
    ensures Call(Some(ArgumentRef(Arg(1))), s, [v], fuel) == Run(Stuck(Undefined), s.(offset := |s.arguments|, arguments := s.arguments + [v]))
  {
    var inner := s.(offset := |s.arguments|, arguments := s.arguments + [v]);
    CheckedIndexCanLeaveBuffer(Arg(1), inner);
    assert Visit(Some(ArgumentRef(Arg(1))), inner, fuel) == VisitArgument(Arg(1), inner);
  }

  // Built-in operations

  /** eq, le and nand push 1 or 0: eq 1 iff equal, le 1 iff less, nand 0 iff both non-zero. */
  lemma ComparisonsAreTruthValues(left: real, right: real)
    ensures Arithmetic("eq", left, right) == (if left == right then 1.0 else 0.0)
    ensures Arithmetic("le", left, right) == (if left < right then 1.0 else 0.0)
    ensures Arithmetic("nand", left, right) == (if left != 0.0 && right != 0.0 then 0.0 else 1.0)
    ensures Arithmetic("add", left, right) == left + right && Arithmetic("sub", left, right) == left - right
    ensures Arithmetic("mul", left, right) == left * right
  {
  }

  /**
   * A built-in pops the right operand, then the left, and pushes exactly
   * one value; nothing else changes.
   */
  lemma BuiltinReplacesOperands(t: Token, below: seq<real>, left: real, right: real, s: State, fuel: nat)
    requires t.Name? && IsArithmetic(t.name) && (t.name == "div" ==> right != 0.0)
    requires s.results == below + [left, right]
    ensures VisitBinary(t, s, fuel) == Run(Ok, s.(results := below + [Arithmetic(t.name, left, right)]))
  {
    assert s.results[..|s.results| - 2] == below;
  }

  lemma DivisionByZero(below: seq<real>, left: real, s: State, fuel: nat)
    requires s.results == below + [left, 0.0]
    ensures VisitBinary(Name("div"), s, fuel) == Fail(s.(results := below), "Division by 0")
  {
    assert s.results[..|s.results| - 2] == below;
  }

  /** A name that is neither built in nor registered fails, with both operands popped. */
  lemma UnknownBinaryName(t: Token, s: State, fuel: nat)
    requires t.Name? && !IsArithmetic(t.name) && t.name != "pow" && |s.results| >= 2
    requires Find(s.functions, t, 0).Missing?
    ensures VisitBinary(t, s, fuel) == Fail(s.(results := s.results[..|s.results| - 2]), "No matching function definition found")
  {
  }

  lemma UnknownUnaryName(t: Token, s: State, fuel: nat)
    requires t.Name? && t.name != "sqrt" && t.name != "sin" && t.name != "cos"
    requires Find(s.functions, t, 0).Missing?
    ensures VisitUnary(t, s, fuel) == Fail(s, "No matching function definition found")
  {
  }

  // Unary and binary call frames

  /**
   * The definition of a unary or binary call runs with the offset at the
   * caller's buffer length and the operands appended; when it leaves the
   * buffer length and the offset as it found them, the call restores the
   * caller's offset and buffer length.
   */
  lemma CallRestoresFrame(definition: Option<Node>, s: State, pushed: seq<real>, fuel: nat)
    requires var b := Visit(definition, s.(offset := |s.arguments|, arguments := s.arguments + pushed), fuel);
      b.status == Ok && |b.state.arguments| == |s.arguments| + |pushed| && b.state.offset == |s.arguments|
    ensures var r := Call(definition, s, pushed, fuel);
      r.status == Ok && r.state.offset == s.offset && |r.state.arguments| == |s.arguments|
  {
  }

  /** A body that shrinks the buffer below the appended operands makes the frame's `pop_back` undefined. */
  lemma CallOnShrunkBuffer(definition: Option<Node>, s: State, pushed: seq<real>, fuel: nat)
    requires var b := Visit(definition, s.(offset := |s.arguments|, arguments := s.arguments + pushed), fuel);
      b.status == Ok && |b.state.arguments| < |pushed|
    ensures Call(definition, s, pushed, fuel).status == Stuck(Undefined)
  {
  }

  // if

  /**
   * `if` evaluates only one branch: with a zero condition the `left`
   * branch can be anything, otherwise the `right` one can.
   */
  lemma IfIgnoresOtherBranch(check: Option<Node>, left: Option<Node>, right: Option<Node>, other: Option<Node>, s: State, fuel: nat)
    requires var a := Visit(check, s, fuel); a.status == Ok && |a.state.results| > 0
    ensures var a := Visit(check, s, fuel);
      if Top(a.state) == 0.0 then VisitIf(check, other, right, s, fuel) == VisitIf(check, left, right, s, fuel)
      else VisitIf(check, left, other, s, fuel) == VisitIf(check, left, right, s, fuel)
  {
  }

  /** A failing condition stops the `if` before either branch. */
  lemma IfStopsOnFailedCheck(check: Option<Node>, left: Option<Node>, right: Option<Node>, s: State, fuel: nat)
    requires Visit(check, s, fuel).status != Ok
    ensures VisitIf(check, left, right, s, fuel) == Visit(check, s, fuel)
  {
  }

  // Declarations

  /** Declaring a registered name again fails and leaves the registry as it was. */
  lemma Redeclaration(node: Node, s: State, fuel: nat)
    requires node.UserFunction? && node.definition.Some? && Find(s.functions, node.token, 0).Found?
    ensures VisitUser(node, s, fuel) == Fail(s, "A function with the same name already exists")
    ensures VisitUser(node, s, fuel).state.functions == s.functions
  {
  }

  /** A definition headed by the name being declared is refused. */
  lemma SelfReferenceRefused(name: string, definition: Node, s: State, fuel: nat)
    requires definition.token == Name(name)
    requires Find(s.functions, Name(name), 0).Missing?
    ensures var r := VisitUser(UserFunction(Name(name), Some(definition), []), s, fuel);
      r == Fail(s, "Function will cause stack overflow and hence will not be created") && r.state.functions == s.functions
  {
  }

  /** A call of an unregistered name without a definition fails. */
  lemma MissingArrow(node: Node, s: State, fuel: nat)
    requires node.UserFunction? && node.definition.None? && Find(s.functions, node.token, 0).Missing?
    ensures VisitUser(node, s, fuel) == Fail(s, "Expected \"<-\"")
  {
  }

  /** Searching a registry with one more declaration at its end finds what it found before, or else the new one. */
  lemma {:induction false} FindAppended(functions: seq<Node>, node: Node, t: Token, i: nat)
    requires i <= |functions| && node.UserFunction? && node.token.Name? && t.Name? && node.token.name == t.name
    ensures var before := Find(functions, t, i);
      Find(functions + [node], t, i) == if before.Missing? then Found(node) else before
    decreases |functions| - i
  {
    var extended := functions + [node];
    if i == |functions| {
      assert extended[i] == node;
      assert Find(extended, t, i) == Found(node);
    } else {
      assert extended[i] == functions[i];
      FindAppended(functions, node, t, i + 1);
    }
  }

  /**
   * A new name with an acceptable definition is appended to the registry
   * and nothing else changes; from then on a search for the name finds
   * this declaration.
   */
  lemma Registration(node: Node, s: State, fuel: nat)
    requires node.UserFunction? && node.definition.Some? && node.token.Name?
    requires Find(s.functions, node.token, 0).Missing?
    requires !(node.definition.value.token.Name? && node.definition.value.token.name == node.token.name)
    ensures var r := VisitUser(node, s, fuel);
      r == Run(Ok, s.(functions := s.functions + [node])) && Find(r.state.functions, node.token, 0) == Found(node)
  {
    FindAppended(s.functions, node, node.token, 0);
  }

  // N-ary calls

  /** A number node pushes its value. */
  lemma NumberVisit(v: real, s: State, fuel: nat)
    requires fuel >= 1
    ensures Visit(Some(Factor(Num(v))), s, fuel) == Run(Ok, Push(s, v))
  {
    assert Visit(Some(Factor(Num(v))), s, fuel) == VisitFactor(Num(v), s);
  }

  /**
   * A three-argument call made while an unrelated value is on the stack: the
   * registered `g <- #0` gets that value as its first argument, because the
   * call moves the whole stack, not only its own arguments, into the buffer.
   */
  const G: Node := UserFunction(Name("g"), Some(ArgumentRef(Arg(0))), [])
  const CallG: Node := UserFunction(Name("g"), None, [Some(Factor(Num(2.0))), Some(Factor(Num(3.0))), Some(Factor(Num(4.0)))])

  lemma StaleValueIsFirstArgument(fuel: nat)
    requires fuel >= 1
    ensures VisitUser(CallG, State([1.0], [], 0, [G], []), fuel) == Run(Ok, State([1.0], [], 0, [G], []))
  {
    var s := State([1.0], [], 0, [G], []);
    assert Find(s.functions, CallG.token, 0) == Found(G);
    NumberVisit(2.0, s, fuel);
    var a1 := Visit(Some(Factor(Num(2.0))), s, fuel);
    assert a1 == Run(Ok, State([1.0, 2.0], [], 0, [G], []));
    NumberVisit(3.0, a1.state, fuel);
    var a2 := Visit(Some(Factor(Num(3.0))), a1.state, fuel);
    assert a2 == Run(Ok, State([1.0, 2.0, 3.0], [], 0, [G], []));
    NumberVisit(4.0, a2.state, fuel);
    var a3 := Visit(Some(Factor(Num(4.0))), a2.state, fuel);
    assert a3 == Run(Ok, State([1.0, 2.0, 3.0, 4.0], [], 0, [G], []));
    assert VisitAll(CallG.arguments, 3, a3.state, fuel) == a3;
    assert VisitAll(CallG.arguments, 2, a2.state, fuel) == a3;
    assert VisitAll(CallG.arguments, 1, a1.state, fuel) == a3;
    assert VisitAll(CallG.arguments, 0, s, fuel) == a3;
    var inner := State([], [1.0, 2.0, 3.0, 4.0], 0, [G], []);
    assert Visit(G.definition, inner, fuel) == VisitArgument(Arg(0), inner);
    ArgumentInFrame(Arg(0), inner);
    assert VisitArgument(Arg(0), inner) == Run(Ok, State([1.0], [1.0, 2.0, 3.0, 4.0], 0, [G], []));
    assert a3.state.(offset := |a3.state.arguments|, arguments := a3.state.arguments + a3.state.results, results := []) == inner;
    assert Body(G.definition, a3.state, fuel) == Run(Ok, s);
  }

  /** So `add(1, g(2, 3, 4))` leaves one value where `add` pops two, which is undefined. */
  lemma NaryCallInsideBinaryIsUndefined(fuel: nat)
    requires fuel >= 3
    ensures Visit(Some(Binary(Name("add"), Some(Factor(Num(1.0))), Some(CallG))), State([], [], 0, [G], []), fuel).status == Stuck(Undefined)
  {
    var s := State([], [], 0, [G], []);
    var f := fuel - 1;
    NumberVisit(1.0, s, f);
    var a := Visit(Some(Factor(Num(1.0))), s, f);
    assert a == Run(Ok, State([1.0], [], 0, [G], []));
    StaleValueIsFirstArgument(f - 1);
    assert Visit(Some(CallG), a.state, f) == VisitUser(CallG, a.state, f - 1);
    assert BinaryNode(Name("add"), Some(Factor(Num(1.0))), Some(CallG), s, f).status == Stuck(Undefined);
  }

  // Lists

  /** What a list of numbers prints after `[`. */
  function Shown(values: seq<real>): (r: seq<Out>)
    requires |values| > 0
    ensures |r| == 2 * |values| && r[|r| - 1] == Text("]")
    ensures forall k :: 0 <= k < |values| ==> r[2 * k] == Value(values[k])
  {
    if |values| == 1 then [Value(values[0]), Text("]")]
    else [Value(values[0]), Text(", ")] + Shown(values[1..])
  }

  /**
   * The element `n` evaluates to `v`: whatever was printed before, visiting
   * it succeeds, pushes `v` and changes nothing else.
   */
  ghost predicate Yields(n: Option<Node>, s: State, fuel: nat, v: real)
  {
    forall out :: Visit(n, s.(output := out), fuel) == Run(Ok, Push(s.(output := out), v))
  }

  /** Elements from `i` on that each evaluate to the value at the same place in `values`. */
  ghost predicate AllYield(contents: seq<Option<Node>>, values: seq<real>, i: nat, s: State, fuel: nat)
  {
    |contents| == |values| && forall k :: i <= k < |contents| ==> Yields(contents[k], s, fuel, values[k])
  }

  /**
   * The element loop over elements that each evaluate to one value: it
   * prints the values in order, separated by ", " and closed by "]", and
   * leaves the stack, the buffer, the offset and the registry as they were.
   */
  lemma {:induction false} ListItemsPrint(contents: seq<Option<Node>>, values: seq<real>, i: nat, s: State, fuel: nat)
    requires i < |contents| && AllYield(contents, values, i, s, fuel)
    ensures ListItems(contents, i, s, fuel) == Run(Ok, s.(output := s.output + Shown(values[i..])))
    decreases |contents| - i
  {
    var separator := if i + 1 < |contents| then ", " else "]";
    assert Visit(contents[i], s.(output := s.output), fuel) == Run(Ok, Push(s, values[i]));
    var e := Element(contents[i], separator, s, fuel);
    assert e == Run(Ok, s.(output := s.output + [Value(values[i]), Text(separator)]));
    if i + 1 < |contents| {
      forall k | i + 1 <= k < |contents|
        ensures Yields(contents[k], e.state, fuel, values[k])
      {
        forall out ensures Visit(contents[k], e.state.(output := out), fuel) == Run(Ok, Push(e.state.(output := out), values[k])) {
          assert e.state.(output := out) == s.(output := out);
        }
      }
      ListItemsPrint(contents, values, i + 1, e.state, fuel);
      assert values[i..][1..] == values[i + 1..];
    }
  }

  /**
   * A non-empty list whose elements each evaluate to one value prints
   * `[v1, v2, ..., vn]` and leaves the stack, the buffer, the offset and the
   * registry as they were.
   */
  lemma ListPrints(t: Token, contents: seq<Option<Node>>, values: seq<real>, s: State, fuel: nat)
    requires |contents| > 0 && fuel >= 1 && AllYield(contents, values, 0, s, fuel - 1)
    ensures Visit(Some(List(t, contents)), s, fuel) == Run(Ok, s.(output := s.output + [Text("[")] + Shown(values)))
  {
    var s' := s.(output := s.output + [Text("[")]);
    forall k | 0 <= k < |contents| ensures Yields(contents[k], s', fuel - 1, values[k]) {
      forall out ensures Visit(contents[k], s'.(output := out), fuel - 1) == Run(Ok, Push(s'.(output := out), values[k])) {
        assert s'.(output := out) == s.(output := out);
      }
    }
    ListItemsPrint(contents, values, 0, s', fuel - 1);
    assert Visit(Some(List(t, contents)), s, fuel) == VisitList(contents, s, fuel - 1);
    assert values[0..] == values;
  }

  /** A number factor evaluates to its number, whatever the state. */
  lemma FactorYields(v: real, s: State, fuel: nat)
    requires fuel >= 1
    ensures Yields(Some(Factor(Num(v))), s, fuel, v)
  {
    forall out ensures Visit(Some(Factor(Num(v))), s.(output := out), fuel) == Run(Ok, Push(s.(output := out), v)) {
      NumberVisit(v, s.(output := out), fuel);
    }
  }

  /** An argument reference inside the current frame evaluates to the buffer value it points at, whatever was printed. */
  lemma ArgumentYields(t: Token, s: State, fuel: nat)
    requires fuel >= 1 && t.Arg? && 0 <= s.offset && s.offset + t.index < |s.arguments| && s.offset + t.index < UnsignedLimit
    ensures Yields(Some(ArgumentRef(t)), s, fuel, s.arguments[s.offset + t.index])
  {
    forall out ensures Visit(Some(ArgumentRef(t)), s.(output := out), fuel) == Run(Ok, Push(s.(output := out), s.arguments[s.offset + t.index])) {
      ArgumentInFrame(t, s.(output := out));
      assert Visit(Some(ArgumentRef(t)), s.(output := out), fuel) == VisitArgument(t, s.(output := out));
    }
  }

  /**
   * A list of numbers prints `[v1, v2, ..., vn]` and leaves the stack, the
   * buffer, the offset and the registry as they were.
   */
  lemma NumberListPrints(t: Token, values: seq<real>, s: State, fuel: nat)
    requires |values| > 0 && fuel >= 2
    ensures Visit(Some(List(t, Factors(values))), s, fuel) == Run(Ok, s.(output := s.output + [Text("[")] + Shown(values)))
  {
    forall k | 0 <= k < |values| ensures Yields(Factors(values)[k], s, fuel - 1, values[k]) {
      FactorYields(values[k], s, fuel - 1);
    }
    ListPrints(t, Factors(values), values, s, fuel);
  }

  /** An empty list cannot be rendered. */
  lemma EmptyListIsUndefined(t: Token, s: State, fuel: nat)
    requires fuel >= 1
    ensures Visit(Some(List(t, [])), s, fuel) == Run(Stuck(Undefined), s)
  {
    assert Visit(Some(List(t, [])), s, fuel) == VisitList([], s, fuel - 1);
  }

  /**
   * `concat` of two lists, when the left one is not empty, each left
   * element evaluates to the value at its place in `a`, and each clone of a
   * right element to the value at its place in `b`: it prints the left
   * list's values followed by the right list's, as one list.
   */
  lemma ConcatPrints(left: Token, right: Token, lc: seq<Option<Node>>, rc: seq<Option<Node>>, a: seq<real>, b: seq<real>, s: State, fuel: nat)
    requires |lc| > 0 && fuel >= 2 && AllCloneable(rc)
    requires AllYield(lc, a, 0, s, fuel - 2) && AllYield(Clones(rc), b, 0, s, fuel - 2)
    ensures Visit(Some(Binary(Name("concat"), Some(List(left, lc)), Some(List(right, rc)))), s, fuel)
      == Run(Ok, s.(output := s.output + [Text("[")] + Shown(a + b)))
  {
    var joined := lc + Clones(rc);
    assert AllYield(joined, a + b, 0, s, fuel - 2) by {
      forall k | 0 <= k < |joined| ensures Yields(joined[k], s, fuel - 2, (a + b)[k]) {
        if k < |lc| {
          assert joined[k] == lc[k] && (a + b)[k] == a[k];
        } else {
          assert joined[k] == Clones(rc)[k - |lc|] && (a + b)[k] == b[k - |lc|];
        }
      }
    }
    ListPrints(Plain(left.Type()), joined, a + b, s, fuel - 1);
    assert Visit(Some(Binary(Name("concat"), Some(List(left, lc)), Some(List(right, rc)))), s, fuel)
      == BinaryNode(Name("concat"), Some(List(left, lc)), Some(List(right, rc)), s, fuel - 1);
    assert BinaryNode(Name("concat"), Some(List(left, lc)), Some(List(right, rc)), s, fuel - 1)
      == Concat(Some(List(left, lc)), Some(List(right, rc)), s, fuel - 1);
  }

  /** `concat` of two lists of numbers prints the left list's values followed by the right list's. */
  lemma ConcatOfNumberLists(left: Token, right: Token, a: seq<real>, b: seq<real>, s: State, fuel: nat)
    requires |a| > 0 && fuel >= 3
    ensures Visit(Some(Binary(Name("concat"), Some(List(left, Factors(a))), Some(List(right, Factors(b))))), s, fuel)
      == Run(Ok, s.(output := s.output + [Text("[")] + Shown(a + b)))
  {
    var tail := Factors(b);
    assert AllCloneable(tail);
    assert Clones(tail) == tail;
    forall k | 0 <= k < |a| ensures Yields(Factors(a)[k], s, fuel - 2, a[k]) {
      FactorYields(a[k], s, fuel - 2);
    }
    forall k | 0 <= k < |b| ensures Yields(tail[k], s, fuel - 2, b[k]) {
      FactorYields(b[k], s, fuel - 2);
    }
    ConcatPrints(left, right, Factors(a), tail, a, b, s, fuel);
  }

  // interpret

  /** After a failed line the frame, the buffer and the stack are empty; declarations made before the failure stay. */
  lemma FailedLineResets(n: Option<Node>, s: State, fuel: nat)
    requires Visit(n, s, fuel).status == Failed
    ensures var r := Interpret(n, s, fuel);
      r.status == Failed && r.state.offset == 0 && r.state.arguments == [] && r.state.results == []
      && r.state.functions == Visit(n, s, fuel).state.functions && r.state.output == Visit(n, s, fuel).state.output
  {
  }

  /** A line that leaves exactly one value and a clean frame prints that value and nothing else. */
  lemma LinePrintsItsValue(n: Option<Node>, s: State, fuel: nat, v: real)
    requires var a := Visit(n, s, fuel);
      a.status == Ok && a.state.results == [v] && a.state.arguments == [] && a.state.offset == 0
    ensures var a := Visit(n, s, fuel);
      Interpret(n, s, fuel) == Run(Ok, a.state.(results := [], output := a.state.output + [Value(v)]))
  {
  }

  /** A declaration that leaves nothing prints nothing. */
  lemma QuietLinePrintsNothing(n: Option<Node>, s: State, fuel: nat)
    requires var a := Visit(n, s, fuel);
      a.status == Ok && a.state.results == [] && a.state.arguments == [] && a.state.offset == 0
    ensures Interpret(n, s, fuel) == Visit(n, s, fuel)
  {
  }

  /**
   * A line that leaves more than one value prints the top one, then reports
   * "Unexpected argument", and keeps the rest: nothing is reset.
   */
  lemma LeftoverIsReported(n: Option<Node>, s: State, fuel: nat)
    requires var a := Visit(n, s, fuel); a.status == Ok && |a.state.results| >= 2
    ensures var a := Visit(n, s, fuel); var r := Interpret(n, s, fuel);
      r.status == Ok && r.state.results == a.state.results[..|a.state.results| - 1]
      && r.state.arguments == a.state.arguments && r.state.offset == a.state.offset
      && r.state.output == a.state.output + [Value(Top(a.state)), Text(RuntimeError("Unexpected argument").Render())]
  {
  }

  /** Undefined behaviour and running out of budget are passed on by `interpret` untouched. */
  lemma StuckLineIsPassedOn(n: Option<Node>, s: State, fuel: nat)
    requires Visit(n, s, fuel).status.Stuck?
    ensures Interpret(n, s, fuel) == Visit(n, s, fuel)
  {
  }
}
