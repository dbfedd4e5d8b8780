/**
 * `Interpreter` of Interpreter.h: the result stack (a `Stack` of reals),
 * the flat argument buffer, the frame offset and the registry of
 * declarations are fields the `visit` methods update in place; `output`
 * collects what is written to the output stream. Each method is proved to
 * compute what the function of the same name in `InterpreterSpec` states.
 * Where the source pops an empty stack or vector, the method checks first
 * and stops with `Stuck(Undefined)` instead.
 */
module Interpreting {
  import opened Wrappers
  import opened Tokens
  import opened Ast
  import opened Stacks
  import opened InterpreterSpec

  class Interpreter {
    const results: Stack<real>
    var arguments: seq<real>
    var offset: int
    var functions: seq<Node>
    var output: seq<Out>

    ghost predicate Valid()
      reads this, results
    {
      results.Valid()
    }

    /** The state the fields make up. */
    ghost function Current(): State
      reads this, results, results.data
      requires Valid()
    {
      State(results.Contents(), arguments, offset, functions, output)
    }

    /** A fresh interpreter starts with empty containers and offset 0. */
    constructor()
      ensures Valid() && fresh(results) && fresh(results.data)
      ensures Current() == Initial
    {
      results := new Stack<real>();
      arguments := [];
      offset := 0;
      functions := [];
      output := [];
    }

    /** `Runtime_Error(details).print(out)`, returning false. */
    method Report(details: string) returns (status: Status)
      modifies this
      ensures status == Failed && output == old(output) + [Text(RuntimeError(details).Render())]
      ensures arguments == old(arguments) && offset == old(offset) && functions == old(functions)
    {
      output := output + [Text(RuntimeError(details).Render())];
      status := Failed;
    }

    /** A unary node: its argument, then the unary operation. */
    method UnaryNode(t: Token, argument: Option<Node>, fuel: nat) returns (status: Status)
      requires Valid()
      modifies this, results, results.data
      ensures Valid() && (results.data == old(results.data) || fresh(results.data))
      ensures Run(status, Current()) == InterpreterSpec.UnaryNode(t, argument, old(Current()), fuel)
      decreases fuel, 3, 0
    {
      status := Visit(argument, fuel);
      if status == Ok {
        status := VisitUnary(t, fuel);
      }
    }

    /** A binary node: `concat`, or both operands and then the binary operation. */
    method BinaryNode(t: Token, left: Option<Node>, right: Option<Node>, fuel: nat) returns (status: Status)
      requires Valid()
      modifies this, results, results.data
      ensures Valid() && (results.data == old(results.data) || fresh(results.data))
      ensures Run(status, Current()) == InterpreterSpec.BinaryNode(t, left, right, old(Current()), fuel)
      decreases fuel, 3, 0
    {
      if !t.Name? {
        return Stuck(Undefined);
      }
      if t.name == "concat" {
        status := Concat(left, right, fuel);
        return;
      }
      status := Visit(left, fuel);
      if status != Ok {
        return;
      }
      status := Visit(right, fuel);
      if status != Ok {
        return;
      }
      status := VisitBinary(t, fuel);
    }

    /** The registry loop shared by the call paths. */
    method Find(t: Token) returns (r: Lookup)
      ensures r == InterpreterSpec.Find(functions, t, 0)
    {
      var i := 0;
      while i < |functions|
        invariant 0 <= i <= |functions|
        invariant InterpreterSpec.Find(functions, t, i) == InterpreterSpec.Find(functions, t, 0)
      {
        var e := functions[i];
        if e.UserFunction? {
          if !e.token.Name? || !t.Name? {
            return Broken;
          }
          if e.token.name == t.name {
            return Found(e);
          }
        }
        i := i + 1;
      }
      return Missing;
    }

    method Visit(n: Option<Node>, fuel: nat) returns (status: Status)
      requires Valid()
      modifies this, results, results.data
      ensures Valid() && (results.data == old(results.data) || fresh(results.data))
      ensures Run(status, Current()) == InterpreterSpec.Visit(n, old(Current()), fuel)
      decreases fuel, 0, 0
    {
      if fuel == 0 {
        return Stuck(OutOfFuel);
      }
      var f := fuel - 1;
      if n.None? {
        status := Report("No matching definition found");
        return;
      }
      status := VisitNode(n.value, f);
    }

    /** The dispatch on the kind of node. */
    method VisitNode(node: Node, fuel: nat) returns (status: Status)
      requires Valid()
      modifies this, results, results.data
      ensures Valid() && (results.data == old(results.data) || fresh(results.data))
      ensures Run(status, Current()) == InterpreterSpec.VisitNode(node, old(Current()), fuel)
      decreases fuel, 4, 0
    {
      match node
      case Factor(t) =>
        status := VisitFactor(t);
      case ArgumentRef(t) =>
        status := VisitArgument(t);
      case Unary(t, argument) =>
        status := UnaryNode(t, argument, fuel);
      case Binary(t, left, right) =>
        status := BinaryNode(t, left, right, fuel);
      case If(_, check, left, right) =>
        status := VisitIf(check, left, right, fuel);
      case List(_, contents) =>
        status := VisitList(contents, fuel);
      case Map(_, functor, list) =>
        status := VisitMap(functor, list, fuel);
      case UserFunction(_, _, _) =>
        status := VisitUser(node, fuel);
      case Base(_) =>
        status := Report("No matching definition found");
    }

    method VisitFactor(t: Token) returns (status: Status)
      requires Valid()
      modifies this, results, results.data
      ensures Valid() && (results.data == old(results.data) || fresh(results.data))
      ensures Run(status, Current()) == InterpreterSpec.VisitFactor(t, old(Current()))
    {
      if t.Num? {
        results.Push(t.value);
        return Ok;
      }
      status := Report("Expected a number");
    }

    method VisitArgument(t: Token) returns (status: Status)
      requires Valid()
      modifies this, results, results.data
      ensures Valid() && (results.data == old(results.data) || fresh(results.data))
      ensures Run(status, Current()) == InterpreterSpec.VisitArgument(t, old(Current()))
    {
      if t.Arg? {
        if t.index >= |arguments| {
          status := Report("Too few arguments in function call");
          return;
        }
        var at := (offset + t.index) % UnsignedLimit;
        if at >= |arguments| {
          return Stuck(Undefined);
        }
        results.Push(arguments[at]);
        return Ok;
      }
      status := Report("Expected an argument");
    }

    /** The frame around a unary or binary user call, with the operands in `pushed`. */
    method Call(definition: Option<Node>, pushed: seq<real>, fuel: nat) returns (status: Status)
      requires Valid()
      modifies this, results, results.data
      ensures Valid() && (results.data == old(results.data) || fresh(results.data))
      ensures Run(status, Current()) == InterpreterSpec.Call(definition, old(Current()), pushed, fuel)
      decreases fuel, 1, 0
    {
      var size := |arguments|;
      var diff := size - offset;
      offset := if size == 0 then 0 else size;
      arguments := arguments + pushed;
      status := Visit(definition, fuel);
      if status != Ok {
        return;
      }
      if |arguments| < |pushed| {
        return Stuck(Undefined);
      }
      offset := offset - diff;
      arguments := arguments[..|arguments| - |pushed|];
    }

    method VisitUnary(t: Token, fuel: nat) returns (status: Status)
      requires Valid()
      modifies this, results, results.data
      ensures Valid() && (results.data == old(results.data) || fresh(results.data))
      ensures Run(status, Current()) == InterpreterSpec.VisitUnary(t, old(Current()), fuel)
      decreases fuel, 2, 0
    {
      if !t.Name? {
        return Stuck(Undefined);
      }
      if t.name == "sqrt" || t.name == "sin" || t.name == "cos" {
        return Stuck(Unmodelled);
      }
      var found := Find(t);
      match found
      case Broken =>
        return Stuck(Undefined);
      case Missing =>
        status := Report("No matching function definition found");
      case Found(entry) =>
        var empty := results.IsEmpty();
        if empty {
          return Stuck(Undefined);
        }
        var v := results.Pop();
        status := Call(entry.definition, [v], fuel);
    }

    method VisitBinary(t: Token, fuel: nat) returns (status: Status)
      requires Valid() && t.Name?
      modifies this, results, results.data
      ensures Valid() && (results.data == old(results.data) || fresh(results.data))
      ensures Run(status, Current()) == InterpreterSpec.VisitBinary(t, old(Current()), fuel)
      decreases fuel, 2, 0
    {
      var size := results.Size();
      if size < 2 {
        return Stuck(Undefined);
      }
      ghost var before := results.Contents();
      var right := results.Pop();
      var left := results.Pop();
      assert results.Contents() == before[..|before| - 2] && left == before[|before| - 2];
      status := Operate(t, left, right, fuel);
    }

    /** The operation of a binary node on its two popped operands. */
    method Operate(t: Token, left: real, right: real, fuel: nat) returns (status: Status)
      requires Valid() && t.Name?
      modifies this, results, results.data
      ensures Valid() && (results.data == old(results.data) || fresh(results.data))
      ensures Run(status, Current()) == InterpreterSpec.Operate(t, left, right, old(Current()), fuel)
      decreases fuel, 1, 1
    {
      if t.name == "div" && right == 0.0 {
        status := Report("Division by 0");
        return;
      }
      if t.name == "pow" {
        return Stuck(Unmodelled);
      }
      if IsArithmetic(t.name) {
        results.Push(Arithmetic(t.name, left, right));
        return Ok;
      }
      var found := Find(t);
      match found
      case Broken =>
        return Stuck(Undefined);
      case Missing =>
        status := Report("No matching function definition found");
      case Found(entry) =>
        status := Call(entry.definition, [left, right], fuel);
    }

    method VisitIf(check: Option<Node>, left: Option<Node>, right: Option<Node>, fuel: nat) returns (status: Status)
      requires Valid()
      modifies this, results, results.data
      ensures Valid() && (results.data == old(results.data) || fresh(results.data))
      ensures Run(status, Current()) == InterpreterSpec.VisitIf(check, left, right, old(Current()), fuel)
      decreases fuel, 2, 0
    {
      ghost var a := InterpreterSpec.Visit(check, Current(), fuel);
      status := Visit(check, fuel);
      if status != Ok {
        return;
      }
      var empty := results.IsEmpty();
      if empty {
        return Stuck(Undefined);
      }
      var v := results.Pop();
      assert v == Top(a.state) && Current() == Popped(a.state);
      if v == 0.0 {
        status := Visit(right, fuel);
      } else {
        status := Visit(left, fuel);
      }
    }

    /** The `concat` case of `visit`. */
    method Concat(left: Option<Node>, right: Option<Node>, fuel: nat) returns (status: Status)
      requires Valid()
      modifies this, results, results.data
      ensures Valid() && (results.data == old(results.data) || fresh(results.data))
      ensures Run(status, Current()) == InterpreterSpec.Concat(left, right, old(Current()), fuel)
      decreases fuel, 2, 0
    {
      if !(left.Some? && left.value.List? && right.Some? && right.value.List?) {
        return Stuck(Undefined);
      }
      var tail := right.value.contents;
      var joined := left.value.contents;
      for i := 0 to |tail|
        invariant AllCloneable(tail[..i])
        invariant joined == left.value.contents + Clones(tail[..i])
      {
        if tail[i].None? || !Cloneable(tail[i].value) {
          return Stuck(Undefined);
        }
        joined := joined + [Some(Clone(tail[i].value))];
      }
      assert tail[..|tail|] == tail;
      status := Visit(Some(List(Plain(left.value.token.Type()), joined)), fuel);
    }

    method VisitList(contents: seq<Option<Node>>, fuel: nat) returns (status: Status)
      requires Valid()
      modifies this, results, results.data
      ensures Valid() && (results.data == old(results.data) || fresh(results.data))
      ensures Run(status, Current()) == InterpreterSpec.VisitList(contents, old(Current()), fuel)
      decreases fuel, 3, 0
    {
      if |contents| == 0 {
        return Stuck(Undefined);
      }
      output := output + [Text("[")];
      ghost var goal := ListItems(contents, 0, Current(), fuel);
      var i := 0;
      while i + 1 < |contents|
        invariant 0 <= i < |contents|
        invariant Valid() && (results.data == old(results.data) || fresh(results.data))
        invariant ListItems(contents, i, Current(), fuel) == goal
      {
        status := Element(contents[i], ", ", fuel);
        if status != Ok {
          return;
        }
        i := i + 1;
      }
      status := Element(contents[i], "]", fuel);
    }

    /** One element of a list: `visit`, then `out << m_results.pop() << separator`. */
    method Element(n: Option<Node>, separator: string, fuel: nat) returns (status: Status)
      requires Valid()
      modifies this, results, results.data
      ensures Valid() && (results.data == old(results.data) || fresh(results.data))
      ensures Run(status, Current()) == InterpreterSpec.Element(n, separator, old(Current()), fuel)
      decreases fuel, 1, 0
    {
      status := Visit(n, fuel);
      if status != Ok {
        return;
      }
      var empty := results.IsEmpty();
      if empty {
        return Stuck(Undefined);
      }
      var v := results.Pop();
      output := output + [Value(v), Text(separator)];
    }

    /** The registry loop of `visit_map`. */
    method MapSearch(fname: string, lname: string) returns (found: Search)
      ensures found == InterpreterSpec.MapSearch(functions, fname, lname, 0, Searched(None, None, 0))
    {
      var mapEntry: Option<Node> := None;
      var listContents: Option<seq<Option<Node>>> := None;
      var j := 0;
      var i := 0;
      while i < |functions|
        invariant 0 <= i <= |functions|
        invariant mapEntry.Some? ==> mapEntry.value.UserFunction? && mapEntry.value.token.Name? && mapEntry.value.token.name == fname
        invariant InterpreterSpec.MapSearch(functions, fname, lname, i, Searched(mapEntry, listContents, j))
          == InterpreterSpec.MapSearch(functions, fname, lname, 0, Searched(None, None, 0))
      {
        var e := functions[i];
        if e.UserFunction? {
          if !e.token.Name? {
            return SearchBroken;
          }
          if e.token.name == fname || e.token.name == lname {
            if e.token.name == fname {
              mapEntry := Some(e);
              j := j + 1;
            } else {
              listContents := ListOf(e.definition);
              j := j + 1;
            }
          }
        }
        if j == 2 {
          break;
        }
        i := i + 1;
      }
      return Searched(mapEntry, listContents, j);
    }

    /** The element loop of `visit_map`, returning the collected values. */
    method MapElements(contents: seq<Option<Node>>, definition: Option<Node>, fuel: nat) returns (status: Status, values: seq<real>)
      requires Valid()
      modifies this, results, results.data
      ensures Valid() && (results.data == old(results.data) || fresh(results.data))
      ensures MapRun(Run(status, Current()), values) == InterpreterSpec.MapElements(contents, 0, definition, old(Current()), fuel, [])
      decreases fuel, 2, 0
    {
      values := [];
      ghost var goal := InterpreterSpec.MapElements(contents, 0, definition, Current(), fuel, []);
      for i := 0 to |contents|
        invariant Valid() && (results.data == old(results.data) || fresh(results.data))
        invariant InterpreterSpec.MapElements(contents, i, definition, Current(), fuel, values) == goal
      {
        var value;
        status, value := MapStep(contents[i], definition, fuel);
        if status != Ok {
          return;
        }
        values := values + value;
      }
      status := Ok;
    }

    /** One pass of the element loop of `visit_map`; `value` holds the collected value. */
    method MapStep(element: Option<Node>, definition: Option<Node>, fuel: nat) returns (status: Status, value: seq<real>)
      requires Valid()
      modifies this, results, results.data
      ensures Valid() && (results.data == old(results.data) || fresh(results.data))
      ensures MapRun(Run(status, Current()), value) == InterpreterSpec.MapStep(element, definition, old(Current()), fuel)
      decreases fuel, 1, 1
    {
      ghost var a := InterpreterSpec.Visit(element, Current(), fuel);
      status := Visit(element, fuel);
      if status != Ok {
        status := if status == Failed then Stuck(Undefined) else status;
        return status, [];
      }
      var empty := results.IsEmpty();
      if empty {
        return Stuck(Undefined), [];
      }
      var v := results.Pop();
      arguments := arguments + [v];
      assert Current() == Popped(a.state).(arguments := a.state.arguments + [Top(a.state)]);
      status, value := MapApply(definition, fuel);
    }

    /** The mapped definition applied to the value just moved to the buffer, and the value it leaves collected. */
    method MapApply(definition: Option<Node>, fuel: nat) returns (status: Status, value: seq<real>)
      requires Valid()
      modifies this, results, results.data
      ensures Valid() && (results.data == old(results.data) || fresh(results.data))
      ensures MapRun(Run(status, Current()), value) == InterpreterSpec.MapApply(definition, old(Current()), fuel)
      decreases fuel, 1, 0
    {
      ghost var b := InterpreterSpec.Visit(definition, Current(), fuel);
      status := Visit(definition, fuel);
      if status != Ok {
        status := if status == Failed then Stuck(Undefined) else status;
        return status, [];
      }
      assert Current() == b.state;
      var empty := results.IsEmpty();
      if empty || |arguments| == 0 {
        return Stuck(Undefined), [];
      }
      offset := offset + 1;
      var w := results.Pop();
      value := [w];
      offset := offset - 1;
      arguments := arguments[..|arguments| - 1];
    }

    /** The `map` case of `visit` together with `visit_map`. */
    method VisitMap(functor: Option<Node>, list: Option<Node>, fuel: nat) returns (status: Status)
      requires Valid()
      modifies this, results, results.data
      ensures Valid() && (results.data == old(results.data) || fresh(results.data))
      ensures Run(status, Current()) == InterpreterSpec.VisitMap(functor, list, old(Current()), fuel)
      decreases fuel, 3, 0
    {
      if functor.None? || list.None? {
        return Stuck(Undefined);
      }
      if !list.value.token.Name? || !functor.value.token.Name? {
        return Stuck(Undefined);
      }
      var found := MapSearch(list.value.token.name, functor.value.token.name);
      if found.SearchBroken? || found.count < 2 || found.mapEntry.None? || found.listContents.None? {
        return Stuck(Undefined);
      }
      var values;
      status, values := MapElements(found.listContents.value, found.mapEntry.value.definition, fuel);
      if status != Ok {
        return;
      }
      if |values| == 0 {
        return Stuck(Undefined);
      }
      status := Visit(Some(List(Plain(functor.value.token.Type()), Factors(values))), fuel);
    }

    /**
     * Moves every value on the result stack into the buffer, the top into
     * the last slot, after growing the buffer to the old length plus the
     * stack's size; the `while` of the N-ary call path.
     */
    method MoveResults()
      requires Valid()
      modifies this, results
      ensures Valid() && results.data == old(results.data)
      ensures results.Contents() == [] && arguments == old(arguments) + old(results.Contents())
      ensures offset == old(offset) && functions == old(functions) && output == old(output)
    {
      var size := results.Size();
      var base := |arguments|;
      size := size + base;
      if size > |arguments| {
        arguments := arguments + seq(size - |arguments|, _ => 0.0);
      }
      ghost var stack := results.Contents();
      var empty := results.IsEmpty();
      while !empty && size > 0
        invariant Valid() && results.data == old(results.data)
        invariant |results.Contents()| + base == size && |arguments| == base + |stack|
        invariant arguments[..base] == old(arguments)
        invariant results.Contents() == stack[..size - base]
        invariant arguments[size..] == stack[size - base..]
        invariant empty <==> results.Contents() == []
        invariant offset == old(offset) && functions == old(functions) && output == old(output)
        decreases size
      {
        size := size - 1;
        ghost var before := arguments;
        var v := results.Pop();
        assert v == stack[size - base] && results.Contents() == stack[..size - base];
        arguments := arguments[size := v];
        assert arguments[..base] == before[..base];
        assert arguments[size..] == [v] + before[size + 1..];
        empty := results.IsEmpty();
      }
      assert arguments == arguments[..base] + arguments[base..];
    }

    /** The call of a user function's body once its arguments are on the results stack. */
    method Body(definition: Option<Node>, fuel: nat) returns (status: Status)
      requires Valid()
      modifies this, results, results.data
      ensures Valid() && (results.data == old(results.data) || fresh(results.data))
      ensures Run(status, Current()) == InterpreterSpec.Body(definition, old(Current()), fuel)
      decreases fuel, 1, 0
    {
      var size := |arguments|;
      var diff := size - offset;
      offset := if size == 0 then 0 else size;
      MoveResults();
      status := Visit(definition, fuel);
      if status != Ok {
        return;
      }
      offset := offset - diff;
      arguments := [];
    }

    method VisitUser(node: Node, fuel: nat) returns (status: Status)
      requires Valid() && node.UserFunction?
      modifies this, results, results.data
      ensures Valid() && (results.data == old(results.data) || fresh(results.data))
      ensures Run(status, Current()) == InterpreterSpec.VisitUser(node, old(Current()), fuel)
      decreases fuel, 2, 0
    {
      var found := Find(node.token);
      match found
      case Broken =>
        return Stuck(Undefined);
      case Found(entry) =>
        if node.definition.Some? {
          status := Report("A function with the same name already exists");
          return;
        }
        if |node.arguments| == 0 {
          status := Visit(entry.definition, fuel);
          return;
        }
        ghost var goal := VisitAll(node.arguments, 0, Current(), fuel);
        for i := 0 to |node.arguments|
          invariant Valid() && (results.data == old(results.data) || fresh(results.data))
          invariant VisitAll(node.arguments, i, Current(), fuel) == goal
        {
          status := Visit(node.arguments[i], fuel);
          if status != Ok {
            return;
          }
        }
        status := Body(entry.definition, fuel);
      case Missing =>
        if node.definition.None? {
          status := Report("Expected \"<-\"");
          return;
        }
        var definition := node.definition.value;
        if node.token.Name? && definition.token.Name? && node.token.name == definition.token.name {
          status := Report("Function will cause stack overflow and hence will not be created");
          return;
        }
        functions := functions + [node];
        status := Ok;
    }

    /** The reset after a failed line: the frame and the buffer are emptied and the stack popped dry. */
    method Clear()
      requires Valid()
      modifies this, results
      ensures Valid() && results.data == old(results.data)
      ensures Current() == Cleared(old(Current()))
    {
      offset := 0;
      arguments := [];
      var empty := results.IsEmpty();
      ghost var after, registry := output, functions;
      while !empty
        invariant Valid() && results.data == old(results.data)
        invariant empty <==> results.Contents() == []
        invariant offset == 0 && arguments == [] && output == after && functions == registry
        decreases |results.Contents()|
      {
        var dropped := results.Pop();
        empty := results.IsEmpty();
      }
    }

    /** The printout after a good line: the top of the stack, if there is one, is popped and written out. */
    method PrintTop()
      requires Valid()
      modifies this, results
      ensures Valid() && results.data == old(results.data)
      ensures Current() == Printed(old(Current()))
    {
      var empty := results.IsEmpty();
      if !empty {
        var v := results.Pop();
        output := output + [Value(v)];
      }
    }

    /** `interpret`: one top-level visit, then the reset or the printout. */
    method Interpret(n: Option<Node>, fuel: nat) returns (status: Status)
      requires Valid()
      modifies this, results, results.data
      ensures Valid() && (results.data == old(results.data) || fresh(results.data))
      ensures Run(status, Current()) == InterpreterSpec.Interpret(n, old(Current()), fuel)
    {
      ghost var a := InterpreterSpec.Visit(n, Current(), fuel);
      status := Visit(n, fuel);
      if status.Stuck? {
        return;
      }
      assert Current() == a.state;
      if status == Failed {
        Clear();
        return;
      }
      PrintTop();
      var empty := results.IsEmpty();
      if !empty || |arguments| > 0 || offset != 0 {
        var reported := Report("Unexpected argument");
      }
    }
  }
}
