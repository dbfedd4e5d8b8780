/**
 * The frame discipline of the interpreter's user calls. A unary or binary
 * call sets the offset to the buffer's length, appends its operands, and
 * on return moves the offset back and pops the operands off; that restores
 * the caller's frame exactly when the definition leaves the buffer and the
 * offset as it found them. An N-ary call clears the whole buffer instead,
 * so the theorem below is stated for trees (and registries) without N-ary
 * calls, and the lemmas after it show what happens when one is present.
 */
module InterpreterFrames {
  import opened Wrappers
  import opened Tokens
  import opened Ast
  import opened InterpreterSpec

  /** No N-ary call (a call with more than two arguments) anywhere in the tree. */
  predicate Flat(n: Node)
  {
    match n
    case Unary(_, a) => a.None? || Flat(a.value)
    case Binary(_, l, r) => (l.None? || Flat(l.value)) && (r.None? || Flat(r.value))
    case If(_, c, l, r) => (c.None? || Flat(c.value)) && (l.None? || Flat(l.value)) && (r.None? || Flat(r.value))
    case List(_, contents) => forall k :: 0 <= k < |contents| ==> contents[k].None? || Flat(contents[k].value)
    case Map(_, f, l) => (f.None? || Flat(f.value)) && (l.None? || Flat(l.value))
    case UserFunction(_, d, arguments) => |arguments| == 0 && (d.None? || Flat(d.value))
    case _ => true
  }

  predicate FlatOption(n: Option<Node>)
  {
    n.None? || Flat(n.value)
  }

  predicate FlatContents(contents: seq<Option<Node>>)
  {
    forall k :: 0 <= k < |contents| ==> FlatOption(contents[k])
  }

  /** Every registered definition is flat. */
  predicate FlatRegistry(functions: seq<Node>)
  {
    forall k :: 0 <= k < |functions| && functions[k].UserFunction? ==> FlatOption(functions[k].definition)
  }

  /** `t` has the buffer and the offset of `s`, and its registry is still flat. */
  predicate Kept(s: State, t: State)
  {
    t.arguments == s.arguments && t.offset == s.offset && FlatRegistry(t.functions)
  }

  /** Cloning adds no N-ary call. */
  lemma {:induction false} CloneIsFlat(n: Node)
    requires Cloneable(n) && Flat(n)
    ensures Flat(Clone(n))
  {
    match n
    case Unary(_, a) => CloneIsFlat(a.value);
    case If(_, c, l, r) =>
      CloneIsFlat(c.value);
      CloneIsFlat(l.value);
      CloneIsFlat(r.value);
    case UserFunction(_, d, _) => CloneIsFlat(d.value);
    case _ =>
  }

  /**
   * The frame theorem: a successful visit of a flat tree, with a flat
   * registry, leaves the buffer and the offset as they were.
   */
  lemma {:induction false} VisitKeepsFrame(n: Option<Node>, s: State, fuel: nat)
    requires FlatOption(n) && FlatRegistry(s.functions)
    ensures var r := Visit(n, s, fuel); r.status == Ok ==> Kept(s, r.state)
    decreases fuel, 0, 0
  {
    if fuel == 0 || n.None? {
      return;
    }
    var f := fuel - 1;
    match n.value
    case Factor(_) =>
    case ArgumentRef(_) =>
    case Unary(t, argument) => UnaryNodeKeepsFrame(t, argument, s, f);
    case Binary(t, left, right) => BinaryNodeKeepsFrame(t, left, right, s, f);
    case If(_, check, left, right) => VisitIfKeepsFrame(check, left, right, s, f);
    case List(_, contents) => VisitListKeepsFrame(contents, s, f);
    case Map(_, functor, list) => VisitMapKeepsFrame(functor, list, s, f);
    case UserFunction(_, _, _) => VisitUserKeepsFrame(n.value, s, f);
    case Base(_) =>
  }

  lemma {:induction false} UnaryNodeKeepsFrame(t: Token, argument: Option<Node>, s: State, fuel: nat)
    requires FlatOption(argument) && FlatRegistry(s.functions)
    ensures var r := UnaryNode(t, argument, s, fuel); r.status == Ok ==> Kept(s, r.state)
    decreases fuel, 3, 0
  {
    VisitKeepsFrame(argument, s, fuel);
    var a := Visit(argument, s, fuel);
    if a.status == Ok {
      VisitUnaryKeepsFrame(t, a.state, fuel);
    }
  }

  lemma {:induction false} BinaryNodeKeepsFrame(t: Token, left: Option<Node>, right: Option<Node>, s: State, fuel: nat)
    requires FlatOption(left) && FlatOption(right) && FlatRegistry(s.functions)
    ensures var r := BinaryNode(t, left, right, s, fuel); r.status == Ok ==> Kept(s, r.state)
    decreases fuel, 3, 0
  {
    if t.Name? && t.name == "concat" {
      ConcatKeepsFrame(left, right, s, fuel);
    } else if t.Name? {
      VisitKeepsFrame(left, s, fuel);
      var a := Visit(left, s, fuel);
      if a.status == Ok {
        VisitKeepsFrame(right, a.state, fuel);
        var b := Visit(right, a.state, fuel);
        if b.status == Ok {
          VisitBinaryKeepsFrame(t, b.state, fuel);
        }
      }
    }
  }

  /** A unary or binary call frame around a flat definition is restored on return. */
  lemma {:induction false} CallKeepsFrame(definition: Option<Node>, s: State, pushed: seq<real>, fuel: nat)
    requires FlatOption(definition) && FlatRegistry(s.functions)
    ensures var r := Call(definition, s, pushed, fuel); r.status == Ok ==> Kept(s, r.state)
    decreases fuel, 1, 0
  {
    var inner := s.(offset := |s.arguments|, arguments := s.arguments + pushed);
    VisitKeepsFrame(definition, inner, fuel);
    var b := Visit(definition, inner, fuel);
    if b.status == Ok {
      assert b.state.arguments[..|b.state.arguments| - |pushed|] == s.arguments;
    }
  }

  lemma FoundIsFlat(functions: seq<Node>, t: Token)
    requires FlatRegistry(functions)
    ensures var found := Find(functions, t, 0); found.Found? ==> FlatOption(found.entry.definition)
  {
    var found := Find(functions, t, 0);
    if found.Found? {
      var k :| 0 <= k < |functions| && functions[k] == found.entry;
    }
  }

  lemma {:induction false} VisitUnaryKeepsFrame(t: Token, s: State, fuel: nat)
    requires FlatRegistry(s.functions)
    ensures var r := VisitUnary(t, s, fuel); r.status == Ok ==> Kept(s, r.state)
    decreases fuel, 2, 0
  {
    FoundIsFlat(s.functions, t);
    var found := Find(s.functions, t, 0);
    if t.Name? && found.Found? && |s.results| > 0 {
      CallKeepsFrame(found.entry.definition, Popped(s), [Top(s)], fuel);
    }
  }

  lemma {:induction false} VisitBinaryKeepsFrame(t: Token, s: State, fuel: nat)
    requires t.Name? && FlatRegistry(s.functions)
    ensures var r := VisitBinary(t, s, fuel); r.status == Ok ==> Kept(s, r.state)
    decreases fuel, 2, 0
  {
    if |s.results| >= 2 {
      OperateKeepsFrame(t, s.results[|s.results| - 2], s.results[|s.results| - 1], s.(results := s.results[..|s.results| - 2]), fuel);
    }
  }

  lemma {:induction false} OperateKeepsFrame(t: Token, left: real, right: real, p: State, fuel: nat)
    requires t.Name? && FlatRegistry(p.functions)
    ensures var r := Operate(t, left, right, p, fuel); r.status == Ok ==> Kept(p, r.state)
    decreases fuel, 1, 1
  {
    FoundIsFlat(p.functions, t);
    var found := Find(p.functions, t, 0);
    if found.Found? {
      CallKeepsFrame(found.entry.definition, p, [left, right], fuel);
    }
  }

  lemma {:induction false} VisitIfKeepsFrame(check: Option<Node>, left: Option<Node>, right: Option<Node>, s: State, fuel: nat)
    requires FlatOption(check) && FlatOption(left) && FlatOption(right) && FlatRegistry(s.functions)
    ensures var r := VisitIf(check, left, right, s, fuel); r.status == Ok ==> Kept(s, r.state)
    decreases fuel, 2, 0
  {
    VisitKeepsFrame(check, s, fuel);
    var a := Visit(check, s, fuel);
    if a.status == Ok && |a.state.results| > 0 {
      VisitKeepsFrame(right, Popped(a.state), fuel);
      VisitKeepsFrame(left, Popped(a.state), fuel);
    }
  }

  lemma {:induction false} ConcatKeepsFrame(left: Option<Node>, right: Option<Node>, s: State, fuel: nat)
    requires FlatOption(left) && FlatOption(right) && FlatRegistry(s.functions)
    ensures var r := Concat(left, right, s, fuel); r.status == Ok ==> Kept(s, r.state)
    decreases fuel, 2, 0
  {
    if left.Some? && left.value.List? && right.Some? && right.value.List? && AllCloneable(right.value.contents) {
      var tail := right.value.contents;
      var clones := Clones(tail);
      forall k | 0 <= k < |clones|
        ensures FlatOption(clones[k])
      {
        CloneIsFlat(tail[k].value);
      }
      var joined := left.value.contents + clones;
      assert Flat(List(Plain(left.value.token.Type()), joined));
      VisitKeepsFrame(Some(List(Plain(left.value.token.Type()), joined)), s, fuel);
    }
  }

  lemma {:induction false} VisitListKeepsFrame(contents: seq<Option<Node>>, s: State, fuel: nat)
    requires FlatContents(contents) && FlatRegistry(s.functions)
    ensures var r := VisitList(contents, s, fuel); r.status == Ok ==> Kept(s, r.state)
    decreases fuel, 3, 0
  {
    if |contents| > 0 {
      ListItemsKeepFrame(contents, 0, s.(output := s.output + [Text("[")]), fuel);
    }
  }

  lemma {:induction false} ElementKeepsFrame(n: Option<Node>, separator: string, s: State, fuel: nat)
    requires FlatOption(n) && FlatRegistry(s.functions)
    ensures var r := Element(n, separator, s, fuel); r.status == Ok ==> Kept(s, r.state)
    decreases fuel, 1, 0
  {
    VisitKeepsFrame(n, s, fuel);
  }

  lemma {:induction false} ListItemsKeepFrame(contents: seq<Option<Node>>, i: nat, s: State, fuel: nat)
    requires i < |contents| && FlatContents(contents) && FlatRegistry(s.functions)
    ensures var r := ListItems(contents, i, s, fuel); r.status == Ok ==> Kept(s, r.state)
    decreases fuel, 2, |contents| - i
  {
    if i + 1 < |contents| {
      ElementKeepsFrame(contents[i], ", ", s, fuel);
      var a := Element(contents[i], ", ", s, fuel);
      if a.status == Ok {
        ListItemsKeepFrame(contents, i + 1, a.state, fuel);
      }
    } else {
      ElementKeepsFrame(contents[i], "]", s, fuel);
    }
  }

  /** What `visit_map` finds in a flat registry is flat. */
  lemma {:induction false} MapSearchIsFlat(functions: seq<Node>, fname: string, lname: string, i: nat, found: Search)
    requires i <= |functions| && found.Searched? && FlatRegistry(functions)
    requires found.mapEntry.Some? ==>
      found.mapEntry.value.UserFunction? && found.mapEntry.value.token.Name? && found.mapEntry.value.token.name == fname
    requires found.mapEntry.Some? ==> FlatOption(found.mapEntry.value.definition)
    requires found.listContents.Some? ==> FlatContents(found.listContents.value)
    ensures var r := MapSearch(functions, fname, lname, i, found);
      r.Searched? ==>
        (r.mapEntry.Some? ==> FlatOption(r.mapEntry.value.definition))
        && (r.listContents.Some? ==> FlatContents(r.listContents.value))
    decreases |functions| - i
  {
    if i < |functions| {
      var e := functions[i];
      if e.UserFunction? && e.token.Name? {
        assert FlatOption(e.definition);
        if e.token.name != fname && e.token.name == lname && e.definition.Some? && e.definition.value.List? {
          assert FlatContents(e.definition.value.contents);
        }
      }
      var step :=
        if !e.UserFunction? then found
        else if !e.token.Name? then SearchBroken
        else if e.token.name == fname then found.(mapEntry := Some(e), count := found.count + 1)
        else if e.token.name == lname then found.(listContents := ListOf(e.definition), count := found.count + 1)
        else found;
      if step.Searched? && step.count != 2 {
        MapSearchIsFlat(functions, fname, lname, i + 1, step);
      }
    }
  }

  lemma {:induction false} VisitMapKeepsFrame(functor: Option<Node>, list: Option<Node>, s: State, fuel: nat)
    requires FlatRegistry(s.functions)
    ensures var r := VisitMap(functor, list, s, fuel); r.status == Ok ==> Kept(s, r.state)
    decreases fuel, 3, 0
  {
    if functor.Some? && list.Some? && list.value.token.Name? && functor.value.token.Name? {
      var found := MapSearch(s.functions, list.value.token.name, functor.value.token.name, 0, Searched(None, None, 0));
      MapSearchIsFlat(s.functions, list.value.token.name, functor.value.token.name, 0, Searched(None, None, 0));
      if found.Searched? && found.count >= 2 && found.mapEntry.Some? && found.listContents.Some? {
        MapElementsKeepFrame(found.listContents.value, 0, found.mapEntry.value.definition, s, fuel, []);
        var m := MapElements(found.listContents.value, 0, found.mapEntry.value.definition, s, fuel, []);
        if m.run.status == Ok && |m.values| > 0 {
          var factors := Factors(m.values);
          assert Flat(List(Plain(functor.value.token.Type()), factors));
          VisitKeepsFrame(Some(List(Plain(functor.value.token.Type()), factors)), m.run.state, fuel);
        }
      }
    }
  }

  lemma {:induction false} MapElementsKeepFrame(contents: seq<Option<Node>>, i: nat, definition: Option<Node>, s: State, fuel: nat, values: seq<real>)
    requires i <= |contents| && FlatContents(contents) && FlatOption(definition) && FlatRegistry(s.functions)
    ensures var m := MapElements(contents, i, definition, s, fuel, values); m.run.status == Ok ==> Kept(s, m.run.state)
    decreases fuel, 2, |contents| - i
  {
    if i < |contents| {
      MapStepKeepsFrame(contents[i], definition, s, fuel);
      var m := MapStep(contents[i], definition, s, fuel);
      if m.run.status == Ok {
        MapElementsKeepFrame(contents, i + 1, definition, m.run.state, fuel, values + m.values);
      }
    }
  }

  lemma {:induction false} MapStepKeepsFrame(element: Option<Node>, definition: Option<Node>, s: State, fuel: nat)
    requires FlatOption(element) && FlatOption(definition) && FlatRegistry(s.functions)
    ensures var m := MapStep(element, definition, s, fuel); m.run.status == Ok ==> Kept(s, m.run.state)
    decreases fuel, 1, 1
  {
    VisitKeepsFrame(element, s, fuel);
    var a := Visit(element, s, fuel);
    if a.status == Ok && |a.state.results| > 0 {
      var moved := Popped(a.state).(arguments := a.state.arguments + [Top(a.state)]);
      MapApplyKeepsFrame(definition, moved, fuel);
      assert moved.arguments[..|moved.arguments| - 1] == s.arguments;
    }
  }

  /** Applying a flat mapped definition takes the moved value back off the buffer. */
  lemma {:induction false} MapApplyKeepsFrame(definition: Option<Node>, s: State, fuel: nat)
    requires FlatOption(definition) && FlatRegistry(s.functions)
    ensures var m := MapApply(definition, s, fuel);
      m.run.status == Ok ==> |s.arguments| > 0 && Kept(s.(arguments := s.arguments[..|s.arguments| - 1]), m.run.state)
    decreases fuel, 1, 0
  {
    VisitKeepsFrame(definition, s, fuel);
  }

  lemma {:induction false} VisitUserKeepsFrame(node: Node, s: State, fuel: nat)
    requires node.UserFunction? && Flat(node) && FlatRegistry(s.functions)
    ensures var r := VisitUser(node, s, fuel); r.status == Ok ==> Kept(s, r.state)
    decreases fuel, 2, 0
  {
    FoundIsFlat(s.functions, node.token);
    var found := Find(s.functions, node.token, 0);
    if found.Found? && node.definition.None? {
      VisitKeepsFrame(found.entry.definition, s, fuel);
    } else if found.Missing? && node.definition.Some? {
      assert FlatRegistry(s.functions + [node]) by {
        forall k | 0 <= k < |s.functions| + 1 && (s.functions + [node])[k].UserFunction?
          ensures FlatOption((s.functions + [node])[k].definition)
        {
          if k < |s.functions| {
            assert (s.functions + [node])[k] == s.functions[k];
          }
        }
      }
    }
  }

  /**
   * Consequently a flat line run from a clean frame leaves the frame clean:
   * only values on the stack can make `interpret` report a leftover.
   */
  lemma FlatLineLeavesFrameClean(n: Option<Node>, s: State, fuel: nat)
    requires FlatOption(n) && FlatRegistry(s.functions) && s.arguments == [] && s.offset == 0
    ensures var r := Interpret(n, s, fuel);
      r.status == Ok ==> r.state.arguments == [] && r.state.offset == 0 && FlatRegistry(r.state.functions)
  {
    VisitKeepsFrame(n, s, fuel);
  }

  /** An N-ary call that returns normally leaves the whole buffer empty, whatever was in it. */
  lemma NaryCallClearsBuffer(node: Node, s: State, fuel: nat)
    requires node.UserFunction? && node.definition.None? && |node.arguments| > 0
    ensures var r := VisitUser(node, s, fuel); r.status == Ok ==> r.state.arguments == []
  {
  }

  /**
   * Hence a unary or binary user function whose definition is an N-ary call
   * never returns normally: either the body stops, or the frame's
   * `pop_back` runs on the emptied buffer, which is undefined.
   */
  lemma NaryBodyBreaksFrame(definition: Option<Node>, s: State, pushed: seq<real>, fuel: nat)
    requires definition.Some? && definition.value.UserFunction? && definition.value.definition.None?
    requires |definition.value.arguments| > 0 && |pushed| > 0
    ensures var r := Call(definition, s, pushed, fuel); r.status != Ok
    ensures var r := Call(definition, s, pushed, fuel);
      Visit(definition, s.(offset := |s.arguments|, arguments := s.arguments + pushed), fuel).status == Ok ==> r.status == Stuck(Undefined)
  {
    var inner := s.(offset := |s.arguments|, arguments := s.arguments + pushed);
    if fuel > 0 {
      NaryCallClearsBuffer(definition.value, inner, fuel - 1);
      assert Visit(definition, inner, fuel) == VisitUser(definition.value, inner, fuel - 1);
    }
  }
}
