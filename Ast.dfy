/**
 * The syntax tree of Parser.h. Every node holds exactly one token; a child
 * the parser may leave null is an `Option<Node>`.
 */
module Ast {
  import opened Wrappers
  import opened Tokens

  /**
   * The node hierarchy. `Base` is a plain `Node`, which the parser never
   * builds but cloning a list or a map node produces.
   */
  datatype Node =
    | Base(token: Token)
    | Factor(token: Token)
    | ArgumentRef(token: Token)
    | Unary(token: Token, argument: Option<Node>)
    | Binary(token: Token, left: Option<Node>, right: Option<Node>)
    | If(token: Token, check: Option<Node>, left: Option<Node>, right: Option<Node>)
    | List(token: Token, contents: seq<Option<Node>>)
    | Map(token: Token, functor: Option<Node>, list: Option<Node>)
    | UserFunction(token: Token, definition: Option<Node>, arguments: seq<Option<Node>>)

  /**
   * `Node::copy` and the token-copying constructor: a fresh token of the
   * same dynamic type, tried as an argument, a name, a number and finally a
   * bare token of the recorded kind.
   */
  function CopyToken(t: Token): (r: Token)
    ensures r == t && r.Type() == t.Type()
  {
    match t
    case Arg(i) => Arg(i)
    case Name(s) => Name(s)
    case Num(v) => Num(v)
    case Plain(k) => Plain(k)
  }

  /**
   * The nodes whose `clone` is defined: the copy constructors of unary,
   * `if` and user-function nodes call `clone` on every child, which must
   * therefore not be null.
   */
  predicate Cloneable(n: Node)
    ensures !(n.Unary? || n.If? || n.UserFunction?) ==> Cloneable(n)
    ensures n.Unary? && Cloneable(n) ==> n.argument.Some?
  {
    match n
    case Unary(_, a) => a.Some? && Cloneable(a.value)
    case If(_, c, l, r) =>
      c.Some? && l.Some? && r.Some? && Cloneable(c.value) && Cloneable(l.value) && Cloneable(r.value)
    case UserFunction(_, d, arguments) =>
      d.Some? && Cloneable(d.value) && forall k :: 0 <= k < |arguments| ==> arguments[k].Some? && Cloneable(arguments[k].value)
    case _ => true
  }

  /**
   * `clone`: unary, `if` and user-function nodes copy their children by
   * cloning them; a binary node's copy constructor keeps the child pointers;
   * list and map nodes do not override `clone`, so the base `Node::clone`
   * copies only the token.
   */
  function Clone(n: Node): (r: Node)
    requires Cloneable(n)
    ensures r.token == n.token
  {
    match n
    case Base(t) => Base(CopyToken(t))
    case Factor(t) => Factor(CopyToken(t))
    case ArgumentRef(t) => ArgumentRef(CopyToken(t))
    case Unary(t, a) => Unary(CopyToken(t), Some(Clone(a.value)))
    case Binary(t, l, r) => Binary(CopyToken(t), l, r)
    case If(t, c, l, r) => If(CopyToken(t), Some(Clone(c.value)), Some(Clone(l.value)), Some(Clone(r.value)))
    case List(t, _) => Base(CopyToken(t))
    case Map(t, _, _) => Base(CopyToken(t))
    case UserFunction(t, d, arguments) => UserFunction(CopyToken(t), Some(Clone(d.value)),
        seq(|arguments|, k requires 0 <= k < |arguments| => Some(Clone(arguments[k].value))))
  }

  /** No list or map node sits where `clone` reaches it (it never looks below a binary node). */
  predicate ClonesToItself(n: Node)
  {
    match n
    case List(_, _) => false
    case Map(_, _, _) => false
    case Unary(_, a) => a.Some? && ClonesToItself(a.value)
    case If(_, c, l, r) => c.Some? && l.Some? && r.Some? && ClonesToItself(c.value) && ClonesToItself(l.value) && ClonesToItself(r.value)
    case UserFunction(_, d, arguments) =>
      d.Some? && ClonesToItself(d.value) && forall k :: 0 <= k < |arguments| ==> arguments[k].Some? && ClonesToItself(arguments[k].value)
    case _ => true
  }

  /** Cloning copies the value: a tree without list or map nodes in reach is its own clone. */
  lemma {:induction false} CloneCopiesValue(n: Node)
    requires ClonesToItself(n)
    ensures Cloneable(n) && Clone(n) == n
  {
    match n
    case Unary(_, a) => CloneCopiesValue(a.value);
    case If(_, c, l, r) =>
      CloneCopiesValue(c.value);
      CloneCopiesValue(l.value);
      CloneCopiesValue(r.value);
    case UserFunction(t, d, arguments) =>
      CloneCopiesValue(d.value);
      forall k | 0 <= k < |arguments|
        ensures Cloneable(arguments[k].value) && Clone(arguments[k].value) == arguments[k].value
      {
        CloneCopiesValue(arguments[k].value);
      }
      assert Clone(n).arguments == arguments;
    case _ =>
  }

  /** A list or a map node clones to a base node holding only its token. */
  lemma CloneDropsListAndMap(n: Node)
    requires n.List? || n.Map?
    ensures Cloneable(n) && Clone(n) == Base(n.token)
  {
  }

  /** A binary node's copy keeps its children as they are, list and map nodes included. */
  lemma BinaryCloneIsShallow(t: Token, l: Option<Node>, r: Option<Node>)
    ensures Cloneable(Binary(t, l, r)) && Clone(Binary(t, l, r)) == Binary(t, l, r)
  {
  }

  /** A clone can be cloned again, and that changes nothing. */
  lemma {:induction false} CloneIsIdempotent(n: Node)
    requires Cloneable(n)
    ensures Cloneable(Clone(n)) && Clone(Clone(n)) == Clone(n)
  {
    match n
    case Unary(_, a) => CloneIsIdempotent(a.value);
    case If(_, c, l, r) =>
      CloneIsIdempotent(c.value);
      CloneIsIdempotent(l.value);
      CloneIsIdempotent(r.value);
    case UserFunction(t, d, arguments) =>
      CloneIsIdempotent(d.value);
      var once := Clone(n).arguments;
      forall k | 0 <= k < |once|
        ensures once[k].Some? && Cloneable(once[k].value) && Clone(once[k].value) == once[k].value
      {
        CloneIsIdempotent(arguments[k].value);
      }
      assert Clone(Clone(n)).arguments == once;
    case _ =>
  }
}
