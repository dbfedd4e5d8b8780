/**
 * `Parser` of Parser.cpp: a recursive-descent cursor over a copy of the
 * token vector. Its methods move the cursor fields in place as the source
 * does, and each is proved to compute what the function of the same name
 * in `ParserSpec` states. The step budget and the halt state are the two
 * fields the source does not have (see `ParserSpec`).
 */
module Parsing {
  import opened Wrappers
  import opened Tokens
  import opened Ast
  import opened ParserSpec

  class Parser {
    var tokens: seq<Token>
    var currentType: Kind
    var currentIndex: int
    var fuel: nat
    var halt: Halt
    var errors: seq<SyntaxError>

    /** The cursor the fields make up. */
    function At(): Cursor
      reads this
    {
      Cursor(currentIndex, currentType, fuel, halt, errors)
    }

    predicate Valid()
      reads this
    {
      Coherent(tokens, At())
    }

    /**
     * Copies the tokens, sets the index to -1 and advances once. The type is
     * left as it is when there are no tokens, where `parse` never reads it.
     */
    constructor(tokens: seq<Token>, fuel: nat)
      ensures Valid() && this.tokens == tokens && At() == Start(tokens, fuel)
    {
      this.tokens := tokens;
      currentIndex := -1;
      currentType := Number;
      this.fuel := fuel;
      halt := Running;
      errors := [];
      new;
      Advance();
    }

    method Advance()
      requires Valid()
      modifies this
      ensures Valid() && tokens == old(tokens)
      ensures At() == ParserSpec.Advance(tokens, old(At()))
    {
      if currentIndex + 1 < |tokens| {
        currentIndex := currentIndex + 1;
        currentType := tokens[currentIndex].Type();
      } else {
        currentIndex := -1;
      }
    }

    method Report(details: string, received: Option<Token>)
      modifies this
      ensures tokens == old(tokens)
      ensures At() == ParserSpec.Report(old(At()), details, received)
    {
      errors := errors + [SyntaxError(details, received)];
    }

    method Factor() returns (n: Option<Node>)
      requires Valid()
      modifies this
      ensures Valid() && tokens == old(tokens)
      ensures Parsed(n, At()) == ParserSpec.Factor(tokens, old(At()))
    {
      if currentIndex != -1 {
        n := Some(Node.Factor(tokens[currentIndex]));
        Advance();
        return;
      }
      Report("Expected a number", None);
      n := None;
    }

    method Expr() returns (n: Option<Node>)
      requires Valid()
      modifies this
      ensures Valid() && tokens == old(tokens)
      ensures Parsed(n, At()) == ParserSpec.Expr(tokens, old(At()))
      decreases fuel, 1
    {
      if halt != Running {
        return None;
      }
      if fuel == 0 {
        halt := OutOfFuel;
        return None;
      }
      fuel := fuel - 1;
      if currentType != Number {
        if currentType != FunctionName {
          if currentType == ClosingBracket {
            Advance();
            return None;
          }
          if currentIndex == -1 {
            halt := Undefined;
            return None;
          }
          Report("Expected a function name. Received: ", Some(tokens[currentIndex]));
          return None;
        }
        if currentIndex == -1 {
          halt := Undefined;
          return None;
        }
        var operation := tokens[currentIndex];
        Advance();
        n := Operation(operation);
        return;
      }
      n := Factor();
    }

    /** `expr` after the head function name `op`. */
    method Operation(op: Token) returns (n: Option<Node>)
      requires Valid()
      modifies this
      ensures Valid() && tokens == old(tokens)
      ensures Parsed(n, At()) == ParserSpec.Operation(tokens, op, old(At()))
      decreases fuel, 5
    {
      if Named(op, "list") {
        if currentIndex == -1 || currentType != OpeningBracket {
          Report("Expected '('", None);
          return None;
        }
        Advance();
        n := ListBody(op);
        return;
      } else if Named(op, "map") {
        Advance();
        var functor := Expr();
        var list := Expr();
        return Some(Map(op, functor, list));
      }
      if currentIndex == -1 || currentType != OpeningBracket {
        if currentType == Arrow {
          Advance();
          var definition := Expr();
          return Some(UserFunction(op, definition, []));
        }
        if currentType == Comma || currentType == ClosingBracket {
          Advance();
          return Some(UserFunction(op, None, []));
        }
        if currentIndex != -1 {
          Report("Expected '(' or list. Received: ", Some(tokens[currentIndex]));
          return None;
        }
        return Some(UserFunction(op, None, []));
      }
      Advance();
      if currentIndex == -1 {
        Report("Unexpected end of input", None);
        return None;
      }
      if currentType == FunctionName || currentType == Number || currentType == Argument {
        var left := Operand();
        n := AfterLeft(op, left);
      } else {
        var definition := Expr();
        n := Some(UserFunction(op, definition, []));
      }
    }

    /** The `do`-`while` that gathers the elements of a list. */
    method ListBody(op: Token) returns (n: Option<Node>)
      requires Valid()
      modifies this
      ensures Valid() && tokens == old(tokens)
      ensures Parsed(n, At()) == ListTail(tokens, op, old(At()), [])
      decreases fuel, 2
    {
      var elements: seq<Option<Node>> := [];
      ghost var goal := ListTail(tokens, op, At(), []);
      while true
        invariant Valid() && tokens == old(tokens) && fuel <= old(fuel)
        invariant ListTail(tokens, op, At(), elements) == goal
        decreases fuel
      {
        if currentIndex == -1 {
          Report("Unexpected end of input", None);
          return None;
        } else if currentType == Comma {
          Advance();
        }
        var e := Expr();
        elements := elements + [e];
        if halt != Running {
          return None;
        }
        var stop := AfterElement();
        if stop {
          break;
        }
      }
      n := Some(List(op, elements));
    }

    /**
     * The rest of the list loop's body after an element, and its `while`
     * condition: whether the loop stops.
     */
    method AfterElement() returns (stop: bool)
      requires Valid()
      modifies this
      ensures Valid() && tokens == old(tokens)
      ensures (stop, At()) == ParserSpec.AfterElement(tokens, old(At()))
    {
      var size := |tokens|;
      if currentType == ClosingBracket
        && (currentIndex + 1 >= size || tokens[currentIndex + 1].Type() == ClosingBracket
            || currentIndex + 2 >= size || tokens[currentIndex + 2].Type() == FunctionName)
      {
        if currentIndex + 1 < size && tokens[currentIndex + 1].Type() == ClosingBracket {
          Advance();
        }
        return true;
      }
      Advance();
      if currentIndex != -1 && currentType == ClosingBracket {
        Advance();
        if currentIndex == -1 {
          return true;
        } else if currentType == Comma {
          Advance();
        }
      }
      stop := !(currentIndex != -1 && (currentType == FunctionName || currentType == Comma || currentType == Number));
    }

    /** One operand of a call: a nested call and one more token, an argument reference, or a factor. */
    method Operand() returns (n: Option<Node>)
      requires Valid() && currentIndex != -1
      modifies this
      ensures Valid() && tokens == old(tokens)
      ensures Parsed(n, At()) == ParserSpec.Operand(tokens, old(At()))
      decreases fuel, 2
    {
      if currentType == FunctionName {
        n := Expr();
        Advance();
      } else if currentType == Argument {
        n := Some(ArgumentRef(tokens[currentIndex]));
        Advance();
      } else {
        n := Factor();
      }
    }

    /** After the first operand of a call. */
    method AfterLeft(op: Token, left: Option<Node>) returns (n: Option<Node>)
      requires Valid()
      modifies this
      ensures Valid() && tokens == old(tokens)
      ensures Parsed(n, At()) == ParserSpec.AfterLeft(tokens, op, left, old(At()))
      decreases fuel, 4
    {
      if currentIndex == -1 {
        Report("Expected ','", None);
        return None;
      }
      if currentType != Comma {
        if currentType == ClosingBracket {
          return Some(Unary(op, left));
        }
        Report("Expected ','. Received: ", Some(tokens[currentIndex]));
        return None;
      }
      Advance();
      if currentIndex == -1 {
        Report("Unexpected end of input", None);
        return None;
      }
      var right := Operand();
      n := AfterRight(op, left, right);
    }

    /** After the second operand of a call, with the `while` that gathers any further operands. */
    method AfterRight(op: Token, left: Option<Node>, right: Option<Node>) returns (n: Option<Node>)
      requires Valid()
      modifies this
      ensures Valid() && tokens == old(tokens)
      ensures Parsed(n, At()) == ParserSpec.AfterRight(tokens, op, left, right, old(At()))
      decreases fuel, 3
    {
      if currentIndex != -1 && currentType != ClosingBracket {
        if currentType == Comma {
          if Named(op, "if") {
            Advance();
            var otherwise := Expr();
            return Some(If(op, left, right, otherwise));
          }
          Advance();
          var arguments := [left, right];
          var next := Expr();
          ghost var goal := NaryTail(tokens, op, arguments, next, At());
          while next.Some?
            invariant Valid() && tokens == old(tokens) && fuel <= old(fuel)
            invariant NaryTail(tokens, op, arguments, next, At()) == goal
            decreases fuel + if next.Some? then 1 else 0
          {
            arguments := arguments + [next];
            Advance();
            if currentType == Comma {
              Advance();
            }
            next := Expr();
          }
          return Some(UserFunction(op, None, arguments));
        }
        Report("Expected ')'. Received: ", Some(tokens[currentIndex]));
        return None;
      }
      n := Some(Binary(op, left, right));
    }

    /** `Parser::parse`: null when there is no current token, otherwise one expression. */
    method Parse() returns (n: Option<Node>)
      requires Valid()
      modifies this
      ensures Valid() && tokens == old(tokens)
      ensures Parsed(n, At()) == if old(currentIndex) == -1 then Parsed(None, old(At())) else ParserSpec.Expr(tokens, old(At()))
    {
      if currentIndex == -1 {
        return None;
      }
      n := Expr();
    }
  }

  /** Constructs a parser over the tokens and parses them: what `Parse` states. */
  method ParseTokens(tokens: seq<Token>, budget: nat) returns (n: Option<Node>, errors: seq<SyntaxError>, halt: Halt)
    ensures n == Parse(tokens, budget).node && errors == Parse(tokens, budget).at.errors
    ensures halt == Parse(tokens, budget).at.halt
  {
    var parser := new Parser(tokens, budget);
    n := parser.Parse();
    errors, halt := parser.errors, parser.halt;
  }
}
