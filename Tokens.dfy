/**
 * The token kinds, token records and error records of Lexer.h, and the
 * rendering of an error report (Lexer.cpp, Error::print and
 * Illegal_Character::print).
 */
module Tokens {

  /** The seven kinds of token. */
  datatype Kind = FunctionName | Arrow | Number | Argument | OpeningBracket | Comma | ClosingBracket

  /**
   * A token. `Plain` is the base record that carries only its kind (the
   * lexer uses it for the arrow, the brackets and the comma); the three
   * other records add a payload: a name, a double, an unsigned index.
   */
  datatype Token =
    | Plain(kind: Kind)
    | Name(name: string)
    | Num(value: real)
    | Arg(index: nat)
  {
    /** The kind the token's constructor records. */
    function Type(): Kind
    {
      match this
      case Plain(k) => k
      case Name(_) => FunctionName
      case Num(_) => Number
      case Arg(_) => Argument
    }
  }

  /** The exclusive upper bound of a C++ `unsigned`. */
  const UnsignedLimit: nat := 0x1_0000_0000

  /**
   * An error report: a category name and a details string. An illegal
   * character also remembers the input line and the 0-based column it was found at.
   */
  datatype Error =
    | Error(category: string, details: string)
    | IllegalCharacter(c: char, input: string, index: nat)
  {
    function Name(): string
    {
      match this
      case Error(n, _) => n
      case IllegalCharacter(_, _, _) => "Illegal Character"
    }

    function Details(): string
    {
      match this
      case Error(_, d) => d
      case IllegalCharacter(c, _, _) => "'" + [c] + "'"
    }

    /** What the report prints: for an illegal character, the line and a caret under the column first. */
    function Render(): string
    {
      match this
      case Error(n, d) => Plainly(n, d)
      case IllegalCharacter(c, input, index) =>
        input + "\n" + Spaces(index) + "^\n" + Plainly(Name(), Details())
    }
  }

  /** The category a parser error carries. */
  function IllegalSyntax(details: string): (e: Error)
    ensures e.Name() == "Illegal Syntax" && e.Details() == details
  {
    Error("Illegal Syntax", details)
  }

  /** The category an interpreter error carries. */
  function RuntimeError(details: string): (e: Error)
    ensures e.Name() == "Runtime Error" && e.Details() == details
  {
    Error("Runtime Error", details)
  }

  /** `name: details` followed by a blank line. */
  function Plainly(name: string, details: string): (r: string)
    ensures |r| == |name| + |details| + 4
    ensures r[..|name|] == name && r[|r| - 2..] == "\n\n"
  {
    name + ": " + details + "\n\n"
  }

  function Spaces(n: nat): (s: string)
    ensures |s| == n && forall i :: 0 <= i < n ==> s[i] == ' '
  {
    if n == 0 then "" else Spaces(n - 1) + " "
  }

  /** Every report ends with `name: details` and a blank line; an illegal-character report starts with the input line. */
  lemma ReportEndsWithCategory(e: Error)
    ensures var r, p := e.Render(), Plainly(e.Name(), e.Details());
      r[|r| - |p|..] == p && (e.IllegalCharacter? ==> r[..|e.input|] == e.input)
  {
    var r, p := e.Render(), Plainly(e.Name(), e.Details());
    if e.IllegalCharacter? {
      var head := e.input + "\n" + Spaces(e.index) + "^\n";
      assert r == head + p;
      assert r[..|e.input|] == e.input;
    }
  }

  /** Each payload record has its own kind. */
  lemma PayloadKinds(t: Token)
    ensures t.Name? ==> t.Type() == FunctionName
    ensures t.Num? ==> t.Type() == Number
    ensures t.Arg? ==> t.Type() == Argument
  {
  }

  /**
   * An illegal-character report prints the input line, a newline, `index`
   * spaces and a caret, a newline, then `Illegal Character: 'c'` and a blank line.
   */
  lemma {:induction false} CaretUnderColumn(c: char, input: string, index: nat)
    ensures var r := IllegalCharacter(c, input, index).Render();
      && |r| == |input| + index + 27
      && r[..|input|] == input
      && r[|input|] == '\n'
      && (forall k :: |input| < k <= |input| + index ==> r[k] == ' ')
      && r[|input| + index + 1] == '^'
      && r[|input| + index + 2] == '\n'
      && r[|input| + index + 3..] == "Illegal Character: '" + [c] + "'\n\n"
  {
    var r := IllegalCharacter(c, input, index).Render();
    var tail := "Illegal Character: '" + [c] + "'\n\n";
    assert r == input + "\n" + Spaces(index) + "^\n" + tail;
    var sp := Spaces(index);
    assert forall k :: |input| < k <= |input| + index ==> r[k] == sp[k - |input| - 1];
  }
}
