/**
 * The lexer of Lexer.cpp: `Lex` states what `Lexer::make_tokens` computes
 * for one input line, following the order in which the source moves its
 * iterator; `MakeTokens` is the iterator scan itself, proved to agree with it.
 *
 * Reading the character under an iterator that stands at the end of the
 * line yields the string's terminating '\0' (`At`), which no case of the
 * scan accepts. The one place where the scan steps past the terminator is a
 * '-' that starts a number as the last character of the line: the number
 * loop then reads beyond the string, which is undefined (`Overrun`).
 */
module Lexing {
  import opened Chars
  import opened Tokens

  /** The character under position `i`; the terminator '\0' at or past the end. */
  function At(s: string, i: int): char
  {
    if 0 <= i < |s| then s[i] else '\0'
  }

  /**
   * The outcome of scanning one line: all the tokens, or one error and no
   * tokens, or a read past the end of the line whose effect is undefined.
   */
  datatype Lexed = Scanned(tokens: seq<Token>) | Rejected(error: Error) | Overrun

  /** Where the blanks starting at `i` end. */
  function SkipBlanks(s: string, i: nat): (j: nat)
    requires i <= |s|
    ensures i <= j <= |s| && !IsBlank(At(s, j))
    ensures forall k :: i <= k < j ==> IsBlank(s[k])
    decreases |s| - i
  {
    if i < |s| && IsBlank(s[i]) then SkipBlanks(s, i + 1) else i
  }

  /** One past the end of the run of letters that contains position `p`. */
  function NameEnd(s: string, p: nat): (k: nat)
    requires p < |s|
    ensures p < k <= |s|
    ensures forall m :: p < m < k ==> IsCharacter(s[m])
    ensures k == |s| || !IsCharacter(s[k])
    decreases |s| - p
  {
    if p + 1 < |s| && IsCharacter(s[p + 1]) then NameEnd(s, p + 1) else p + 1
  }

  /** One past the end of the run of digits that contains position `p`. */
  function DigitsEnd(s: string, p: nat): (k: nat)
    requires p < |s|
    ensures p < k <= |s|
    ensures forall m :: p < m < k ==> IsDigit(s[m])
    ensures k == |s| || !IsDigit(s[k])
    decreases |s| - p
  {
    if p + 1 < |s| && IsDigit(s[p + 1]) then DigitsEnd(s, p + 1) else p + 1
  }

  /** A digit string read as an unbounded decimal number. */
  function Decimal(ds: string): int
  {
    if ds == [] then 0 else Decimal(ds[..|ds| - 1]) * 10 + DigitValue(ds[|ds| - 1])
  }

  /** A digit string accumulated in a 32-bit `unsigned`, which wraps around. */
  function WrappedDecimal(ds: string): (v: nat)
    ensures v < UnsignedLimit
  {
    if ds == [] then 0
    else (WrappedDecimal(ds[..|ds| - 1]) * 10 + DigitValue(ds[|ds| - 1])) % UnsignedLimit
  }

  /** The number loop either stops after position `end`, or meets a second '.' at `at`. */
  datatype NumberRun = Run(end: nat, mantissa: int, power: nat) | SecondDot(at: nat)

  /** Whether the number loop goes on past position `p`. */
  predicate NumberGoesOn(s: string, p: nat)
  {
    p + 1 < |s| && (IsDigit(s[p + 1]) || s[p + 1] == '.')
  }

  /**
   * The number loop from position `p` on, with the digits so far in
   * `mantissa`, whether a '.' was seen, and ten to the number of digits after it.
   */
  function NumberFrom(s: string, p: nat, mantissa: int, dot: bool, power: nat): (r: NumberRun)
    requires p < |s| && power >= 1
    ensures r.Run? ==> p < r.end <= |s| && r.power >= 1
    ensures r.Run? ==> r.end == |s| || !(IsDigit(s[r.end]) || s[r.end] == '.')
    ensures r.SecondDot? ==> p <= r.at < |s| && s[r.at] == '.'
    decreases |s| - p
  {
    if s[p] == '.' then
      if dot then SecondDot(p)
      else if NumberGoesOn(s, p) then NumberFrom(s, p + 1, mantissa, true, power)
      else Run(p + 1, mantissa, power)
    else
      var m := mantissa * 10 + DigitValue(s[p]);
      var pw := if dot then power * 10 else power;
      if NumberGoesOn(s, p) then NumberFrom(s, p + 1, m, dot, pw)
      else Run(p + 1, m, pw)
  }

  /** The value of a number token: the mantissa over the power of ten, negated after a leading '-'. */
  function NumberValue(negative: bool, mantissa: int, power: nat): (v: real)
    requires power >= 1
    ensures v * power as real == if negative then -(mantissa as real) else mantissa as real
  {
    if negative then -(mantissa as real / power as real) else mantissa as real / power as real
  }

  /** The end of the line with `count` brackets still open. */
  function Finish(count: nat, acc: seq<Token>): (r: Lexed)
    ensures r.Scanned? <==> count == 0
    ensures r.Scanned? ==> r.tokens == acc
    ensures r.Rejected? ==> r.error == Error("Lexical error", "Expected ')'")
  {
    if count > 0 then Rejected(Error("Lexical error", "Expected ')'")) else Scanned(acc)
  }

  /**
   * One pass of the scan loop from position `i`: blanks, then an optional
   * name or number, then the punctuation the `switch` handles.
   */
  function ScanFrom(s: string, i: nat, count: nat, acc: seq<Token>): (r: Lexed)
    requires i <= |s|
    ensures r.Overrun? ==> |s| > 0 && s[|s| - 1] == '-'
    ensures r.Scanned? ==> acc <= r.tokens
    ensures r.Rejected? ==> r.error == Error("Lexical error", "Expected ')'") || r.error.IllegalCharacter?
    ensures r.Rejected? && r.error.IllegalCharacter? ==>
      r.error.input == s && i <= r.error.index <= |s| && r.error.c == At(s, r.error.index)
    decreases |s| - i, 2
  {
    if i == |s| then Finish(count, acc)
    else
      var j := SkipBlanks(s, i);
      if IsCharacter(At(s, j)) then
        var k := NameEnd(s, j);
        AfterOperand(s, k, count, acc + [Name(s[j..k])])
      else if IsDigit(At(s, j)) || At(s, j) == '-' then
        var negative := At(s, j) == '-';
        var start := if negative then j + 1 else j;
        if start == |s| then Overrun
        else match NumberFrom(s, start, 0, false, 1)
        case SecondDot(at) => Rejected(IllegalCharacter('.', s, at))
        case Run(end, m, pw) => AfterOperand(s, end, count, acc + [Num(NumberValue(negative, m, pw))])
      else
        AfterOperand(s, j, count, acc)
  }

  /** After the optional operand: stop at the end of the line, else skip blanks and go to the `switch`. */
  function AfterOperand(s: string, p: nat, count: nat, acc: seq<Token>): (r: Lexed)
    requires p <= |s|
    ensures r.Overrun? ==> |s| > 0 && s[|s| - 1] == '-'
    ensures r.Scanned? ==> acc <= r.tokens
    ensures r.Rejected? ==> r.error == Error("Lexical error", "Expected ')'") || r.error.IllegalCharacter?
    ensures r.Rejected? && r.error.IllegalCharacter? ==>
      r.error.input == s && p <= r.error.index <= |s| && r.error.c == At(s, r.error.index)
    decreases |s| - p, 1
  {
    if p == |s| then Finish(count, acc) else Switch(s, SkipBlanks(s, p), count, acc)
  }

  /** The `switch` on the character at position `q`. */
  function Switch(s: string, q: nat, count: nat, acc: seq<Token>): (r: Lexed)
    requires q <= |s|
    ensures r.Overrun? ==> |s| > 0 && s[|s| - 1] == '-'
    ensures r.Scanned? ==> acc <= r.tokens
    ensures r.Rejected? ==> r.error == Error("Lexical error", "Expected ')'") || r.error.IllegalCharacter?
    ensures r.Rejected? && r.error.IllegalCharacter? ==>
      r.error.input == s && q <= r.error.index <= |s| && r.error.c == At(s, r.error.index)
    decreases |s| - q, 0
  {
    var c := At(s, q);
    if c == '(' then
      ScanFrom(s, q + 1, count + 1, acc + [Plain(OpeningBracket)])
    else if c == ')' then
      if count == 0 then Rejected(IllegalCharacter(')', s, q))
      else ScanFrom(s, q + 1, count - 1, acc + [Plain(ClosingBracket)])
    else if c == ',' then
      ScanFrom(s, q + 1, count, acc + [Plain(Comma)])
    else if c == '<' then
      if At(s, q + 1) != '-' then Rejected(IllegalCharacter(At(s, q + 1), s, q + 1))
      else ScanFrom(s, q + 2, count, acc + [Plain(Arrow)])
    else if c == '#' then
      if q + 1 >= |s| || !IsDigit(s[q + 1]) then Rejected(IllegalCharacter(At(s, q + 1), s, q + 1))
      else
        var e := DigitsEnd(s, q + 1);
        ScanFrom(s, e, count, acc + [Arg(WrappedDecimal(s[q + 1..e]))])
    else
      Rejected(IllegalCharacter(c, s, q))
  }

  /**
   * What `make_tokens` computes for one line: on success the tokens, on an
   * illegal character a report that points at that character, and a read
   * past the end only on a line that ends in '-'.
   */
  function Lex(s: string): (r: Lexed)
    ensures r.Overrun? ==> |s| > 0 && s[|s| - 1] == '-'
    ensures r.Rejected? ==> r.error == Error("Lexical error", "Expected ')'") || r.error.IllegalCharacter?
    ensures r.Rejected? && r.error.IllegalCharacter? ==>
      r.error.input == s && 0 <= r.error.index <= |s| && r.error.c == At(s, r.error.index)
  {
    ScanFrom(s, 0, 0, [])
  }

  /** The `while` that steps over spaces and tabs. */
  method StepOverBlanks(s: string, i: nat) returns (j: nat)
    requires i <= |s|
    ensures j == SkipBlanks(s, i)
  {
    j := i;
    while At(s, j) == ' ' || At(s, j) == '\t'
      invariant i <= j <= |s|
      invariant SkipBlanks(s, i) == SkipBlanks(s, j)
      decreases |s| - j
    {
      j := j + 1;
    }
  }

  /** The `do`-`while` that gathers a name, starting on a letter. */
  method GatherName(s: string, i: nat) returns (name: string, j: nat)
    requires i < |s| && IsCharacter(s[i])
    ensures j == NameEnd(s, i) && name == s[i..j]
  {
    name := [s[i]];
    j := i + 1;
    while j < |s| && IsCharacter(s[j])
      invariant i < j <= |s|
      invariant name == s[i..j]
      invariant NameEnd(s, i) == NameEnd(s, j - 1)
      decreases |s| - j
    {
      name := name + [s[j]];
      j := j + 1;
    }
  }

  /** The `do`-`while` that accumulates a number's digits, starting after any '-'. */
  method GatherNumber(s: string, i: nat) returns (r: NumberRun)
    requires i < |s|
    ensures r == NumberFrom(s, i, 0, false, 1)
  {
    var number := 0;
    var dot := false;
    var power: nat := 1;
    var it := i;
    while true
      invariant i <= it < |s| && power >= 1
      invariant NumberFrom(s, i, 0, false, 1) == NumberFrom(s, it, number, dot, power)
      decreases |s| - it
    {
      if s[it] == '.' {
        if dot {
          return SecondDot(it);
        }
        dot := true;
      } else {
        number := number * 10 + DigitValue(s[it]);
        if dot {
          power := power * 10;
        }
      }
      if !NumberGoesOn(s, it) {
        return Run(it + 1, number, power);
      }
      it := it + 1;
    }
  }

  /** The `do`-`while` that accumulates an argument index, starting on a digit. */
  method GatherArgument(s: string, i: nat) returns (argument: nat, j: nat)
    requires i < |s| && IsDigit(s[i])
    ensures j == DigitsEnd(s, i) && argument == WrappedDecimal(s[i..j])
  {
    argument := 0;
    j := i;
    while true
      invariant i <= j < |s| && IsDigit(s[j])
      invariant argument == WrappedDecimal(s[i..j])
      invariant DigitsEnd(s, i) == DigitsEnd(s, j)
      decreases |s| - j
    {
      assert s[i..j + 1][..j - i] == s[i..j];
      argument := (argument * 10 + DigitValue(s[j])) % UnsignedLimit;
      if !(j + 1 < |s| && IsDigit(s[j + 1])) {
        j := j + 1;
        return;
      }
      j := j + 1;
    }
  }

  /** The `'#'` case of the `switch`: an argument index must follow. */
  method SwitchOnArgument(input: string, q: nat, count: nat, tokens: seq<Token>)
    returns (failed: bool, next: nat, tokens': seq<Token>, report: string)
    requires q < |input| && input[q] == '#'
    ensures failed ==> tokens' == [] && Switch(input, q, count, tokens).Rejected?
    ensures failed ==> report == Switch(input, q, count, tokens).error.Render()
    ensures !failed ==> q < next <= |input|
    ensures !failed ==> ScanFrom(input, next, count, tokens') == Switch(input, q, count, tokens)
  {
    var it := q + 1;
    if it == |input| || !IsDigit(input[it]) {
      report := IllegalCharacter(At(input, it), input, it).Render();
      return true, it, [], report;
    }
    var argument;
    argument, it := GatherArgument(input, it);
    failed, next, tokens', report := false, it, tokens + [Arg(argument)], "";
  }

  /** The `'<'` case of the `switch`: a `-` must follow. */
  method SwitchOnArrow(input: string, q: nat, count: nat, tokens: seq<Token>)
    returns (failed: bool, next: nat, tokens': seq<Token>, report: string)
    requires q < |input| && input[q] == '<'
    ensures failed ==> tokens' == [] && Switch(input, q, count, tokens).Rejected?
    ensures failed ==> report == Switch(input, q, count, tokens).error.Render()
    ensures !failed ==> q < next <= |input|
    ensures !failed ==> ScanFrom(input, next, count, tokens') == Switch(input, q, count, tokens)
  {
    var it := q + 1;
    if At(input, it) != '-' {
      report := IllegalCharacter(At(input, it), input, it).Render();
      return true, it, [], report;
    }
    failed, next, tokens', report := false, it + 1, tokens + [Plain(Arrow)], "";
  }

  /**
   * The `switch` of the scan loop on the character at `q`, with the loop's
   * closing `++it`: either it fails with an emptied token vector and a
   * report, or the scan goes on at `next`.
   */
  method SwitchOn(input: string, q: nat, count: nat, tokens: seq<Token>)
    returns (failed: bool, next: nat, count': nat, tokens': seq<Token>, report: string)
    requires q <= |input|
    ensures failed ==> tokens' == [] && Switch(input, q, count, tokens).Rejected?
    ensures failed ==> report == Switch(input, q, count, tokens).error.Render()
    ensures !failed ==> q < next <= |input|
    ensures !failed ==> ScanFrom(input, next, count', tokens') == Switch(input, q, count, tokens)
  {
    count', report := count, "";
    var c := At(input, q);
    if c == '<' {
      failed, next, tokens', report := SwitchOnArrow(input, q, count, tokens);
    } else if c == '#' {
      failed, next, tokens', report := SwitchOnArgument(input, q, count, tokens);
    } else if c == '(' {
      failed, next, count', tokens' := false, q + 1, count + 1, tokens + [Plain(OpeningBracket)];
    } else if c == ',' {
      failed, next, tokens' := false, q + 1, tokens + [Plain(Comma)];
    } else if c == ')' && count != 0 {
      failed, next, count', tokens' := false, q + 1, count - 1, tokens + [Plain(ClosingBracket)];
    } else {
      report := IllegalCharacter(c, input, q).Render();
      failed, next, tokens' := true, q, [];
    }
  }

  /**
   * The first half of the scan loop's body from `i`: blanks, then a name or
   * a number if one starts there; a second '.' in the number fails, and a
   * '-' that ends the line makes the number loop read past the end.
   */
  method ScanOperand(input: string, i: nat, count: nat, tokens: seq<Token>)
    returns (overrun: bool, failed: bool, next: nat, tokens': seq<Token>, report: string)
    requires i < |input|
    ensures overrun ==> !failed && ScanFrom(input, i, count, tokens) == Overrun
    ensures failed ==> tokens' == [] && ScanFrom(input, i, count, tokens).Rejected?
    ensures failed ==> report == ScanFrom(input, i, count, tokens).error.Render()
    ensures !overrun && !failed ==> i <= next <= |input|
    ensures !overrun && !failed ==> AfterOperand(input, next, count, tokens') == ScanFrom(input, i, count, tokens)
  {
    overrun, failed, tokens', report := false, false, tokens, "";
    next := StepOverBlanks(input, i);
    if IsCharacter(At(input, next)) {
      var name;
      name, next := GatherName(input, next);
      tokens' := tokens' + [Name(name)];
    } else if IsDigit(At(input, next)) || At(input, next) == '-' {
      var negative := false;
      if At(input, next) == '-' {
        negative := true;
        next := next + 1;
      }
      if next == |input| {
        return true, false, next, [], "";
      }
      var run := GatherNumber(input, next);
      if run.SecondDot? {
        report := IllegalCharacter('.', input, run.at).Render();
        return false, true, next, [], report;
      }
      next := run.end;
      tokens' := tokens' + [Num(NumberValue(negative, run.mantissa, run.power))];
    }
  }

  /**
   * `Lexer::make_tokens`: scans the line once, left to right, appending
   * tokens; every error empties the token vector and reports the error.
   * `defined` is false where the scan reads past the end of the line; the
   * model stops there and promises nothing else.
   */
  method MakeTokens(input: string) returns (defined: bool, ok: bool, tokens: seq<Token>, report: string)
    ensures defined <==> !Lex(input).Overrun?
    ensures defined ==> (ok <==> Lex(input).Scanned?)
    ensures defined && ok ==> tokens == Lex(input).tokens && report == ""
    ensures defined && !ok ==> tokens == [] && report == Lex(input).error.Render()
  {
    var bracketCount: nat := 0;
    tokens, defined := [], true;
    var it: nat := 0;
    while it < |input|
      invariant it <= |input|
      invariant ScanFrom(input, it, bracketCount, tokens) == Lex(input)
      decreases |input| - it
    {
      var overrun, failed;
      overrun, failed, it, tokens, report := ScanOperand(input, it, bracketCount, tokens);
      if overrun {
        return false, false, [], "";
      }
      if failed {
        return true, false, tokens, report;
      }
      if it == |input| {
        break;
      }
      it := StepOverBlanks(input, it);
      failed, it, bracketCount, tokens, report := SwitchOn(input, it, bracketCount, tokens);
      if failed {
        return true, false, tokens, report;
      }
    }
    if bracketCount > 0 {
      report := Error("Lexical error", "Expected ')'").Render();
      tokens := [];
      return true, false, tokens, report;
    }
    ok, report := true, "";
  }
}
