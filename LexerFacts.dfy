/** What the lexer of Lexer.cpp guarantees about the tokens it produces and the errors it reports. */
module LexerFacts {
  import opened Chars
  import opened Tokens
  import opened Lexing

  /** The change a token makes to the bracket nesting depth. */
  function Delta(t: Token): int
  {
    if t == Plain(OpeningBracket) then 1 else if t == Plain(ClosingBracket) then -1 else 0
  }

  /** Opening brackets minus closing brackets. */
  function Depth(ts: seq<Token>): int
  {
    if ts == [] then 0 else Depth(ts[..|ts| - 1]) + Delta(ts[|ts| - 1])
  }

  /** No prefix closes more brackets than it opens. */
  ghost predicate NeverBelowZero(ts: seq<Token>)
  {
    forall k :: 0 <= k <= |ts| ==> Depth(ts[..k]) >= 0
  }

  /** Every name token is a non-empty run of letters. */
  ghost predicate NamesAreWords(ts: seq<Token>)
  {
    forall k :: 0 <= k < |ts| && ts[k].Name? ==> |ts[k].name| > 0 && forall m :: 0 <= m < |ts[k].name| ==> IsCharacter(ts[k].name[m])
  }

  /** What holds of the tokens gathered so far, with `count` brackets open. */
  ghost predicate Gathered(acc: seq<Token>, count: nat)
  {
    Depth(acc) == count && NeverBelowZero(acc) && NamesAreWords(acc)
  }

  lemma {:induction false} Extend(acc: seq<Token>, count: nat, t: Token, count': nat)
    requires Gathered(acc, count)
    requires count' == count + Delta(t)
    requires t.Name? ==> |t.name| > 0 && forall m :: 0 <= m < |t.name| ==> IsCharacter(t.name[m])
    ensures Gathered(acc + [t], count')
  {
    var ts := acc + [t];
    assert ts[..|ts| - 1] == acc;
    forall k | 0 <= k <= |ts|
      ensures Depth(ts[..k]) >= 0
    {
      if k < |ts| {
        assert ts[..k] == acc[..k];
      } else {
        assert ts[..k] == ts;
      }
    }
  }

  lemma {:induction false} ScanFromGathers(s: string, i: nat, count: nat, acc: seq<Token>)
    requires i <= |s| && Gathered(acc, count)
    ensures ScanFrom(s, i, count, acc).Scanned? ==> Gathered(ScanFrom(s, i, count, acc).tokens, 0)
    decreases |s| - i, 2
  {
    if i == |s| {
    } else {
      var j := SkipBlanks(s, i);
      if IsCharacter(At(s, j)) {
        var k := NameEnd(s, j);
        Extend(acc, count, Name(s[j..k]), count);
        AfterOperandGathers(s, k, count, acc + [Name(s[j..k])]);
      } else if IsDigit(At(s, j)) || At(s, j) == '-' {
        var negative := At(s, j) == '-';
        var start := if negative then j + 1 else j;
        if start < |s| {
          match NumberFrom(s, start, 0, false, 1)
          case SecondDot(at) =>
          case Run(end, m, pw) =>
            var t := Num(NumberValue(negative, m, pw));
            Extend(acc, count, t, count);
            AfterOperandGathers(s, end, count, acc + [t]);
        }
      } else {
        AfterOperandGathers(s, j, count, acc);
      }
    }
  }

  lemma {:induction false} AfterOperandGathers(s: string, p: nat, count: nat, acc: seq<Token>)
    requires p <= |s| && Gathered(acc, count)
    ensures AfterOperand(s, p, count, acc).Scanned? ==> Gathered(AfterOperand(s, p, count, acc).tokens, 0)
    decreases |s| - p, 1
  {
    if p < |s| {
      SwitchGathers(s, SkipBlanks(s, p), count, acc);
    }
  }

  lemma {:induction false} SwitchGathers(s: string, q: nat, count: nat, acc: seq<Token>)
    requires q <= |s| && Gathered(acc, count)
    ensures Switch(s, q, count, acc).Scanned? ==> Gathered(Switch(s, q, count, acc).tokens, 0)
    decreases |s| - q, 0
  {
    var c := At(s, q);
    if c == '(' {
      Extend(acc, count, Plain(OpeningBracket), count + 1);
      ScanFromGathers(s, q + 1, count + 1, acc + [Plain(OpeningBracket)]);
    } else if c == ')' {
      if count > 0 {
        Extend(acc, count, Plain(ClosingBracket), count - 1);
        ScanFromGathers(s, q + 1, count - 1, acc + [Plain(ClosingBracket)]);
      }
    } else if c == ',' {
      Extend(acc, count, Plain(Comma), count);
      ScanFromGathers(s, q + 1, count, acc + [Plain(Comma)]);
    } else if c == '<' {
      if At(s, q + 1) == '-' {
        Extend(acc, count, Plain(Arrow), count);
        ScanFromGathers(s, q + 2, count, acc + [Plain(Arrow)]);
      }
    } else if c == '#' {
      if q + 1 < |s| && IsDigit(s[q + 1]) {
        var e := DigitsEnd(s, q + 1);
        var t := Arg(WrappedDecimal(s[q + 1..e]));
        Extend(acc, count, t, count);
        ScanFromGathers(s, e, count, acc + [t]);
      }
    }
  }

  /**
   * On success the brackets balance, no prefix of the tokens closes more
   * brackets than it opens, and every name token is a non-empty run of letters.
   */
  lemma LexedTokensAreBalanced(s: string)
    requires Lex(s).Scanned?
    ensures Depth(Lex(s).tokens) == 0
    ensures forall k :: 0 <= k <= |Lex(s).tokens| ==> Depth(Lex(s).tokens[..k]) >= 0
    ensures NamesAreWords(Lex(s).tokens)
  {
    var none: seq<Token> := [];
    assert Gathered(none, 0) by {
      assert forall k :: 0 <= k <= 0 ==> none[..k] == [];
    }
    ScanFromGathers(s, 0, 0, none);
  }


  function Pow10(n: nat): (r: nat)
    ensures r >= 1
  {
    if n == 0 then 1 else 10 * Pow10(n - 1)
  }

  /** Every character of `ds` is a digit. */
  ghost predicate AllDigits(ds: string)
  {
    forall k :: 0 <= k < |ds| ==> IsDigit(ds[k])
  }

  /** Every character of `s` from `p` up to `k` is a digit. */
  ghost predicate DigitsBetween(s: string, p: nat, k: nat)
    requires p <= k <= |s|
  {
    forall j :: p <= j < k ==> IsDigit(s[j])
  }

  /** Every character of `s` from `p` up to `k` is a letter. */
  ghost predicate LettersBetween(s: string, p: nat, k: nat)
    requires p <= k <= |s|
  {
    forall j :: p <= j < k ==> IsCharacter(s[j])
  }

  lemma Distribute(m: int, d: int, pw: int, rest: int)
    ensures (m * 10 + d) * pw + rest == m * (10 * pw) + (d * pw + rest)
  {
    calc {
      (m * 10 + d) * pw + rest;
      m * 10 * pw + d * pw + rest;
      { assert m * 10 * pw == m * (10 * pw); }
      m * (10 * pw) + (d * pw + rest);
    }
  }

  /** Reading a digit string from its first digit on: the first digit weighs ten to the length of the rest. */
  lemma {:induction false} DecimalPrepend(c: char, rest: string)
    ensures Decimal([c] + rest) == DigitValue(c) * Pow10(|rest|) + Decimal(rest)
    decreases |rest|
  {
    var w := [c] + rest;
    if rest == [] {
      assert w[..0] == [];
    } else {
      var init := rest[..|rest| - 1];
      var last := DigitValue(rest[|rest| - 1]);
      assert w[..|w| - 1] == [c] + init;
      DecimalPrepend(c, init);
      var P := Pow10(|init|);
      assert Decimal(w) == (DigitValue(c) * P + Decimal(init)) * 10 + last;
      assert (DigitValue(c) * P + Decimal(init)) * 10 == DigitValue(c) * (P * 10) + Decimal(init) * 10;
    }
  }

  /** Reading the concatenation of two digit strings. */
  lemma {:induction false} DecimalAppend(a: string, b: string)
    ensures Decimal(a + b) == Decimal(a) * Pow10(|b|) + Decimal(b)
    decreases |b|
  {
    if b == [] {
      assert a + b == a;
    } else {
      var init := b[..|b| - 1];
      var last := DigitValue(b[|b| - 1]);
      assert (a + b)[..|a + b| - 1] == a + init;
      DecimalAppend(a, init);
      var P := Pow10(|init|);
      assert Decimal(a + b) == (Decimal(a) * P + Decimal(init)) * 10 + last;
      assert (Decimal(a) * P + Decimal(init)) * 10 == Decimal(a) * (P * 10) + Decimal(init) * 10;
    }
  }

  lemma ModuloUnique(x: int, t: int, r: int, L: int)
    requires L > 0 && 0 <= r < L && x == t * L + r
    ensures x % L == r
  {
    var a := x / L - t;
    assert a * L == r - x % L;
  }

  /** The 32-bit accumulation of an argument index is the decimal value modulo 2^32. */
  lemma {:induction false} WrappedIsModulo(ds: string)
    ensures WrappedDecimal(ds) == Decimal(ds) % UnsignedLimit
    decreases |ds|
  {
    if ds != [] {
      var init := ds[..|ds| - 1];
      var d := DigitValue(ds[|ds| - 1]);
      WrappedIsModulo(init);
      var x := Decimal(init);
      var L := UnsignedLimit;
      var y := x % L * 10 + d;
      assert x == x / L * L + x % L;
      assert x * 10 + d == (x / L * 10) * L + y;
      assert y == y / L * L + y % L;
      assert x * 10 + d == (x / L * 10 + y / L) * L + y % L;
      ModuloUnique(x * 10 + d, x / L * 10 + y / L, y % L, L);
    }
  }

  /** The digits of `s` from `p` up to `k` read as a decimal number. */
  function DecimalBetween(s: string, p: nat, k: nat): int
    requires p <= k <= |s|
  {
    Decimal(s[p..k])
  }

  lemma DecimalBetweenStep(s: string, p: nat, k: nat)
    requires p < k <= |s|
    ensures DecimalBetween(s, p, k) == DigitValue(s[p]) * Pow10(k - p - 1) + DecimalBetween(s, p + 1, k)
  {
    assert s[p..k] == [s[p]] + s[p + 1..k];
    DecimalPrepend(s[p], s[p + 1..k]);
  }

  /** One digit of the number loop, before the run ends at `k`. */
  lemma DigitStep(s: string, p: nat, k: nat, m: int, dot: bool, pw: nat)
    requires p < k <= |s| && pw >= 1 && DigitsBetween(s, p, k)
    requires k == |s| || !(IsDigit(s[k]) || s[k] == '.')
    ensures var m', pw' := m * 10 + DigitValue(s[p]), if dot then pw * 10 else pw;
      NumberFrom(s, p, m, dot, pw) == if p + 1 == k then Run(k, m', pw') else NumberFrom(s, p + 1, m', dot, pw')
  {
    assert s[p] != '.';
  }

  /** The arithmetic of one step of `DigitRun`, with `Q` standing for ten times `P`. */
  lemma RunArithmetic(m: int, d: int, P: int, r: int, dot: bool, pw: int, Q: int)
    requires Q == 10 * P
    ensures (m * 10 + d) * P + r == m * Q + (d * P + r)
    ensures (if dot then (pw * 10) * P else pw) == (if dot then pw * Q else pw)
  {
    Distribute(m, d, P, r);
  }

  /** A run of digits from `p` to `k`, not followed by a digit or a '.', ends the number loop at `k`. */
  lemma {:induction false} DigitRun(s: string, p: nat, k: nat, m: int, dot: bool, pw: nat)
    requires p < k <= |s| && pw >= 1 && DigitsBetween(s, p, k)
    requires k == |s| || !(IsDigit(s[k]) || s[k] == '.')
    ensures NumberFrom(s, p, m, dot, pw)
         == Run(k, m * Pow10(k - p) + DecimalBetween(s, p, k), if dot then pw * Pow10(k - p) else pw)
    decreases k - p
  {
    var d := DigitValue(s[p]);
    DigitStep(s, p, k, m, dot, pw);
    DecimalBetweenStep(s, p, k);
    var P := Pow10(k - p - 1);
    assert Pow10(k - p) == 10 * P;
    if p + 1 == k {
      assert s[p + 1..k] == [];
      RunArithmetic(m, d, 1, 0, dot, pw, Pow10(k - p));
    } else {
      DigitRun(s, p + 1, k, m * 10 + d, dot, if dot then pw * 10 else pw);
      RunArithmetic(m, d, P, DecimalBetween(s, p + 1, k), dot, pw, Pow10(k - p));
    }
  }

  /** Digits from `p` up to a '.' at `d`: the number loop reaches the '.' with their value as mantissa. */
  lemma {:induction false} DigitsUpToDot(s: string, p: nat, d: nat, m: int)
    requires p < d < |s| && s[d] == '.' && DigitsBetween(s, p, d)
    ensures NumberFrom(s, p, m, false, 1) == NumberFrom(s, d, m * Pow10(d - p) + DecimalBetween(s, p, d), false, 1)
    decreases d - p
  {
    var m' := m * 10 + DigitValue(s[p]);
    DecimalBetweenStep(s, p, d);
    var P := Pow10(d - p - 1);
    if p + 1 == d {
      assert s[p + 1..d] == [];
    } else {
      DigitsUpToDot(s, p + 1, d, m');
      Distribute(m, DigitValue(s[p]), P, DecimalBetween(s, p + 1, d));
    }
  }

  /** A '.' followed by a run of digits (possibly empty) ends the number loop after the run. */
  lemma {:induction false} DotThenDigits(s: string, d: nat, k: nat, m: int)
    requires d < k <= |s| && s[d] == '.' && DigitsBetween(s, d + 1, k)
    requires k == |s| || !(IsDigit(s[k]) || s[k] == '.')
    ensures NumberFrom(s, d, m, false, 1) == Run(k, m * Pow10(k - d - 1) + DecimalBetween(s, d + 1, k), Pow10(k - d - 1))
  {
    if k == d + 1 {
      assert s[d + 1..k] == [];
    } else {
      DigitRun(s, d + 1, k, m, true, 1);
    }
  }

  /** After a first '.', a run of digits and then another '.' stops the loop at the second '.'. */
  lemma {:induction false} DigitsThenDot(s: string, p: nat, k: nat, m: int, pw: nat)
    requires p <= k < |s| && pw >= 1 && s[k] == '.' && DigitsBetween(s, p, k)
    ensures NumberFrom(s, p, m, true, pw) == SecondDot(k)
    decreases k - p
  {
    if p < k {
      DigitsThenDot(s, p + 1, k, m * 10 + DigitValue(s[p]), pw * 10);
    }
  }

  /** The number branch of the scan loop, once the number loop's outcome is known. */
  lemma NumberAt(s: string, i: nat, count: nat, acc: seq<Token>, end: nat, m: int, pw: nat)
    requires i < |s| && (IsDigit(s[i]) || s[i] == '-')
    requires s[i] == '-' ==> i + 1 < |s|
    requires pw >= 1 && NumberFrom(s, if s[i] == '-' then i + 1 else i, 0, false, 1) == Run(end, m, pw)
    ensures ScanFrom(s, i, count, acc) == AfterOperand(s, end, count, acc + [Num(NumberValue(s[i] == '-', m, pw))])
  {
    assert SkipBlanks(s, i) == i;
  }

  /** A line that is one number, with an optional '-' in front, lexes to that number. */
  lemma NumberLine(s: string, start: nat, m: int, pw: nat)
    requires start < |s| && ((start == 0 && IsDigit(s[0])) || (start == 1 && s[0] == '-'))
    requires pw >= 1 && NumberFrom(s, start, 0, false, 1) == Run(|s|, m, pw)
    ensures Lex(s) == Scanned([Num(NumberValue(start == 1, m, pw))])
  {
    NumberAt(s, 0, 0, [], |s|, m, pw);
  }

  /** The number loop over `digits '.' digits` running to the end of the line; either run may be empty. */
  lemma DecimalRun(s: string, start: nat, d: nat)
    requires start <= d < |s| && s[d] == '.' && DigitsBetween(s, start, d) && DigitsBetween(s, d + 1, |s|)
    ensures NumberFrom(s, start, 0, false, 1) == Run(|s|, Decimal(s[start..d] + s[d + 1..]), Pow10(|s| - d - 1))
  {
    var A, B := s[start..d], s[d + 1..];
    var P := Pow10(|s| - d - 1);
    if start < d {
      DigitsUpToDot(s, start, d, 0);
      assert 0 * Pow10(d - start) == 0;
    } else {
      assert A == [];
    }
    assert NumberFrom(s, start, 0, false, 1) == NumberFrom(s, d, Decimal(A), false, 1);
    DotThenDigits(s, d, |s|, Decimal(A));
    assert s[d + 1..|s|] == B;
    DecimalAppend(A, B);
  }

  /** The number loop over a run of digits that ends the line. */
  lemma IntegerRun(s: string, start: nat)
    requires start < |s| && DigitsBetween(s, start, |s|)
    ensures NumberFrom(s, start, 0, false, 1) == Run(|s|, Decimal(s[start..]), 1)
  {
    DigitRun(s, start, |s|, 0, false, 1);
    assert 0 * Pow10(|s| - start) == 0;
    assert s[start..|s|] == s[start..];
  }

  function Sign(negative: bool): string
  {
    if negative then "-" else ""
  }

  /** The number loop over `[-]a.b` reads `a` and `b` to the end of the line; `a` may be empty after a '-'. */
  lemma SignedDecimal(negative: bool, a: string, b: string)
    requires (|a| > 0 || negative) && AllDigits(a) && AllDigits(b)
    ensures var s := Sign(negative) + a + "." + b; var start := if negative then 1 else 0;
      start < |s| && (negative ==> s[0] == '-') && (!negative ==> IsDigit(s[0]))
      && NumberFrom(s, start, 0, false, 1) == Run(|s|, Decimal(a + b), Pow10(|b|))
  {
    var s := Sign(negative) + a + "." + b;
    var start := |Sign(negative)|;
    var d := start + |a|;
    assert s[start..d] == a && s[d] == '.' && s[d + 1..] == b;
    assert DigitsBetween(s, start, d) by {
      forall j | start <= j < d ensures IsDigit(s[j]) { assert s[j] == a[j - start]; }
    }
    assert DigitsBetween(s, d + 1, |s|) by {
      forall j | d + 1 <= j < |s| ensures IsDigit(s[j]) { assert s[j] == b[j - d - 1]; }
    }
    if !negative {
      assert s[0] == a[0];
    }
    DecimalRun(s, start, d);
  }

  /**
   * A literal `[-]a.b` lexes to one number token: the digits of `a` and `b`
   * read as one integer, over ten to the number of digits after the '.',
   * negated after a '-'. After a '-' the integer part `a` may be empty, as in `-.5`.
   */
  lemma DecimalLiteral(negative: bool, a: string, b: string)
    requires (|a| > 0 || negative) && AllDigits(a) && AllDigits(b)
    ensures Lex(Sign(negative) + a + "." + b) == Scanned([Num(NumberValue(negative, Decimal(a + b), Pow10(|b|)))])
  {
    SignedDecimal(negative, a, b);
    NumberLine(Sign(negative) + a + "." + b, if negative then 1 else 0, Decimal(a + b), Pow10(|b|));
  }

  /** The number loop over `[-]a` reads `a` to the end of the line. */
  lemma SignedDigits(negative: bool, a: string)
    requires |a| > 0 && AllDigits(a)
    ensures var s := Sign(negative) + a; var start := if negative then 1 else 0;
      start < |s| && IsDigit(s[start]) && (negative ==> s[0] == '-')
      && NumberFrom(s, start, 0, false, 1) == Run(|s|, Decimal(a), 1)
  {
    var s := Sign(negative) + a;
    var start := if negative then 1 else 0;
    assert s[|s| - 1] == a[|a| - 1] && s[start] == a[0];
    assert s[start..] == a;
    assert DigitsBetween(s, start, |s|) by {
      forall j | start <= j < |s| ensures IsDigit(s[j]) { assert s[j] == a[j - start]; }
    }
    IntegerRun(s, start);
  }

  /** A literal `[-]a` without a '.' lexes to the integer `a`, negated after a '-'. */
  lemma IntegerLiteral(negative: bool, a: string)
    requires |a| > 0 && AllDigits(a)
    ensures Lex(Sign(negative) + a) == Scanned([Num(if negative then -(Decimal(a) as real) else Decimal(a) as real)])
  {
    var s := Sign(negative) + a;
    SignedDigits(negative, a);
    WholeNumberLine(s, negative, Decimal(a));
  }

  /** A line that is one whole number lexes to that number, negated after a '-'. */
  lemma WholeNumberLine(s: string, negative: bool, m: int)
    requires var start := if negative then 1 else 0;
      start < |s| && IsDigit(s[start]) && (negative ==> s[0] == '-')
      && NumberFrom(s, start, 0, false, 1) == Run(|s|, m, 1)
    ensures Lex(s) == Scanned([Num(if negative then -(m as real) else m as real)])
  {
    NumberLine(s, if negative then 1 else 0, m, 1);
    assert m as real / 1 as real == m as real;
  }

  /**
   * Digits from `p` up to a first '.' at `d`, digits after it up to another
   * '.' at `e`: the number loop stops at the second '.'.
   */
  lemma {:induction false} ReachesSecondDot(s: string, p: nat, d: nat, e: nat, m: int, pw: nat)
    requires p <= d < e < |s| && s[d] == '.' && s[e] == '.' && pw >= 1
    requires DigitsBetween(s, p, d) && DigitsBetween(s, d + 1, e)
    ensures NumberFrom(s, p, m, false, pw) == SecondDot(e)
    decreases d - p
  {
    if p < d {
      assert IsDigit(s[p]) && NumberGoesOn(s, p);
      ReachesSecondDot(s, p + 1, d, e, m * 10 + DigitValue(s[p]), pw);
    } else {
      assert NumberGoesOn(s, d);
      DigitsThenDot(s, d + 1, e, m, pw);
    }
  }

  /**
   * A number `[-]a.b.` met by the scan at any position `i`, whatever tokens
   * came before it: an illegal character at the second '.', and no tokens.
   * After a '-' the integer part `a` may be empty.
   */
  lemma SecondDotAt(prefix: string, negative: bool, a: string, b: string, rest: string, count: nat, acc: seq<Token>)
    requires (|a| > 0 || negative) && AllDigits(a) && AllDigits(b)
    ensures var s := prefix + Sign(negative) + a + "." + b + "." + rest;
      ScanFrom(s, |prefix|, count, acc)
        == Rejected(IllegalCharacter('.', s, |prefix| + |Sign(negative)| + |a| + 1 + |b|))
  {
    var s := prefix + Sign(negative) + a + "." + b + "." + rest;
    var i := |prefix|;
    var start := i + |Sign(negative)|;
    var d := start + |a|;
    var e := d + 1 + |b|;
    assert s[d] == '.' && s[e] == '.';
    assert DigitsBetween(s, start, d) by {
      forall j | start <= j < d ensures IsDigit(s[j]) { assert s[j] == a[j - start]; }
    }
    assert DigitsBetween(s, d + 1, e) by {
      forall j | d + 1 <= j < e ensures IsDigit(s[j]) { assert s[j] == b[j - d - 1]; }
    }
    if negative {
      assert s[i] == '-';
    } else {
      assert s[i] == a[0];
    }
    assert SkipBlanks(s, i) == i;
    ReachesSecondDot(s, start, d, e, 0, 1);
  }

  /** A second '.' in a number that starts the line, with or without a '-', is an illegal character at that '.'. */
  lemma SecondDotIsIllegal(negative: bool, a: string, b: string, rest: string)
    requires (|a| > 0 || negative) && AllDigits(a) && AllDigits(b)
    ensures var s := Sign(negative) + a + "." + b + "." + rest;
      Lex(s) == Rejected(IllegalCharacter('.', s, |Sign(negative)| + |a| + 1 + |b|))
  {
    SecondDotAt("", negative, a, b, rest, 0, []);
    assert "" + Sign(negative) + a + "." + b + "." + rest == Sign(negative) + a + "." + b + "." + rest;
  }

  /** The letter loop from `j` stops at the end `k` of the run of letters. */
  lemma {:induction false} NameEndAt(s: string, j: nat, k: nat)
    requires j < k <= |s| && LettersBetween(s, j, k) && (k == |s| || !IsCharacter(s[k]))
    ensures NameEnd(s, j) == k
    decreases k - j
  {
    if j + 1 < k {
      NameEndAt(s, j + 1, k);
    }
  }

  /** A maximal run of letters from `j` to `k` becomes one name token carrying exactly that run. */
  lemma NameRun(s: string, j: nat, k: nat, count: nat, acc: seq<Token>)
    requires j < k <= |s| && LettersBetween(s, j, k) && (k == |s| || !IsCharacter(s[k]))
    ensures ScanFrom(s, j, count, acc) == AfterOperand(s, k, count, acc + [Name(s[j..k])])
  {
    assert IsCharacter(s[j]);
    assert SkipBlanks(s, j) == j;
    NameEndAt(s, j, k);
  }

  /**
   * After a name, the next character that is not a blank goes to the
   * `switch`: a name, a space and another name is an illegal character at
   * the second name's first letter.
   */
  lemma NameBlankName(a: string, b: string)
    requires |a| > 0 && |b| > 0
    requires forall m :: 0 <= m < |a| ==> IsCharacter(a[m])
    requires forall m :: 0 <= m < |b| ==> IsCharacter(b[m])
    ensures Lex(a + " " + b) == Rejected(IllegalCharacter(b[0], a + " " + b, |a| + 1))
  {
    var s := a + " " + b;
    assert s[|s| - 1] == b[|b| - 1];
    assert LettersBetween(s, 0, |a|) by {
      forall m | 0 <= m < |a| ensures IsCharacter(s[m]) { assert s[m] == a[m]; }
    }
    assert s[|a|] == ' ';
    NameRun(s, 0, |a|, 0, []);
    assert SkipBlanks(s, |a| + 1) == |a| + 1 by {
      assert s[|a| + 1] == b[0];
    }
    assert SkipBlanks(s, |a|) == |a| + 1;
    assert At(s, |a| + 1) == b[0];
  }

  /** The digit loop from `p` stops at the end `k` of the run of digits. */
  lemma {:induction false} DigitsEndAt(s: string, p: nat, k: nat)
    requires p < k <= |s| && DigitsBetween(s, p, k) && (k == |s| || !IsDigit(s[k]))
    ensures DigitsEnd(s, p) == k
    decreases k - p
  {
    if p + 1 < k {
      DigitsEndAt(s, p + 1, k);
    }
  }

  /**
   * '#' followed by the digits from `q + 1` to `e` yields one argument token
   * holding their decimal value, reduced modulo 2^32.
   */
  lemma ArgumentRun(s: string, q: nat, e: nat, count: nat, acc: seq<Token>)
    requires q + 1 < e <= |s| && s[q] == '#' && DigitsBetween(s, q + 1, e) && (e == |s| || !IsDigit(s[e]))
    ensures Switch(s, q, count, acc) == ScanFrom(s, e, count, acc + [Arg(Decimal(s[q + 1..e]) % UnsignedLimit)])
  {
    DigitsEndAt(s, q + 1, e);
    WrappedIsModulo(s[q + 1..e]);
  }

  /**
   * '#' not followed by a digit, and '<' not followed by '-', are illegal
   * characters at the position after them; a ')' with no bracket open is
   * an illegal character at its own position.
   */
  lemma MalformedPunctuation(s: string, q: nat, acc: seq<Token>)
    requires q < |s|
    ensures s[q] == '#' && !(q + 1 < |s| && IsDigit(s[q + 1]))
        ==> Switch(s, q, 0, acc) == Rejected(IllegalCharacter(At(s, q + 1), s, q + 1))
    ensures s[q] == '<' && At(s, q + 1) != '-'
        ==> Switch(s, q, 0, acc) == Rejected(IllegalCharacter(At(s, q + 1), s, q + 1))
    ensures s[q] == ')' ==> Switch(s, q, 0, acc) == Rejected(IllegalCharacter(')', s, q))
    ensures s[q] == '<' && At(s, q + 1) == '-'
        ==> Switch(s, q, 0, acc) == ScanFrom(s, q + 2, 0, acc + [Plain(Arrow)])
  {
  }

  /** Unclosed and unopened brackets. */
  lemma BracketErrors()
    ensures Lex("f(") == Rejected(Error("Lexical error", "Expected ')'"))
    ensures Lex(")") == Rejected(IllegalCharacter(')', ")", 0))
    ensures Lex("f(1))") == Rejected(IllegalCharacter(')', "f(1))", 4))
  {
    NameRun("f(", 0, 1, 0, []);
    assert SkipBlanks("f(", 1) == 1;
    assert SkipBlanks(")", 0) == 0;
    var t := "f(1))";
    NameRun(t, 0, 1, 0, []);
    assert SkipBlanks(t, 1) == 1 && SkipBlanks(t, 2) == 2 && SkipBlanks(t, 3) == 3 && SkipBlanks(t, 4) == 4;
    assert NumberFrom(t, 2, 0, false, 1) == Run(3, 1, 1);
  }

  /** A line ending in the arrow `<-` is scanned as usual. */
  lemma TrailingArrow()
    ensures Lex("f <-") == Scanned([Name("f"), Plain(Arrow)])
  {
    var a := "f <-";
    NameRun(a, 0, 1, 0, []);
    assert a[0..1] == "f";
    assert SkipBlanks(a, 1) == 2;
    assert Switch(a, 2, 0, [Name("f")]) == ScanFrom(a, 4, 0, [Name("f"), Plain(Arrow)]);
  }

  /** A '-' at the end of a line after a name, a number or a '#' is an illegal character. */
  lemma TrailingMinusIsIllegal()
    ensures Lex("x-") == Rejected(IllegalCharacter('-', "x-", 1))
    ensures Lex("1-") == Rejected(IllegalCharacter('-', "1-", 1))
    ensures Lex("#-") == Rejected(IllegalCharacter('-', "#-", 1))
  {
    NameRun("x-", 0, 1, 0, []);
    assert SkipBlanks("x-", 1) == 1;
    assert NumberFrom("1-", 0, 0, false, 1) == Run(1, 1, 1);
    assert SkipBlanks("1-", 1) == 1;
    assert SkipBlanks("#-", 0) == 0;
  }

  /** Only a '-' that starts a number as the line's last character reads past the end of the line. */
  lemma MinusStartingNumberOverruns()
    ensures Lex("-") == Overrun
    ensures Lex("f(1, -") == Overrun
  {
    var t := "f(1, -";
    NameRun(t, 0, 1, 0, []);
    assert SkipBlanks(t, 1) == 1 && SkipBlanks(t, 2) == 2 && SkipBlanks(t, 3) == 3 && SkipBlanks(t, 4) == 5;
    assert NumberFrom(t, 2, 0, false, 1) == Run(3, 1, 1);
  }
}
