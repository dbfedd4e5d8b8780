# ThisFunc in Dafny

A model of the core of ThisFunc, a small prefix-notation expression language
with user-defined functions. An input line such as

    fact <- if(eq(#0, 0), 1, mul(#0, fact(sub(#0, 1))))

goes through three stages:

- the **lexer** (`Lexer::make_tokens`) turns it into tokens;
- the **parser** (`Parser`) turns the tokens into a syntax tree;
- the **interpreter** (`Interpreter`) walks the tree over a result stack, a
  flat argument buffer, a frame offset and a registry of declarations.

The model follows the C++ code branch by branch, including its quirks and its
undefined behaviour. The lexer reads an input line as characters; this agrees
with the C++, which reads the bytes of a `std::string`, on ASCII lines (see
"Left out").

## Layout

| file | module | form |
|---|---|---|
| `Wrappers.dfy` | `Wrappers` | `Option`, the model of a pointer that may be null |
| `Chars.dfy` | `Chars` | the character classes of `helper_functions.cpp` (pure) |
| `Stack.dfy` | `Stacks` | `Stack<T>` of `Stack.hpp` as a class over an `array` whose capacity doubles |
| `Tokens.dfy` | `Tokens` | the `Type` enum, the token structs and the `Error` hierarchy with its rendering |
| `Lexer.dfy` | `Lexing` | see below |
| `LexerFacts.dfy` | `LexerFacts` | what the lexer guarantees |
| `Ast.dfy` | `Ast` | the node hierarchy of `Parser.h`, `Node::copy` and `clone` |
| `ParserSpec.dfy` | `ParserSpec` | the parser as functions of the token vector and a cursor |
| `Parser.dfy` | `Parsing` | see below |
| `ParserFacts.dfy` | `ParserFacts` | how each construct is recognised, and its error reports |
| `InterpreterSpec.dfy` | `InterpreterSpec` | every `visit_*` as a function from the interpreter state to the state after it |
| `Interpreter.dfy` | `Interpreting` | see below |
| `InterpreterFrames.dfy` | `InterpreterFrames` | the frame discipline of user calls |
| `InterpreterFacts.dfy` | `InterpreterFacts` | built-ins, arguments, declarations, lists and `interpret` |

Detail for the three imperative files:

- **`Lexer.dfy`.** The function `Lex` states what `make_tokens` computes. The method `MakeTokens` is the hand-driven iterator scan, with its loops. It is proved to compute `Lex`.
- **`Parser.dfy`.** The class `Parser` has the mutable cursor fields. Each of its methods is proved to compute its `ParserSpec` function.
- **`Interpreter.dfy`.** The class `Interpreter` has the fields of `Interpreter.h`, with the result stack a `Stack<real>`. Each `visit_*` is a method proved to compute its `InterpreterSpec` function.

Modelling choices:

- **Numbers.** They are `real`. An argument index is a 32-bit `unsigned`, so the lexer's accumulation of it wraps modulo 2^32. `visit_argument` computes `m_offset + index` in that width too.
- **Reading at the end of a line.** Dereferencing the iterator at the end of the line reads the string's terminating `'\0'`. The one place where the lexer steps past the terminator, a '-' that starts a number as the last character, ends in `Overrun`.
- **Undefined behaviour.** The interpreter stops with `Stuck(Undefined)` wherever the C++ code has undefined behaviour. Examples are a pop of an empty stack or vector, an out-of-range read, a null dereference, and rendering an empty list. The parser likewise stops with `Undefined` when it reads `m_tokens[-1]`.
- **Step budgets (fuel).** `advance` at the last token sets the index to -1. `expr` on a `)` advances, and from -1 that re-enters at token 0. So the parser has no decreasing measure. It therefore carries a step budget: each `expr` spends one unit. The interpreter spends one unit per `visit`, so a definition that calls itself forever stops with `Stuck(OutOfFuel)`.

## Model

| member | source | states |
|---|---|---|
| Chars.DigitValue | helper_functions.cpp:8-11 | the value of a digit character is 0..9, and only '0' has value 0 |
| Chars.IsCharacter | helper_functions.cpp:3-6 | a letter is neither a digit, nor a blank, nor the terminator `'\0'` |
| Chars.IsDigit | helper_functions.cpp:8-11 | a digit is neither a blank, nor '-', nor '.', nor the terminator, so a number's loop stops at each of them |
| Chars.IsBlank | Lexer.cpp:148-151 | a blank (space or tab) is not the terminator, so the blank-skipping loop stops at the end of the line |
| Chars.CharacterCodes | helper_functions.cpp:3-6 | `is_character(c)` holds exactly for the codes of 'A'..'Z' and 'a'..'z' |
| Chars.DigitCodes | helper_functions.cpp:8-11 | `is_digit(c)` holds exactly for the codes of '0'..'9' |
| Chars.LettersAreNotDigits | helper_functions.cpp:3-11 | no character is both a letter and a digit |
| Chars.PunctuationIsNeither | helper_functions.cpp:3-11 | ' ', '\t', '-', '.', '_' and '#' are neither letters nor digits |
| Tokens.PayloadKinds | Lexer.h:53-106 | a name token has type FUNCTION_NAME, a number token NUMBER, an argument token ARGUMENT |
| Tokens.IllegalSyntax | Lexer.h:37-41 | a parser error has category "Illegal Syntax" and the given details |
| Tokens.RuntimeError | Lexer.h:43-46 | an interpreter error has category "Runtime Error" and the given details |
| Tokens.Spaces | Lexer.cpp:25-37 | the padding before the caret is exactly `n` spaces |
| Tokens.CaretUnderColumn | Lexer.cpp:14-37 | an Illegal Character report is the input line, a newline, `index` spaces, `^`, a newline, then `Illegal Character: 'c'` and two newlines |
| Tokens.Plainly | Lexer.cpp:14-17 | a report with no caret is the category, `: `, the details and two newlines: it starts with the category and ends with the blank line |
| Tokens.ReportEndsWithCategory | Lexer.cpp:14-37 | every rendered error ends with its category line; an Illegal Character report starts with the input line |
| Stacks.Stack.constructor | Stack.hpp:52-57 | a new stack is empty, with capacity 8 and a fresh array |
| Stacks.Stack.Resize | Stack.hpp:36-50 | the capacity doubles into a fresh array and the contents are copied in order |
| Stacks.Stack.IsFull | Stack.hpp:65-69 | true exactly when the size equals the capacity |
| Stacks.Stack.IsEmpty | Stack.hpp:71-75 | true exactly when the stack holds nothing |
| Stacks.Stack.Size | Stack.hpp:100-104 | the number of elements held |
| Stacks.Stack.Push | Stack.hpp:77-86 | the element is appended on top and those below are unchanged; a full stack doubles its capacity first |
| Stacks.Stack.Pop | Stack.hpp:88-92 | on a non-empty stack, returns the top and removes exactly it |
| Stacks.Stack.Top | Stack.hpp:94-98 | returns what `Pop` would return, changing nothing |
| Stacks.LastInFirstOut | Stack.hpp:77-92 | pushing `x` then `y` and popping twice yields `y` then `x` and restores the contents |
| Ast.CopyToken | Parser.cpp:8-35 | the copy of a token has the same kind and payload as the original |
| Ast.Cloneable | Parser.cpp:149-384 | nodes other than unary, `if` and user-function nodes can always be cloned; a unary node can be cloned only when its argument is present, since its copy dereferences it |
| Ast.Clone | Parser.cpp:101-104 | a clone carries the token of the node it copies |
| Ast.CloneCopiesValue | Parser.cpp:149-185 | a tree with no list or map node under unary, `if` and user-function nodes clones to an equal tree |
| Ast.CloneDropsListAndMap | Parser.cpp:101-104 | cloning a list or a map node yields a plain node holding only its token |
| Ast.BinaryCloneIsShallow | Parser.cpp:193-197 | a binary node's copy keeps its children as they are |
| Ast.CloneIsIdempotent | Parser.cpp:101-453 | cloning a clone gives the same clone again |
| Lexing.SkipBlanks | Lexer.cpp:148-151 | the position returned follows a run of blanks and is not a blank |
| Lexing.NameEnd | Lexer.cpp:154-165 | the end of the maximal run of letters starting at `p` |
| Lexing.DigitsEnd | Lexer.cpp:272-278 | the end of the maximal run of digits starting at `p` |
| Lexing.WrappedDecimal | Lexer.cpp:272-278 | the 32-bit accumulation stays below 2^32 |
| Lexing.NumberValue | Lexer.cpp:196-207 | a number token's value times the power of ten is the mantissa, negated after a leading '-' |
| Lexing.Finish | Lexer.cpp:294-301 | the end of the line succeeds with the tokens gathered exactly when no bracket is open, else fails with "Expected ')'" |
| Lexing.ScanFrom | Lexer.cpp:145-301 | from position `i`, a scan keeps the tokens already gathered as a prefix, fails only with "Expected ')'" or an Illegal Character at a position at or after `i` naming the character there, and overruns only on a line whose last character is '-' |
| Lexing.AfterOperand | Lexer.cpp:210-218 | the same, from just after a name or number |
| Lexing.Switch | Lexer.cpp:220-291 | the same, from the `switch` |
| Lexing.Lex | Lexer.cpp:140-302 | `make_tokens` fails only with "Expected ')'" or an Illegal Character naming the character at its column, and reads past the end only on a line ending in '-' |
| Lexing.NumberFrom | Lexer.cpp:166-208 | the number loop ends after a digit or '.' run, or stops at a second '.' |
| Lexing.StepOverBlanks | Lexer.cpp:148-151 | the blank-skipping loop stops where `SkipBlanks` says |
| Lexing.GatherName | Lexer.cpp:154-165 | the letter loop returns the maximal run of letters and its end |
| Lexing.GatherNumber | Lexer.cpp:166-208 | the digit loop computes mantissa and power of ten as `NumberFrom` does |
| Lexing.GatherArgument | Lexer.cpp:272-278 | the index loop returns the digits' value accumulated in 32 bits, and their end |
| Lexing.SwitchOnArgument | Lexer.cpp:261-284 | the '#' case either fails with an emptied vector and the report `Lex` gives, or continues as `Lex` does |
| Lexing.SwitchOnArrow | Lexer.cpp:247-260 | the '<' case either fails with an emptied vector and the report `Lex` gives, or continues as `Lex` does |
| Lexing.SwitchOn | Lexer.cpp:220-291 | the `switch` on the punctuation either fails with an emptied vector and the report `Lex` gives, or continues as `Lex` does |
| Lexing.ScanOperand | Lexer.cpp:145-208 | the name or number part of a pass overruns exactly where `ScanFrom` does, fails only at a second '.' with the report `Lex` gives, and otherwise continues as `ScanFrom` |
| Lexing.MakeTokens | Lexer.cpp:140-302 | defined exactly when `Lex` does not overrun; then succeeds exactly when `Lex` scans the line, with its tokens, and otherwise returns no tokens and the rendered error |
| LexerFacts.Extend | Lexer.cpp:222-246 | appending a token keeps the bracket depth and the name invariant |
| LexerFacts.ScanFromGathers | Lexer.cpp:145-301 | a scan that succeeds from any point ends balanced with names made of letters |
| LexerFacts.AfterOperandGathers | Lexer.cpp:210-218 | the same, from just after a name or number |
| LexerFacts.SwitchGathers | Lexer.cpp:220-291 | the same, from the `switch` |
| LexerFacts.LexedTokensAreBalanced | Lexer.cpp:222-241 | on success '(' and ')' balance, no prefix has more ')' than '(', and every name is a non-empty run of letters |
| LexerFacts.Pow10 | Lexer.cpp:196-207 | a power of ten is positive |
| LexerFacts.Distribute | Lexer.cpp:196-207 | the digit-by-digit accumulation distributes over the power of ten |
| LexerFacts.DecimalPrepend | Lexer.cpp:196-207 | a leading digit weighs ten to the length of the rest |
| LexerFacts.DecimalAppend | Lexer.cpp:196-207 | the value of two concatenated digit strings |
| LexerFacts.ModuloUnique | Lexer.cpp:272-278 | a remainder in [0, L) is the remainder |
| LexerFacts.WrappedIsModulo | Lexer.cpp:272-278 | the 32-bit accumulation is the decimal value modulo 2^32 |
| LexerFacts.DecimalBetweenStep | Lexer.cpp:196-207 | peeling the first digit off a digit range |
| LexerFacts.DigitStep | Lexer.cpp:196-207 | one iteration of the number loop on a digit |
| LexerFacts.RunArithmetic | Lexer.cpp:196-207 | the arithmetic of one iteration of the number loop |
| LexerFacts.DigitRun | Lexer.cpp:196-207 | a run of digits multiplies the mantissa by ten per digit and adds their value |
| LexerFacts.DigitsUpToDot | Lexer.cpp:182-205 | digits before a '.' become the mantissa |
| LexerFacts.DotThenDigits | Lexer.cpp:182-207 | after the '.', each digit also multiplies the power of ten by ten |
| LexerFacts.DigitsThenDot | Lexer.cpp:184-191 | after a first '.', another '.' stops the loop at that '.' |
| LexerFacts.NumberAt | Lexer.cpp:166-208 | a number becomes one number token: mantissa over power, negated after '-' |
| LexerFacts.NumberLine | Lexer.cpp:166-213 | a line that is one number, starting with a digit or with '-', lexes to that one token |
| LexerFacts.DecimalRun | Lexer.cpp:166-208 | the loop over `digits.digits`, either run possibly empty, reads all digits as one integer over ten to the fraction length |
| LexerFacts.IntegerRun | Lexer.cpp:166-208 | the loop over a digit run reads their decimal value with power 1 |
| LexerFacts.SignedDecimal | Lexer.cpp:166-208 | the loop over `[-]a.b` reads `a` and `b` as one integer; after '-' the integer part may be empty |
| LexerFacts.DecimalLiteral | Lexer.cpp:166-208 | `[-]a.b` lexes to the digits of `a` and `b` as an integer, over 10^\|b\|, negated after '-'; after '-' `a` may be empty, so `-.5` is -0.5 |
| LexerFacts.SignedDigits | Lexer.cpp:166-208 | the loop over `[-]a` reads `a` |
| LexerFacts.IntegerLiteral | Lexer.cpp:166-208 | `[-]a` lexes to the integer `a`, negated after '-' |
| LexerFacts.WholeNumberLine | Lexer.cpp:166-213 | a line that is one whole number lexes to it |
| LexerFacts.ReachesSecondDot | Lexer.cpp:182-205 | digits, a '.', digits and another '.' stop the number loop at the second '.' |
| LexerFacts.SecondDotAt | Lexer.cpp:166-191 | a number `[-]a.b.` met by the scan at any position, after any tokens, is an Illegal Character at the second '.' |
| LexerFacts.SecondDotIsIllegal | Lexer.cpp:166-191 | a line starting with `[-]a.b.` is an Illegal Character at the second '.' |
| LexerFacts.NameEndAt | Lexer.cpp:154-165 | the letter loop stops exactly at the end of the run |
| LexerFacts.NameRun | Lexer.cpp:154-165 | a maximal run of letters becomes one name token carrying exactly that run |
| LexerFacts.NameBlankName | Lexer.cpp:210-220 | a name, a space and another name is an Illegal Character at the second name |
| LexerFacts.DigitsEndAt | Lexer.cpp:272-278 | the digit loop stops exactly at the end of the run |
| LexerFacts.ArgumentRun | Lexer.cpp:261-284 | '#' and digits yield one argument token holding their value modulo 2^32 |
| LexerFacts.MalformedPunctuation | Lexer.cpp:228-284 | '#' without a digit and '<' without '-' fail at the next column, ')' with no bracket open fails at its own, and '<-' yields an arrow |
| LexerFacts.BracketErrors | Lexer.cpp:228-299 | `f(` fails with "Expected ')'"; `)` and `f(1))` fail at the extra ')' |
| LexerFacts.TrailingArrow | Lexer.cpp:247-260 | `f <-` lexes to a name and an arrow: a line may end in '-' after '<' |
| LexerFacts.TrailingMinusIsIllegal | Lexer.cpp:166-218 | `x-`, `1-` and `#-` are an Illegal Character at the '-': a '-' after an operand does not start a number |
| LexerFacts.MinusStartingNumberOverruns | Lexer.cpp:166-175 | `-` and `f(1, -` end on a '-' that starts a number, where `make_tokens` reads past the end |
| ParserSpec.Advance | Parser.cpp:459-470 | moves to the next token and refreshes the type; past the last it sets -1 and keeps the type |
| ParserSpec.Report | Parser.cpp:481-482 | a report is appended; the cursor does not move |
| ParserSpec.Factor | Parser.cpp:472-483 | a factor node for the current token, then advance, exactly when the index is valid; otherwise "Expected a number" |
| ParserSpec.Expr | Parser.cpp:485-715 | keeps the cursor coherent, spends budget, and does nothing once halted |
| ParserSpec.Operation | Parser.cpp:502-625 | keeps the cursor coherent after a head name |
| ParserSpec.Operand | Parser.cpp:602-625 | keeps the cursor coherent across one operand |
| ParserSpec.AfterLeft | Parser.cpp:627-672 | keeps the cursor coherent after the first operand |
| ParserSpec.AfterRight | Parser.cpp:674-711 | keeps the cursor coherent after the second operand |
| ParserSpec.NaryTail | Parser.cpp:687-701 | keeps the cursor coherent across the operand loop |
| ParserSpec.AfterElement | Parser.cpp:534-559 | the list loop goes on only where its `while` condition holds |
| ParserSpec.ListCloses | Parser.cpp:536-543 | the list loop stops after an element only at ')', and always does at a ')' among the last two tokens |
| ParserSpec.ListGoesOn | Parser.cpp:559 | the `do`-`while` goes on only at a valid token that is not an arrow, an argument or a bracket |
| ParserSpec.ListTail | Parser.cpp:520-561 | keeps the cursor coherent across the list loop |
| ParserSpec.Start | Parser.cpp:717-722 | the constructor leaves index 0, or -1 when there are no tokens |
| ParserSpec.Parse | Parser.cpp:733-741 | no tokens parse to null with no report |
| Parsing.Parser.constructor | Parser.cpp:717-722 | copies the tokens, sets -1 and advances once |
| Parsing.Parser.Advance | Parser.cpp:459-470 | moves the cursor fields as `ParserSpec.Advance` says |
| Parsing.Parser.Report | Parser.cpp:481-482 | records the report as `ParserSpec.Report` says |
| Parsing.Parser.Factor | Parser.cpp:472-483 | returns the node and moves the cursor as `ParserSpec.Factor` says |
| Parsing.Parser.Expr | Parser.cpp:485-715 | returns the node and moves the cursor as `ParserSpec.Expr` says |
| Parsing.Parser.Operation | Parser.cpp:502-625 | as `ParserSpec.Operation` |
| Parsing.Parser.ListBody | Parser.cpp:516-561 | the list `do`-`while` gathers elements as `ParserSpec.ListTail` says |
| Parsing.Parser.AfterElement | Parser.cpp:534-559 | as `ParserSpec.AfterElement` |
| Parsing.Parser.Operand | Parser.cpp:602-625 | as `ParserSpec.Operand` |
| Parsing.Parser.AfterLeft | Parser.cpp:627-672 | as `ParserSpec.AfterLeft` |
| Parsing.Parser.AfterRight | Parser.cpp:674-711 | the operand `while` loop gathers operands as `ParserSpec.AfterRight` says |
| Parsing.Parser.Parse | Parser.cpp:733-741 | null at index -1, otherwise `expr` |
| Parsing.ParseTokens | Parser.cpp:717-741 | constructing a parser and calling `parse` yields what `ParserSpec.Parse` states |
| ParserFacts.On | Parser.cpp:459-470 | a coherent cursor on token `i` |
| ParserFacts.AdvanceWrapsAround | Parser.cpp:459-470 | past the last token the index is -1 with the type kept; from -1 it re-enters at token 0 |
| ParserFacts.EmptyInput | Parser.cpp:717-741 | an empty token list parses to null with no report |
| ParserFacts.LeadingNumber | Parser.cpp:714 | a leading number parses to a factor node and consumes exactly one token |
| ParserFacts.Declaration | Parser.cpp:571-575 | `name <- e` is a user function with `e`'s tree as definition and no arguments |
| ParserFacts.BareName | Parser.cpp:577-581 | a name then ',' or ')' (consumed) is a user function with no definition and no arguments |
| ParserFacts.BareNameAtEnd | Parser.cpp:591 | a name as last token is a user function with no definition and no arguments |
| ParserFacts.NameThenOperand | Parser.cpp:583-589 | a name followed by a number, argument or name is null with "Expected '(' or list" |
| ParserFacts.OpenAtEnd | Parser.cpp:596-600 | `name(` at the end is null with "Unexpected end of input" |
| ParserFacts.First | Parser.cpp:602-625 | the first operand of a call keeps the cursor coherent |
| ParserFacts.Second | Parser.cpp:602-625 | the second operand of a call keeps the cursor coherent |
| ParserFacts.CallOpens | Parser.cpp:569-625 | `name(` followed by an operand reads that operand, whatever its form, and hands over to the branch after the first operand |
| ParserFacts.UnaryCall | Parser.cpp:602-637 | `name(a)` for any operand `a`: a unary node over what the operand reads, and the ')' is left to the caller |
| ParserFacts.SecondOperandRead | Parser.cpp:645-672 | after `name(a,` the second operand is read, whatever its form, and the branch after it decides |
| ParserFacts.BinaryCall | Parser.cpp:674-711 | `name(a, b)` for any operands: a binary node over what the two operands read; the ')' is left to the caller |
| ParserFacts.BinaryCallAtEnd | Parser.cpp:674-711 | `name(a, b` with `b` ending the input is the same binary node |
| ParserFacts.MissingComma | Parser.cpp:633-644 | `name(a` at the end of input is null with "Expected ','"; followed by a token other than ',' or ')' it is null with "Expected ','. Received: " and that token |
| ParserFacts.MissingClosingBracket | Parser.cpp:705-708 | `name(a, b z` for any operands, with `z` neither ',' nor ')', is null with "Expected ')'. Received: " and `z` |
| ParserFacts.ListWithoutBracket | Parser.cpp:508-514 | `list` followed by a token other than '(' is null with "Expected '('"; as the last token too, with the cursor at index -1 |
| ParserFacts.IfCall | Parser.cpp:674-683 | `if(c, t, e)` for any operands `c`, `t` and expression `e`: an `if` node with check, then and else in that order |
| ParserFacts.NaryRest | Parser.cpp:687-701 | the operands the loop gathers are all present, start with the operand it starts from, and are empty exactly when that one is null |
| ParserFacts.NaryTailGathers | Parser.cpp:687-701 | the operand loop keeps the operands already gathered as a prefix and appends what `NaryRest` gathers, stopping where it stops |
| ParserFacts.NaryCall | Parser.cpp:684-702 | `name(a, b, c, ...)` for a name other than `if`: a call node with no definition whose operands start with `a` and `b` in order, include the third exactly when it is read, and are all present after the first two |
| ParserFacts.NaryCallReentersAtStart | Parser.cpp:459-470 | in `f(1, 2, 3)` the loop ends on the final ')', advancing past it back to token 0 |
| ParserFacts.ListCallHead | Parser.cpp:508-520 | `list(` is read, and the element loop starts on the token after the '(' with no elements |
| ParserFacts.ListCallTail | Parser.cpp:520-561 | the element loop keeps the elements already gathered as a prefix of its result, stops at the same cursor whatever was gathered, and its first new element is the expression read at its start |
| ParserFacts.ListCall | Parser.cpp:508-561 | `list(e, ...)`: a list node, when built, carries the `list` token and has the expression after the '(' as its first element |
| InterpreterSpec.Halt | Interpreter.cpp:3-103 | undefined behaviour stops the run without shrinking registry or output |
| InterpreterSpec.Fail | Interpreter.cpp:101-102 | a runtime error prints its report and returns false |
| InterpreterSpec.Truth | Interpreter.cpp:231-245 | a comparison pushes 1 exactly when it holds and 0 exactly when it does not |
| InterpreterSpec.Arithmetic | Interpreter.cpp:200-245 | `div` is the inverse of multiplication, `sub` of addition, `eq`, `le` and `nand` give 0 or 1, and `nand` gives 1 exactly when an operand is 0 |
| InterpreterSpec.Cleared | Interpreter.cpp:500-508 | after a failure the offset is 0, buffer and stack are empty, registry and output kept |
| InterpreterSpec.Printed | Interpreter.cpp:511-514 | the top of a non-empty stack is popped and printed, nothing else changes; an empty stack prints nothing |
| InterpreterSpec.Find | Interpreter.cpp:161-187 | finds a declaration with the given name, or shows that none has it |
| InterpreterSpec.Visit | Interpreter.cpp:3-103 | a visit only ever appends to registry and output |
| InterpreterSpec.VisitNode | Interpreter.cpp:5-103 | the same, for the dispatch on the node kind |
| InterpreterSpec.UnaryNode | Interpreter.cpp:19-29 | the same, for a unary node |
| InterpreterSpec.BinaryNode | Interpreter.cpp:31-63 | the same, for a binary node |
| InterpreterSpec.VisitFactor | Interpreter.cpp:105-117 | the same, for a factor |
| InterpreterSpec.VisitArgument | Interpreter.cpp:119-137 | the same, for an argument |
| InterpreterSpec.Call | Interpreter.cpp:171-184 | the same, for a user call frame |
| InterpreterSpec.VisitUnary | Interpreter.cpp:139-191 | the same, for `visit_unary` |
| InterpreterSpec.VisitBinary | Interpreter.cpp:193-280 | the same, for `visit_binary` |
| InterpreterSpec.Operate | Interpreter.cpp:200-279 | the same, for a binary operation |
| InterpreterSpec.VisitIf | Interpreter.cpp:282-295 | the same, for `visit_if` |
| InterpreterSpec.Clones | Interpreter.cpp:42-45 | one clone per element of the right list, in order |
| InterpreterSpec.Concat | Interpreter.cpp:35-54 | registry and output only grow under `concat` |
| InterpreterSpec.VisitList | Interpreter.cpp:297-321 | the same, for `visit_list` |
| InterpreterSpec.Element | Interpreter.cpp:303-318 | the same, for one list element |
| InterpreterSpec.ListItems | Interpreter.cpp:303-318 | the same, for the rest of a list |
| InterpreterSpec.MapSearch | Interpreter.cpp:339-367 | the match count only grows, and a mapped entry carries the function's name |
| InterpreterSpec.Escalate | Interpreter.cpp:83-84 | a failure inside `visit_map` becomes undefined, state unchanged |
| InterpreterSpec.MapStep | Interpreter.cpp:379-399 | a successful pass yields exactly one value |
| InterpreterSpec.MapApply | Interpreter.cpp:388-398 | a successful application yields exactly one value |
| InterpreterSpec.MapElements | Interpreter.cpp:379-399 | a successful loop yields one value per element |
| InterpreterSpec.Factors | Interpreter.cpp:395 | each collected value becomes a number factor node, in order |
| InterpreterSpec.VisitMap | Interpreter.cpp:79-87 | registry and output only grow under `map` |
| InterpreterSpec.VisitAll | Interpreter.cpp:428-434 | the same, for the argument loop of an N-ary call |
| InterpreterSpec.Body | Interpreter.cpp:436-461 | the same, for the body of an N-ary call |
| InterpreterSpec.VisitUser | Interpreter.cpp:405-483 | the same, for `visit_user` |
| InterpreterSpec.Interpret | Interpreter.cpp:498-520 | the same, for `interpret` |
| Interpreting.Interpreter.constructor | Interpreter.cpp:485-487 | a new interpreter has empty containers and offset 0 |
| Interpreting.Interpreter.Report | Interpreter.cpp:101-102 | prints a runtime error and returns false, changing nothing else |
| Interpreting.Interpreter.Find | Interpreter.cpp:161-187 | the registry loop returns what `InterpreterSpec.Find` states |
| Interpreting.Interpreter.Visit | Interpreter.cpp:3-103 | status and new state are those `InterpreterSpec.Visit` states |
| Interpreting.Interpreter.VisitNode | Interpreter.cpp:5-103 | as `InterpreterSpec.VisitNode` |
| Interpreting.Interpreter.UnaryNode | Interpreter.cpp:19-29 | as `InterpreterSpec.UnaryNode` |
| Interpreting.Interpreter.BinaryNode | Interpreter.cpp:31-63 | as `InterpreterSpec.BinaryNode` |
| Interpreting.Interpreter.VisitFactor | Interpreter.cpp:105-117 | as `InterpreterSpec.VisitFactor` |
| Interpreting.Interpreter.VisitArgument | Interpreter.cpp:119-137 | as `InterpreterSpec.VisitArgument` |
| Interpreting.Interpreter.Call | Interpreter.cpp:171-184 | as `InterpreterSpec.Call` |
| Interpreting.Interpreter.VisitUnary | Interpreter.cpp:139-191 | as `InterpreterSpec.VisitUnary` |
| Interpreting.Interpreter.VisitBinary | Interpreter.cpp:193-280 | as `InterpreterSpec.VisitBinary` |
| Interpreting.Interpreter.Operate | Interpreter.cpp:200-279 | as `InterpreterSpec.Operate` |
| Interpreting.Interpreter.VisitIf | Interpreter.cpp:282-295 | as `InterpreterSpec.VisitIf` |
| Interpreting.Interpreter.Concat | Interpreter.cpp:35-54 | as `InterpreterSpec.Concat` |
| Interpreting.Interpreter.VisitList | Interpreter.cpp:297-321 | as `InterpreterSpec.VisitList` |
| Interpreting.Interpreter.Element | Interpreter.cpp:303-318 | as `InterpreterSpec.Element` |
| Interpreting.Interpreter.MapSearch | Interpreter.cpp:336-367 | the registry loop returns what `InterpreterSpec.MapSearch` states |
| Interpreting.Interpreter.MapElements | Interpreter.cpp:379-399 | as `InterpreterSpec.MapElements` |
| Interpreting.Interpreter.MapStep | Interpreter.cpp:381-386 | as `InterpreterSpec.MapStep` |
| Interpreting.Interpreter.MapApply | Interpreter.cpp:388-398 | as `InterpreterSpec.MapApply` |
| Interpreting.Interpreter.VisitMap | Interpreter.cpp:79-87 | as `InterpreterSpec.VisitMap` |
| Interpreting.Interpreter.MoveResults | Interpreter.cpp:440-450 | the whole result stack moves to the end of the buffer, bottom first, and the stack is left empty |
| Interpreting.Interpreter.Body | Interpreter.cpp:436-461 | as `InterpreterSpec.Body` |
| Interpreting.Interpreter.VisitUser | Interpreter.cpp:405-483 | as `InterpreterSpec.VisitUser` |
| Interpreting.Interpreter.Clear | Interpreter.cpp:500-508 | after a failure: offset 0, and empty buffer and stack |
| Interpreting.Interpreter.PrintTop | Interpreter.cpp:511-514 | the top value, if any, is popped and printed |
| Interpreting.Interpreter.Interpret | Interpreter.cpp:498-520 | as `InterpreterSpec.Interpret` |
| InterpreterFrames.CloneIsFlat | Interpreter.cpp:42-45 | cloning introduces no N-ary call |
| InterpreterFrames.VisitKeepsFrame | Interpreter.cpp:171-184 | with no N-ary call in the tree or registry, a successful visit restores buffer and offset |
| InterpreterFrames.UnaryNodeKeepsFrame | Interpreter.cpp:19-29 | the same for a unary node |
| InterpreterFrames.BinaryNodeKeepsFrame | Interpreter.cpp:31-63 | the same for a binary node |
| InterpreterFrames.CallKeepsFrame | Interpreter.cpp:171-184 | a unary or binary user call restores offset and buffer when its body does |
| InterpreterFrames.FoundIsFlat | Interpreter.cpp:161-187 | a declaration found in a flat registry is flat |
| InterpreterFrames.VisitUnaryKeepsFrame | Interpreter.cpp:139-191 | the same for `visit_unary` |
| InterpreterFrames.VisitBinaryKeepsFrame | Interpreter.cpp:193-280 | the same for `visit_binary` |
| InterpreterFrames.OperateKeepsFrame | Interpreter.cpp:257-273 | the same for a binary user call |
| InterpreterFrames.VisitIfKeepsFrame | Interpreter.cpp:282-295 | the same for `visit_if` |
| InterpreterFrames.ConcatKeepsFrame | Interpreter.cpp:35-54 | the same for `concat` |
| InterpreterFrames.VisitListKeepsFrame | Interpreter.cpp:297-321 | the same for `visit_list` |
| InterpreterFrames.ElementKeepsFrame | Interpreter.cpp:303-318 | the same for one list element |
| InterpreterFrames.ListItemsKeepFrame | Interpreter.cpp:303-318 | the same for the rest of a list |
| InterpreterFrames.MapSearchIsFlat | Interpreter.cpp:339-367 | the mapped definition and list found in a flat registry are flat |
| InterpreterFrames.VisitMapKeepsFrame | Interpreter.cpp:79-87 | the same for `map` |
| InterpreterFrames.MapElementsKeepFrame | Interpreter.cpp:379-399 | the same for the element loop |
| InterpreterFrames.MapStepKeepsFrame | Interpreter.cpp:381-398 | the same for one element |
| InterpreterFrames.MapApplyKeepsFrame | Interpreter.cpp:388-398 | applying the mapped definition restores the buffer minus the element pushed |
| InterpreterFrames.VisitUserKeepsFrame | Interpreter.cpp:405-483 | the same for `visit_user`, including registering a declaration |
| InterpreterFrames.FlatLineLeavesFrameClean | Interpreter.cpp:498-520 | a successful line with no N-ary call leaves buffer empty and offset 0 |
| InterpreterFrames.NaryCallClearsBuffer | Interpreter.cpp:457-459 | a successful N-ary call leaves the whole buffer empty |
| InterpreterFrames.NaryBodyBreaksFrame | Interpreter.cpp:171-184 | a unary or binary call whose body is an N-ary call never succeeds; when that body succeeds, the pops are undefined |
| InterpreterFacts.ArgumentInFrame | Interpreter.cpp:119-133 | an in-range index pushes `m_arguments[m_offset + index]` and changes nothing else |
| InterpreterFacts.TooFewArguments | Interpreter.cpp:125-129 | an index at or above the whole buffer's length fails with "Too few arguments in function call", pushing nothing |
| InterpreterFacts.CheckedIndexCanLeaveBuffer | Interpreter.cpp:125-131 | an index below the buffer length can still read past it once the offset is added |
| InterpreterFacts.SecondArgumentOfNestedUnaryCall | Interpreter.cpp:125-131 | `#1` inside a unary call's body, with a non-empty buffer, reads past the end |
| InterpreterFacts.ComparisonsAreTruthValues | Interpreter.cpp:200-245 | add, sub, mul are arithmetic; eq is 1 iff equal, le is 1 iff less, nand is 0 iff both non-zero |
| InterpreterFacts.BuiltinReplacesOperands | Interpreter.cpp:195-245 | a built-in pops right then left and pushes exactly its result |
| InterpreterFacts.DivisionByZero | Interpreter.cpp:215-221 | div by exactly 0 pops both operands and fails with "Division by 0" |
| InterpreterFacts.UnknownBinaryName | Interpreter.cpp:247-279 | an unknown binary name pops both operands and fails with "No matching function definition found" |
| InterpreterFacts.UnknownUnaryName | Interpreter.cpp:161-190 | an unknown unary name fails with "No matching function definition found" |
| InterpreterFacts.CallRestoresFrame | Interpreter.cpp:171-184 | a body that keeps the buffer length and offset lets the call restore both |
| InterpreterFacts.CallOnShrunkBuffer | Interpreter.cpp:182-183 | a body that shrinks the buffer below the pushed values makes the pop undefined |
| InterpreterFacts.IfIgnoresOtherBranch | Interpreter.cpp:282-295 | only the selected branch matters: 0 selects the right one, anything else the left |
| InterpreterFacts.IfStopsOnFailedCheck | Interpreter.cpp:284-287 | a failing check is the outcome of the `if` |
| InterpreterFacts.Redeclaration | Interpreter.cpp:415-421 | a declaration of a registered name fails and leaves the registry unchanged |
| InterpreterFacts.SelfReferenceRefused | Interpreter.cpp:472-479 | a definition headed by its own name is refused and not registered |
| InterpreterFacts.MissingArrow | Interpreter.cpp:466-470 | an unregistered name without definition fails with "Expected \"<-\"" |
| InterpreterFacts.FindAppended | Interpreter.cpp:161-187 | after appending a declaration, search finds the earlier one if any, else the new one |
| InterpreterFacts.Registration | Interpreter.cpp:481-482 | a new declaration is appended once, nothing is pushed, and its name then finds it |
| InterpreterFacts.NumberVisit | Interpreter.cpp:105-113 | visiting a number pushes its value |
| InterpreterFacts.StaleValueIsFirstArgument | Interpreter.cpp:436-450 | an N-ary call moves the whole stack, so a value already there becomes argument `#0` |
| InterpreterFacts.NaryCallInsideBinaryIsUndefined | Interpreter.cpp:31-63 | hence `add(1, g(2, 3, 4))` pops an empty stack |
| InterpreterFacts.Shown | Interpreter.cpp:309-318 | the rendering of values: each value followed by `, ` or, for the last, `]` |
| InterpreterFacts.ListItemsPrint | Interpreter.cpp:303-318 | list elements that each evaluate to one value are printed left to right, separated by `, ` and closed by `]`, with the stack, buffer, offset and registry unchanged |
| InterpreterFacts.ListPrints | Interpreter.cpp:297-321 | a non-empty list of such elements prints `[v1, ..., vn]` and leaves everything else unchanged |
| InterpreterFacts.FactorYields | Interpreter.cpp:105-113 | a number evaluates to itself whatever was printed before |
| InterpreterFacts.ArgumentYields | Interpreter.cpp:119-137 | an argument reference inside the frame evaluates to the buffer value it points at |
| InterpreterFacts.NumberListPrints | Interpreter.cpp:297-321 | a non-empty list of numbers prints `[v1, ..., vn]` and leaves the stack unchanged |
| InterpreterFacts.EmptyListIsUndefined | Interpreter.cpp:301-303 | rendering an empty list is undefined |
| InterpreterFacts.ConcatPrints | Interpreter.cpp:35-54 | `concat` of two lists whose elements (the right ones cloned) each evaluate to one value prints the left values followed by the right ones, as one list |
| InterpreterFacts.ConcatOfNumberLists | Interpreter.cpp:35-54 | `concat` of two number lists prints the left list's values followed by the right list's |
| InterpreterFacts.FailedLineResets | Interpreter.cpp:500-508 | after a failure the offset is 0 and buffer and stack are empty, registry and output kept |
| InterpreterFacts.LinePrintsItsValue | Interpreter.cpp:511-514 | a clean line with one value prints exactly that value |
| InterpreterFacts.QuietLinePrintsNothing | Interpreter.cpp:498-520 | a line leaving nothing (a declaration) prints nothing |
| InterpreterFacts.LeftoverIsReported | Interpreter.cpp:516-519 | values left below the top are reported as "Unexpected argument" after the top is printed |
| InterpreterFacts.StuckLineIsPassedOn | Interpreter.cpp:498-520 | undefined behaviour during the visit is the outcome of the line |

## Left out

- The REPL `run` (Lexer.cpp:308-357) is left out. It reads lines, prompts and exits on "e0", which is only I/O.
- The debug `print` methods of tokens and nodes are left out. They are diagnostics only.
- Destructors and memory management are left out. These include `delete` in the destructors and in `concat`, and pointer ownership between parser and registry. The tree is an immutable datatype, and child pointers are `Option<Node>`. So the model does not capture that `concat` deletes the list nodes it visited (Interpreter.cpp:40-53): when those nodes belong to a stored definition, a second call of that definition reads freed memory, while the model evaluates it again normally.
- `sqrt`, `sin`, `cos` and `pow` are floating-point library calls. A visit that reaches one stops with `Stuck(Unmodelled)`.
- IEEE doubles are modelled as exact reals. The lexer's digit-by-digit accumulation and the arithmetic have no rounding.
- The interpreter's output stream is a sequence of `Text` and `Value` items. How `operator<<` formats a double is not modelled.
- `m_offset` (an `int`) and the `size_t` differences in the frame arithmetic are unbounded integers. Only the 32-bit `unsigned` argument index and `m_offset + index` are modelled with wrap-around.
- Lexing.Lex, Lexing.MakeTokens: the input line is a sequence of characters, not the signed bytes of a `std::string`. On ASCII lines the two agree. On a line with non-ASCII characters they do not: the number loop's unchecked first step after a '-' adds the character's code where the C++ adds one byte, so the model may accept such a line (`-é`) where the C++ rejects it at the next byte; and an Illegal Character report names the whole character where the C++ names one byte.
- Lexing.MakeTokens: on a line whose last character is a '-' that starts a number (`-`, `f(1, -`), the number loop of `make_tokens` steps past the terminator and reads beyond the string. The model stops with `Overrun` (`defined == false`) and promises nothing about what the C++ then does. A '-' at the end after an operand, or after '<', is lexed normally.
- When `expr` finds no tokens at all, `m_current_type` is read uninitialised. `parse` never reaches `expr` then, so the constructor leaves the type unspecified.
- Parsing.Parser.Expr, ParserSpec.Expr: these carry a step budget the source does not have. A parse that runs out of budget halts with `OutOfFuel`, and its result says nothing about the source.
- Interpreting.Interpreter.Visit, InterpreterSpec.Visit: these carry a step budget the source does not have. A visit that exhausts it stops with `Stuck(OutOfFuel)` where the source would recurse until the stack overflows.
- A `map` node gets the first parsed expression as its functor and the second as its list. The C++ constructor call leaves that order unspecified.
- `visit_map` reads the function's name from `m_list` and the list's name from `m_functor` (Interpreter.cpp:325-326). The model does the same.
- InterpreterSpec.VisitMap: an error inside `visit_map` prints a runtime error and then renders the empty result, which is undefined. The model stops with `Stuck(Undefined)` and does not record the printed error text.
- The properties of the frame discipline (`InterpreterFrames`) are stated for trees and registries without N-ary calls. An N-ary call clears the whole argument buffer, and `NaryCallClearsBuffer` and `NaryBodyBreaksFrame` show what that does to an enclosing frame.
