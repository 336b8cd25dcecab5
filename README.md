# Calculator core in Dafny

A model of the expression engine of the WPF vector calculator. The engine
takes the text of an expression and two maps of variable values, scalars and
arrays. It runs eleven text validators over the expression, each of which
either accepts it or throws a `CalculatorException` with a 1-based position.
It then finds the free variables, plain or `"quoted"`, and substitutes their
values as literal text. The result is validated again, parsed by a Sprache
grammar into a typed LINQ expression tree, compiled and run. The value is a
`double` or a `double[]`.

The model has one Dafny module per component of the source:

- `Errors`, `BaseValidator`: the exception type, the reserved-name set and
  `ReportError`'s position rule.
- `Scanning`, `Text`: the .NET string and regular-expression operations the
  validators use, each regular expression written out as a scanner together
  with a declarative description of what it matches.
- Eleven validator modules and `ExpressionValidator`, which runs them in the
  order of `ExpressionValidators`. Each validator whose source walks the text
  with a loop is a `method` with loop invariants, proved equal to a function.
  Properties are proved about that function: where the error is reported, and
  when it is reported at all.
- `VariableExtractor` and `VariableSubstitutor`: the extractor's name list
  and position table, and the substitutor's four rewriting passes, each
  proved against a declarative description of its result.
- `Values`, `Expressions`, `VectorOperations`, `Operators`,
  `FunctionEvaluator`, `FunctionsParsing`: expression trees with the .NET
  static type of every node, what running a tree yields, the array library,
  the three operator levels' combine functions and the function table.
- `NumberParser`, `Grammar`, `OperatorPrecedence`, `Syntax`: the parsers,
  as functions returning `Done(tree, next position)`, `NoMatch` or
  `Threw(exception)`. `Precedence` proves, for every input, that each binary
  level is the left fold of its combine function over operands read by the
  level below.
- `CalculationController`: the controller class and its three entry points.
  `Calculate` substitutes, validates the substituted text, parses and runs,
  and it is proved to succeed exactly when every stage does.

`double` arithmetic is `real` arithmetic. The `Math` functions, `%` and
division by zero are fields of a `MathLib` parameter, and the culture-dependent
number conversions are fields of a `NumberText` parameter. The pipeline
(`ExpressionValidator.Run`, `RunAll`, `CalculationController.Calculate`) runs
the validators as the code is written. The corrected Commas and
FunctionArguments positions are modelled beside them (see "## Findings").

## Model

| member | source | states |
|---|---|---|
| Errors.WithPosition | Calculator.Common/CalculatorException.cs:15-19 | the message-and-position constructor keeps both, the position defaulting to 0, and keeps no map |
| Errors.WithPositions | Calculator.Common/CalculatorException.cs:24-29 | the map constructor keeps the map; the position is the first entry's value, or 0 for a missing or empty map |
| Errors.Describe | Calculator.Common/CalculatorException.cs:34-44 | `ToString` starts with the base text and ends with `)`; without a non-empty map it is the base text, ` (Position: `, the position and `)` |
| Errors.DescribeListsEveryEntry | Calculator.Common/CalculatorException.cs:37-40 | with a non-empty map, every entry appears in `ToString` as `name: position` |
| Errors.JoinListsPart | Calculator.Common/CalculatorException.cs:39 | every part of a `string.Join` occurs in the joined text at the returned index |
| BaseValidator.ReportError | Calculator.WPF/Models/Validators/Core/BaseValidator.cs:30-33 | the exception's position is the 0-based index plus one, and the message ends with `\n(позиция N)` for that same N; no map |
| BaseValidator.ReportedPositionInMessage | Calculator.WPF/Models/Validators/Core/BaseValidator.cs:32 | the number printed in the message reads back as the exception's position |
| BaseValidator.ReservedIgnoresCase | Calculator.WPF/Models/Validators/Core/BaseValidator.cs:15-18 | reserved-name membership is the same for a name and its lower-case form; `log` and `fact` are not reserved, `SQRT` is |
| ExpressionValidator.Verdicts | Calculator.WPF/Models/Validators/ExpressionValidators.cs:38-41 | one verdict per validator, each validator's own verdict on the same input |
| ExpressionValidator.FirstNonPassPasses | Calculator.WPF/Models/Validators/ExpressionValidators.cs:36-42 | the first non-passing verdict is a pass exactly when every verdict passes |
| ExpressionValidator.FirstNonPassIsFirst | Calculator.WPF/Models/Validators/ExpressionValidators.cs:36-42 | otherwise it is the verdict at some index k with every verdict before k a pass |
| ExpressionValidator.RunAllPasses | Calculator.WPF/Models/Validators/ExpressionValidators.cs:36-42 | the composite validator passes exactly when each of its validators passes |
| ExpressionValidator.RunAllFirstFailure | Calculator.WPF/Models/Validators/ExpressionValidators.cs:36-42 | when it does not pass, its outcome is that of the first validator that does not pass, all earlier ones having passed |
| ExpressionValidator.ExpressionValidator.constructor | Calculator.WPF/Models/Validators/ExpressionValidators.cs:14-30 | the validator list is Brackets, Quotes, Operators, Commas, Functions, Variables, Numbers, MissingOperands, Sqrt, FunctionArguments, FunctionSpacing |
| ExpressionValidator.ExpressionValidator.Validate | Calculator.WPF/Models/Validators/ExpressionValidators.cs:36-42 | the loop's outcome is the first non-passing verdict of the list, or a pass (loop invariant over the remaining verdicts) |
| ExpressionValidator.BracketsReportedFirst | Calculator.Parser.Tests/InvalidExpressionTests.cs:91 | for `sum(1, 2` the composite validator reports the unclosed `(` at position 4 |
| BracketsValidator.BalanceScan | Calculator.WPF/Models/Validators/Validators/BracketsValidator.cs:21-70 | the stack loop over the text returns the verdict of the recursive definition `CheckBalancedBrackets` |
| BracketsValidator.BalanceErrorAtBracket | Calculator.WPF/Models/Validators/Validators/BracketsValidator.cs:47-68 | every error the balance check reports points at a bracket that is outside quotes |
| BracketsValidator.QuotedTextIgnored | Calculator.WPF/Models/Validators/Validators/BracketsValidator.cs:31-37 | two texts that agree outside quotes get the same verdict from any point of the scan |
| BracketsValidator.CheckIgnoresQuotedText | Calculator.WPF/Models/Validators/Validators/BracketsValidator.cs:21-70 | brackets inside quotes never change the balance verdict |
| BracketsValidator.CheckForStandaloneEmptyParentheses | Calculator.WPF/Models/Validators/Validators/BracketsValidator.cs:75-82 | passes exactly when no `(`, optional whitespace, `)` occurs; otherwise reports the first such `(` |
| BracketsValidator.Validate | Calculator.WPF/Models/Validators/Validators/BracketsValidator.cs:11-15 | a balance error wins; only a balanced text is checked for empty parentheses |
| BracketsValidator.UnclosedExample | Calculator.Parser.Tests/InvalidExpressionTests.cs:92 | `sqrt(1 + (2` reports the unclosed `(` at position 10 |
| BracketsValidator.UnclosedCallExample | Calculator.Parser.Tests/InvalidExpressionTests.cs:91 | `sum(1, 2` reports the unclosed `(` at position 4 |
| BracketsValidator.EmptyCallExample | Calculator.Parser.Tests/InvalidExpressionTests.cs:18 | `cos()` reports the empty parentheses at position 4 |
| QuotesValidator.OpenQuoteIsLastOddQuote | Calculator.WPF/Models/Validators/Validators/QuotesValidator.cs:19-37 | the remembered quote position is set exactly when an odd number of quotes precede the point, and is then the last quote before it, itself outside quotes |
| QuotesValidator.UnclosedQuotesScan | Calculator.WPF/Models/Validators/Validators/QuotesValidator.cs:17-43 | the loop with its two flags returns the verdict of the function `CheckForUnclosedQuotes` |
| QuotesValidator.UnclosedIffOddQuotes | Calculator.WPF/Models/Validators/Validators/QuotesValidator.cs:17-43 | an unclosed-quote error is reported exactly when the text has an odd number of quotes, and it points at the last quote |
| QuotesValidator.CheckForEmptyQuotes | Calculator.WPF/Models/Validators/Validators/QuotesValidator.cs:48-55 | passes exactly when `""` does not occur; otherwise reports its first occurrence |
| QuotesValidator.Validate | Calculator.WPF/Models/Validators/Validators/QuotesValidator.cs:8-12 | an unclosed quote is reported before empty quotes are looked for |
| QuotesValidator.UnclosedExample | Calculator.WPF/Models/Validators/Validators/QuotesValidator.cs:39-42 | `"unclosed` is reported at position 1 |
| QuotesValidator.EmptyExample | Calculator.WPF/Models/Validators/Validators/QuotesValidator.cs:50-54 | `a + ""` is reported at position 5 |
| OperatorsValidator.CheckRepeatedOperators | Calculator.WPF/Models/Validators/Validators/OperatorsValidator.cs:21-26 | passes exactly when no two of `+-*/^` are adjacent; otherwise reports the first such run, whole, at its start |
| OperatorsValidator.NoMatchInsideDoubleEquals | Calculator.WPF/Models/Validators/Validators/OperatorsValidator.cs:29 | the second `=` of a `==` is never itself a match of the lone-`=` alternative |
| OperatorsValidator.CountBrackets | Calculator.WPF/Models/Validators/Validators/OperatorsValidator.cs:33-40 | the counting loop yields the bracket depth before the match |
| OperatorsValidator.CheckEquals | Calculator.WPF/Models/Validators/Validators/OperatorsValidator.cs:29-50 | passes exactly when no lone `=` or `==` lies at depth 0; otherwise reports the first one with the message for its kind |
| OperatorsValidator.EqualsScan | Calculator.WPF/Models/Validators/Validators/OperatorsValidator.cs:29-50 | the loop over matches with its inner counting loop returns the verdict of `CheckEquals` |
| OperatorsValidator.CheckEqualsAtFirst | Calculator.WPF/Models/Validators/Validators/OperatorsValidator.cs:29-50 | the first bad `=` determines the error |
| OperatorsValidator.CheckEqualsPasses | Calculator.WPF/Models/Validators/Validators/OperatorsValidator.cs:29-50 | with no bad `=` the check passes |
| OperatorsValidator.CheckForDivisionByZero | Calculator.WPF/Models/Validators/Validators/OperatorsValidator.cs:56-63 | passes exactly when no division by a literal zero occurs; otherwise reports the first `/` or `÷` that starts one |
| OperatorsValidator.DivisionByZeroMeaning | Calculator.WPF/Models/Validators/Validators/OperatorsValidator.cs:58 | a match is `/` or `÷`, whitespace, then `0` not followed by a word character |
| OperatorsValidator.Validate | Calculator.WPF/Models/Validators/Validators/OperatorsValidator.cs:8-12 | invalid operators are reported before division by zero is looked for |
| OperatorsValidator.DivisionByZeroExample | Calculator.Parser.Tests/InvalidExpressionTests.cs:57 | `1 / 0` is reported at position 3 |
| OperatorsValidator.RepeatedOperatorsExample | Calculator.WPF/Models/Validators/Validators/OperatorsValidator.cs:21-26 | `2*-3` is rejected as the run `*-` at position 2 |
| OperatorsValidator.EqualsInsideBracketsExample | Calculator.WPF/Models/Validators/Validators/OperatorsValidator.cs:43 | an `=` inside the brackets of `if(a = 1, 2, 3)` is accepted |
| CommasValidator.TopLevelErrorAtComma | Calculator.WPF/Models/Validators/Validators/CommasValidator.cs:21-52 | every error of the outside-brackets scan points at a comma outside quotes whose neighbours make it invalid |
| CommasValidator.TopLevelScan | Calculator.WPF/Models/Validators/Validators/CommasValidator.cs:18-52 | the loop with its quote flag and bracket level returns the verdict of the recursive definition of the scan |
| CommasValidator.FirstDoubleComma | Calculator.WPF/Models/Validators/Validators/CommasValidator.cs:71-77 | the index of the first `,,` in the argument text, or none exactly when there is no `,,` |
| CommasValidator.DoubleCommaScan | Calculator.WPF/Models/Validators/Validators/CommasValidator.cs:71-77 | the loop over the argument text finds that same first `,,` |
| CommasValidator.FirstDoubleCommaIs | Calculator.WPF/Models/Validators/Validators/CommasValidator.cs:71-77 | a `,,` with none before it is the one found |
| CommasValidator.ArgumentsError | Calculator.WPF/Models/Validators/Validators/CommasValidator.cs:61-77 | no error exactly when the arguments neither start nor end with a comma and hold no `,,`; a leading comma wins; every error points at a comma of the arguments |
| CommasValidator.CheckArguments | Calculator.WPF/Models/Validators/Validators/CommasValidator.cs:61-77 | the three checks on one call's arguments, as statements, give the verdict of `ArgumentsError` |
| CommasValidator.ArgumentCommasScan | Calculator.WPF/Models/Validators/Validators/CommasValidator.cs:55-78 | the loop over every call match of the text gives the verdict of the as-written argument checks |
| CommasValidator.ArgumentChecksLoop | Calculator.WPF/Models/Validators/Validators/CommasValidator.cs:56-78 | the loop over a list of matches stops at the first call with a bad argument list |
| CommasValidator.CheckCallArguments | Calculator.WPF/Models/Validators/Validators/CommasValidator.cs:58-77 | one iteration either fails with that call's error or leaves the verdict to the remaining matches |
| CommasValidator.ArgumentCommasStep | Calculator.WPF/Models/Validators/Validators/CommasValidator.cs:56-78 | the argument verdict over matches is the first call's error, else the verdict over the rest |
| CommasValidator.CheckForInvalidCommas | Calculator.WPF/Models/Validators/Validators/CommasValidator.cs:16-79 | the whole method, scan then call loop, returns the as-written verdict `ValidateAsWritten` |
| CommasValidator.CallErrorAtComma | Calculator.WPF/Models/Validators/Validators/CommasValidator.cs:59-75 | with positions taken from the group index, a call's error lies between its brackets, on a comma |
| CommasValidator.ArgumentErrorAtComma | Calculator.WPF/Models/Validators/Validators/CommasValidator.cs:56-78 | with those positions every argument error points at a comma of the text |
| CommasValidator.ReportedPositionIsComma | Calculator.WPF/Models/Validators/Validators/CommasValidator.cs:16-79 | the corrected validator's every error points at a comma of the input |
| CommasValidator.ArgumentsErrorShift | Calculator.WPF/Models/Validators/Validators/CommasValidator.cs:59 | moving the start of the arguments moves the reported position by the same amount and nothing else |
| CommasValidator.CallErrorShifted | Calculator.WPF/Models/Validators/Validators/CommasValidator.cs:59 | as written, a call's error is the corrected one moved by the match's own start |
| CommasValidator.ArgumentCommasAtFirstError | Calculator.WPF/Models/Validators/Validators/CommasValidator.cs:56-78 | both versions report the error of the first call whose arguments are bad, or pass when there is none |
| CommasValidator.ArgumentChecksShifted | Calculator.WPF/Models/Validators/Validators/CommasValidator.cs:56-78 | both versions fail on the same texts, and as written the position is moved by the start of the first bad call |
| CommasValidator.AsWrittenShifted | Calculator.WPF/Models/Validators/Validators/CommasValidator.cs:16-79 | the validator as written and the corrected one fail on the same texts, with the same error from the scan and an error moved by the first bad call's start otherwise |
| CommasValidator.DoubleCommaExample | Calculator.Parser.Tests/InvalidExpressionTests.cs:37 | `max(1,,2)` is reported at position 6 |
| CommasValidator.TrailingCommaExample | Calculator.Parser.Tests/InvalidExpressionTests.cs:39 | `sum(1,)` is reported at position 6 |
| CommasValidator.TopLevelCommaExample | Calculator.Parser.Tests/InvalidExpressionTests.cs:41 | `2 , 3` is reported at position 3 |
| CommasValidator.CallMatchesOfExample | Calculator.WPF/Models/Validators/Validators/CommasValidator.cs:55 | in `x + max(1,,2)` the call pattern first matches at `max`, with arguments `1,,2` |
| CommasValidator.MatchesOfExample | Calculator.WPF/Models/Validators/Validators/CommasValidator.cs:56 | that is the only call match of the text |
| CommasValidator.ErrorsOfExample | Calculator.WPF/Models/Validators/Validators/CommasValidator.cs:59-75 | its `,,` is reported at 14 as written and at 10 once corrected |
| CommasValidator.TopLevelOfExample | Calculator.WPF/Models/Validators/Validators/CommasValidator.cs:21-52 | the text has no top-level comma error |
| CommasValidator.AsWrittenPositionPastInput | Calculator.WPF/Models/Validators/Validators/CommasValidator.cs:59 | as written the 13-character text is reported at position 14, past its end; corrected it is 10, a comma |
| FunctionsValidator.CallHeadAt | Calculator.WPF/Models/Validators/Validators/FunctionsValidator.cs:201 | a match of the call-head pattern at a point is a name followed, after whitespace, by `(` or `[` |
| FunctionsValidator.NoHeadInside | Calculator.WPF/Models/Validators/Validators/FunctionsValidator.cs:203 | the next match cannot start inside the previous one: no head starts before its bracket |
| FunctionsValidator.HeadError | Calculator.WPF/Models/Validators/Validators/FunctionsValidator.cs:231-256 | the unknown-name check fails exactly for names outside the argument-count table, and the bracket check exactly when the bracket kind disagrees with the square-bracket set; both report the head's start |
| FunctionsValidator.HeadCheckMeaning | Calculator.WPF/Models/Validators/Validators/FunctionsValidator.cs:231-256 | the match-by-match scan passes exactly when every head in the text passes the check |
| FunctionsValidator.HeadCheckFailure | Calculator.WPF/Models/Validators/Validators/FunctionsValidator.cs:231-256 | a failing scan reports the error of some call head of the text |
| FunctionsValidator.FailedHeadReported | Calculator.WPF/Models/Validators/Validators/FunctionsValidator.cs:234-238 | a head that fails the check is the one the scan from there reports |
| FunctionsValidator.InvalidFunctionsMeaning | Calculator.WPF/Models/Validators/Validators/FunctionsValidator.cs:231-239 | unknown functions: passes exactly when every called name is in the table, case ignored |
| FunctionsValidator.BracketTypesMeaning | Calculator.WPF/Models/Validators/Validators/FunctionsValidator.cs:244-257 | bracket types: passes exactly when `[` is used for precisely `sum`, `mean`, `fact` |
| FunctionsValidator.ArityError | Calculator.WPF/Models/Validators/Validators/FunctionsValidator.cs:147-166 | unknown names are skipped; a known call passes exactly when its count fits the table (at least one for `sum`, `mean`, `fact`, exactly the count otherwise) and, for `if` with three arguments, the first reads as `true`/`false` or holds one of `<`, `>`, `!`, `=`, `&&` or a double vertical bar; each failure has its own message (the count message before the `if` message) and points at the call |
| FunctionsValidator.ArityAtHead | Calculator.WPF/Models/Validators/Validators/FunctionsValidator.cs:149-157 | the first call whose argument count is wrong decides the outcome of the count check from its head |
| FunctionsValidator.FirstMisuse | Calculator.WPF/Models/Validators/Validators/FunctionsValidator.cs:262-269 | passes exactly when no function name appears without its kind of bracket; otherwise reports the first such name |
| FunctionsValidator.CountVectorVariables | Calculator.WPF/Models/Validators/Validators/FunctionsValidator.cs:108 | the count is zero exactly when no argument is a vector variable |
| FunctionsValidator.SumMeanError | Calculator.WPF/Models/Validators/Validators/FunctionsValidator.cs:100-110 | `sum`/`mean`/`fact` arguments pass exactly when there is no vector variable, or at most one and no number or literal, reported at the call |
| FunctionsValidator.VectorCallAt | Calculator.WPF/Models/Validators/Validators/FunctionsValidator.cs:42-43 | a match of the square-bracket call pattern has a non-empty argument text inside the input |
| FunctionsValidator.NegativeElement | Calculator.WPF/Models/Validators/Validators/FunctionsValidator.cs:134-139 | a vector-literal exponent passes exactly when every element parses and is non-negative |
| FunctionsValidator.ElementwiseOutcome | Calculator.WPF/Models/Validators/Validators/FunctionsValidator.cs:115-142 | every error points at position 1, since the match passed is empty; a negative number exponent of `pow` always fails |
| FunctionsValidator.ParenCallAt | Calculator.WPF/Models/Validators/Validators/FunctionsValidator.cs:67-69 | a match of the name-and-`(` pattern locates a `(` after the name |
| FunctionsValidator.Validate | Calculator.WPF/Models/Validators/Validators/FunctionsValidator.cs:28-35 | passes exactly when all five checks pass; otherwise it reports the first failing check in the order unknown names, bracket kinds, argument counts, misuse, vector arguments |
| FunctionsValidator.NoNamesPass | Calculator.WPF/Models/Validators/Validators/FunctionsValidator.cs:231-256 | text with no name characters passes the head and count checks |
| FunctionsValidator.SumWithRoundBrackets | Calculator.Parser.Tests/InvalidExpressionTests.cs:74 | `sum(1, 2)` is told to use square brackets, at position 1 |
| FunctionsValidator.SumWithoutArguments | Calculator.Parser.Tests/InvalidExpressionTests.cs:16 | `sum[]` is told it needs an argument, at position 1 |
| FunctionsValidator.PowWithOneArgument | Calculator.Parser.Tests/InvalidExpressionTests.cs:19 | `pow(1)` is told it needs 2 arguments and was given 1, at position 1 |
| FunctionsValidator.PowArityFails | Calculator.WPF/Models/Validators/Validators/FunctionsValidator.cs:156-157 | the count check alone rejects `pow(1)` |
| FunctionsValidator.IfPlainConditionFails | Calculator.WPF/Models/Validators/Validators/FunctionsValidator.cs:159-163 | `if(x, 1, 2)` has the right count but its condition `x` is no boolean expression, so the count check rejects it at position 1 |
| FunctionsValidator.IfComparisonPasses | Calculator.WPF/Models/Validators/Validators/FunctionsValidator.cs:149-164 | `if(a > 1, 1, 2)`, a comparison as condition with three arguments, passes the count check |
| FunctionsValidator.EmptyArgumentIsVectorVariable | Calculator.Parser.Tests/InvalidExpressionTests.cs:108 | in `sum[1, , 2]` the empty argument counts as a vector variable, so the arguments are mixed |
| FunctionsValidator.NegativeExponent | Calculator.Parser.Tests/InvalidExpressionTests.cs:58 | `pow(0, -1)` is rejected for its negative exponent |
| FunctionsValidator.NumbersAreNoVectorVariables | Calculator.WPF/Models/Validators/Validators/FunctionsValidator.cs:274-275 | an argument that parses as a number is never a vector variable |
| FunctionsValidator.NegativeExponentRejected | Calculator.WPF/Models/Validators/Validators/FunctionsValidator.cs:123-130 | any two-number `pow` call with a negative exponent is rejected with that message |
| FunctionsParsing.Pieces | Calculator.WPF/Models/Validators/Validators/FunctionsValidator.cs:171-194 | the comma split at bracket level 0 always yields at least one piece |
| FunctionsParsing.JoinPieces | Calculator.WPF/Models/Validators/Validators/FunctionsValidator.cs:177-188 | joining the pieces with commas gives back the argument text: the split loses only the separating commas |
| FunctionsParsing.ParseArguments | Calculator.WPF/Models/Validators/Validators/FunctionsValidator.cs:171-194 | the loop with its level counter and builder returns `Arguments`, the pieces trimmed with an empty last piece dropped |
| FunctionsParsing.ParseEnd | Calculator.WPF/Models/Validators/Validators/FunctionsValidator.cs:190-193 | the last piece is added, trimmed, only when it is not empty |
| FunctionsParsing.EmptyHasNoArguments | Calculator.WPF/Models/Validators/Validators/FunctionsValidator.cs:190-193 | an empty argument text has no arguments |
| FunctionsParsing.TrailingCommaDropped | Calculator.WPF/Models/Validators/Validators/FunctionsValidator.cs:190-191 | `a,` has the single argument `a` |
| FunctionsParsing.TrailingBlankKept | Calculator.WPF/Models/Validators/Validators/FunctionsValidator.cs:190-191 | `a, ` has two arguments, the second empty: the emptiness test is made before trimming |
| FunctionsParsing.NestedCommaKept | Calculator.WPF/Models/Validators/Validators/FunctionsValidator.cs:179-181 | a comma inside brackets does not split: `1,[2,3]` has two arguments |
| FunctionsParsing.MatchingCloser | Calculator.WPF/Models/Validators/Validators/FunctionsValidator.cs:214-221 | the closing bracket found is a closer of the call's own kind |
| FunctionsParsing.MatchingCloserBalances | Calculator.WPF/Models/Validators/Validators/FunctionsValidator.cs:211-223 | the closer found is the first point where the depth returns to zero; with none found the depth never does |
| FunctionsParsing.CallArguments | Calculator.WPF/Models/Validators/Validators/FunctionsValidator.cs:210-224 | the depth loop closes exactly when a matching closer exists, and collects the text between the brackets |
| FunctionsParsing.IndexOfFrom | Calculator.WPF/Models/Validators/Validators/FunctionsValidator.cs:78 | `IndexOf` finds the first occurrence of the character from the start index, or reports none exactly when there is none |
| FunctionsParsing.ExtractArgumentsFromPosition | Calculator.WPF/Models/Validators/Validators/FunctionsValidator.cs:76-95 | the loop returns the function `ExtractArguments`: the text after the first `(` up to its matching `)`, or to the end |
| VariablesValidator.SanitizeQuoteFree | Calculator.WPF/Models/Validators/Validators/VariablesValidator.cs:21 | text without quotes is left unchanged by the rewrite |
| VariablesValidator.SanitizeQuotedSpan | Calculator.WPF/Models/Validators/Validators/VariablesValidator.cs:21 | a quoted span, whatever it holds, becomes `"QUOTED"` and the text before it is kept |
| VariablesValidator.Origins | Calculator.WPF/Models/Validators/Validators/VariablesValidator.cs:21 | one input index per character of the rewritten text, each inside the input |
| VariablesValidator.OriginsFaithful | Calculator.WPF/Models/Validators/Validators/VariablesValidator.cs:21 | each rewritten character is its origin's character, or part of the marker |
| VariablesValidator.OriginsQuoteFree | Calculator.WPF/Models/Validators/Validators/VariablesValidator.cs:21 | without quotes every character stands for itself |
| VariablesValidator.PairAt | Calculator.WPF/Models/Validators/Validators/VariablesValidator.cs:23 | a match of `(\w+)\s+(\w+)` at a point: two maximal words with only blanks between |
| VariablesValidator.PairAtMeaning | Calculator.WPF/Models/Validators/Validators/VariablesValidator.cs:23 | a match at a point exists exactly when the pattern can be laid there |
| VariablesValidator.RefusedScanFinds | Calculator.WPF/Models/Validators/Validators/VariablesValidator.cs:25-43 | the match-by-match scan finds only pairs that match there, are not the marker and have no reserved side |
| VariablesValidator.NoPairSkipped | Calculator.WPF/Models/Validators/Validators/VariablesValidator.cs:25 | points where no match starts do not change what the scan finds |
| VariablesValidator.FirstRefused | Calculator.WPF/Models/Validators/Validators/VariablesValidator.cs:25-43 | the pair reported is a refused match found by the scan |
| VariablesValidator.FirstForbidden | Calculator.WPF/Models/Validators/Validators/VariablesValidator.cs:55 | the first character outside the permitted set, or none exactly when all are permitted |
| VariablesValidator.SpacingPointsAtBlank | Calculator.WPF/Models/Validators/Validators/VariablesValidator.cs:37-41 | with positions mapped back to the input, a spacing error points at a blank of the input |
| VariablesValidator.CharacterPointsAtItself | Calculator.WPF/Models/Validators/Validators/VariablesValidator.cs:55-59 | with positions mapped back, a character error points at that very character of the input |
| VariablesValidator.QuotedContentIgnored | Calculator.WPF/Models/Validators/Validators/VariablesValidator.cs:21-52 | whatever a quoted span holds, the validator as written judges the text as if it were empty |
| VariablesValidator.OnlyRefusedPair | Calculator.WPF/Models/Validators/Validators/VariablesValidator.cs:18-44 | in quote-free text the first refused pair is reported, at the end of its left word, in both versions |
| VariablesValidator.SpacedNameRejected | Calculator.WPF/Models/Validators/Validators/VariablesValidator.cs:35-41 | `my var` is rejected at position 3 |
| VariablesValidator.ReservedNameMaySpace | Calculator.WPF/Models/Validators/Validators/VariablesValidator.cs:35 | `sin x` passes the spacing check: a reserved word may stand beside a name |
| VariablesValidator.OnlyForbiddenCharacter | Calculator.WPF/Models/Validators/Validators/VariablesValidator.cs:49-60 | in quote-free text without word pairs, the first forbidden character is reported at itself |
| VariablesValidator.HashRejected | Calculator.Parser.Tests/InvalidExpressionTests.cs:73 | `a + #` is rejected at position 5 |
| VariablesValidator.DollarRejected | Calculator.WPF/Models/Validators/Validators/VariablesValidator.cs:55-59 | `var$ + 10` is rejected at position 4 |
| VariablesValidator.SpacingPositionShifted | Calculator.WPF/Models/Validators/Validators/VariablesValidator.cs:21-41 | for a 6-character text with a quoted span, the spacing error is reported at 11 as written and at 5, a blank, mapped back |
| VariablesValidator.CharacterPositionShifted | Calculator.WPF/Models/Validators/Validators/VariablesValidator.cs:52-59 | for a 4-character text with a quoted span, `#` is reported at 10 as written and at 4, itself, mapped back |
| NumbersValidator.ScanIsPattern | Calculator.WPF/Models/Validators/Validators/NumbersValidator.cs:16 | the scanner for `\b\d+\s+\d+\b` agrees with the declarative pattern at every point |
| NumbersValidator.Validate | Calculator.WPF/Models/Validators/Validators/NumbersValidator.cs:13-22 | passes exactly when no two digit runs are separated by blanks alone; otherwise reports the first such run |
| NumbersValidator.ValidateMeaning | Calculator.WPF/Models/Validators/Validators/NumbersValidator.cs:13-22 | the same, stated with the declarative pattern: the reported position is its first match |
| NumbersValidator.SpacedNumberRejected | Calculator.WPF/Models/Validators/Validators/NumbersValidator.cs:16-20 | `1 2` is rejected at position 1 |
| NumbersValidator.DigitsAfterNameAccepted | Calculator.WPF/Models/Validators/Validators/NumbersValidator.cs:16 | `x1 2` passes: the word boundary excludes digits that continue a name |
| MissingOperandsValidator.LiteralCloseBody | Calculator.WPF/Models/Validators/Validators/MissingOperandsValidator.cs:22 | a string literal match ends at a quote, with only non-quotes and doubled quotes between |
| MissingOperandsValidator.LiteralMatchShape | Calculator.WPF/Models/Validators/Validators/MissingOperandsValidator.cs:22 | every literal match starts and ends with `"` and its body is well escaped |
| MissingOperandsValidator.SquareCallShape | Calculator.WPF/Models/Validators/Validators/MissingOperandsValidator.cs:30 | every square-call match is a word, `[`, a non-empty balanced body and `]` |
| MissingOperandsValidator.FirstParen | Calculator.WPF/Models/Validators/Validators/MissingOperandsValidator.cs:39 | the first `(` or `)` from a point, or none exactly when there is none; the basis of the innermost-parentheses match |
| MissingOperandsValidator.Replace | Calculator.WPF/Models/Validators/Validators/MissingOperandsValidator.cs:22-44 | the replace loop of one pass returns the left-to-right rewrite with numbered keys, and the counter after it |
| MissingOperandsValidator.ReplaceAll | Calculator.WPF/Models/Validators/Validators/MissingOperandsValidator.cs:15-44 | the three passes, literals with their own counter and the two call passes sharing one, give the rewritten text |
| MissingOperandsValidator.RewriteWithoutMatches | Calculator.WPF/Models/Validators/Validators/MissingOperandsValidator.cs:22-44 | where no match starts, a pass copies the text unchanged and the counter is kept |
| MissingOperandsValidator.RewritePlain | Calculator.WPF/Models/Validators/Validators/MissingOperandsValidator.cs:15-44 | text with no quote, `[` or `(` is not rewritten |
| MissingOperandsValidator.OperatorAt | Calculator.WPF/Models/Validators/Validators/MissingOperandsValidator.cs:47 | a match of the operator pattern from a point lies on one of `+*/^` |
| MissingOperandsValidator.ShieldedOperatorsPass | Calculator.WPF/Models/Validators/Validators/MissingOperandsValidator.cs:47 | an operator after a digit, `]`, `"`, `#` or capital, or before an operand start, is never matched |
| MissingOperandsValidator.FirstMissing | Calculator.WPF/Models/Validators/Validators/MissingOperandsValidator.cs:47-85 | the first match whose operator has no operand after it, with that operator |
| MissingOperandsValidator.MissingStep | Calculator.WPF/Models/Validators/Validators/MissingOperandsValidator.cs:47-85 | the scan skips points without a match and matches followed by an operand, and stops at the first other match |
| MissingOperandsValidator.NoOperatorBetween | Calculator.WPF/Models/Validators/Validators/MissingOperandsValidator.cs:47 | points without a match do not change what the scan finds |
| MissingOperandsValidator.TrailingOperatorMissing | Calculator.WPF/Models/Validators/Validators/MissingOperandsValidator.cs:58-84 | a final unshielded operator has no operand after it and is reported |
| MissingOperandsValidator.SkipBlanks | Calculator.WPF/Models/Validators/Validators/MissingOperandsValidator.cs:59-65 | the blank-skipping loop stops at the first non-blank after the match |
| MissingOperandsValidator.ScanOperators | Calculator.WPF/Models/Validators/Validators/MissingOperandsValidator.cs:47-85 | the match loop returns the verdict on the rewritten text: the first operator without operand, or a pass |
| MissingOperandsValidator.CheckForMissingOperands | Calculator.WPF/Models/Validators/Validators/MissingOperandsValidator.cs:13-86 | the whole method, rewrite then scan, returns `Validate` |
| MissingOperandsValidator.SpacedTrailingOperator | Calculator.WPF/Models/Validators/Validators/MissingOperandsValidator.cs:47-84 | `2 +` is rejected at position 3, the `+`: the lookbehind refuses the blank, which follows a digit, so the match starts at the operator |
| MissingOperandsValidator.GluedTrailingOperator | Calculator.WPF/Models/Validators/Validators/MissingOperandsValidator.cs:47 | `2+` passes: the digit before shields the operator |
| MissingOperandsValidator.RewriteOfCallThenOperator | Calculator.WPF/Models/Validators/Validators/MissingOperandsValidator.cs:22-44 | `sum[1] +` is rewritten to `sum#FUNC#0# +` |
| MissingOperandsValidator.PositionInRewrittenText | Calculator.WPF/Models/Validators/Validators/MissingOperandsValidator.cs:83 | for the 8-character `sum[1] +` the error is reported at 13, a position in the rewritten text |
| SqrtValidator.ScanIsPattern | Calculator.WPF/Models/Validators/Validators/SqrtValidator.cs:18 | the scanner for `sqrt\s*\(\s*-\s*\w+` agrees with the declarative pattern at every point |
| SqrtValidator.Validate | Calculator.WPF/Models/Validators/Validators/SqrtValidator.cs:16-23 | passes exactly when no `sqrt` of a negated word occurs; otherwise reports the first one |
| SqrtValidator.ValidateMeaning | Calculator.WPF/Models/Validators/Validators/SqrtValidator.cs:16-23 | the same with the declarative pattern: the reported position is its first match |
| SqrtValidator.MinusMustComeFirst | Calculator.WPF/Models/Validators/Validators/SqrtValidator.cs:18 | a `sqrt(` whose first non-blank is not `-` is never matched |
| SqrtValidator.FirstMatchReported | Calculator.WPF/Models/Validators/Validators/SqrtValidator.cs:19-21 | the first match decides the error |
| SqrtValidator.NegatedNameRejected | Calculator.WPF/Models/Validators/Validators/SqrtValidator.cs:18-21 | `2*sqrt( - x)` is rejected at position 3 |
| FunctionArgumentsValidator.FirstEqualsIn | Calculator.WPF/Models/Validators/Validators/FunctionArgumentsValidator.cs:31 | the first lone `=` or `==` of the argument text, or none exactly when there is none |
| FunctionArgumentsValidator.CallError | Calculator.WPF/Models/Validators/Validators/FunctionArgumentsValidator.cs:23-51 | calls of names that are not reserved are never checked; an error points at an `=` of the arguments |
| FunctionArgumentsValidator.MatchError | Calculator.WPF/Models/Validators/Validators/FunctionArgumentsValidator.cs:21-51 | with positions taken from the group index, a match's error lies between its brackets, on an `=` |
| FunctionArgumentsValidator.ErrorAtEquals | Calculator.WPF/Models/Validators/Validators/FunctionArgumentsValidator.cs:16-54 | the corrected validator's every error points at an `=` of the input |
| FunctionArgumentsValidator.ComparisonsNotFlagged | Calculator.WPF/Models/Validators/Validators/FunctionArgumentsValidator.cs:31 | the `=` of `<=`, `>=` or `!=` is not flagged |
| FunctionArgumentsValidator.CallErrorShift | Calculator.WPF/Models/Validators/Validators/FunctionArgumentsValidator.cs:35 | moving the offset moves the reported position by the same amount and nothing else |
| FunctionArgumentsValidator.MatchErrorShifted | Calculator.WPF/Models/Validators/Validators/FunctionArgumentsValidator.cs:25 | as written, a match's error is the corrected one moved by the match's own start |
| FunctionArgumentsValidator.ChecksAtFirstError | Calculator.WPF/Models/Validators/Validators/FunctionArgumentsValidator.cs:21-53 | both versions report the error of the first reserved call whose arguments hold a bad `=`, or pass when there is none |
| FunctionArgumentsValidator.AsWrittenShifted | Calculator.WPF/Models/Validators/Validators/FunctionArgumentsValidator.cs:16-54 | the validator as written and the corrected one fail on the same texts, the position moved by the first bad call's start |
| FunctionArgumentsValidator.CallErrorOfExample | Calculator.WPF/Models/Validators/Validators/FunctionArgumentsValidator.cs:31-42 | in the arguments `a = 1, 2` of `max` the `=` is flagged |
| FunctionArgumentsValidator.MatchesOfExample | Calculator.WPF/Models/Validators/Validators/FunctionArgumentsValidator.cs:19-21 | `1 + max(a = 1, 2)` has the one call match `max(a = 1, 2)` |
| FunctionArgumentsValidator.AsWrittenPositionShifted | Calculator.WPF/Models/Validators/Validators/FunctionArgumentsValidator.cs:25 | as written it is reported at 15, a blank; corrected at 11, the `=` |
| FunctionArgumentsValidator.LogNotChecked | Calculator.WPF/Models/Validators/Validators/FunctionArgumentsValidator.cs:28 | `log(x = 1)` passes, since `log` is not a reserved name |
| FunctionSpacingValidator.AlternativesAreReserved | Calculator.WPF/Models/Validators/Validators/FunctionSpacingValidator.cs:18 | the alternation lists exactly the reserved function names |
| FunctionSpacingValidator.AlternationMeaning | Calculator.WPF/Models/Validators/Validators/FunctionSpacingValidator.cs:20 | at a word boundary, the alternation matches exactly when some reserved name, case ignored, is followed by blanks and `(` |
| FunctionSpacingValidator.ScanIsPattern | Calculator.WPF/Models/Validators/Validators/FunctionSpacingValidator.cs:20-22 | the scanner agrees with the declarative pattern at every point |
| FunctionSpacingValidator.Validate | Calculator.WPF/Models/Validators/Validators/FunctionSpacingValidator.cs:16-27 | passes exactly when no reserved name is separated from its `(` by blanks; otherwise reports the first such name |
| FunctionSpacingValidator.ValidateMeaning | Calculator.WPF/Models/Validators/Validators/FunctionSpacingValidator.cs:16-27 | the same with the declarative pattern: the reported position is its first match |
| FunctionSpacingValidator.NoSpacedCallAtNonLetter | Calculator.WPF/Models/Validators/Validators/FunctionSpacingValidator.cs:20 | no match starts at a character that is not a letter |
| FunctionSpacingValidator.SpacedCallRejected | Calculator.WPF/Models/Validators/Validators/FunctionSpacingValidator.cs:22-25 | `1 + Sin (x)` is rejected at position 5, case ignored |
| Scanning.CallMatchShape | Calculator.WPF/Models/Validators/Validators/CommasValidator.cs:55 | a match of the call pattern is a name at a word boundary, blanks, `(` or `[`, text without a closer, and the first closer |
| Scanning.CallMatchesAreMatches | Calculator.WPF/Models/Validators/Validators/CommasValidator.cs:56 | every element of the match list is a match of the pattern at its own start |
| Scanning.CallMatchesOrdered | Calculator.WPF/Models/Validators/Validators/CommasValidator.cs:56 | the match list is ordered and its matches do not overlap |
| Text.TrimIsCore | Calculator.WPF/Models/Validators/Validators/FunctionsValidator.cs:183 | `Trim` removes exactly the leading and trailing blanks |
| Text.NatToStringRoundTrip | Calculator.WPF/Models/Validators/Core/BaseValidator.cs:32 | the decimal text of a number reads back as that number |
| VariableExtractor.QuotedAtMeaning | Calculator.WPF/Models/Extractors/VariableExtractor.cs:20 | a quoted match at a point ends at the last quote the quoted-string pattern (escaped quotes or non-quotes between two quotes) can reach from there, with none when no closing quote follows |
| VariableExtractor.QuotedSpans | Calculator.WPF/Models/Extractors/VariableExtractor.cs:60 | the successive quoted matches each start and end with a quote |
| VariableExtractor.StripQuoted | Calculator.WPF/Models/Extractors/VariableExtractor.cs:74-108 | removing the quoted matches, or blanking them with spaces of the same length; blanking keeps every other character at its index |
| VariableExtractor.IdentifierAt | Calculator.WPF/Models/Extractors/VariableExtractor.cs:21 | an identifier match is a maximal run of word characters at a word boundary |
| VariableExtractor.IdentifierSpans | Calculator.WPF/Models/Extractors/VariableExtractor.cs:76-110 | the successive identifier matches lie in the text and are maximal words |
| VariableExtractor.AddAllKeeps | Calculator.WPF/Models/Extractors/VariableExtractor.cs:58-116 | adding names to a case-insensitive set or dictionary keeps what is already there |
| VariableExtractor.AddAllDistinct | Calculator.WPF/Models/Extractors/VariableExtractor.cs:26-53 | the result never holds two keys equal up to case |
| VariableExtractor.AddAllHasEvery | Calculator.WPF/Models/Extractors/VariableExtractor.cs:58-116 | every offered name is present afterwards, case ignored |
| VariableExtractor.AddAllFirstWins | Calculator.WPF/Models/Extractors/VariableExtractor.cs:87-116 | every added entry is the first offer of its key: later spellings and positions of a name are ignored |
| VariableExtractor.ExtractQuotedVariables | Calculator.WPF/Models/Extractors/VariableExtractor.cs:58-66 | the loop adds the non-empty quoted bodies, in order, to the set |
| VariableExtractor.ExtractUnquotedVariables | Calculator.WPF/Models/Extractors/VariableExtractor.cs:71-82 | the loop adds the valid identifiers of the text with quoted spans removed |
| VariableExtractor.ExtractQuotedVariablesWithPositions | Calculator.WPF/Models/Extractors/VariableExtractor.cs:87-99 | the loop adds each new quoted body with the index after its opening quote and its length |
| VariableExtractor.ExtractUnquotedVariablesWithPositions | Calculator.WPF/Models/Extractors/VariableExtractor.cs:104-116 | the loop adds each new valid identifier of the blanked text with its index and length |
| VariableExtractor.ExtractVariables | Calculator.WPF/Models/Extractors/VariableExtractor.cs:26-37 | the names of the quoted then unquoted tables; empty for empty input |
| VariableExtractor.ExtractVariablesWithPositions | Calculator.WPF/Models/Extractors/VariableExtractor.cs:42-53 | the quoted then unquoted position table; empty for empty input |
| VariableExtractor.VariablesComplete | Calculator.WPF/Models/Extractors/VariableExtractor.cs:26-37 | the set has distinct keys, starts with the quoted names and holds every quoted and unquoted candidate |
| VariableExtractor.UnquotedFirstSpellingWins | Calculator.WPF/Models/Extractors/VariableExtractor.cs:80 | each unquoted entry is the first spelling offered for its key |
| VariableExtractor.BlankKeepsWords | Calculator.WPF/Models/Extractors/VariableExtractor.cs:108 | a word of the blanked text is the same word of the input at the same place |
| VariableExtractor.PositionsLocateNames | Calculator.WPF/Models/Extractors/VariableExtractor.cs:42-53 | every entry's position and length locate its name in the input |
| VariableExtractor.JoinExample | Calculator.WPF/Models/Extractors/VariableExtractor.cs:74 | `a"q"b` has the names `q` and `ab`: removing the quoted span joins its neighbours, while the position table has `q`, `a` and `b` |
| VariableExtractor.DqffExample | Calculator.WPF/Models/Extractors/VariableExtractor.cs:26-37 | `"dqff" + 10` has the single variable `dqff` |
| VariableExtractor.OneQuotedName | Calculator.WPF/Models/Extractors/VariableExtractor.cs:26-37 | one quoted name and no unquoted one give exactly that name |
| VariableSubstitutor.Find | Calculator.WPF/Models/Substitutors/VariableSubstitutor.cs:28-56 | `TryGetValue` on a case-sensitive dictionary: a found value is bound to exactly that key; none exactly when no entry has the key |
| VariableSubstitutor.VectorText | Calculator.WPF/Models/Substitutors/VariableSubstitutor.cs:110 | an array's literal text is bracketed |
| VariableSubstitutor.QuotedNameAt | Calculator.WPF/Models/Substitutors/VariableSubstitutor.cs:30 | a quoted match is a quote, a non-empty quote-free name and the next quote; no match exactly when the quote is the last character, is followed by a quote, or has no partner |
| VariableSubstitutor.QuotedUnboundKept | Calculator.WPF/Models/Substitutors/VariableSubstitutor.cs:28-37 | quoted names that are not bound scalars are left as they are |
| VariableSubstitutor.VectorCallAt | Calculator.WPF/Models/Substitutors/VariableSubstitutor.cs:42 | a match of the vector-function pattern is `sum`, `mean`, `fact` or `log`, case ignored, `[`, a name and `]` |
| VariableSubstitutor.ExpandUnboundKept | Calculator.WPF/Models/Substitutors/VariableSubstitutor.cs:39-56 | calls whose name is not a bound array are left as they are |
| VariableSubstitutor.CheckedCallAt | Calculator.WPF/Models/Substitutors/VariableSubstitutor.cs:64 | a match of the length-check pattern has a non-empty argument text between its parentheses |
| VariableSubstitutor.VectorArguments | Calculator.WPF/Models/Substitutors/VariableSubstitutor.cs:70-74 | the trimmed arguments kept are exactly bound array names |
| VariableSubstitutor.FirstMismatch | Calculator.WPF/Models/Substitutors/VariableSubstitutor.cs:79-86 | the first array argument whose length differs from the first one's, or none when all agree |
| VariableSubstitutor.CallLengthError | Calculator.WPF/Models/Substitutors/VariableSubstitutor.cs:76-87 | a call is accepted only when all its array arguments have the first one's length |
| VariableSubstitutor.CheckPassesWithOneLength | Calculator.WPF/Models/Substitutors/VariableSubstitutor.cs:61-92 | when all bound arrays share one length the check never fails |
| VariableSubstitutor.ReplaceWordAbsent | Calculator.WPF/Models/Substitutors/VariableSubstitutor.cs:101-104 | text where the name never stands as a whole word is left as it is |
| VariableSubstitutor.ReplaceWordAt | Calculator.WPF/Models/Substitutors/VariableSubstitutor.cs:101-104 | a whole-word occurrence, case ignored, is replaced by the value text and the scan resumes after it |
| VariableSubstitutor.ReplaceRegularVariables | Calculator.WPF/Models/Substitutors/VariableSubstitutor.cs:94-115 | the two loops over the tables replace every scalar, then every array, as whole words, in table order |
| VariableSubstitutor.Substitute | Calculator.WPF/Models/Substitutors/VariableSubstitutor.cs:12-26 | blank input is returned unchanged; otherwise the four passes in order, a length mismatch ending it with an error |
| VariableSubstitutor.PlainTextKept | Calculator.WPF/Models/Substitutors/VariableSubstitutor.cs:20-21 | text without `[` or `"` passes the first two passes unchanged |
| VariableSubstitutor.MismatchExample | Calculator.WPF/Models/Substitutors/VariableSubstitutor.cs:83-84 | `max(a, b)` with arrays of lengths 1 and 2 fails with the length message naming both |
| VariableSubstitutor.WholeWordExample | Calculator.WPF/Models/Substitutors/VariableSubstitutor.cs:101 | replacing `a` in `A + ab` changes `A` and not `ab` |
| VariableSubstitutor.ExpandExample | Calculator.WPF/Models/Substitutors/VariableSubstitutor.cs:51-53 | `sum[a]` with `a` bound to two values becomes `sum[` the values joined by `, ` `]` |
| VariableSubstitutor.ScalarsExample | Calculator.WPF/Models/Substitutors/VariableSubstitutor.cs:99-105 | `a + b * c` with 2, 3, 4 becomes `2 + 3 * 4` |
| Values.Mirror | Calculator.Parser/Parsers/OperatorParser/VectorOperations.cs:211-223 | swapping the operands of a scalar comparison and mirroring its operator gives the same answer |
| Expressions.MakeNegate | Calculator.Parser/Parsers/NegateParser.cs:16 | `Expression.Negate` accepts exactly a `double` operand and yields a `double`; otherwise the unary-operator error names the operand's type |
| Expressions.MakeArith | Calculator.Parser/Parsers/OperatorParser.cs:38-50 | `Expression.MakeBinary` for `+ - * / %` accepts exactly two `double` operands; otherwise the binary-operator error names both types |
| Expressions.MakePower | Calculator.Parser/Parsers/OperatorParser.cs:18 | `Power` likewise accepts exactly two `double` operands |
| Expressions.MakeRelation | Calculator.Parser/Parsers/OperatorParser.cs:65 | a comparison node is built exactly when the operator is defined for the two types, and is `bool` |
| Expressions.CallMath1 | Calculator.Parser/Calculator/FunctionEvaluator.cs:88 | a one-argument `Math` call accepts exactly a `double` argument |
| Expressions.CallMath2 | Calculator.Parser/Calculator/FunctionEvaluator.cs:97 | a two-argument `Math` call accepts exactly two `double` arguments, the first wrong one named in the error |
| Expressions.FirstNonScalar | Calculator.Parser/Parsers/VectorParser.cs:15 | the first element that is not a `double`, or none exactly when all are |
| Expressions.MakeNewArray | Calculator.Parser/Parsers/VectorParser.cs:15 | `Expression.NewArrayInit(typeof(double), …)` succeeds exactly when every element is a `double`, and yields a `double[]` |
| Expressions.MakeCondition | Calculator.Parser/Parsers/IfFunctionParser.cs:22 | `Expression.Condition` needs a `bool` test and branches of one type, which is the result's; each failure has its own error |
| Expressions.Eval | Calculator.WPF/Services/Calculation/CalculationController.cs:76 | running a well-typed tree yields a value of the tree's static type, or a run-time error |
| Expressions.EvalScalars | Calculator.Parser/Parsers/VectorParser.cs:15 | running the elements of an array node yields one number per element |
| PositionedValue.PositionedValue.constructor | Calculator.Parser/PositionedValue.cs:10-13 | the constructor keeps the value and starts at position 0 |
| PositionedValue.PositionedValue.SetPos | Calculator.Parser/PositionedValue.cs:15-19 | `SetPos` records the start position and returns the same object |
| PositionedValue.PositionedName | Calculator.Parser/Parsers/FunctionParser.cs:14-17 | a positioned name exists exactly when a function name is read at the point, and holds that name and the point |
| Syntax.ConvertToObject | Calculator.Parser/Calculator/Syntax.cs:19-28 | a `double` or `double[]` body is boxed unchanged; a `bool` body throws the unsupported-type error |
| Syntax.ParseUniversalLambda | Calculator.Parser/Calculator/Syntax.cs:12-14 | succeeds exactly when the universal expression parser reads the whole input and its tree is not `bool`, and then returns that tree |
| Syntax.Parse | Calculator.Parser/Calculator/ExpressionParser.cs:15-26 | a failed parse becomes the `Ошибка парсинга выражения: ` error with the parser's message; an exception passes through; success returns the tree |
| NumberParser.ScalarEnd | Calculator.Parser/Parsers/NumberParser.cs:21 | `\d+([.,]\d+)?` matches exactly at a digit and ends after the longest digit run, optionally extended by a separator and digits |
| NumberParser.ScalarNumber | Calculator.Parser/Parsers/NumberParser.cs:21-24 | a scalar is read exactly at a digit and is a constant |
| NumberParser.ScalarListRest | Calculator.Parser/Parsers/NumberParser.cs:29 | the comma-delimited list keeps what it has read and adds only constants |
| NumberParser.VectorNumber | Calculator.Parser/Parsers/NumberParser.cs:27-31 | an array literal starts with `[` and a digit and is a `double[]` node |
| NumberParser.Number | Calculator.Parser/Parsers/NumberParser.cs:34 | the scalar is tried first; a number is read only at a digit or `[` |
| NumberParser.PointValue | Calculator.Parser/Parsers/NumberParser.cs:40-43 | a point literal has the value of its digits before and after the point |
| NumberParser.CommaBecomesPoint | Calculator.Parser/Parsers/NumberParser.cs:23-40 | the comma of a literal becomes a point; a point literal is unchanged |
| NumberParser.CommaEqualsPoint | Calculator.Parser/Parsers/NumberParser.cs:21-24 | `a,b` and `a.b` read as the same constant |
| NumberParser.WholeNumberAt | Calculator.Parser/Parsers/NumberParser.cs:21-24 | a digit run not followed by a separator and digit reads as its natural value and ends there |
| NumberParser.ReadsNaturalBack | Calculator.Parser/Parsers/NumberParser.cs:21-24 | the decimal text of a natural reads back as that natural |
| NumberParser.GreedyCommaInArray | Calculator.Parser/Parsers/NumberParser.cs:21-29 | `[1,2]` is the one-element array of 1.2: the scalar pattern takes the comma before the delimiter can |
| NumberParser.EmptyArrayRejected | Calculator.Parser/Parsers/NumberParser.cs:27-31 | `[]` is not an array literal: the list needs one number |
| VectorOperations.VectorVector | Calculator.Parser/Parsers/OperatorParser/VectorOperations.cs:12-44 | element-wise `+ - * / %` on two arrays: fails exactly on unequal lengths, or on a zero divisor element for `/`, each with its message; otherwise one result per index |
| VectorOperations.ScalarVector | Calculator.Parser/Parsers/OperatorParser/VectorOperations.cs:51-85 | scalar-then-array: fails only for `/` with a zero element; otherwise the operator applied to the scalar and each element |
| VectorOperations.VectorScalar | Calculator.Parser/Parsers/OperatorParser/VectorOperations.cs:56-94 | array-then-scalar: fails only for `/` by a zero scalar; otherwise each element with the scalar |
| VectorOperations.DivideThenMultiply | Calculator.Parser/Parsers/OperatorParser/VectorOperations.cs:39-44 | multiplying an element-wise quotient by the divisor gives back the dividend |
| VectorOperations.VectorVectorCommutes | Calculator.Parser/Parsers/OperatorParser/VectorOperations.cs:12-34 | element-wise addition and multiplication commute |
| VectorOperations.MixedSubtractionsOpposite | Calculator.Parser/Parsers/OperatorParser/VectorOperations.cs:61-66 | scalar minus array and array minus scalar are element-wise opposites |
| VectorOperations.TotalAppend | Calculator.Parser/Parsers/OperatorParser/VectorOperations.cs:104 | the sum of a concatenation is the sum of the sums |
| VectorOperations.DotProduct | Calculator.Parser/Parsers/OperatorParser/VectorOperations.cs:101-105 | fails exactly on unequal lengths, with the length message |
| VectorOperations.DotProductCommutes | Calculator.Parser/Parsers/OperatorParser/VectorOperations.cs:101-105 | the dot product is symmetric |
| VectorOperations.Magnitude | Calculator.Parser/Parsers/OperatorParser/VectorOperations.cs:110 | the magnitude is the square root of the array's dot product with itself |
| VectorOperations.Normalize | Calculator.Parser/Parsers/OperatorParser/VectorOperations.cs:115-121 | fails exactly for magnitude zero; otherwise the array divided by its magnitude |
| VectorOperations.NormalizeThenScale | Calculator.Parser/Parsers/OperatorParser/VectorOperations.cs:115-121 | scaling the normalised array by the magnitude gives back the array |
| VectorOperations.Vectors | Calculator.Parser/Parsers/OperatorParser/VectorOperations.cs:148-193 | array comparisons fail exactly on unequal lengths; otherwise `==`, `<`, `<=`, `>`, `>=` hold exactly when they hold at every index |
| VectorOperations.NotEqualMeansSomePairDiffers | Calculator.Parser/Parsers/OperatorParser/VectorOperations.cs:157 | `!=` holds exactly when some index differs: the negation of `==`, not the all-indices relation |
| VectorOperations.ScalarToVectorMirrors | Calculator.Parser/Parsers/OperatorParser/VectorOperations.cs:198-209 | a scalar-to-array comparison is the array-to-scalar comparison with the mirrored operator |
| VectorOperations.Fact | Calculator.Parser/Parsers/OperatorParser/VectorOperations.cs:257-265 | fails exactly for a negative or fractional argument; otherwise at least 1 |
| VectorOperations.FactLoop | Calculator.Parser/Parsers/OperatorParser/VectorOperations.cs:257-265 | the multiplying loop returns `Fact` |
| VectorOperations.FactStep | Calculator.Parser/Parsers/OperatorParser/VectorOperations.cs:257-265 | the factorial of x + 1 is x + 1 times that of x |
| VectorOperations.FactAll | Calculator.Parser/Parsers/OperatorParser/VectorOperations.cs:270-273 | the array factorial succeeds exactly when every element's does, and is element-wise |
| FunctionEvaluator.LookupIn | Calculator.Parser/Calculator/FunctionEvaluator.cs:19-45 | a name is found exactly when some table key equals its lower-case spelling, and the handler found is that key's |
| FunctionEvaluator.LookupInSameLower | Calculator.Parser/Calculator/FunctionEvaluator.cs:19 | two names with the same lower-case spelling find the same entry |
| FunctionEvaluator.LookupIgnoresCase | Calculator.Parser/Calculator/FunctionEvaluator.cs:19 | the table compares names ignoring case |
| FunctionEvaluator.LookupUpperCase | Calculator.Parser/Calculator/FunctionEvaluator.cs:19-21 | `SQRT` finds the square-root entry |
| FunctionEvaluator.LookupMissing | Calculator.Parser/Calculator/FunctionEvaluator.cs:19-33 | `exp` is not a known function |
| FunctionEvaluator.Lifted | Calculator.Parser/Calculator/FunctionEvaluator.cs:70-72 | a library fault becomes a build error and a built tree passes through unchanged |
| FunctionEvaluator.HandleUnary | Calculator.Parser/Calculator/FunctionEvaluator.cs:84-89 | builds exactly when the argument is not a `bool`; an array stays an array and a scalar a scalar |
| FunctionEvaluator.ScalarToArray | Calculator.Parser/Calculator/FunctionEvaluator.cs:179-208 | the scalar loop builds exactly when the scalar is a `double`, gives an array, and otherwise fails with the argument-type fault |
| FunctionEvaluator.HandleBinary | Calculator.Parser/Calculator/FunctionEvaluator.cs:94-104 | builds exactly when neither argument is a `bool`: a direct call for two scalars, the element-wise loop for two arrays, the scalar loop otherwise with the scalar kept first or second |
| FunctionEvaluator.HandleMathFunction | Calculator.Parser/Calculator/FunctionEvaluator.cs:63-78 | the wrong number of arguments fails with the arity message naming the method and its arity; a built tree is well kinded |
| FunctionEvaluator.Enumerable | Calculator.Parser/Calculator/FunctionEvaluator.cs:279-296 | each non-`bool` argument becomes an array (an array is cast, a scalar wrapped); a `bool` fails |
| FunctionEvaluator.Enumerables | Calculator.Parser/Calculator/FunctionEvaluator.cs:277-297 | the conversion succeeds exactly when no argument is a `bool` and gives one array per argument |
| FunctionEvaluator.Combined | Calculator.Parser/Calculator/FunctionEvaluator.cs:299-309 | folding the converted arguments with `Concat` gives an array |
| FunctionEvaluator.HandleSum | Calculator.Parser/Calculator/FunctionEvaluator.cs:272-314 | `sum` builds exactly when there is an argument and none is a `bool`, with the at-least-one message for none, and gives a scalar |
| FunctionEvaluator.EnumerablesFailureStays | Calculator.Parser/Calculator/FunctionEvaluator.cs:279-297 | the first argument that fails conversion decides the failure |
| FunctionEvaluator.HandleAggregateFunction | Calculator.Parser/Calculator/FunctionEvaluator.cs:270-315 | the two loops build exactly `HandleSum` |
| FunctionEvaluator.EnumerableElements | Calculator.Parser/Calculator/FunctionEvaluator.cs:281-296 | a converted argument evaluates to that argument's doubles |
| FunctionEvaluator.CombinedElements | Calculator.Parser/Calculator/FunctionEvaluator.cs:299-309 | the concatenation evaluates to every argument's doubles, in order |
| FunctionEvaluator.SumAddsEveryElement | Calculator.Parser/Calculator/FunctionEvaluator.cs:270-314 | `sum` evaluates to the total of every double of every argument, arrays flattened |
| FunctionEvaluator.AddChain | Calculator.Parser/Calculator/FunctionEvaluator.cs:218 | folding with `+` keeps a single argument and otherwise builds exactly when every argument is a scalar |
| FunctionEvaluator.HandleMean | Calculator.Parser/Calculator/FunctionEvaluator.cs:213-222 | `mean` with no argument fails with its message; it builds exactly when every argument is a scalar, and gives a scalar |
| FunctionEvaluator.AddChainTotal | Calculator.Parser/Calculator/FunctionEvaluator.cs:218 | the folded sum evaluates to the total of the arguments |
| FunctionEvaluator.MeanOfScalars | Calculator.Parser/Calculator/FunctionEvaluator.cs:213-222 | `mean` evaluates to the total divided by the number of arguments |
| FunctionEvaluator.HandleIf | Calculator.Parser/Calculator/FunctionEvaluator.cs:227-248 | `if` needs three arguments, a `bool` test and branches of one kind, and builds the conditional |
| FunctionEvaluator.IfArrayConditionRejected | Calculator.Parser/Calculator/FunctionEvaluator.cs:237-247 | an array condition becomes its first `double`, which is not a `bool`, so the conditional is never built |
| FunctionEvaluator.IfRunsSelectedBranch | Calculator.Parser/Calculator/FunctionEvaluator.cs:247 | a built `if` evaluates to the branch its test selects |
| FunctionEvaluator.HandleFact | Calculator.Parser/Calculator/FunctionEvaluator.cs:250-264 | `fact` needs one argument; a `bool` argument has no overload; otherwise it builds with the argument's kind |
| FunctionEvaluator.Invoke | Calculator.Parser/Calculator/FunctionEvaluator.cs:45-49 | whatever a handler builds is well kinded |
| FunctionEvaluator.GetFunctionExpression | Calculator.Parser/Calculator/FunctionEvaluator.cs:43-58 | an unknown name fails with the unknown-function message and a map from the name to its position |
| FunctionEvaluator.KnownNameUsesHandler | Calculator.Parser/Calculator/FunctionEvaluator.cs:45-54 | a known name gives exactly what its handler gives: the position-(-1) re-throw never applies |
| FunctionEvaluator.HandlersThrowAtZero | Calculator.Parser/Calculator/FunctionEvaluator.cs:67-68 | every `CalculatorException` a handler throws has position 0 and no position map |
| FunctionEvaluator.UnknownNamePosition | Calculator.Parser/Calculator/FunctionEvaluator.cs:57 | an unknown function is reported at its own position |
| FunctionEvaluator.ApplyUnaryToArray | Calculator.Parser/Calculator/FunctionEvaluator.cs:109-136 | the loop gives a new array whose element i is the function of element i |
| FunctionEvaluator.ApplyElementWiseBinary | Calculator.Parser/Calculator/FunctionEvaluator.cs:141-174 | the loop pairs elements up to the shorter length |
| FunctionEvaluator.ApplyScalarToArray | Calculator.Parser/Calculator/FunctionEvaluator.cs:179-208 | the loop applies the function to each element and the scalar, the scalar first or second as asked |
| FunctionEvaluator.TruncationVersusRejection | Calculator.Parser/Calculator/FunctionEvaluator.cs:141-174 | on arrays of unequal length the math functions truncate to the shorter, while the operators reject them |
| Operators.ApplyOperation | Calculator.Parser/Parsers/OperatorParser/TermParser.cs:39-83 | `* / %` build exactly when neither operand is a `bool`, the result an array when either operand is; otherwise the unsupported-types error |
| Operators.TermKeepsOperandOrder | Calculator.Parser/Parsers/OperatorParser/TermParser.cs:68-80 | a mixed `* / %` keeps its operands in order: array-then-scalar applies the operator to each element and the scalar, scalar-then-array to the scalar and each element |
| Operators.ScalarDivisionUnchecked | Calculator.Parser/Parsers/OperatorParser/TermParser.cs:50-55 | a scalar division by zero is built and evaluates to whatever IEEE division gives, with no error |
| Operators.VectorDivisionByZeroFails | Calculator.Parser/Parsers/OperatorParser/TermParser.cs:75-79 | an array divided by a zero scalar fails at evaluation with the division-by-zero message |
| Operators.HandleOperation | Calculator.Parser/Parsers/OperatorParser/ExprParser.cs:18-56 | `+ -` build exactly when neither operand is a `bool`, the result an array when either operand is; otherwise the method-not-found error |
| Operators.MixedOperandOrderIgnored | Calculator.Parser/Parsers/OperatorParser/ExprParser.cs:46-56 | a mixed `+ -` always calls the scalar-first overload, so the operand order is dropped |
| Operators.VectorMinusScalarReversed | Calculator.Parser/Parsers/OperatorParser/ExprParser.cs:46-56 | as written, array minus scalar evaluates to the scalar minus each element |
| Operators.MixedAdditionCommutes | Calculator.Parser/Parsers/OperatorParser/ExprParser.cs:46-56 | for `+` the dropped order does not matter: each element plus the scalar |
| Operators.HandleOperationInOrder | Calculator.Parser/Parsers/OperatorParser/ExprParser.cs:18-56 | the corrected combine agrees with `HandleOperation` on every kind pair except array-then-scalar, and builds in the same cases |
| Operators.VectorMinusScalarInOrder | Calculator.Parser/Parsers/OperatorParser/ExprParser.cs:46-56 | corrected, array minus scalar evaluates to each element minus the scalar |
| Operators.CompareOperation | Calculator.Parser/Parsers/OperatorParser/ComparisonExprParser.cs:19-62 | a comparison builds exactly when neither operand is a `bool` or the native operator is defined on the pair; the result is a `bool`, otherwise the undefined-operator error |
| Operators.VectorsMirror | Calculator.Parser/Parsers/OperatorParser/VectorOperations.cs:148-193 | comparing arrays with the mirrored operator and swapped operands gives the same answer |
| Operators.MirrorVectors | Calculator.Parser/Parsers/OperatorParser/ComparisonExprParser.cs:22-45 | the same for the built array comparison |
| Operators.MirrorVectorScalar | Calculator.Parser/Parsers/OperatorParser/ComparisonExprParser.cs:48-58 | scalar-to-array with the mirrored operator equals array-to-scalar |
| Operators.MirrorScalarVector | Calculator.Parser/Parsers/OperatorParser/ComparisonExprParser.cs:48-58 | array-to-scalar with the mirrored operator equals scalar-to-array |
| Operators.MirrorNative | Calculator.Parser/Parsers/OperatorParser/ComparisonExprParser.cs:61 | a native comparison with the mirrored operator and swapped operands gives the same answer |
| Operators.ComparisonMirrors | Calculator.Parser/Parsers/OperatorParser/ComparisonExprParser.cs:19-62 | every built comparison `a op b` has a built mirror `b op' a` with the same value |
| Operators.VectorScalarComparisonMeaning | Calculator.Parser/Parsers/OperatorParser/ComparisonExprParser.cs:48-52 | array-to-scalar holds exactly when every element compares true with the scalar |
| Precedence.ChainFitting | Calculator.Parser/Parsers/OperatorParser/TermParser.cs:27-34 | every operator a level's loop reads is one of that level's operators |
| Precedence.FoldFromFront | Calculator.Parser/Parsers/OperatorParser/ExprParser.cs:9-15 | a left fold over pairs combines the first pair, then folds the rest |
| Precedence.RestIsLeftFold | Calculator.Parser/Parsers/OperatorParser/ExprParser.cs:9-15 | left associativity: a level's loop over any chain of operator-operand pairs yields their left fold, ending after the last operand |
| Precedence.LevelIsLeftFold | Calculator.Parser/Parsers/OperatorParser/ComparisonExprParser.cs:9-18 | precedence: each level (`^`, then `* / %`, then `+ -`, then comparisons) is an operand of the level below followed by pairs whose operands the level below reads, folded from the left |
| Grammar.ConstantOperand | Calculator.Parser/Parsers/ConstantParser.cs:12-14 | `pi` or else `e` is read as a scalar constant and consumes text |
| Grammar.Operand | Calculator.Parser/Parsers/OperandParser.cs:15-36 | an operand is read only where, after blanks, an operand can start; it consumes text and the blanks after it, and builds a well-kinded tree |
| Grammar.OperandCore | Calculator.Parser/Parsers/OperandParser.cs:16-22 | the alternatives (number, constant, parenthesis, call, `if`, negation, array) are tried in order and commit only on a character one of them can start with |
| Grammar.Parenthesized | Calculator.Parser/Parsers/ParenthesizedParser.cs:16-20 | a parenthesised comparison, committed only at `(` |
| Grammar.Function | Calculator.Parser/Parsers/FunctionParser.cs:37-38 | a call with round brackets, else with square brackets; it commits only after a name |
| Grammar.FunctionName | Calculator.Parser/Parsers/FunctionParser.cs:14-17 | the name is one or more letters after optional blanks, and its position is where the blanks end |
| Grammar.Call | Calculator.Parser/Parsers/FunctionParser.cs:41-49 | the tree `FunctionEvaluator` builds for the call, or its exception; an unknown name throws with a map from the name to the call's position |
| Grammar.FunctionWith | Calculator.Parser/Parsers/FunctionParser.cs:13-34 | a call is a name, the opening bracket, arguments split at commas and the closing bracket; whatever gets past the name and is not an exception names a known function |
| Grammar.IfFunction | Calculator.Parser/Parsers/IfFunctionParser.cs:13-22 | `if(` in any case, a `bool` test, two branches and `)` build a conditional |
| Grammar.NegateOperand | Calculator.Parser/Parsers/NegateParser.cs:13-16 | `-` followed by a factor builds a scalar negation |
| Grammar.VectorOperand | Calculator.Parser/Parsers/VectorParser.cs:11-24 | `[`, comma-separated operands and `]` build an array |
| Grammar.OperandList | Calculator.Parser/Parsers/VectorParser.cs:20-24 | an array's elements are one or more operands split at commas |
| Grammar.OperandListRest | Calculator.Parser/Parsers/VectorParser.cs:20-24 | a comma not followed by an operand ends the list without error |
| Grammar.Factor | Calculator.Parser/Parsers/OperatorParser/FactorParser.cs:15-36 | the power level reads only where an operand can start |
| Grammar.PowerSign | Calculator.Parser/Parsers/OperatorParser/FactorParser.cs:17-27 | `^`, between optional blanks in the universal parser |
| Grammar.Power | Calculator.Parser/Parsers/OperatorParser/FactorParser.cs:19-35 | `^` builds exactly for two scalars, and builds a `Math.Pow` call |
| Grammar.FactorRest | Calculator.Parser/Parsers/OperatorParser/FactorParser.cs:15-36 | the power loop consumes forward only and keeps the tree well kinded |
| Grammar.TermSign | Calculator.Parser/Parsers/OperatorParser/TermParser.cs:17-31 | reads one of `* × ⋅ / ÷ %` |
| Grammar.Term | Calculator.Parser/Parsers/OperatorParser/TermParser.cs:27-34 | the multiplicative level reads only where an operand can start |
| Grammar.TermRest | Calculator.Parser/Parsers/OperatorParser/TermParser.cs:27-34 | the multiplicative loop consumes forward only and keeps the tree well kinded |
| Grammar.ExprSign | Calculator.Parser/Parsers/OperatorParser/ExprParser.cs:11-12 | reads `+` or `-` |
| Grammar.Expr | Calculator.Parser/Parsers/OperatorParser/ExprParser.cs:9-15 | the additive level reads only where an operand can start |
| Grammar.ExprRest | Calculator.Parser/Parsers/OperatorParser/ExprParser.cs:9-15 | the additive loop consumes forward only and keeps the tree well kinded |
| Grammar.ComparisonSign | Calculator.Parser/Parsers/OperatorParser/ComparisonExprParser.cs:12-17 | reads a comparison operator, two-character ones first |
| Grammar.Comparison | Calculator.Parser/Parsers/OperatorParser/ComparisonExprParser.cs:9-18 | the comparison level reads only where an operand can start |
| Grammar.ComparisonRest | Calculator.Parser/Parsers/OperatorParser/ComparisonExprParser.cs:9-63 | the comparison loop consumes forward only and keeps the tree well kinded |
| Grammar.ExprList | Calculator.Parser/Parsers/FunctionParser.cs:19-20 | a call's arguments are one or more expressions split at commas |
| Grammar.ExprListRest | Calculator.Parser/Parsers/FunctionParser.cs:19-20 | a comma not followed by an expression ends the list without error |
| GrammarProperties.UnknownFunctionThrows | Calculator.Parser/Parsers/FunctionParser.cs:41-49 | a well-formed call of an unknown name throws the unknown-function error at the call's position |
| GrammarProperties.OperandSkipsLeadingSpace | Calculator.Parser/Parsers/OperandParser.cs:28-36 | leading blanks do not change what an operand reads |
| GrammarProperties.EmptyArgumentsRejected | Calculator.Parser/Parsers/FunctionParser.cs:19-21 | a call with nothing between its brackets is not read as a call |
| GrammarProperties.EmptyCallRejected | Calculator.Parser/Parsers/FunctionParser.cs:13-38 | `f()` is not a call |
| GrammarProperties.NoOperand | Calculator.Parser/Parsers/OperatorParser/ExprParser.cs:9-15 | where no operand starts, none of the levels reads anything |
| GrammarProperties.BareNameNotACall | Calculator.Parser/Parsers/FunctionParser.cs:13-38 | a name with no bracket is neither a call nor an `if` |
| GrammarProperties.BareNameNotAnOperand | Calculator.Parser/Parsers/OperandParser.cs:28-36 | a name other than `e...` and `pi...` is no operand |
| GrammarProperties.LetterStartsNoOtherOperand | Calculator.Parser/Parsers/OperandParser.cs:29-35 | a letter other than the constants' starts no number, constant, parenthesis, negation or array |
| GrammarProperties.VariableNameRejected | Calculator.Parser/Parsers/OperandParser.cs:28-36 | a variable name left unsubstituted does not parse |
| GrammarProperties.UpperCasePiRejected | Calculator.Parser/Parsers/ConstantParser.cs:13 | `PI` is not the constant: `pi` is matched case-sensitively |
| OperatorPrecedence.TermSign | Calculator.Parser/Parsers/OperatorParser.cs:26-27 | the standalone grammar's `*` level reads `* × ⋅ / ÷` and no `%`, with no blanks |
| OperatorPrecedence.Divided | Calculator.Parser/Parsers/OperatorParser.cs:29-39 | a division by the literal constant 0 throws the division-by-zero message; otherwise the native operator, for two scalars only |
| OperatorPrecedence.Term | Calculator.Parser/Parsers/OperatorParser.cs:24-40 | the standalone `*` level consumes text and builds a well-kinded tree |
| OperatorPrecedence.TermRest | Calculator.Parser/Parsers/OperatorParser.cs:24-40 | its loop consumes forward only |
| OperatorPrecedence.ExprSign | Calculator.Parser/Parsers/OperatorParser.cs:47-48 | reads `+` or `-`, with no blanks |
| OperatorPrecedence.Expr | Calculator.Parser/Parsers/OperatorParser.cs:45-51 | the standalone `+` level consumes text and builds a well-kinded tree |
| OperatorPrecedence.ExprRest | Calculator.Parser/Parsers/OperatorParser.cs:45-51 | its loop consumes forward only |
| OperatorPrecedence.ComparisonExpr | Calculator.Parser/Parsers/OperatorParser.cs:56-72 | the standalone comparison level consumes text and builds a well-kinded tree |
| OperatorPrecedence.ComparisonRest | Calculator.Parser/Parsers/OperatorParser.cs:56-66 | its loop consumes forward only |
| OperatorPrecedence.LiteralZeroDivisorThrows | Calculator.Parser/Parsers/OperatorParser.cs:32-35 | a factor divided by a literal 0 throws at every level above |
| OperatorPrecedence.RemainderNotRead | Calculator.Parser/Parsers/OperatorParser.cs:26-27 | `%` is not an operator of the standalone grammar: reading stops before it |
| ExampleTrees.SumValue | Calculator.Parser.Tests/ExpressionEvaluation/BasicExpressionTests.cs:15 | the tree of `2 + 3 * 4` runs to 14 |
| ExampleTrees.DifferenceValue | Calculator.Parser/Parsers/OperatorParser/ExprParser.cs:46-56 | the scalar-first call built for `[5] - 1` runs to `[-4]` |
| ParseExamples.WholeInput | Calculator.Parser/Calculator/Syntax.cs:12-14 | an input the additive level reads to its end, with a non-`bool` tree, is that tree |
| ParseExamples.TrailingText | Calculator.Parser/Calculator/Syntax.cs:13 | text left after the additive level fails the whole parse |
| ParseExamples.PowerGroupsLeft | Calculator.Parser/Parsers/OperatorParser/FactorParser.cs:25-36 | `2^3^2` is `(2^3)^2` |
| ParseExamples.NegationTakesPower | Calculator.Parser/Parsers/NegateParser.cs:13-16 | `-2^2` is `-(2^2)`: negation takes a whole factor |
| ParseExamples.ProductBindsTighter | Calculator.Parser.Tests/ExpressionEvaluation/BasicExpressionTests.cs:15 | `2 + 3 * 4` is `2 + (3 * 4)` and runs to 14 |
| ParseExamples.ArrayMinusNumber | Calculator.Parser/Parsers/OperatorParser/ExprParser.cs:46-56 | `[5] - 1` is parsed as the scalar-first call with 1 and `[5]` |
| ParseExamples.FiveBeforeComparison | Calculator.Parser/Parsers/OperatorParser/ExprParser.cs:9-15 | in `5 > 3` the additive level stops after `5 ` |
| ParseExamples.BareComparisonRejected | Calculator.Parser/Calculator/Syntax.cs:13 | `5 > 3` does not parse: comparisons are read only inside `if` and brackets |
| ParseExamples.ZeroDivisorRefused | Calculator.Parser/Parsers/OperatorParser.cs:32-35 | the standalone grammar throws on `1/0` |
| ParseExamples.ZeroDivisorRead | Calculator.Parser/Parsers/OperatorParser/TermParser.cs:50-55 | the universal grammar builds `1/0` as a plain scalar division |
| ParseExamples.RemainderStopsAfterFive | Calculator.Parser/Parsers/OperatorParser.cs:24-27 | the standalone grammar reads only `5` of `5%2` |
| CalculationController.Translated | Calculator.WPF/Services/Calculation/CalculationController.cs:90-93 | any other exception becomes a `CalculatorException` at position 0 whose message is the prefix followed by the original message |
| CalculationController.CalculationController.constructor | Calculator.WPF/Services/Calculation/CalculationController.cs:22-32 | the controller keeps the validator it is given |
| CalculationController.CalculationController.GetVariables | Calculator.WPF/Services/Calculation/CalculationController.cs:37-38 | the extractor's names for the text as typed |
| CalculationController.CalculationController.GetVariablesWithPositions | Calculator.WPF/Services/Calculation/CalculationController.cs:43-44 | the extractor's positions for the text as typed |
| CalculationController.CalculationController.ValidateExpression | Calculator.WPF/Services/Calculation/CalculationController.cs:49-52 | the validators' verdict on the text |
| CalculationController.CalculationController.Calculate | Calculator.WPF/Services/Calculation/CalculationController.cs:61-94 | the result or error of substituting, validating the substituted text, parsing and running, as `Calculated` states it |
| CalculationController.ResultIsTheValue | Calculator.WPF/Services/Calculation/CalculationController.cs:79-84 | a result is the value of the parsed substituted text: a scalar as a one-element array, an array as it is |
| CalculationController.SucceedsExactlyWhenStagesDo | Calculator.WPF/Services/Calculation/CalculationController.cs:66-84 | a result comes exactly when substitution, every validator, the parse and the run all succeed; the wrong-type branch is never taken |
| CalculationController.FailuresReported | Calculator.WPF/Services/Calculation/CalculationController.cs:86-93 | a `CalculatorException` from the validators or the parser is passed on as it is; every other failure is reported at position 0 behind the prefix |
| CalculationController.RunFailureHidden | Calculator.WPF/Services/Calculation/CalculationController.cs:76-93 | as written, a failure while running is reported with the invocation wrapper's message, never its own |
| CalculationController.CalculatedUnwrapped | Calculator.WPF/Services/Calculation/CalculationController.cs:90-93 | the corrected report differs from `Calculated` only for failures while running |
| CalculationController.RunFailureReported | Calculator.WPF/Services/Calculation/CalculationController.cs:76-93 | corrected, a failure while running is reported at position 0 with its own message behind the prefix |
| Scanning.RunEnd | Calculator.Parser/Parsers/FunctionParser.cs:14 | a run of characters with a property is maximal: everything in it has the property and the character after it does not |
| Scanning.RunEndIsMaximal | Calculator.Parser/Parsers/FunctionParser.cs:14 | no run of such characters from the same start extends past it |
| Scanning.SkipWhiteSpace | Calculator.Parser/Parsers/OperandParser.cs:23 | Sprache's whitespace skipping stops at the first non-blank |
| Scanning.SkipWhiteSpaceIsMaximal | Calculator.Parser/Parsers/OperandParser.cs:23 | every blank run from the start ends within the skipped run |
| Scanning.TokenChar | Calculator.Parser/Parsers/FunctionParser.cs:18-20 | `Parse.Char(c).Token()` succeeds exactly when `c` follows the blanks, and then also skips the blanks after it |
| Scanning.CallMatchAt | Calculator.WPF/Models/Validators/Validators/CommasValidator.cs:55 | a call match at a point has, in order, its name, its opening bracket and its closer, all inside the text |
| Scanning.CallMatches | Calculator.WPF/Models/Validators/Validators/CommasValidator.cs:56 | every match in the list lies at or after the search start, within the text |
| Scanning.CallMatchFirst | Calculator.WPF/Models/Validators/Validators/CommasValidator.cs:56 | the search resumes after a match's closer |
| Text.Split | Calculator.WPF/Models/Substitutors/VariableSubstitutor.cs:71 | `Split(',')` gives at least one piece, none holding the separator |
| Text.JoinSplit | Calculator.WPF/Models/Substitutors/VariableSubstitutor.cs:71 | joining the pieces with the separator gives back the text |
| Text.LowerIdempotent | Calculator.WPF/Models/Validators/Core/BaseValidator.cs:15 | lower-casing twice is lower-casing once |
| Text.NatToString | Calculator.WPF/Models/Validators/Core/BaseValidator.cs:32 | a number's decimal text is digits with no leading zero |
| Expressions.MapAll | Calculator.Parser/Calculator/FunctionEvaluator.cs:109-136 | the unary loop keeps the array's length |
| Expressions.ZipShorter | Calculator.Parser/Calculator/FunctionEvaluator.cs:152 | the element-wise loop runs to the shorter of the two lengths |
| Expressions.Broadcast | Calculator.Parser/Calculator/FunctionEvaluator.cs:179-208 | the scalar loop keeps the array's length |
| VectorOperations.FactorialPositive | Calculator.Parser/Parsers/OperatorParser/VectorOperations.cs:257-265 | every factorial is at least 1 |
| NumberParser.SeparatedDigitsEnd | Calculator.Parser/Parsers/NumberParser.cs:21 | digits, a point or comma, and digits are matched as one whole literal |
| NumberParser.WholeLiteral | Calculator.Parser/Parsers/NumberParser.cs:21-24 | a literal spanning its text reads as the decimal value of the text with its comma made a point |
| VariableExtractor.QuotedAt | Calculator.WPF/Models/Extractors/VariableExtractor.cs:20 | a quoted match starts and ends with a quote |
| VariableExtractor.QuoteCloseMeaning | Calculator.WPF/Models/Extractors/VariableExtractor.cs:20 | the walk that finds the closing quote gives the longest match of the quoted pattern, and none only when no quote follows |
| VariableExtractor.AddAllFrom | Calculator.WPF/Models/Extractors/VariableExtractor.cs:58-116 | every entry afterwards was there before or was offered |
| VariableExtractor.QuotedPositionsLocate | Calculator.WPF/Models/Extractors/VariableExtractor.cs:87-99 | each quoted entry's position and length locate its name in the input |
| VariableExtractor.UnquotedPositionsLocate | Calculator.WPF/Models/Extractors/VariableExtractor.cs:104-116 | each unquoted entry's position and length locate its name in the input |
| VariableExtractor.OneQuotedBody | Calculator.WPF/Models/Extractors/VariableExtractor.cs:58-99 | one quoted span with a non-empty body gives that body as the only name, placed after the opening quote |
| VariableSubstitutor.Formatted | Calculator.WPF/Models/Substitutors/VariableSubstitutor.cs:110 | each element is written with the invariant-culture number text, in order |
| VariableSubstitutor.CallAcceptedWithOneLength | Calculator.WPF/Models/Substitutors/VariableSubstitutor.cs:76-87 | no call is rejected when every bound array has the same length |
| VariableSubstitutor.ReplaceWordCopies | Calculator.WPF/Models/Substitutors/VariableSubstitutor.cs:101 | text before the first whole-word occurrence is copied unchanged |
| Precedence.Combine | Calculator.Parser/Parsers/OperatorParser/ExprParser.cs:14 | a level's combine function keeps trees well kinded |
| Precedence.Fold | Calculator.Parser/Parsers/OperatorParser/ExprParser.cs:9-15 | the left fold of well-kinded pairs is well kinded |
| Precedence.RestStops | Calculator.Parser/Parsers/OperatorParser/ExprParser.cs:9-15 | where no operator-operand pair follows, the loop stops with the tree so far |
| Precedence.RestStep | Calculator.Parser/Parsers/OperatorParser/ExprParser.cs:9-15 | one turn of the loop combines the tree so far with the next operand, or stops on the combine's exception |

## Left out

- The WPF window, the application start-up and the input processor that reads variable values from text boxes are not part of this model. `ParserExtensions` has no caller in the core and is not modelled either. `LogicalExprParser.LogicalExpr` is modelled as the comparison level, which is all it is.
- `double` is modelled as `real`: rounding, NaN and the infinities are not modelled. `Math.Sqrt`, `Sin`, `Cos`, `Pow`, `Log`, `double` remainder and scalar division by zero are the fields of a `MathLib` parameter. `Magnitude` and `Normalize` use its square root.
- Number text is a `NumberText` parameter: `double.TryParse` under the current culture, `double.Parse` and `ToString` under the invariant culture. Where the source converts a literal itself (`NumberParser`), the conversion is modelled exactly.
- Sprache's failure description of a text and the message of each exception a LINQ factory method throws are parameters of `CalculationController`. Only their presence is modelled, not their wording.
- Sprache, LINQ expression construction, reflection lookups, `Compile` and `DynamicInvoke` are modelled by a typed tree datatype, kind-dispatch functions and an evaluator. The evaluator is the compiled delegate.
- `FunctionEvaluator`'s dictionary, which its constructor fills, is a constant table searched by lower-case key.
- `Dictionary` and `HashSet` are modelled as sequences in insertion order. .NET does not promise that order, but it holds for tables that are only added to.
- Text.IsDigit, Text.IsLetter, Text.IsWordChar, Text.ToLower, Text.Lower, Text.EqualsIgnoreCase: these cover only ASCII and the Cyrillic block. In .NET, `\d`, `char.IsDigit`, `char.IsLetter`, Sprache's `Parse.Letter`, `\w`, `\b` and `OrdinalIgnoreCase` are Unicode-wide. So a letter such as `é` or a Greek letter is a letter and a word character in the source but not in the model. A non-ASCII decimal digit matches `\d` in the source and then fails `double.TryParse`; in the model it does not match at all.
- VectorOperations.Fact, VectorOperations.FactLoop, VectorOperations.FactAll: the `(int)x` cast and the 32-bit loop counter of `Fact` (VectorOperations.cs:262) are not modelled; the product is exact over unbounded integers. For an argument above `int.MaxValue` the source's cast and counter overflow.
- FunctionEvaluator.HandleIf: an array condition is modelled as the code builds it, as the array's first `double`, which `Expression.Condition` refuses. So an `if` with an array condition is never built. Whether a number was meant to act as a truth value is not stated in the source, so no corrected version is modelled.
- VariablesValidator.ValidateAsWritten, MissingOperandsValidator.Validate: these report positions in the text they rewrite. That is the sanitized text with `"QUOTED"` markers for Variables, and the text with calls and literals replaced for MissingOperands. `CalculationController.Calculate` likewise reports validator positions in the substituted text, not the typed one. The source does not say whether positions should refer to the typed text. The pipeline uses the positions as written. For Variables, the positions mapped back to the typed text are modelled beside them (`VariablesValidator.Validate`, using `VariablesValidator.Origins`).
- BaseValidator.ReportError, VariableExtractor.ExtractVariablesWithPositions, FunctionEvaluator.GetFunctionExpression, Grammar.FunctionName: positions and lengths count Dafny characters, which are Unicode scalar values. .NET's `Match.Index`, `Group.Index`, `IndexOf` and `Length` count UTF-16 code units. So every character outside the Basic Multilingual Plane before a point makes the source's position one larger than the model's, in every validator's reported position and in the extractor's positions and lengths. In `"😀" + x` the source places `x` at 7 and gives the quoted name length 2; the model says 6 and 1.

## Findings

| source | as written | input that shows it | evidently intended | confidence | as-written member | corrected member |
|---|---|---|---|---|---|---|
| Calculator.WPF/Models/Validators/Validators/CommasValidator.cs:59 | the argument offset is `match.Index + match.Groups[2].Index`, but `Group.Index` is already an index into the whole input, so the match start is counted twice | `x + max(1,,2)`: the double comma is reported at position 14, past the end of the 13-character input | the position of the offending comma, 10 | not executed | CommasValidator.AsWrittenPositionPastInput | CommasValidator.ReportedPositionIsComma |
| Calculator.WPF/Models/Validators/Validators/FunctionArgumentsValidator.cs:25 | the same double count: `match.Index + match.Groups["args"].Index` | `1 + max(a = 1, 2)`: the lone `=` is reported at position 15, which is a blank | the position of the `=`, 11 | not executed | FunctionArgumentsValidator.AsWrittenPositionShifted | FunctionArgumentsValidator.ErrorAtEquals |
| Calculator.Parser/Parsers/OperatorParser/ExprParser.cs:46-56 | a mixed `+`/`-` always calls the (scalar, array) overload, whichever operand came first | `[5] - 1` evaluates to `[-4]` | `[4]`: each element minus the scalar, as `*`, `/` and `%` keep their operand order | not executed | Operators.VectorMinusScalarReversed | Operators.VectorMinusScalarInOrder |
| Calculator.WPF/Services/Calculation/CalculationController.cs:76-93 | `DynamicInvoke` wraps whatever the running expression throws in a `TargetInvocationException`, and the second `catch` reports that wrapper's message | `[1, 2] / (1 - 1)`: the report is "Ошибка: Exception has been thrown by the target of an invocation." | the library's own message, "Ошибка: Невозможно делить на ноль." | not executed | CalculationController.RunFailureHidden | CalculationController.RunFailureReported |

The pipeline (`ExpressionValidator.Run`, `CalculationController.Calculated`,
`Operators.HandleOperation`) keeps the behaviour as written. Each corrected
member is modelled and proved beside it.
