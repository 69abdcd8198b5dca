# Large-number addition with optional thousands separators

This project models `Solution.addLargeNumbers` and its helper `addCommasToNumber`
from `Comprehencive_AWS_Documents/SolutionWithDesc.java`. The two methods add two
non-negative integers given as decimal digit strings of any length. Either operand may
carry commas as thousands separators. The code:

1. sets a flag when either operand contains a comma;
2. removes every comma from both operands;
3. adds the operands from the right, one digit column per iteration, with a carry;
4. reverses the collected digits;
5. when the flag is set, inserts a comma every three digits counting from the right.

The model has three modules:

- `Digits` (`digits.dfy`) covers digit characters and the number a digit string denotes.
  `Value` reads a string most significant digit first. `Decimal(n, w)` is the reference
  representation of `n`: its decimal digits, padded with zeros on the left to at least
  `w` characters. `Decimal(0, 0)` is the empty string, not `"0"`: this is what makes
  the sum of two empty operands empty, as in the code. Lemmas show that `Decimal` denotes `n`, give its length, and show that
  it is the only such string (`DecimalOfValue`).
- `Commas` (`commas.dfy`) covers comma removal (`String.replace(",", "")`). `Group` is
  the specification of comma insertion: it recurses on the string without its last
  three characters. The module also defines `WellGrouped`, the grouping shape on its
  own terms, and proves what grouping does and that it round-trips.
- `Solution` (`solution.dfy`) holds the Java methods as imperative methods with their
  loops. `AddDigits` is the carry loop together with the reversal. `AddCommasToNumber`
  is the insertion loop. `AddLargeNumbers` is the whole method.
  - Each method is proved equal to a specification function. `SumDigits(a, b)` is
    `Decimal(Value(a) + Value(b), max(|a|, |b|))`. `SumString` is `SumDigits` of the
    comma-free operands, grouped when the flag is set. `Group` specifies the insertion.
  - Lemmas state what those functions promise: the value of the sum, its length, when
    commas appear, well-formed grouping, commutativity, and adding `"0"`.
  - The `StringBuilder` values are local strings. `reverse()` is the function `Reverse`.

`MainCases` (`main_cases.dfy`) proves the six calls in `main` and the results that its
comments expect. `EdgeCases` (`edge_cases.dfy`) proves three more calls that show the
behaviour noted below.

Operands must consist of digits once their commas are removed.

## Behaviour to note

- The code validates nothing. An empty operand adds as 0, and `"" + ""` gives `""`
  (`EdgeCases.EmptyOperands`). The model accepts empty operands and does not define
  operands with other characters.
- The code keeps the operands' zero padding: `"007" + "1"` gives `"008"`
  (`EdgeCases.PaddingKept`). `SumDigits` pads to the longer operand, and
  `SumStringZero` shows that padding is preserved for every numeral.
- A flagged sum of at most three digits gets no comma, even though an operand had one:
  `"1,2" + "3"` gives `"15"` (`EdgeCases.ShortFlaggedSum`). `SumStringCommas` states
  the general rule.

## Model

| member | source | states |
|---|---|---|
| Digits.DigitVal | Comprehencive_AWS_Documents/SolutionWithDesc.java:41-42 | `c - '0'` on a digit character is a number from 0 to 9 |
| Digits.DigitChar | Comprehencive_AWS_Documents/SolutionWithDesc.java:46 | `append(sum % 10)` writes a digit character that reads back as the appended value |
| Digits.DigitRoundTrip | Comprehencive_AWS_Documents/SolutionWithDesc.java:41-46 | reading a digit and writing its value gives back the same character |
| Digits.Value | Comprehencive_AWS_Documents/SolutionWithDesc.java:38-52 | the number an n-digit string denotes is below 10^n |
| Digits.ValuePrepend | Comprehencive_AWS_Documents/SolutionWithDesc.java:38-52 | a leading digit d adds d * 10^(length of the rest) to the value |
| Digits.ValueConcat | Comprehencive_AWS_Documents/SolutionWithDesc.java:38-52 | the value of x + y is value(x) * 10^\|y\| + value(y): positional value, used to work out the values of the `main` examples group by group |
| Digits.Decimal | Comprehencive_AWS_Documents/SolutionWithDesc.java:53-56 | the reference representation of a number is a digit string |
| Digits.DecimalValue | Comprehencive_AWS_Documents/SolutionWithDesc.java:53-56 | the reference representation of n, at any padding, denotes n |
| Digits.DecimalFits | Comprehencive_AWS_Documents/SolutionWithDesc.java:38-52 | a number below 10^w takes exactly w digits |
| Digits.DecimalOverflows | Comprehencive_AWS_Documents/SolutionWithDesc.java:38-52 | a number from 10^w up to 2 * 10^w takes w + 1 digits, and the leading digit is 1 |
| Digits.DecimalShape | Comprehencive_AWS_Documents/SolutionWithDesc.java:38-56 | a number below 2 * 10^w takes w digits, or w + 1 exactly when it reaches 10^w, and then its leading digit is 1 |
| Digits.DecimalOfValue | Comprehencive_AWS_Documents/SolutionWithDesc.java:53-56 | a digit string of at least w characters, with no leading zero beyond position w, is the reference representation of its own value (uniqueness) |
| Commas.RemoveCommas | Comprehencive_AWS_Documents/SolutionWithDesc.java:27-28 | the cleaned string has no comma, is no longer than the input, and equals the input when the input has no comma |
| Commas.RemoveCommasAppend | Comprehencive_AWS_Documents/SolutionWithDesc.java:27-28 | comma removal distributes over concatenation |
| Commas.Group | Comprehencive_AWS_Documents/SolutionWithDesc.java:69-76 | grouping never shortens a string |
| Commas.GroupRemoveCommas | Comprehencive_AWS_Documents/SolutionWithDesc.java:69-76 | formatting only adds commas: removing them from a grouped comma-free string gives the string back |
| Commas.GroupCommaCount | Comprehencive_AWS_Documents/SolutionWithDesc.java:72-74 | grouping a non-empty n-character string inserts exactly (n - 1) / 3 commas. It inserts a comma if and only if n > 3, and a string of at most 3 characters comes back unchanged |
| Commas.GroupCommaPositions | Comprehencive_AWS_Documents/SolutionWithDesc.java:72-74 | position k of the grouped string holds a comma if and only if k > 0 and k is a multiple of four places from the end. The grouped length is never a multiple of four |
| Commas.GroupWellGrouped | Comprehencive_AWS_Documents/SolutionWithDesc.java:72-74 | grouped output is well grouped: no comma first or last, every comma followed by exactly three non-commas and then the end or another comma, and a leading group of one to three characters |
| Commas.GroupRoundTrip | Comprehencive_AWS_Documents/SolutionWithDesc.java:27-28 | stripping the commas of any well-grouped numeral and grouping again reproduces it exactly |
| Solution.Reverse | Comprehencive_AWS_Documents/SolutionWithDesc.java:56 | `reverse()` keeps the length and puts the character from position \|s\| - 1 - k at position k |
| Solution.ReverseAllDigits | Comprehencive_AWS_Documents/SolutionWithDesc.java:56 | reversal keeps a digit string a digit string |
| Solution.CollectedValueReverse | Comprehencive_AWS_Documents/SolutionWithDesc.java:46-56 | reversing the digits collected least significant first gives a numeral with the same value |
| Solution.ReverseAppend | Comprehencive_AWS_Documents/SolutionWithDesc.java:46-56 | reversing after one more `append(c)` puts `c` in front of the reversed digits collected before |
| Solution.DigitAt | Comprehencive_AWS_Documents/SolutionWithDesc.java:41-42 | the digit read in a column is 0 to 9, and 0 once the pointer has run past the front |
| Solution.LowValueSuffix | Comprehencive_AWS_Documents/SolutionWithDesc.java:41-42 | after k columns inside an operand, the digits the loop has read are worth exactly its last k digits as a numeral |
| Solution.LowValueAll | Comprehencive_AWS_Documents/SolutionWithDesc.java:38-42 | once the pointer has run past the front, the digits read are worth the whole operand |
| Solution.ColumnDigit | Comprehencive_AWS_Documents/SolutionWithDesc.java:41-42 | `(i >= 0) ? charAt(i) - '0' : 0` with i = \|s\| - 1 - k reads the digit of weight 10^k, or 0 past the front |
| Solution.ColumnSum | Comprehencive_AWS_Documents/SolutionWithDesc.java:44-48 | two digits and a carry of 0 or 1 sum to at most 19, so `sum % 10` is a digit, `sum / 10` is 0 or 1, and together they give back `sum` |
| Solution.CollectedAppend | Comprehencive_AWS_Documents/SolutionWithDesc.java:46 | `append(d)` adds d at the next weight to the value of the digits collected so far |
| Solution.CarryArithmetic | Comprehencive_AWS_Documents/SolutionWithDesc.java:44-48 | with `sum % 10` written and `sum / 10` carried, the written digit plus the outgoing carry, less the incoming carry, accounts for both column digits |
| Solution.CarryStep | Comprehencive_AWS_Documents/SolutionWithDesc.java:38-52 | each iteration's `sum` is between 0 and 19. The carry stays 0 or 1, and the loop invariant is kept: the collected digits plus carry * 10^k equal the sum of the operands' low k digits |
| Solution.CarryLoopStep | Comprehencive_AWS_Documents/SolutionWithDesc.java:38-52 | an iteration keeps the loop invariant, and an iteration past the longer operand runs only for a carry of 1, writes the digit 1 and leaves no carry |
| Solution.CarryLoopValue | Comprehencive_AWS_Documents/SolutionWithDesc.java:38-56 | when the loop stops, the reversed digits denote the sum of the operands, and an extra digit beyond the longer operand is 1 |
| Solution.CarryLoopResult | Comprehencive_AWS_Documents/SolutionWithDesc.java:38-56 | once the loop condition fails, the collected digits, reversed, are exactly the ungrouped sum `SumDigits` |
| Solution.SumDigitsUnique | Comprehencive_AWS_Documents/SolutionWithDesc.java:53-56 | a digit string with the sum's value, of length max(len1, len2), or max + 1 with a leading 1, is the ungrouped sum |
| Solution.AddDigits | Comprehencive_AWS_Documents/SolutionWithDesc.java:32-56 | the carry loop and the reversal return the ungrouped sum `SumDigits` of the cleaned operands |
| Solution.AddCommasToNumber | Comprehencive_AWS_Documents/SolutionWithDesc.java:69-76 | the insertion loop returns `Group` of its input |
| Solution.AddLargeNumbers | Comprehencive_AWS_Documents/SolutionWithDesc.java:19-63 | the method returns `SumString`: the ungrouped sum of the comma-free operands, grouped exactly when an operand contains a comma |
| Solution.SumDigitsShape | Comprehencive_AWS_Documents/SolutionWithDesc.java:38-56 | the ungrouped sum denotes value(a) + value(b). Its length is max(len1, len2), or max + 1 if and only if the sum reaches 10^max, and then its first digit is '1' |
| Solution.SumStringValue | Comprehencive_AWS_Documents/SolutionWithDesc.java:19-63 | removing the commas from the result gives the ungrouped sum, so the result's digits denote the sum of the operands' digits |
| Solution.SumStringCommas | Comprehencive_AWS_Documents/SolutionWithDesc.java:59-62 | the result contains a comma if and only if an operand does and the ungrouped sum has more than 3 digits. It then has (n - 1) / 3 commas. Without a comma in either operand, the ungrouped sum is returned unchanged |
| Solution.SumStringWellGrouped | Comprehencive_AWS_Documents/SolutionWithDesc.java:59-62 | when an operand has a comma, the result is well grouped |
| Solution.SumStringCommutes | Comprehencive_AWS_Documents/SolutionWithDesc.java:23-52 | `addLargeNumbers(a, b) == addLargeNumbers(b, a)` |
| Solution.SumStringZero | Comprehencive_AWS_Documents/SolutionWithDesc.java:38-62 | adding "0" to a non-empty numeral returns it unchanged: its zero padding is kept, and so are its commas when it is well grouped |
| MainCases.MainCase1 | Comprehencive_AWS_Documents/SolutionWithDesc.java:84 | `addLargeNumbers("1,200", "1,500")` is "2,700" |
| MainCases.MainCase2 | Comprehencive_AWS_Documents/SolutionWithDesc.java:86 | `addLargeNumbers("999", "1")` is "1000" |
| MainCases.MainCase3 | Comprehencive_AWS_Documents/SolutionWithDesc.java:87-88 | `addLargeNumbers("1234567890123456789", "9876543210987654321")` is "11111111101111111110" |
| MainCases.MainCase4 | Comprehencive_AWS_Documents/SolutionWithDesc.java:89-90 | `addLargeNumbers("999,999,999", "1")` is "1,000,000,000" |
| MainCases.MainCase5 | Comprehencive_AWS_Documents/SolutionWithDesc.java:91-92 | `addLargeNumbers("1,234,567,890", "9,876,543,210")` is "11,111,111,100" |
| MainCases.MainCase6 | Comprehencive_AWS_Documents/SolutionWithDesc.java:93 | `addLargeNumbers("100", "200")` is "300" |
| EdgeCases.EmptyOperands | Comprehencive_AWS_Documents/SolutionWithDesc.java:27-56 | `addLargeNumbers("", "")` is "": with nothing to read and no carry the loop never runs |
| EdgeCases.PaddingKept | Comprehencive_AWS_Documents/SolutionWithDesc.java:38-56 | `addLargeNumbers("007", "1")` is "008": the loop runs once per column of the longer operand and keeps its zeros |
| EdgeCases.ShortFlaggedSum | Comprehencive_AWS_Documents/SolutionWithDesc.java:59-62 | `addLargeNumbers("1,2", "3")` is "15": the flag is set, but `addCommasToNumber` inserts nothing into two digits |

## Left out

- `main` prints to the console (lines 82-94). Only its calls and their expected results are kept, as the `MainCases` lemmas.
- Operands with characters other than digits and commas are not modelled. The code does not reject them: `charAt(i) - '0'` then gives an arbitrary `int`, and `append(sum % 10)` can write a minus sign or several characters. Every member requires digit-only operands once the commas are removed.
- Java `int` width is not modelled. The indices `i` and `j` are bounded by string lengths, which are below 2^31, and `CarryStep` shows that `sum` never exceeds 19. So no arithmetic in the loop can overflow.
- `StringBuilder`, `String.replace`, `String.contains` and `StringBuilder.insert` are modelled as sequence operations: a local string, a recursive filter, membership, and slice-and-concatenate. Their buffer growth and copying are not modelled.
- The AWS CDK stacks (`SnowFlakeCdkApp.java`, `EcrStack.java`, `VPCStack.java`) and the Spring endpoint `ProductsController.java` are not part of this model. They only declare infrastructure or return a constant string, and have no behaviour to compute.
- The carry loop (lines 32-56) is the separate method `Solution.AddDigits`, which `AddLargeNumbers` calls. In the source it runs inline.
