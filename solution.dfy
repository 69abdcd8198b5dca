/** `Solution.addLargeNumbers`: the sum of two non-negative decimal numerals of any
    length, with optional thousands separators, and its helper `addCommasToNumber`. */
module Solution {
  import opened Digits
  import opened Commas

  function Max(x: nat, y: nat): nat {
    if x >= y then x else y
  }

  /** `StringBuilder.reverse()`: the same characters in the opposite order. */
  function Reverse(s: string): (r: string)
    ensures |r| == |s|
    ensures forall k :: 0 <= k < |s| ==> r[k] == s[|s| - 1 - k]
  {
    seq(|s|, k requires 0 <= k < |s| => s[|s| - 1 - k])
  }

  /** Reversing after one more append puts the new character in front. */
  lemma {:induction false} ReverseAppend(s: string, c: char)
    ensures Reverse(s + [c]) == [c] + Reverse(s)
  {
    assert (s + [c])[..|s|] == s;
  }

  /** Reversal keeps a digit string a digit string. */
  lemma {:induction false} ReverseAllDigits(s: string)
    requires AllDigits(s)
    ensures AllDigits(Reverse(s))
  {
    forall x | 0 <= x < |s|
      ensures IsDigit(Reverse(s)[x])
    {
      assert Reverse(s)[x] == s[|s| - 1 - x];
    }
  }

  /** The digit of operand `s` at weight 10^k, zero once `k` passes its length: what
      `(i >= 0) ? s.charAt(i) - '0' : 0` reads when `i` is `|s| - 1 - k`. */
  function DigitAt(s: string, k: nat): (d: nat)
    requires AllDigits(s)
    ensures d <= 9
    ensures k >= |s| ==> d == 0
  {
    if k < |s| then DigitVal(s[|s| - 1 - k]) else 0
  }

  /** The value of the digits of operand `s` that the carry loop has consumed after
      `k` steps: the digit of each column below k at its weight. */
  function LowValue(s: string, k: nat): nat
    requires AllDigits(s)
  {
    if k == 0 then 0 else DigitAt(s, k - 1) * Pow10(k - 1) + LowValue(s, k - 1)
  }

  /** While the loop is inside the operand, the consumed columns are its last k digits. */
  lemma {:induction false} LowValueSuffix(s: string, k: nat)
    requires AllDigits(s) && k <= |s|
    ensures AllDigits(s[|s| - k..]) && LowValue(s, k) == Value(s[|s| - k..])
  {
    if k == 0 {
      assert s[|s|..] == [];
    } else {
      var c, t := s[|s| - k], s[|s| - k + 1..];
      LowValueSuffix(s, k - 1);
      assert s[|s| - k..] == [c] + t;
      ValuePrepend(c, t);
    }
  }

  /** Once the loop has passed the front of the operand, it has consumed all of it. */
  lemma {:induction false} LowValueAll(s: string, k: nat)
    requires AllDigits(s) && |s| <= k
    ensures LowValue(s, k) == Value(s)
  {
    if k == |s| {
      LowValueSuffix(s, k);
      assert s[|s| - k..] == s;
    } else {
      LowValueAll(s, k - 1);
    }
  }

  /** The value of the digits collected so far, least significant first, as the carry
      loop appends them. */
  function CollectedValue(c: string): nat
    requires AllDigits(c)
  {
    if c == [] then 0 else CollectedValue(c[..|c| - 1]) + DigitVal(c[|c| - 1]) * Pow10(|c| - 1)
  }

  /** `append(d)` adds d at the next weight. */
  lemma {:induction false} CollectedAppend(c: string, d: char)
    requires AllDigits(c) && IsDigit(d)
    ensures AllDigits(c + [d])
    ensures CollectedValue(c + [d]) == CollectedValue(c) + DigitVal(d) * Pow10(|c|)
  {
    assert (c + [d])[..|c|] == c;
  }

  /** `reverse()` turns the collected digits into a most-significant-first numeral with
      the same value. */
  lemma {:induction false} CollectedValueReverse(c: string)
    requires AllDigits(c)
    ensures AllDigits(Reverse(c)) && Value(Reverse(c)) == CollectedValue(c)
    decreases |c|
  {
    ReverseAllDigits(c);
    if c != [] {
      var init, last := c[..|c| - 1], c[|c| - 1];
      assert c == init + [last];
      CollectedValueReverse(init);
      ReverseAppend(init, last);
      ValuePrepend(last, Reverse(init));
    }
  }

  /** The arithmetic of one loop step: the digit written at weight p = 10^k plus the
      carry passed on at weight 10^(k+1), less the carry taken in at weight p, account
      for both operand digits at weight p. */
  lemma {:induction false} CarryArithmetic(d1: int, d2: int, carryIn: int, carryOut: int, digit: int, p: int)
    requires carryIn == 0 || carryIn == 1
    requires carryOut == 0 || carryOut == 1
    requires digit + 10 * carryOut == d1 + d2 + carryIn
    ensures digit * p + (if carryOut == 1 then 10 * p else 0) - (if carryIn == 1 then p else 0)
            == d1 * p + d2 * p
  {
    assert digit * p + carryOut * (10 * p) - carryIn * p == (d1 + d2) * p;
  }

  /** A column adds two digits and a carry of 0 or 1: at most 19, so `sum % 10` is
      the digit written and `sum / 10` the carry of 0 or 1 passed on. */
  lemma {:induction false} ColumnSum(d1: int, d2: int, carry: int, sum: int)
    requires 0 <= d1 <= 9 && 0 <= d2 <= 9 && (carry == 0 || carry == 1)
    requires sum == d1 + d2 + carry
    ensures 0 <= sum <= 19 && 0 <= sum % 10 <= 9
    ensures sum / 10 == 0 || sum / 10 == 1
    ensures sum % 10 + 10 * (sum / 10) == sum
  {
  }

  /** The bookkeeping of one loop step in plain sums: the old balance, the new digit in
      front of the collected ones, and one more digit of each operand give the new
      balance. */
  lemma {:induction false} Rebalance(collectedBefore: int, collectedAfter: int, lowA: int, lowA': int,
                                     lowB: int, lowB': int, weightedA: int, weightedB: int,
                                     weightedDigit: int, carryIn: int, carryOut: int)
    requires collectedBefore + carryIn == lowA + lowB
    requires collectedAfter == weightedDigit + collectedBefore
    requires lowA' == weightedA + lowA && lowB' == weightedB + lowB
    requires weightedDigit + carryOut - carryIn == weightedA + weightedB
    ensures collectedAfter + carryOut == lowA' + lowB'
  {
  }

  /** The invariant of the carry loop: the value of the digits collected so far plus
      the carry at the next weight equals the value of the operands' digits consumed
      so far. */
  predicate CarryInvariant(a: string, b: string, collected: string, carry: int)
    requires AllDigits(a) && AllDigits(b)
  {
    && (carry == 0 || carry == 1)
    && AllDigits(collected)
    && CollectedValue(collected) + (if carry == 1 then Pow10(|collected|) else 0)
       == LowValue(a, |collected|) + LowValue(b, |collected|)
  }

  /** One iteration of the carry loop keeps its invariant, and the column sum it adds
      up is at most 19, so the carry it passes on is 0 or 1. */
  lemma {:induction false} CarryStep(a: string, b: string, collected: string, carry: int, sum: int)
    requires AllDigits(a) && AllDigits(b) && CarryInvariant(a, b, collected, carry)
    requires sum == DigitAt(a, |collected|) + DigitAt(b, |collected|) + carry
    ensures 0 <= sum <= 19
    ensures CarryInvariant(a, b, collected + [DigitChar(sum % 10)], sum / 10)
  {
    var k, d1, d2 := |collected|, DigitAt(a, |collected|), DigitAt(b, |collected|);
    ColumnSum(d1, d2, carry, sum);
    var p := Pow10(k);
    var digit := DigitChar(sum % 10);
    CollectedAppend(collected, digit);
    assert Pow10(k + 1) == 10 * p;
    CarryArithmetic(d1, d2, carry, sum / 10, sum % 10, p);
    Rebalance(CollectedValue(collected), CollectedValue(collected + [digit]),
              LowValue(a, k), LowValue(a, k + 1), LowValue(b, k), LowValue(b, k + 1),
              d1 as int * p, d2 as int * p, (sum % 10) * p,
              if carry == 1 then p else 0, if sum / 10 == 1 then Pow10(k + 1) else 0);
  }

  /** The whole invariant of the carry loop: `CarryInvariant`, at most one digit more
      than the longer operand, and that extra digit, once written, is the final carry 1
      with nothing left to carry. */
  predicate CarryLoopInvariant(a: string, b: string, collected: string, carry: int)
    requires AllDigits(a) && AllDigits(b)
  {
    && CarryInvariant(a, b, collected, carry)
    && |collected| <= Max(|a|, |b|) + 1
    && (|collected| == Max(|a|, |b|) + 1 ==> carry == 0 && collected[Max(|a|, |b|)] == '1')
  }

  /** What the loop reads in column k: `(i >= 0) ? s.charAt(i) - '0' : 0` with
      `i == |s| - 1 - k` is the digit of `s` at weight 10^k. */
  lemma {:induction false} ColumnDigit(s: string, i: int, k: nat)
    requires AllDigits(s) && i == |s| - 1 - k
    ensures (if i >= 0 then DigitVal(s[i]) else 0) == DigitAt(s, k)
  {
  }

  /** An iteration of the carry loop, entered while a digit or a carry remains, keeps
      the loop invariant. An iteration past the longer operand runs only for a carry
      of 1, so it writes the digit 1 and leaves no carry. */
  lemma {:induction false} CarryLoopStep(a: string, b: string, collected: string, carry: int, sum: int)
    requires AllDigits(a) && AllDigits(b) && CarryLoopInvariant(a, b, collected, carry)
    requires |collected| < |a| || |collected| < |b| || carry > 0
    requires sum == DigitAt(a, |collected|) + DigitAt(b, |collected|) + carry
    ensures CarryLoopInvariant(a, b, collected + [DigitChar(sum % 10)], sum / 10)
  {
    CarryStep(a, b, collected, carry, sum);
    var m := Max(|a|, |b|);
    if |collected| == m {
      assert sum == 1;
      assert DigitChar(1) == '1';
      assert (collected + [DigitChar(sum % 10)])[m] == '1';
    }
  }

  /** When the carry loop stops, every digit of both operands is consumed and no carry
      is left: the collected digits, reversed, denote the sum of the operands, and an
      extra digit beyond the longer operand is the final carry 1. */
  lemma {:induction false} CarryLoopValue(a: string, b: string, collected: string, carry: int)
    requires AllDigits(a) && AllDigits(b) && CarryInvariant(a, b, collected, carry)
    requires carry == 0 && |a| <= |collected| && |b| <= |collected|
    requires |collected| == Max(|a|, |b|) + 1 ==> collected[Max(|a|, |b|)] == '1'
    ensures AllDigits(Reverse(collected))
    ensures Value(Reverse(collected)) == Value(a) + Value(b)
    ensures |collected| == Max(|a|, |b|) + 1 ==> Reverse(collected)[0] == '1'
  {
    CollectedValueReverse(collected);
    LowValueAll(a, |collected|);
    LowValueAll(b, |collected|);
  }

  /** A digit string that denotes the sum of the operands, has the length of the
      longer operand or one more digit, and starts with 1 in the latter case, is the
      ungrouped sum. */
  lemma {:induction false} SumDigitsUnique(a: string, b: string, result: string)
    requires AllDigits(a) && AllDigits(b) && AllDigits(result)
    requires Value(result) == Value(a) + Value(b)
    requires Max(|a|, |b|) <= |result| <= Max(|a|, |b|) + 1
    requires |result| == Max(|a|, |b|) + 1 ==> result[0] == '1'
    ensures result == SumDigits(a, b)
  {
    DecimalOfValue(result, Max(|a|, |b|), Value(a) + Value(b));
  }

  /** The ungrouped sum: the decimal representation of the sum of the operands' values,
      zero-padded to the length of the longer operand. */
  function SumDigits(a: string, b: string): string
    requires AllDigits(a) && AllDigits(b)
  {
    Decimal(Value(a) + Value(b), Max(|a|, |b|))
  }

  /** When the carry loop stops, what it collected, reversed, is the ungrouped sum. */
  lemma {:induction false} CarryLoopResult(a: string, b: string, collected: string, carry: int)
    requires AllDigits(a) && AllDigits(b) && CarryLoopInvariant(a, b, collected, carry)
    requires |a| <= |collected| && |b| <= |collected| && carry <= 0
    ensures Reverse(collected) == SumDigits(a, b)
  {
    CarryLoopValue(a, b, collected, carry);
    SumDigitsUnique(a, b, Reverse(collected));
  }

  /** What `addLargeNumbers(num1, num2)` returns: the ungrouped sum of the operands with
      their commas removed, grouped by thousands when either operand contains a comma. */
  function SumString(num1: string, num2: string): string
    requires AllDigits(RemoveCommas(num1)) && AllDigits(RemoveCommas(num2))
  {
    var sum := SumDigits(RemoveCommas(num1), RemoveCommas(num2));
    if ',' in num1 || ',' in num2 then Group(sum) else sum
  }

  /** `addCommasToNumber`: walks from three characters before the end towards the
      front in steps of three, inserting a comma at each position above zero. */
  method AddCommasToNumber(number: string) returns (r: string)
    ensures r == Group(number)
  {
    var formattedNumber := number;
    var i := |formattedNumber| - 3;
    assert number[..i + 3] == number;
    while i > 0
      invariant -3 <= i && i + 3 <= |number| && i + 3 <= |formattedNumber|
      invariant formattedNumber[..i + 3] == number[..i + 3]
      invariant Group(number) == Group(number[..i + 3]) + formattedNumber[i + 3..]
    {
      ghost var m := i + 3;
      assert number[..m][..i] == number[..i];
      assert number[..m][i..] == formattedNumber[i..m];
      assert formattedNumber[i..] == formattedNumber[i..m] + formattedNumber[m..];
      formattedNumber := formattedNumber[..i] + [','] + formattedNumber[i..];
      i := i - 3;
    }
    assert formattedNumber == formattedNumber[..i + 3] + formattedNumber[i + 3..];
    r := formattedNumber;
  }

  /** Lines 32-56 of `addLargeNumbers`: the carry loop over two comma-free operands,
      collecting the digits least significant first, then the reversal. */
  method AddDigits(cleanedNum1: string, cleanedNum2: string) returns (sum: string)
    requires AllDigits(cleanedNum1) && AllDigits(cleanedNum2)
    ensures sum == SumDigits(cleanedNum1, cleanedNum2)
  {
    var result: string := [];
    var i := |cleanedNum1| - 1;
    var j := |cleanedNum2| - 1;
    var carry := 0;
    // one digit is collected per iteration, so |result| counts the iterations
    while i >= 0 || j >= 0 || carry > 0
      invariant i == |cleanedNum1| - 1 - |result| && j == |cleanedNum2| - 1 - |result|
      invariant CarryLoopInvariant(cleanedNum1, cleanedNum2, result, carry)
      decreases Max(|cleanedNum1|, |cleanedNum2|) + 1 - |result|
    {
      var digit1 := if i >= 0 then DigitVal(cleanedNum1[i]) else 0;
      var digit2 := if j >= 0 then DigitVal(cleanedNum2[j]) else 0;
      var total := digit1 + digit2 + carry;
      ColumnDigit(cleanedNum1, i, |result|);
      ColumnDigit(cleanedNum2, j, |result|);
      CarryLoopStep(cleanedNum1, cleanedNum2, result, carry, total);
      result := result + [DigitChar(total % 10)];
      carry := total / 10;
      i := i - 1;
      j := j - 1;
    }
    CarryLoopResult(cleanedNum1, cleanedNum2, result, carry);
    sum := Reverse(result);
  }

  /** `addLargeNumbers`: strips the commas, adds digit by digit from the right with a
      carry, and groups the sum when an operand had a comma. */
  method AddLargeNumbers(num1: string, num2: string) returns (r: string)
    requires AllDigits(RemoveCommas(num1)) && AllDigits(RemoveCommas(num2))
    ensures r == SumString(num1, num2)
  {
    var addCommas := ',' in num1 || ',' in num2;
    var cleanedNum1 := RemoveCommas(num1);
    var cleanedNum2 := RemoveCommas(num2);
    var result := AddDigits(cleanedNum1, cleanedNum2);
    if addCommas {
      r := AddCommasToNumber(result);
    } else {
      r := result;
    }
  }

  /** A digit string holds no comma. */
  lemma {:induction false} DigitsHaveNoComma(s: string)
    requires AllDigits(s)
    ensures ',' !in s
  {
  }

  /** The ungrouped sum denotes the sum of the operands. It is as long as the longer
      operand, or one digit longer exactly when the sum reaches 10^max(len1, len2); that
      extra digit is the final carry 1. */
  lemma {:induction false} SumDigitsShape(a: string, b: string)
    requires AllDigits(a) && AllDigits(b)
    ensures AllDigits(SumDigits(a, b))
    ensures Value(SumDigits(a, b)) == Value(a) + Value(b)
    ensures |SumDigits(a, b)| == Max(|a|, |b|) || |SumDigits(a, b)| == Max(|a|, |b|) + 1
    ensures |SumDigits(a, b)| == Max(|a|, |b|) + 1 <==> Value(a) + Value(b) >= Pow10(Max(|a|, |b|))
    ensures |SumDigits(a, b)| == Max(|a|, |b|) + 1 ==> SumDigits(a, b)[0] == '1'
  {
    var m, n := Max(|a|, |b|), Value(a) + Value(b);
    assert SumDigits(a, b) == Decimal(n, m);
    DecimalValue(n, m);
    assert n < 2 * Pow10(m) by {
      Pow10Monotone(|a|, m);
      Pow10Monotone(|b|, m);
    }
    DecimalShape(n, m);
  }

  /** Removing the commas from the result of `addLargeNumbers` gives the ungrouped sum,
      so the digits of the result denote the sum of the digits of the operands. */
  lemma {:induction false} SumStringValue(num1: string, num2: string)
    requires AllDigits(RemoveCommas(num1)) && AllDigits(RemoveCommas(num2))
    ensures RemoveCommas(SumString(num1, num2)) == SumDigits(RemoveCommas(num1), RemoveCommas(num2))
    ensures AllDigits(RemoveCommas(SumString(num1, num2)))
    ensures Value(RemoveCommas(SumString(num1, num2)))
            == Value(RemoveCommas(num1)) + Value(RemoveCommas(num2))
  {
    var d := SumDigits(RemoveCommas(num1), RemoveCommas(num2));
    SumDigitsShape(RemoveCommas(num1), RemoveCommas(num2));
    DigitsHaveNoComma(d);
    GroupRemoveCommas(d);
  }

  /** The result has commas only when an operand had one and the ungrouped sum is longer
      than three digits; it then has (n - 1) / 3 of them for an n-digit sum. Without a
      comma in the operands the ungrouped sum comes back as it is. */
  lemma {:induction false} SumStringCommas(num1: string, num2: string)
    requires AllDigits(RemoveCommas(num1)) && AllDigits(RemoveCommas(num2))
    ensures var d := SumDigits(RemoveCommas(num1), RemoveCommas(num2));
            && (',' in SumString(num1, num2) <==> (',' in num1 || ',' in num2) && |d| > 3)
            && (',' !in num1 && ',' !in num2 ==> SumString(num1, num2) == d)
            && (',' in num1 || ',' in num2 ==>
                  multiset(SumString(num1, num2))[','] == if d == [] then 0 else (|d| - 1) / 3)
  {
    var d := SumDigits(RemoveCommas(num1), RemoveCommas(num2));
    DigitsHaveNoComma(d);
    GroupCommaCount(d);
  }

  /** When an operand had a comma, the result is well grouped: commas only between digits,
      every one followed by exactly three digits, and a leading group of one to three. */
  lemma {:induction false} SumStringWellGrouped(num1: string, num2: string)
    requires AllDigits(RemoveCommas(num1)) && AllDigits(RemoveCommas(num2))
    requires ',' in num1 || ',' in num2
    ensures WellGrouped(SumString(num1, num2))
  {
    var d := SumDigits(RemoveCommas(num1), RemoveCommas(num2));
    SumDigitsShape(RemoveCommas(num1), RemoveCommas(num2));
    DigitsHaveNoComma(d);
    GroupWellGrouped(d);
  }

  /** The operands play symmetric roles. */
  lemma {:induction false} SumStringCommutes(num1: string, num2: string)
    requires AllDigits(RemoveCommas(num1)) && AllDigits(RemoveCommas(num2))
    ensures SumString(num1, num2) == SumString(num2, num1)
  {
    assert Max(|RemoveCommas(num1)|, |RemoveCommas(num2)|)
           == Max(|RemoveCommas(num2)|, |RemoveCommas(num1)|);
  }

  /** The numeral "0" has no comma and denotes zero. */
  lemma {:induction false} ZeroNumeral()
    ensures AllDigits("0") && RemoveCommas("0") == "0" && Value("0") == 0
  {
    assert ',' !in "0";
    assert "0"[..0] == [];
  }

  /** Adding "0" to a non-empty numeral gives it back unchanged, with its leading zeros
      and, when it is well grouped, with its commas. */
  lemma {:induction false} SumStringZero(num: string)
    requires AllDigits(RemoveCommas(num)) && RemoveCommas(num) != []
    requires ',' in num ==> WellGrouped(num)
    ensures SumString(num, "0") == num
  {
    var a := RemoveCommas(num);
    ZeroNumeral();
    DecimalOfValue(a, |a|, Value(a) + Value("0"));
    assert SumDigits(a, RemoveCommas("0")) == a;
    if ',' in num {
      GroupRoundTrip(num);
    }
  }
}
