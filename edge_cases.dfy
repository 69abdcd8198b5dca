/** Concrete inputs that show how `addLargeNumbers` treats empty operands, leading
    zeros and short sums of grouped operands. */
module EdgeCases {
  import opened Digits
  import opened Commas
  import opened Solution

  /** Nothing is validated: two empty operands add up to the empty string. */
  lemma {:induction false} EmptyOperands()
    ensures AllDigits(RemoveCommas("")) && AllDigits(RemoveCommas(""))
    ensures SumString("", "") == ""
  {
    assert RemoveCommas("") == "";
    assert Decimal(0, 0) == "";
  }

  /** Zero padding is kept: the sum is as long as the longer operand. */
  lemma {:induction false} PaddingKept()
    ensures AllDigits(RemoveCommas("007")) && AllDigits(RemoveCommas("1"))
    ensures SumString("007", "1") == "008"
  {
    assert ',' !in "007" && ',' !in "1";
    assert "007"[..2] == "00" && "00"[..1] == "0" && "0"[..0] == "";
    assert "008"[..2] == "00" && "1"[..0] == "";
    SumDigitsUnique("007", "1", "008");
  }

  lemma {:induction false} Strip1Comma2()
    ensures RemoveCommas("1,2") == "12"
  {
    assert "1,2"[..2] == "1," && "1,"[..1] == "1" && "1"[..0] == "";
  }

  lemma {:induction false} Sum12And3()
    ensures AllDigits("12") && AllDigits("3")
    ensures SumDigits("12", "3") == "15"
  {
    assert "12"[..1] == "1" && "15"[..1] == "1" && "3"[..0] == "" && "1"[..0] == "";
    SumDigitsUnique("12", "3", "15");
  }

  /** A grouped operand sets the flag, but a sum of at most three digits gets no comma. */
  lemma {:induction false} ShortFlaggedSum()
    ensures AllDigits(RemoveCommas("1,2")) && AllDigits(RemoveCommas("3"))
    ensures SumString("1,2", "3") == "15"
  {
    Strip1Comma2();
    Sum12And3();
    assert ',' !in "3" && ',' in "1,2";
  }
}
