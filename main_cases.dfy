/** The calls that `Solution.main` prints, with the results its comments expect. Each
    case strips the operands, adds the digit strings and groups the sum in separate
    steps, each step a lemma of its own. */
module MainCases {
  import opened Digits
  import opened Commas
  import opened Solution

  /** Appending a group of three digits multiplies the value by 1000 and adds the group. */
  lemma {:induction false} AppendGroup(x: string, y: string, vx: nat, vy: nat)
    requires AllDigits(x) && AllDigits(y) && |y| == 3
    requires Value(x) == vx && Value(y) == vy
    ensures AllDigits(x + y) && Value(x + y) == vx * 1000 + vy
  {
    ValueConcat(x, y);
    assert Pow10(3) == 1000;
  }

  /** The commas of `front + "," + tail` are those of front, for a comma-free tail. */
  lemma {:induction false} RemoveCommasGroup(front: string, tail: string)
    requires ',' !in tail
    ensures RemoveCommas(front + [','] + tail) == RemoveCommas(front) + tail
  {
    RemoveCommasAppend(front + [','], tail);
    RemoveCommasAppend(front, [',']);
    assert RemoveCommas([',']) == [] by {
      assert [','][..0] == [];
    }
  }

  // Test Case 1 of `main`: "1,200" + "1,500"

  lemma {:induction false} Group1200()
    ensures Group("1200") == "1,200"
  {
    assert "1200"[..1] == "1" && "1200"[1..] == "200";
  }

  lemma {:induction false} Strip1200()
    ensures RemoveCommas("1,200") == "1200"
  {
    Group1200();
    assert ',' !in "1200";
    GroupRemoveCommas("1200");
  }

  lemma {:induction false} Group1500()
    ensures Group("1500") == "1,500"
  {
    assert "1500"[..1] == "1" && "1500"[1..] == "500";
  }

  lemma {:induction false} Strip1500()
    ensures RemoveCommas("1,500") == "1500"
  {
    Group1500();
    assert ',' !in "1500";
    GroupRemoveCommas("1500");
  }

  lemma {:induction false} Value1200()
    ensures AllDigits("1200") && Value("1200") == 1200
  {
    AppendGroup("1", "200", 1, 200);
    assert "1" + "200" == "1200";
  }

  lemma {:induction false} Value1500()
    ensures AllDigits("1500") && Value("1500") == 1500
  {
    AppendGroup("1", "500", 1, 500);
    assert "1" + "500" == "1500";
  }

  lemma {:induction false} Value2700()
    ensures AllDigits("2700") && Value("2700") == 2700
  {
    AppendGroup("2", "700", 2, 700);
    assert "2" + "700" == "2700";
  }

  lemma {:induction false} Sum1200And1500()
    ensures AllDigits("1200") && AllDigits("1500")
    ensures SumDigits("1200", "1500") == "2700"
  {
    Value1200();
    Value1500();
    Value2700();
    SumDigitsUnique("1200", "1500", "2700");
  }

  lemma {:induction false} Group2700()
    ensures Group("2700") == "2,700"
  {
    assert "2700"[..1] == "2" && "2700"[1..] == "700";
  }

  /** `addLargeNumbers("1,200", "1,500")` is "2,700". */
  lemma {:induction false} MainCase1()
    ensures AllDigits(RemoveCommas("1,200")) && AllDigits(RemoveCommas("1,500"))
    ensures SumString("1,200", "1,500") == "2,700"
  {
    Strip1200();
    Strip1500();
    Sum1200And1500();
    Group2700();
    assert ',' in "1,200";
  }

  // Test Case 2 of `main`: "999" + "1"

  lemma {:induction false} Value1000()
    ensures AllDigits("1000") && Value("1000") == 1000
  {
    AppendGroup("1", "000", 1, 0);
    assert "1" + "000" == "1000";
  }

  lemma {:induction false} Sum999And1()
    ensures AllDigits("999") && AllDigits("1")
    ensures SumDigits("999", "1") == "1000"
  {
    Value1000();
    SumDigitsUnique("999", "1", "1000");
  }

  /** `addLargeNumbers("999", "1")` is "1000". */
  lemma {:induction false} MainCase2()
    ensures AllDigits(RemoveCommas("999")) && AllDigits(RemoveCommas("1"))
    ensures SumString("999", "1") == "1000"
  {
    Sum999And1();
    assert ',' !in "999" && ',' !in "1";
  }

  // Test Case 3 of `main`: "1234567890123456789" + "9876543210987654321"

  lemma {:induction false} Value1234567()
    ensures AllDigits("1234567") && Value("1234567") == 1234567
  {
    AppendGroup("1", "234", 1, 234);
    assert "1" + "234" == "1234";
    AppendGroup("1234", "567", 1234, 567);
    assert "1234" + "567" == "1234567";
  }

  lemma {:induction false} Value1234567890123()
    ensures AllDigits("1234567890123") && Value("1234567890123") == 1234567890123
  {
    Value1234567();
    AppendGroup("1234567", "890", 1234567, 890);
    assert "1234567" + "890" == "1234567890";
    AppendGroup("1234567890", "123", 1234567890, 123);
    assert "1234567890" + "123" == "1234567890123";
  }

  lemma {:induction false} Value1234567890123456789()
    ensures AllDigits("1234567890123456789") && Value("1234567890123456789") == 1234567890123456789
  {
    Value1234567890123();
    AppendGroup("1234567890123", "456", 1234567890123, 456);
    assert "1234567890123" + "456" == "1234567890123456";
    AppendGroup("1234567890123456", "789", 1234567890123456, 789);
    assert "1234567890123456" + "789" == "1234567890123456789";
  }

  lemma {:induction false} Value9876543()
    ensures AllDigits("9876543") && Value("9876543") == 9876543
  {
    AppendGroup("9", "876", 9, 876);
    assert "9" + "876" == "9876";
    AppendGroup("9876", "543", 9876, 543);
    assert "9876" + "543" == "9876543";
  }

  lemma {:induction false} Value9876543210987()
    ensures AllDigits("9876543210987") && Value("9876543210987") == 9876543210987
  {
    Value9876543();
    AppendGroup("9876543", "210", 9876543, 210);
    assert "9876543" + "210" == "9876543210";
    AppendGroup("9876543210", "987", 9876543210, 987);
    assert "9876543210" + "987" == "9876543210987";
  }

  lemma {:induction false} Value9876543210987654321()
    ensures AllDigits("9876543210987654321") && Value("9876543210987654321") == 9876543210987654321
  {
    Value9876543210987();
    AppendGroup("9876543210987", "654", 9876543210987, 654);
    assert "9876543210987" + "654" == "9876543210987654";
    AppendGroup("9876543210987654", "321", 9876543210987654, 321);
    assert "9876543210987654" + "321" == "9876543210987654321";
  }

  lemma {:induction false} Value11111111()
    ensures AllDigits("11111111") && Value("11111111") == 11111111
  {
    AppendGroup("11", "111", 11, 111);
    assert "11" + "111" == "11111";
    AppendGroup("11111", "111", 11111, 111);
    assert "11111" + "111" == "11111111";
  }

  lemma {:induction false} Value11111111101111()
    ensures AllDigits("11111111101111") && Value("11111111101111") == 11111111101111
  {
    Value11111111();
    AppendGroup("11111111", "101", 11111111, 101);
    assert "11111111" + "101" == "11111111101";
    AppendGroup("11111111101", "111", 11111111101, 111);
    assert "11111111101" + "111" == "11111111101111";
  }

  lemma {:induction false} Value11111111101111111110()
    ensures AllDigits("11111111101111111110") && Value("11111111101111111110") == 11111111101111111110
  {
    Value11111111101111();
    AppendGroup("11111111101111", "111", 11111111101111, 111);
    assert "11111111101111" + "111" == "11111111101111111";
    AppendGroup("11111111101111111", "110", 11111111101111111, 110);
    assert "11111111101111111" + "110" == "11111111101111111110";
  }

  lemma {:induction false} Sum1234567890123456789And9876543210987654321()
    ensures AllDigits("1234567890123456789") && AllDigits("9876543210987654321")
    ensures SumDigits("1234567890123456789", "9876543210987654321") == "11111111101111111110"
  {
    Value1234567890123456789();
    Value9876543210987654321();
    Value11111111101111111110();
    SumDigitsUnique("1234567890123456789", "9876543210987654321", "11111111101111111110");
  }

  /** `addLargeNumbers("1234567890123456789", "9876543210987654321")` is "11111111101111111110". */
  lemma {:induction false} MainCase3()
    ensures AllDigits(RemoveCommas("1234567890123456789")) && AllDigits(RemoveCommas("9876543210987654321"))
    ensures SumString("1234567890123456789", "9876543210987654321") == "11111111101111111110"
  {
    Sum1234567890123456789And9876543210987654321();
    assert ',' !in "1234567890123456789" && ',' !in "9876543210987654321";
  }

  // Test Case 4 of `main`: "999,999,999" + "1"

  lemma {:induction false} Group999999()
    ensures Group("999999") == "999,999"
  {
    assert "999999"[..3] == "999" && "999999"[3..] == "999";
  }

  lemma {:induction false} Group999999999()
    ensures Group("999999999") == "999,999,999"
  {
    Group999999();
    assert "999999999"[..6] == "999999" && "999999999"[6..] == "999";
  }

  lemma {:induction false} Strip999999999()
    ensures RemoveCommas("999,999,999") == "999999999"
  {
    Group999999999();
    assert ',' !in "999999999";
    GroupRemoveCommas("999999999");
  }

  lemma {:induction false} Value999999999()
    ensures AllDigits("999999999") && Value("999999999") == 999999999
  {
    AppendGroup("999", "999", 999, 999);
    assert "999" + "999" == "999999";
    AppendGroup("999999", "999", 999999, 999);
    assert "999999" + "999" == "999999999";
  }

  lemma {:induction false} Value1000000000()
    ensures AllDigits("1000000000") && Value("1000000000") == 1000000000
  {
    Value1000();
    AppendGroup("1000", "000", 1000, 0);
    assert "1000" + "000" == "1000000";
    AppendGroup("1000000", "000", 1000000, 0);
    assert "1000000" + "000" == "1000000000";
  }

  lemma {:induction false} Sum999999999And1()
    ensures AllDigits("999999999") && AllDigits("1")
    ensures SumDigits("999999999", "1") == "1000000000"
  {
    Value999999999();
    Value1000000000();
    SumDigitsUnique("999999999", "1", "1000000000");
  }

  lemma {:induction false} Group1000()
    ensures Group("1000") == "1,000"
  {
    assert "1000"[..1] == "1" && "1000"[1..] == "000";
  }

  lemma {:induction false} Group1000000()
    ensures Group("1000000") == "1,000,000"
  {
    Group1000();
    assert "1000000"[..4] == "1000" && "1000000"[4..] == "000";
  }

  lemma {:induction false} Group1000000000()
    ensures Group("1000000000") == "1,000,000,000"
  {
    Group1000000();
    assert "1000000000"[..7] == "1000000" && "1000000000"[7..] == "000";
  }

  /** `addLargeNumbers("999,999,999", "1")` is "1,000,000,000". */
  lemma {:induction false} MainCase4()
    ensures AllDigits(RemoveCommas("999,999,999")) && AllDigits(RemoveCommas("1"))
    ensures SumString("999,999,999", "1") == "1,000,000,000"
  {
    Strip999999999();
    Sum999999999And1();
    Group1000000000();
    assert ',' in "999,999,999";
  }

  // Test Case 5 of `main`: "1,234,567,890" + "9,876,543,210"

  lemma {:induction false} Group1234()
    ensures Group("1234") == "1,234"
  {
    assert "1234"[..1] == "1" && "1234"[1..] == "234";
  }

  lemma {:induction false} Group1234567()
    ensures Group("1234567") == "1,234,567"
  {
    Group1234();
    assert "1234567"[..4] == "1234" && "1234567"[4..] == "567";
  }

  lemma {:induction false} Group1234567890()
    ensures Group("1234567890") == "1,234,567,890"
  {
    Group1234567();
    assert "1234567890"[..7] == "1234567" && "1234567890"[7..] == "890";
  }

  lemma {:induction false} Strip1234567890()
    ensures RemoveCommas("1,234,567,890") == "1234567890"
  {
    Group1234567890();
    assert ',' !in "1234567890";
    GroupRemoveCommas("1234567890");
  }

  lemma {:induction false} Group9876()
    ensures Group("9876") == "9,876"
  {
    assert "9876"[..1] == "9" && "9876"[1..] == "876";
  }

  lemma {:induction false} Group9876543()
    ensures Group("9876543") == "9,876,543"
  {
    Group9876();
    assert "9876543"[..4] == "9876" && "9876543"[4..] == "543";
  }

  lemma {:induction false} Group9876543210()
    ensures Group("9876543210") == "9,876,543,210"
  {
    Group9876543();
    assert "9876543210"[..7] == "9876543" && "9876543210"[7..] == "210";
  }

  lemma {:induction false} Strip9876543210()
    ensures RemoveCommas("9,876,543,210") == "9876543210"
  {
    Group9876543210();
    assert ',' !in "9876543210";
    GroupRemoveCommas("9876543210");
  }

  lemma {:induction false} Value1234()
    ensures AllDigits("1234") && Value("1234") == 1234
  {
    AppendGroup("1", "234", 1, 234);
    assert "1" + "234" == "1234";
  }

  lemma {:induction false} Value1234567890()
    ensures AllDigits("1234567890") && Value("1234567890") == 1234567890
  {
    Value1234();
    AppendGroup("1234", "567", 1234, 567);
    assert "1234" + "567" == "1234567";
    AppendGroup("1234567", "890", 1234567, 890);
    assert "1234567" + "890" == "1234567890";
  }

  lemma {:induction false} Value9876()
    ensures AllDigits("9876") && Value("9876") == 9876
  {
    AppendGroup("9", "876", 9, 876);
    assert "9" + "876" == "9876";
  }

  lemma {:induction false} Value9876543210()
    ensures AllDigits("9876543210") && Value("9876543210") == 9876543210
  {
    Value9876();
    AppendGroup("9876", "543", 9876, 543);
    assert "9876" + "543" == "9876543";
    AppendGroup("9876543", "210", 9876543, 210);
    assert "9876543" + "210" == "9876543210";
  }

  lemma {:induction false} Value11111()
    ensures AllDigits("11111") && Value("11111") == 11111
  {
    AppendGroup("11", "111", 11, 111);
    assert "11" + "111" == "11111";
  }

  lemma {:induction false} Value11111111100()
    ensures AllDigits("11111111100") && Value("11111111100") == 11111111100
  {
    Value11111();
    AppendGroup("11111", "111", 11111, 111);
    assert "11111" + "111" == "11111111";
    AppendGroup("11111111", "100", 11111111, 100);
    assert "11111111" + "100" == "11111111100";
  }

  lemma {:induction false} Sum1234567890And9876543210()
    ensures AllDigits("1234567890") && AllDigits("9876543210")
    ensures SumDigits("1234567890", "9876543210") == "11111111100"
  {
    Value1234567890();
    Value9876543210();
    Value11111111100();
    SumDigitsUnique("1234567890", "9876543210", "11111111100");
  }

  lemma {:induction false} Group11111()
    ensures Group("11111") == "11,111"
  {
    assert "11111"[..2] == "11" && "11111"[2..] == "111";
  }

  lemma {:induction false} Group11111111()
    ensures Group("11111111") == "11,111,111"
  {
    Group11111();
    assert "11111111"[..5] == "11111" && "11111111"[5..] == "111";
  }

  lemma {:induction false} Group11111111100()
    ensures Group("11111111100") == "11,111,111,100"
  {
    Group11111111();
    assert "11111111100"[..8] == "11111111" && "11111111100"[8..] == "100";
  }

  /** `addLargeNumbers("1,234,567,890", "9,876,543,210")` is "11,111,111,100". */
  lemma {:induction false} MainCase5()
    ensures AllDigits(RemoveCommas("1,234,567,890")) && AllDigits(RemoveCommas("9,876,543,210"))
    ensures SumString("1,234,567,890", "9,876,543,210") == "11,111,111,100"
  {
    Strip1234567890();
    Strip9876543210();
    Sum1234567890And9876543210();
    Group11111111100();
    assert ',' in "1,234,567,890";
  }

  // Test Case 6 of `main`: "100" + "200"

  lemma {:induction false} Sum100And200()
    ensures AllDigits("100") && AllDigits("200")
    ensures SumDigits("100", "200") == "300"
  {
    SumDigitsUnique("100", "200", "300");
  }

  /** `addLargeNumbers("100", "200")` is "300". */
  lemma {:induction false} MainCase6()
    ensures AllDigits(RemoveCommas("100")) && AllDigits(RemoveCommas("200"))
    ensures SumString("100", "200") == "300"
  {
    Sum100And200();
    assert ',' !in "100" && ',' !in "200";
  }
}
