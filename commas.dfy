/** Thousands separators: removing them, the grouping that `addCommasToNumber`
    produces, and what a well-grouped numeral looks like. */
module Commas {

  /** `s.replace(",", "")`: every comma dropped, every other character kept in order. */
  function RemoveCommas(s: string): (r: string)
    ensures ',' !in r
    ensures |r| <= |s|
    ensures ',' !in s ==> r == s
  {
    if s == [] then []
    else
      var init, last := s[..|s| - 1], s[|s| - 1];
      if last == ',' then RemoveCommas(init) else RemoveCommas(init) + [last]
  }

  /** Removing commas commutes with concatenation, so it keeps the relative order. */
  lemma {:induction false} RemoveCommasAppend(a: string, b: string)
    ensures RemoveCommas(a + b) == RemoveCommas(a) + RemoveCommas(b)
    decreases |b|
  {
    if b != [] {
      var init := b[..|b| - 1];
      assert (a + b)[..|a + b| - 1] == a + init;
      RemoveCommasAppend(a, init);
    } else {
      assert a + b == a;
    }
  }

  /** A leading non-comma survives comma removal. */
  lemma {:induction false} RemoveCommasHead(s: string)
    requires s != [] && s[0] != ','
    ensures RemoveCommas(s) != [] && RemoveCommas(s)[0] == s[0]
  {
    assert s == [s[0]] + s[1..];
    RemoveCommasAppend([s[0]], s[1..]);
    assert RemoveCommas([s[0]]) == [s[0]] by {
      assert [s[0]][..0] == [];
    }
  }

  /** The string `addCommasToNumber` builds: a comma before every complete group of
      three characters counted from the right, never in front of the first character. */
  function Group(s: string): (g: string)
    ensures |g| >= |s|
  {
    if |s| <= 3 then s else Group(s[..|s| - 3]) + [','] + s[|s| - 3..]
  }

  /** Grouping only adds commas: taking them out again gives back the input. */
  lemma {:induction false} GroupRemoveCommas(s: string)
    requires ',' !in s
    ensures RemoveCommas(Group(s)) == s
  {
    if |s| > 3 {
      var head, tail := s[..|s| - 3], s[|s| - 3..];
      assert s == head + tail;
      GroupRemoveCommas(head);
      RemoveCommasAppend(Group(head) + [','], tail);
      RemoveCommasAppend(Group(head), [',']);
      assert RemoveCommas([',']) == [] by {
        assert [','][..0] == [];
      }
    }
  }

  /** Grouping a non-empty numeral inserts exactly (|s| - 1) / 3 commas, so a string
      gets a comma exactly when it is longer than three characters. */
  lemma {:induction false} GroupCommaCount(s: string)
    requires ',' !in s
    ensures multiset(Group(s))[','] == if s == [] then 0 else (|s| - 1) / 3
    ensures |Group(s)| == |s| + multiset(Group(s))[',']
    ensures ',' in Group(s) <==> |s| > 3
    ensures |s| <= 3 ==> Group(s) == s
  {
    if |s| > 3 {
      var head, tail := s[..|s| - 3], s[|s| - 3..];
      assert s == head + tail;
      assert ',' !in tail;
      GroupCommaCount(head);
      assert multiset(Group(s)) == multiset(Group(head)) + multiset{','} + multiset(tail);
    } else {
      assert multiset(s)[','] == 0;
    }
  }

  lemma {:induction false} ShiftByFour(x: int)
    ensures (x + 4) % 4 == x % 4
  {
  }

  /** In the grouped string, position k holds a comma exactly when k > 0 and k is a
      multiple of four characters from the end; the length is never a multiple of four,
      so the leading group keeps one to three characters. */
  lemma {:induction false} GroupCommaPositions(s: string)
    requires ',' !in s
    ensures forall k :: 0 <= k < |Group(s)| ==>
              (Group(s)[k] == ',' <==> 0 < k && (|Group(s)| - k) % 4 == 0)
    ensures s != [] ==> |Group(s)| % 4 != 0
  {
    if |s| > 3 {
      var head, tail := s[..|s| - 3], s[|s| - 3..];
      GroupCommaPositions(head);
      var gh := Group(head);
      var g := Group(s);
      assert g == gh + [','] + tail;
      assert |g| == |gh| + 4;
      ShiftByFour(|gh|);
      forall k | 0 <= k < |g|
        ensures g[k] == ',' <==> 0 < k && (|g| - k) % 4 == 0
      {
        if k < |gh| {
          assert g[k] == gh[k];
          ShiftByFour(|gh| - k);
        } else if k > |gh| {
          assert g[k] == tail[k - |gh| - 1];
          assert 0 < |g| - k < 4;
        }
      }
    }
  }

  /** Position k of g holds a comma. */
  predicate CommaAt(g: string, k: int) {
    0 <= k < |g| && g[k] == ','
  }

  /** A well-grouped numeral: no comma in front or at the end, and every comma is
      followed by exactly three non-commas and then either the end or another comma;
      the leading group has one to three characters. The quantifier fires only on
      CommaAt terms, so that the comma it names four places on does not set it off
      again. */
  predicate WellGrouped(g: string) {
    && (g != [] ==> g[0] != ',' && g[|g| - 1] != ',')
    && (forall k {:trigger CommaAt(g, k)} :: 0 <= k < |g| && CommaAt(g, k) ==>
          && k + 4 <= |g|
          && g[k + 1] != ',' && g[k + 2] != ',' && g[k + 3] != ','
          && (k + 4 == |g| || g[k + 4] == ','))
    && (|g| > 3 ==> ',' in g[1..4])
  }

  /** A positive multiple of four is at least four, its three predecessors are not
      multiples of four and the fourth one is. */
  lemma {:induction false} MultipleOfFour(d: int)
    requires d > 0 && d % 4 == 0
    ensures d >= 4 && (d - 4) % 4 == 0
    ensures (d - 1) % 4 != 0 && (d - 2) % 4 != 0 && (d - 3) % 4 != 0
  {
  }

  /** Grouping always produces a well-grouped string. */
  lemma {:induction false} GroupWellGrouped(s: string)
    requires ',' !in s
    ensures WellGrouped(Group(s))
  {
    GroupCommaPositions(s);
    var g := Group(s);
    forall k | 0 <= k < |g| && CommaAt(g, k)
      ensures k + 4 <= |g|
      ensures g[k + 1] != ',' && g[k + 2] != ',' && g[k + 3] != ','
      ensures k + 4 == |g| || g[k + 4] == ','
    {
      MultipleOfFour(|g| - k);
      assert |g| - (k + 4) == |g| - k - 4;
    }
    if g != [] {
      assert (|g| - (|g| - 1)) % 4 != 0;
    }
    if |g| > 3 {
      var r := |g| % 4;
      assert 0 < r < 4 && (|g| - r) % 4 == 0;
      assert g[1..4][r - 1] == g[r] == ',';
    }
  }

  /** In a well-grouped string, following the commas from any one of them leads to a
      comma four characters before the end. */
  lemma {:induction false} LastComma(g: string, k: nat)
    requires WellGrouped(g)
    requires k < |g| && g[k] == ','
    ensures |g| >= 4 && g[|g| - 4] == ','
    decreases |g| - k
  {
    assert CommaAt(g, k);
    if k + 4 < |g| {
      LastComma(g, k + 4);
    }
  }

  /** Cutting the last group and its comma off a well-grouped string leaves a
      non-empty well-grouped string. */
  lemma {:induction false} DropLastGroup(g: string)
    requires WellGrouped(g) && |g| >= 4 && g[|g| - 4] == ','
    ensures ',' !in g[|g| - 3..]
    ensures g[..|g| - 4] != [] && g[0] != ','
    ensures WellGrouped(g[..|g| - 4])
  {
    var front := g[..|g| - 4];
    assert g[0] != ',';
    assert CommaAt(g, |g| - 4);
    assert !CommaAt(g, |g| - 5);
    assert g[|g| - 3..] == [g[|g| - 3], g[|g| - 2], g[|g| - 1]];
    forall k' | 0 <= k' < |front| && CommaAt(front, k')
      ensures k' + 4 <= |front|
      ensures front[k' + 1] != ',' && front[k' + 2] != ',' && front[k' + 3] != ','
      ensures k' + 4 == |front| || front[k' + 4] == ','
    {
      assert CommaAt(g, k');
    }
    if |front| > 3 {
      assert front[1..4] == g[1..4];
    }
  }

  /** One step of the round trip: a regrouped front, a comma and a last group of three. */
  lemma {:induction false} RegroupStep(front: string, tail: string)
    requires front != [] && front[0] != ','
    requires Group(RemoveCommas(front)) == front
    requires |tail| == 3 && ',' !in tail
    ensures Group(RemoveCommas(front + [','] + tail)) == front + [','] + tail
  {
    RemoveCommasHead(front);
    var x := RemoveCommas(front);
    RemoveCommasAppend(front + [','], tail);
    RemoveCommasAppend(front, [',']);
    assert RemoveCommas([',']) == [] by {
      assert [','][..0] == [];
    }
    var xt := x + tail;
    assert RemoveCommas(front + [','] + tail) == xt;
    assert xt[..|xt| - 3] == x && xt[|xt| - 3..] == tail;
  }

  /** A string with a comma four places before its end is its front, that comma and
      its last three characters. */
  lemma {:induction false} SplitLastGroup(g: string)
    requires |g| >= 4 && g[|g| - 4] == ','
    ensures g == g[..|g| - 4] + [','] + g[|g| - 3..]
  {
  }

  /** Grouping round trip: regrouping the digits of a well-grouped numeral puts every
      comma back where it was. */
  lemma {:induction false} GroupRoundTrip(g: string)
    requires WellGrouped(g)
    ensures Group(RemoveCommas(g)) == g
    decreases |g|
  {
    if |g| <= 3 {
      forall x | 0 <= x < |g|
        ensures g[x] != ','
      {
        assert !CommaAt(g, x);
      }
    } else {
      var i :| 0 <= i < 3 && g[1..4][i] == ',';
      LastComma(g, i + 1);
      DropLastGroup(g);
      var front, tail := g[..|g| - 4], g[|g| - 3..];
      GroupRoundTrip(front);
      RegroupStep(front, tail);
      SplitLastGroup(g);
    }
  }
}
