/** The change heuristic page checks actually use (strmetr/strmetr.go): the same
    code-point-sum comparison as Distance, as a percentage in [0, 100]. */
module StrMetr {
  import opened Text
  import Distance

  /** The three-way branch on the two sums, scaled to a percentage. */
  function Percentage(sum1: nat, sum2: nat): (r: real)
    ensures r == 100.0 * Distance.Ratio(sum1, sum2)
    ensures 0.0 <= r <= 100.0
    ensures r == 0.0 <==> sum1 == sum2
  {
    if sum1 > sum2 then 100.0 - (sum2 as real / sum1 as real * 100.0)
    else if sum2 > sum1 then 100.0 - (sum1 as real / sum2 as real * 100.0)
    else 0.0
  }

  /** Approx: two accumulation loops, then the branch. */
  method Approx(str1: string, str2: string) returns (d: real)
    ensures d == Percentage(CodeSum(str1), CodeSum(str2))
  {
    var sum1: nat := 0;
    var i := 0;
    while i < |str1|
      invariant 0 <= i <= |str1|
      invariant sum1 == CodeSum(str1[..i])
    {
      assert str1[..i + 1][..i] == str1[..i];
      sum1 := sum1 + str1[i] as int;
      i := i + 1;
    }
    assert str1[..i] == str1;
    var sum2: nat := 0;
    var j := 0;
    while j < |str2|
      invariant 0 <= j <= |str2|
      invariant sum2 == CodeSum(str2[..j])
    {
      assert str2[..j + 1][..j] == str2[..j];
      sum2 := sum2 + str2[j] as int;
      j := j + 1;
    }
    assert str2[..j] == str2;
    if sum1 > sum2 {
      return 100.0 - (sum2 as real / sum1 as real * 100.0);
    } else if sum2 > sum1 {
      return 100.0 - (sum1 as real / sum2 as real * 100.0);
    }
    return 0.0;
  }

  lemma SelfDistanceIsZero(s: string)
    ensures Percentage(CodeSum(s), CodeSum(s)) == 0.0
  {
  }

  lemma Symmetric(a: string, b: string)
    ensures Percentage(CodeSum(a), CodeSum(b)) == Percentage(CodeSum(b), CodeSum(a))
  {
    Distance.Symmetric(a, b);
  }

  /** Strings with equal sums score 0 whatever their content. */
  lemma EqualSumsScoreZero(a: string, b: string)
    requires CodeSum(a) == CodeSum(b)
    ensures Percentage(CodeSum(a), CodeSum(b)) == 0.0
  {
  }

  /** Appending a character always moves the score off zero: from "abc" to
      "abcX", any threshold below the score flags a change. */
  lemma AppendingScoresAboveZero(s: string, c: char)
    requires c as int > 0
    ensures Percentage(CodeSum(s), CodeSum(s + [c])) > 0.0
  {
    CodeSumAppend(s, [c]);
    assert [c][..0] == [];
  }
}
