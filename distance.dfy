/** The change heuristic of distance/distance.go: one minus the ratio of the
    smaller code-point sum to the larger, a value in [0, 1]. Sums are exact
    naturals and the ratio an exact real. */
module Distance {
  import opened Text

  /** The three-way branch on the two sums. */
  function Ratio(sum1: nat, sum2: nat): (r: real)
    ensures 0.0 <= r <= 1.0
    ensures r == 0.0 <==> sum1 == sum2
    ensures r == 1.0 <==> (sum1 == 0 && sum2 > 0) || (sum2 == 0 && sum1 > 0)
  {
    if sum1 > sum2 then
      RatioBelowOne(sum2, sum1);
      1.0 - sum2 as real / sum1 as real
    else if sum2 > sum1 then
      RatioBelowOne(sum1, sum2);
      1.0 - sum1 as real / sum2 as real
    else 0.0
  }

  /** `small / large` lies in [0, 1), and is 0 exactly when `small` is. */
  lemma RatioBelowOne(small: nat, large: nat)
    requires small < large
    ensures 0.0 <= small as real / large as real < 1.0
    ensures small as real / large as real == 0.0 <==> small == 0
  {
    var q := small as real / large as real;
    assert q * large as real == small as real;
  }

  /** Approx: two accumulation loops, then the branch. */
  method Approx(str1: string, str2: string) returns (d: real)
    ensures d == Ratio(CodeSum(str1), CodeSum(str2))
  {
    var sum1: nat := 0;
    var i := 0;
    while i < |str1|
      invariant 0 <= i <= |str1|
      invariant sum1 == CodeSum(str1[..i])
    {
      assert str1[..i + 1][..i] == str1[..i];
      sum1 := sum1 + str1[i] as int;
      i := i + 1;
    }
    assert str1[..i] == str1;
    var sum2: nat := 0;
    var j := 0;
    while j < |str2|
      invariant 0 <= j <= |str2|
      invariant sum2 == CodeSum(str2[..j])
    {
      assert str2[..j + 1][..j] == str2[..j];
      sum2 := sum2 + str2[j] as int;
      j := j + 1;
    }
    assert str2[..j] == str2;
    if sum1 > sum2 {
      return 1.0 - sum2 as real / sum1 as real;
    } else if sum2 > sum1 {
      return 1.0 - sum1 as real / sum2 as real;
    }
    return 0.0;
  }

  lemma SelfDistanceIsZero(s: string)
    ensures Ratio(CodeSum(s), CodeSum(s)) == 0.0
  {
  }

  lemma Symmetric(a: string, b: string)
    ensures Ratio(CodeSum(a), CodeSum(b)) == Ratio(CodeSum(b), CodeSum(a))
  {
  }

  /** The heuristic's blind spot: strings with equal sums are "identical". */
  lemma EqualSumsScoreZero(a: string, b: string)
    requires CodeSum(a) == CodeSum(b)
    ensures Ratio(CodeSum(a), CodeSum(b)) == 0.0
  {
  }

  /** A concrete instance of the blind spot: "ad" and "bc" differ but score 0. */
  lemma DifferentStringsCanScoreZero()
    ensures "ad" != "bc" && Ratio(CodeSum("ad"), CodeSum("bc")) == 0.0
  {
    assert "ad"[..1] == "a" && "bc"[..1] == "b";
    assert "a"[..0] == [] && "b"[..0] == [];
  }

  /** Reordering the characters of either string does not change the score. */
  lemma PermutationInvariant(a: string, a': string, b: string, b': string)
    requires multiset(a) == multiset(a') && multiset(b) == multiset(b')
    ensures Ratio(CodeSum(a), CodeSum(b)) == Ratio(CodeSum(a'), CodeSum(b'))
  {
    CodeSumPermutation(a, a');
    CodeSumPermutation(b, b');
  }
}
