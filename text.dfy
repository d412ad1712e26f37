/** The parts of Go's `strings`, `unicode` and `utf8` behaviour the core relies
    on, stated over strings of code points. */
module Text {
  import opened Seqs

  // ---------------------------------------------------------------------
  // Byte length (Go's `len` on a string counts UTF-8 bytes)
  // ---------------------------------------------------------------------

  /** Bytes in the UTF-8 encoding of one code point. */
  function RuneLen(c: char): (n: nat)
    ensures 1 <= n <= 4
    ensures n == 1 <==> c as int < 0x80
  {
    if c as int < 0x80 then 1
    else if c as int < 0x800 then 2
    else if c as int < 0x10000 then 3
    else 4
  }

  /** Bytes in the UTF-8 encoding of a string, what Go's `len(s)` returns. */
  function ByteLen(s: string): nat
  {
    if s == [] then 0 else ByteLen(s[..|s| - 1]) + RuneLen(s[|s| - 1])
  }

  lemma {:induction false} ByteLenAppend(a: string, b: string)
    ensures ByteLen(a + b) == ByteLen(a) + ByteLen(b)
    decreases |b|
  {
    if b == [] {
      assert a + b == a;
    } else {
      assert (a + b)[..|a + b| - 1] == a + b[..|b| - 1];
      ByteLenAppend(a, b[..|b| - 1]);
    }
  }

  /** Every code point takes at least one byte and at most four. */
  lemma {:induction false} ByteLenBounds(s: string)
    ensures |s| <= ByteLen(s) <= 4 * |s|
  {
    if s != [] {
      ByteLenBounds(s[..|s| - 1]);
    }
  }

  /** An ASCII string has one byte per rune. */
  lemma {:induction false} ByteLenAscii(s: string)
    requires forall i :: 0 <= i < |s| ==> s[i] as int < 0x80
    ensures ByteLen(s) == |s|
  {
    if s != [] {
      ByteLenAscii(s[..|s| - 1]);
    }
  }

  // ---------------------------------------------------------------------
  // Code-point sums (the accumulation loops of the distance heuristics)
  // ---------------------------------------------------------------------

  /** The sum of the numeric code points of `s`. */
  function CodeSum(s: string): nat
  {
    if s == [] then 0 else CodeSum(s[..|s| - 1]) + s[|s| - 1] as int
  }

  lemma {:induction false} CodeSumAppend(a: string, b: string)
    ensures CodeSum(a + b) == CodeSum(a) + CodeSum(b)
    decreases |b|
  {
    if b == [] {
      assert a + b == a;
    } else {
      assert (a + b)[..|a + b| - 1] == a + b[..|b| - 1];
      CodeSumAppend(a, b[..|b| - 1]);
    }
  }

  /** The sum does not depend on the order of the characters. */
  lemma {:induction false} CodeSumPermutation(a: string, b: string)
    requires multiset(a) == multiset(b)
    ensures CodeSum(a) == CodeSum(b)
    decreases |a|
  {
    if a == [] {
      assert |b| == |multiset(b)| == 0;
    } else {
      var x := a[|a| - 1];
      var a' := a[..|a| - 1];
      assert a == a' + [x];
      assert x in multiset(b);
      var k :| 0 <= k < |b| && b[k] == x;
      var b' := b[..k] + b[k + 1..];
      assert b == b[..k] + [x] + b[k + 1..];
      assert multiset(b') == multiset(b) - multiset{x};
      assert multiset(a') == multiset(a) - multiset{x};
      CodeSumPermutation(a', b');
      CodeSumAppend(a', [x]);
      CodeSumAppend(b[..k], [x]);
      CodeSumAppend(b[..k] + [x], b[k + 1..]);
      CodeSumAppend(b[..k], b[k + 1..]);
    }
  }

  // ---------------------------------------------------------------------
  // unicode.IsSpace, unicode.IsDigit (Unicode 6.2 tables)
  // ---------------------------------------------------------------------

  /** unicode.IsSpace: the Latin-1 spaces and the Unicode White_Space runes. */
  predicate IsSpace(c: char)
  {
    var n := c as int;
    n == 0x09 || n == 0x0A || n == 0x0B || n == 0x0C || n == 0x0D || n == 0x20
    || n == 0x85 || n == 0xA0 || n == 0x1680 || n == 0x180E
    || (0x2000 <= n <= 0x200A) || n == 0x2028 || n == 0x2029
    || n == 0x202F || n == 0x205F || n == 0x3000
  }

  /** `n` lies in the run of ten digits starting at `start`. */
  predicate InRun(n: int, start: int)
  {
    start <= n < start + 10
  }

  /** unicode.IsDigit: a decimal digit of any script, one run of ten per
      script (category Nd), and the mathematical digits. */
  predicate IsDigit(c: char)
  {
    var n := c as int;
    InRun(n, 0x0030) || InRun(n, 0x0660) || InRun(n, 0x06F0) || InRun(n, 0x07C0)
    || InRun(n, 0x0966) || InRun(n, 0x09E6) || InRun(n, 0x0A66) || InRun(n, 0x0AE6)
    || InRun(n, 0x0B66) || InRun(n, 0x0BE6) || InRun(n, 0x0C66) || InRun(n, 0x0CE6)
    || InRun(n, 0x0D66) || InRun(n, 0x0E50) || InRun(n, 0x0ED0) || InRun(n, 0x0F20)
    || InRun(n, 0x1040) || InRun(n, 0x1090) || InRun(n, 0x17E0) || InRun(n, 0x1810)
    || InRun(n, 0x1946) || InRun(n, 0x19D0) || InRun(n, 0x1A80) || InRun(n, 0x1A90)
    || InRun(n, 0x1B50) || InRun(n, 0x1BB0) || InRun(n, 0x1C40) || InRun(n, 0x1C50)
    || InRun(n, 0xA620) || InRun(n, 0xA8D0) || InRun(n, 0xA900) || InRun(n, 0xA9D0)
    || InRun(n, 0xAA50) || InRun(n, 0xABF0) || InRun(n, 0xFF10) || InRun(n, 0x104A0)
    || InRun(n, 0x11066) || InRun(n, 0x110F0) || InRun(n, 0x11136) || InRun(n, 0x111D0)
    || InRun(n, 0x116C0)
    || (0x1D7CE <= n <= 0x1D7FF)
  }

  /** On ASCII, IsDigit is '0'..'9': every other run starts past 0x7F. */
  lemma AsciiDigit(c: char)
    requires c as int < 0x80
    ensures IsDigit(c) <==> '0' <= c <= '9'
  {
  }

  // ---------------------------------------------------------------------
  // strings.TrimSpace
  // ---------------------------------------------------------------------

  function TrimLeft(s: string): string
  {
    if s != [] && IsSpace(s[0]) then TrimLeft(s[1..]) else s
  }

  function TrimRight(s: string): string
  {
    if s != [] && IsSpace(s[|s| - 1]) then TrimRight(s[..|s| - 1]) else s
  }

  /** strings.TrimSpace: `s` without its leading and trailing white space. */
  function TrimSpace(s: string): string
  {
    TrimRight(TrimLeft(s))
  }

  /** TrimLeft drops a run of white space from the front and nothing else. */
  lemma {:induction false} TrimLeftFacts(s: string)
    ensures var r := TrimLeft(s);
      && (r == [] || !IsSpace(r[0]))
      && |r| <= |s| && r == s[|s| - |r|..]
      && forall i :: 0 <= i < |s| - |r| ==> IsSpace(s[i])
  {
    if s != [] && IsSpace(s[0]) {
      TrimLeftFacts(s[1..]);
    }
  }

  /** TrimRight drops a run of white space from the back and nothing else. */
  lemma {:induction false} TrimRightFacts(s: string)
    ensures var r := TrimRight(s);
      && (r == [] || !IsSpace(r[|r| - 1]))
      && |r| <= |s| && r == s[..|r|]
      && forall i :: |r| <= i < |s| ==> IsSpace(s[i])
  {
    if s != [] && IsSpace(s[|s| - 1]) {
      TrimRightFacts(s[..|s| - 1]);
    }
  }

  /** TrimSpace leaves no white space at either end, never grows, and keeps
      a string that has none there. */
  lemma TrimSpaceFacts(s: string)
    ensures var r := TrimSpace(s);
      && (r == [] || (!IsSpace(r[0]) && !IsSpace(r[|r| - 1])))
      && |r| <= |s|
      && (s == [] || (!IsSpace(s[0]) && !IsSpace(s[|s| - 1])) ==> r == s)
  {
    var l := TrimLeft(s);
    TrimLeftFacts(s);
    TrimRightFacts(l);
    var r := TrimRight(l);
    if r != [] {
      assert r[0] == l[0];
    }
  }

  /** What TrimSpace keeps is a contiguous piece of its input. */
  lemma TrimSpaceIsInfix(s: string)
    ensures Contains(s, TrimSpace(s))
  {
    var l := TrimLeft(s);
    var r := TrimRight(l);
    TrimLeftFacts(s);
    TrimRightFacts(l);
    var k := |s| - |l|;
    SliceOfSlice(s, k, |r|);
    ContainsAt(s, r, k);
  }

  // ---------------------------------------------------------------------
  // strings.Contains, strings.Split, strings.ToLower
  // ---------------------------------------------------------------------

  predicate HasPrefix(s: string, prefix: string)
  {
    |prefix| <= |s| && s[..|prefix|] == prefix
  }

  /** strings.Contains: `sub` occurs somewhere in `s`. */
  predicate Contains(s: string, sub: string)
    decreases |s|
  {
    HasPrefix(s, sub) || (s != [] && Contains(s[1..], sub))
  }

  lemma {:induction false} ContainsAt(s: string, sub: string, i: nat)
    requires i + |sub| <= |s| && s[i..i + |sub|] == sub
    ensures Contains(s, sub)
    decreases i
  {
    if i > 0 {
      assert s[1..][i - 1..i - 1 + |sub|] == sub;
      ContainsAt(s[1..], sub, i - 1);
    }
  }

  /** Occurrences of `c` in `s`. */
  function Count(s: string, c: char): nat
  {
    if s == [] then 0 else Count(s[..|s| - 1], c) + (if s[|s| - 1] == c then 1 else 0)
  }

  lemma {:induction false} CountAppend(a: string, b: string, c: char)
    ensures Count(a + b, c) == Count(a, c) + Count(b, c)
    decreases |b|
  {
    if b == [] {
      assert a + b == a;
    } else {
      assert (a + b)[..|a + b| - 1] == a + b[..|b| - 1];
      CountAppend(a, b[..|b| - 1], c);
    }
  }

  lemma CountThree(s: string, c: char)
    requires |s| == 3
    ensures Count(s, c) == (if s[0] == c then 1 else 0) + (if s[1] == c then 1 else 0) + (if s[2] == c then 1 else 0)
  {
    assert Count(s[..1], c) == (if s[0] == c then 1 else 0) by {
      assert s[..1][..0] == [];
    }
    assert s[..2][..1] == s[..1];
    assert s[..2] == s[..|s| - 1];
  }

  lemma {:induction false} CountZero(s: string, c: char)
    ensures Count(s, c) == 0 <==> c !in s
  {
    if s != [] {
      CountZero(s[..|s| - 1], c);
      assert s == s[..|s| - 1] + [s[|s| - 1]];
    }
  }

  /** Index of the first `c` in `s`. */
  function IndexOf(s: string, c: char): (i: nat)
    requires c in s
    ensures i < |s| && s[i] == c
  {
    if s[0] == c then 0 else 1 + IndexOf(s[1..], c)
  }

  /** IndexOf finds the first `c`. */
  lemma {:induction false} IndexOfFirst(s: string, c: char)
    requires c in s
    ensures c !in s[..IndexOf(s, c)]
  {
    if s[0] != c {
      IndexOfFirst(s[1..], c);
      assert s[..IndexOf(s, c)] == [s[0]] + s[1..][..IndexOf(s[1..], c)];
    }
  }

  /** strings.Split with a one-rune separator: the pieces between the
      separators, always at least one. */
  function Split(s: string, sep: char): (parts: seq<string>)
    ensures |parts| >= 1
  {
    if s == [] then [""]
    else
      var rest := Split(s[1..], sep);
      if s[0] == sep then [""] + rest else [[s[0]] + rest[0]] + rest[1..]
  }

  /** A string without the separator is one piece. */
  lemma {:induction false} SplitNone(s: string, sep: char)
    requires sep !in s
    ensures Split(s, sep) == [s]
  {
    if s != [] {
      SplitNone(s[1..], sep);
      assert [s[0]] + s[1..] == s;
    }
  }

  /** Splitting a piece free of separators, a separator and the rest gives
      that piece followed by the pieces of the rest. */
  lemma {:induction false} SplitAfter(a: string, b: string, sep: char)
    requires sep !in a
    ensures Split(a + [sep] + b, sep) == [a] + Split(b, sep)
  {
    var s := a + [sep] + b;
    if a == [] {
      assert s[1..] == b;
    } else {
      assert s[1..] == a[1..] + [sep] + b;
      SplitAfter(a[1..], b, sep);
      assert [a[0]] + a[1..] == a;
    }
  }

  /** No piece of a split holds the separator. */
  lemma {:induction false} SplitPiecesAreFree(s: string, sep: char)
    ensures forall k :: 0 <= k < |Split(s, sep)| ==> sep !in Split(s, sep)[k]
  {
    if s != [] {
      SplitPiecesAreFree(s[1..], sep);
    }
  }

  /** Split yields one piece more than there are separators. */
  lemma {:induction false} SplitCount(s: string, sep: char)
    ensures |Split(s, sep)| == Count(s, sep) + 1
  {
    if s != [] {
      SplitCount(s[1..], sep);
      assert s == [s[0]] + s[1..];
      CountAppend([s[0]], s[1..], sep);
      assert [s[0]][..0] == [];
    }
  }

  /** With exactly one separator, the two pieces are what lies before and
      after it. */
  lemma SplitOnce(s: string, sep: char)
    requires Count(s, sep) == 1
    ensures sep in s
    ensures Split(s, sep) == [s[..IndexOf(s, sep)], s[IndexOf(s, sep) + 1..]]
  {
    CountZero(s, sep);
    var i := IndexOf(s, sep);
    IndexOfFirst(s, sep);
    CountAround(s, i, sep);
    CountZero(s[i + 1..], sep);
    assert s == s[..i] + [sep] + s[i + 1..];
    SplitAfter(s[..i], s[i + 1..], sep);
    SplitNone(s[i + 1..], sep);
  }

  /** The count of `c` around one of its occurrences. */
  lemma CountAround(s: string, i: nat, c: char)
    requires i < |s| && s[i] == c
    ensures Count(s, c) == Count(s[..i], c) + 1 + Count(s[i + 1..], c)
  {
    assert s == s[..i] + [c] + s[i + 1..];
    CountAppend(s[..i] + [c], s[i + 1..], c);
    CountAppend(s[..i], [c], c);
    assert [c][..0] == [];
  }

  function LowerRune(c: char): char
  {
    if 'A' <= c <= 'Z' then (c as int + 32) as char else c
  }

  /** strings.ToLower on the ASCII letters. */
  function ToLower(s: string): (r: string)
    ensures |r| == |s|
    ensures forall i :: 0 <= i < |s| ==> r[i] == LowerRune(s[i])
  {
    seq(|s|, i requires 0 <= i < |s| => LowerRune(s[i]))
  }
}
