/** Canonical Huffman codes, section 3.2.2 of RFC 1951.

A code-length list gives the code length of every symbol, 0 for symbols without a code.  Codes
of one length are consecutive in symbol order, and start where the codes one bit shorter end.
*/
module Huffman {
  import opened Bits

  type Lengths = l: seq<nat> | |l| <= 288 && forall i :: 0 <= i < |l| ==> l[i] < 16

  /** Number of symbols below n with a code of s bits. */
  function CountTo(l: Lengths, n: nat, s: nat): (c: nat)
    requires n <= |l|
    ensures c <= n
    decreases |l| + n
  {
    if n == 0 then 0 else CountTo(l, n - 1, s) + (if l[n - 1] == s then 1 else 0)
  }

  function Count(l: Lengths, s: nat): nat { CountTo(l, |l|, s) }

  /** The code of the first symbol of length s. */
  function FirstCode(l: Lengths, s: nat): nat
    decreases |l| + s
  {
    if s <= 1 then 0 else 2 * (FirstCode(l, s - 1) + Count(l, s - 1))
  }

  /** Number of symbols with codes shorter than s. */
  function FirstSymbol(l: Lengths, s: nat): nat
    decreases |l| + s
  {
    if s <= 1 then 0 else FirstSymbol(l, s - 1) + Count(l, s - 1)
  }

  function Code(l: Lengths, i: nat): nat
    requires i < |l|
  {
    FirstCode(l, l[i]) + CountTo(l, i, l[i])
  }

  /** Position of a symbol when symbols are sorted by length, then by number. */
  function Index(l: Lengths, i: nat): nat
    requires i < |l|
  {
    FirstSymbol(l, l[i]) + CountTo(l, i, l[i])
  }

  /** What the table builder checks: no length has more codes than bit strings. */
  predicate AcceptsAt(l: Lengths, s: nat) {
    Count(l, s) <= Pow2(s) && (Count(l, s) > 0 ==> FirstCode(l, s) + Count(l, s) <= Pow2(s))
  }

  predicate Accepts(l: Lengths) { forall s :: 1 <= s < 16 ==> AcceptsAt(l, s) }

  /** The 16 bits read most significant first that end the codes of length s, exclusively. */
  function Limit(l: Lengths, s: nat): nat
    requires s <= 16
  {
    if s == 0 then 0 else Shl(FirstCode(l, s) + Count(l, s), 16 - s)
  }

  /** The low bits of x, first bit lowest, begin with the code of symbol i. */
  predicate Matches(l: Lengths, i: nat, x: nat) {
    i < |l| && l[i] > 0 && Rev(x, l[i]) == Code(l, i)
  }

  // ---------------------------------------------------------------------------------------
  // Ranks
  // ---------------------------------------------------------------------------------------

  lemma {:induction false} CountMonotone(l: Lengths, m: nat, n: nat, s: nat)
    requires m <= n <= |l|
    ensures CountTo(l, m, s) <= CountTo(l, n, s)
  {
    if m < n { CountMonotone(l, m, n - 1, s); }
  }

  lemma RankBelowCount(l: Lengths, i: nat, n: nat)
    requires i < n <= |l|
    ensures CountTo(l, i, l[i]) < CountTo(l, n, l[i])
  {
    CountMonotone(l, i + 1, n, l[i]);
  }

  /** The symbol with a given length and rank. */
  lemma {:induction false} FindRank(l: Lengths, n: nat, s: nat, r: nat) returns (i: nat)
    requires n <= |l| && r < CountTo(l, n, s)
    ensures i < n && l[i] == s && CountTo(l, i, s) == r
  {
    if l[n - 1] == s && CountTo(l, n - 1, s) == r {
      i := n - 1;
    } else {
      i := FindRank(l, n - 1, s, r);
    }
  }

  lemma SameRank(l: Lengths, i: nat, j: nat)
    requires i < |l| && j < |l| && l[i] == l[j] && CountTo(l, i, l[i]) == CountTo(l, j, l[j])
    ensures i == j
  {
    if i < j {
      RankBelowCount(l, i, j);
    } else if j < i {
      RankBelowCount(l, j, i);
    }
  }

  lemma {:induction false} FirstSymbolMonotone(l: Lengths, s: nat, t: nat)
    requires 1 <= s < t
    ensures FirstSymbol(l, s) + Count(l, s) <= FirstSymbol(l, t)
  {
    if s + 1 < t { FirstSymbolMonotone(l, s, t - 1); }
  }

  /** Different coded symbols have different positions. */
  lemma IndexInjective(l: Lengths, i: nat, j: nat)
    requires i < |l| && j < |l| && l[i] > 0 && l[j] > 0 && Index(l, i) == Index(l, j)
    ensures i == j
  {
    RankBelowCount(l, i, |l|);
    RankBelowCount(l, j, |l|);
    if l[i] == l[j] {
      SameRank(l, i, j);
    } else if l[i] < l[j] {
      FirstSymbolMonotone(l, l[i], l[j]);
    } else {
      FirstSymbolMonotone(l, l[j], l[i]);
    }
  }

  /** Number of symbols below n with codes of 1 to s bits. */
  function CodedTo(l: Lengths, n: nat, s: nat): nat
    requires n <= |l|
  {
    if s == 0 then 0 else CodedTo(l, n, s - 1) + CountTo(l, n, s)
  }

  lemma {:induction false} CodedStep(l: Lengths, n: nat, s: nat)
    requires n < |l|
    ensures CodedTo(l, n + 1, s) == CodedTo(l, n, s) + (if 1 <= l[n] <= s then 1 else 0)
  {
    if s > 0 { CodedStep(l, n, s - 1); }
  }

  lemma {:induction false} CodedBound(l: Lengths, n: nat, s: nat)
    requires n <= |l|
    ensures CodedTo(l, n, s) <= n
  {
    if n > 0 {
      CodedBound(l, n - 1, s);
      CodedStep(l, n - 1, s);
    } else if s > 0 {
      CodedBound(l, n, s - 1);
    }
  }

  lemma {:induction false} FirstSymbolCounts(l: Lengths, s: nat)
    requires s >= 1
    ensures FirstSymbol(l, s) == CodedTo(l, |l|, s - 1)
  {
    if s > 1 { FirstSymbolCounts(l, s - 1); }
  }

  /** Positions stay inside a table with one entry per symbol. */
  lemma IndexBound(l: Lengths, i: nat)
    requires i < |l| && l[i] > 0
    ensures Index(l, i) < |l|
  {
    RankBelowCount(l, i, |l|);
    FirstSymbolCounts(l, l[i]);
    assert CodedTo(l, |l|, l[i]) == CodedTo(l, |l|, l[i] - 1) + CountTo(l, |l|, l[i]);
    CodedBound(l, |l|, l[i]);
  }

  // ---------------------------------------------------------------------------------------
  // Codes
  // ---------------------------------------------------------------------------------------

  lemma {:induction false} CodesFit(l: Lengths, s: nat)
    requires Accepts(l) && 1 <= s < 16
    ensures FirstCode(l, s) + Count(l, s) <= Pow2(s)
  {
    assert AcceptsAt(l, s);
    if s > 1 { CodesFit(l, s - 1); }
  }

  lemma CodeFits(l: Lengths, i: nat)
    requires Accepts(l) && i < |l| && l[i] > 0
    ensures Code(l, i) < Pow2(l[i])
  {
    RankBelowCount(l, i, |l|);
    CodesFit(l, l[i]);
  }

  lemma LimitStep(l: Lengths, s: nat)
    requires 1 <= s <= 16
    ensures Limit(l, s - 1) == FirstCode(l, s) * Pow2(16 - s) <= Limit(l, s)
  {
    var f, c, p := FirstCode(l, s), Count(l, s), Pow2(16 - s);
    Distribute(f, c, p);
    assert c * p >= 0;
    ShlIs(f + c, 16 - s);
    if s > 1 {
      var r: nat := 17 - s;
      assert Pow2(r) == 2 * p;
      ShlIs(FirstCode(l, s - 1) + Count(l, s - 1), r);
      Regroup(FirstCode(l, s - 1) + Count(l, s - 1), p);
    }
  }

  lemma {:induction false} LimitMonotone(l: Lengths, s: nat, t: nat)
    requires s <= t <= 16
    ensures Limit(l, s) <= Limit(l, t)
  {
    if s < t {
      LimitMonotone(l, s, t - 1);
      LimitStep(l, t);
    }
  }

  /** A symbol matches exactly between the limits of its length. */
  lemma MatchLimits(l: Lengths, i: nat, x: nat)
    requires Matches(l, i, x)
    ensures Limit(l, l[i] - 1) <= Rev(x, 16) < Limit(l, l[i])
  {
    var s := l[i];
    RevTop(x, 16, s);
    RankBelowCount(l, i, |l|);
    LimitStep(l, s);
    ShlIs(FirstCode(l, s) + Count(l, s), 16 - s);
    ShrBound(Rev(x, 16), 16 - s, FirstCode(l, s));
    ShrBound(Rev(x, 16), 16 - s, FirstCode(l, s) + Count(l, s));
  }

  /** At most one symbol matches. */
  lemma MatchUnique(l: Lengths, i: nat, j: nat, x: nat)
    requires Matches(l, i, x) && Matches(l, j, x)
    ensures i == j
  {
    MatchLimits(l, i, x);
    MatchLimits(l, j, x);
    if l[i] < l[j] {
      LimitMonotone(l, l[i], l[j] - 1);
    } else if l[j] < l[i] {
      LimitMonotone(l, l[j], l[i] - 1);
    } else {
      SameRank(l, i, j);
    }
  }

  /** Between the limits of a length, the symbol that matches. */
  lemma MatchExists(l: Lengths, s: nat, x: nat) returns (i: nat)
    requires 1 <= s < 16 && Limit(l, s - 1) <= Rev(x, 16) < Limit(l, s)
    ensures Matches(l, i, x) && l[i] == s
    ensures Rev(x, s) == Shr(Rev(x, 16), 16 - s) >= FirstCode(l, s)
    ensures Index(l, i) == Rev(x, s) - FirstCode(l, s) + FirstSymbol(l, s)
  {
    LimitStep(l, s);
    ShlIs(FirstCode(l, s) + Count(l, s), 16 - s);
    ShrBound(Rev(x, 16), 16 - s, FirstCode(l, s));
    ShrBound(Rev(x, 16), 16 - s, FirstCode(l, s) + Count(l, s));
    RevTop(x, 16, s);
    i := FindRank(l, |l|, s, Rev(x, s) - FirstCode(l, s));
  }

  // ---------------------------------------------------------------------------------------
  // Codewords as bit strings
  // ---------------------------------------------------------------------------------------

  /** The low k bits of n, most significant first. */
  function BigEndian(n: nat, k: nat): (b: seq<bool>)
    ensures |b| == k
  {
    if k == 0 then [] else BigEndian(n / 2, k - 1) + [n % 2 == 1]
  }

  /** Value of a bit string whose first bit is the lowest. */
  function Number(b: seq<bool>): nat {
    if b == [] then 0 else (if b[0] then 1 else 0) + 2 * Number(b[1..])
  }

  function Codeword(l: Lengths, i: nat): seq<bool>
    requires i < |l|
  {
    BigEndian(Code(l, i), l[i])
  }

  lemma Double(x: int, y: int)
    ensures (2 * x) * y == 2 * (x * y)
  {
  }

  lemma {:induction false} NumberAppend(a: seq<bool>, b: seq<bool>)
    ensures Number(a + b) == Number(a) + Pow2(|a|) * Number(b)
  {
    if a == [] {
      assert a + b == b;
    } else {
      NumberAppend(a[1..], b);
      assert (a + b)[1..] == a[1..] + b;
      Double(Pow2(|a| - 1), Number(b));
    }
  }

  lemma {:induction false} NumberBound(a: seq<bool>)
    ensures Number(a) < Pow2(|a|)
  {
    if a != [] { NumberBound(a[1..]); }
  }

  /** A codeword, read first bit lowest, is the reversed code. */
  lemma {:induction false} NumberOfBigEndian(n: nat, k: nat)
    ensures Number(BigEndian(n, k)) == Rev(n, k)
  {
    if k > 0 {
      NumberOfBigEndian(n / 2, k - 1);
      NumberAppend(BigEndian(n / 2, k - 1), [n % 2 == 1]);
      assert Number([n % 2 == 1]) == n % 2 + 2 * Number([n % 2 == 1][1..]);
      assert Pow2(k - 1) * (n % 2) == n % 2 * Pow2(k - 1);
    }
  }

  /** A bit string that begins with a symbol's codeword matches that symbol. */
  lemma CodewordMatches(l: Lengths, i: nat, rest: seq<bool>, x: nat)
    requires Accepts(l) && i < |l| && l[i] > 0
    requires Low(x, l[i]) == Low(Number(Codeword(l, i) + rest), l[i])
    ensures Matches(l, i, x)
  {
    var s, w := l[i], Codeword(l, i);
    NumberAppend(w, rest);
    NumberBound(w);
    assert Pow2(s) * Number(rest) == Number(rest) * Pow2(s);
    Parts(Number(w + rest), s, Number(rest), Number(w));
    NumberOfBigEndian(Code(l, i), s);
    CodeFits(l, i);
    RevMatches(x, Code(l, i), s);
  }

  /** The codes the builder accepts are prefix-free: no codeword begins another. */
  lemma PrefixFree(l: Lengths, i: nat, j: nat)
    requires Accepts(l) && i < |l| && j < |l| && l[i] > 0 && l[j] > 0
    requires Codeword(l, i) <= Codeword(l, j)
    ensures i == j
  {
    var v, w := Codeword(l, i), Codeword(l, j);
    var x := Number(w);
    assert w == v + w[|v|..] && w == w + [];
    CodewordMatches(l, i, w[|v|..], x);
    CodewordMatches(l, j, [], x);
    MatchUnique(l, i, j, x);
  }
}
