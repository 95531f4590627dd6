/** The decoding tables of base/include/ssfn.h: a 9-bit fast table and a slow path by length. */
module HuffmanTables {
  import opened Wrappers
  import opened Bits
  import opened Huffman

  /** The symbol whose code begins x, if there is one. */
  ghost function Lookup(l: Lengths, x: nat): Option<nat> {
    if exists i: nat :: Matches(l, i, x) then
      var i: nat :| Matches(l, i, x);
      Some(i)
    else None
  }

  lemma LookupIs(l: Lengths, i: nat, x: nat)
    requires Matches(l, i, x)
    ensures Lookup(l, x) == Some(i)
  {
    MatchUnique(l, i, Lookup(l, x).value, x);
  }

  /** Entry j of the fast table over the symbols below n: the length and the symbol, or 0. */
  function FastEntry(l: Lengths, n: nat, j: nat): nat
    requires n <= |l|
  {
    if n == 0 then 0
    else if l[n - 1] <= 9 && Matches(l, n - 1, j) then 512 * l[n - 1] + (n - 1)
    else FastEntry(l, n - 1, j)
  }

  lemma {:induction false} FastEntryFinds(l: Lengths, n: nat, j: nat)
    requires n <= |l|
    ensures var e := FastEntry(l, n, j);
            if e == 0 then forall i :: 0 <= i < n && l[i] <= 9 ==> !Matches(l, i, j)
            else Matches(l, e % 512, j) && l[e % 512] == e / 512 <= 9
  {
    if n > 0 && !(l[n - 1] <= 9 && Matches(l, n - 1, j)) {
      FastEntryFinds(l, n - 1, j);
    }
  }

  /** Reversal of the low `bits` bits through a 16-bit reversal. */
  function BitReverse(v: nat, bits: nat): nat
    requires bits <= 16
  {
    Shr(Rev(v, 16), 16 - bits)
  }

  predicate CountsFit(l: Lengths, n: nat) { forall s :: 1 <= s < n ==> Count(l, s) <= Pow2(s) }

  predicate AcceptsUpTo(l: Lengths, n: nat) { forall s :: 1 <= s < n ==> AcceptsAt(l, s) }

  /** One code length of the builder's first loop. */
  lemma LevelStep(l: Lengths, s: nat, code: nat, n: nat)
    requires 1 <= s < 16 && CountsFit(l, 16) && AcceptsUpTo(l, s)
    requires code == FirstCode(l, s) && n == Count(l, s)
    ensures Limit(l, s) == Shl(code + n, 16 - s) && FirstCode(l, s + 1) == 2 * (code + n)
    ensures FirstSymbol(l, s + 1) == FirstSymbol(l, s) + n
    ensures if n > 0 && code + n - 1 >= Pow2(s) then !Accepts(l) else AcceptsUpTo(l, s + 1)
  {
    assert AcceptsAt(l, s) <==> !(n > 0 && code + n - 1 >= Pow2(s));
  }

  class Table {
    const fast: array<nat>
    const firstcode: array<nat>
    const maxcode: array<nat>
    const firstsymbol: array<nat>
    const size: array<nat>
    const value: array<nat>

    constructor ()
      ensures Shape() && fresh(Arrays())
    {
      fast, firstcode, maxcode := new nat[512], new nat[16], new nat[17];
      firstsymbol, size, value := new nat[16], new nat[288], new nat[288];
    }

    function Arrays(): set<array<nat>> {
      {fast, firstcode, maxcode, firstsymbol, size, value}
    }

    predicate Shape() {
      && fast.Length == 512 && firstcode.Length == 16 && maxcode.Length == 17
      && firstsymbol.Length == 16 && size.Length == 288 && value.Length == 288
      && fast != firstcode && fast != maxcode && fast != firstsymbol && fast != size
      && fast != value && firstcode != maxcode && firstcode != firstsymbol && firstcode != size
      && firstcode != value && maxcode != firstsymbol && maxcode != size && maxcode != value
      && firstsymbol != size && firstsymbol != value && size != value
    }

    predicate LevelsUpTo(l: Lengths, n: nat)
      requires Shape() && n <= 16
      reads firstcode, maxcode, firstsymbol
    {
      forall s :: 1 <= s < n ==> firstcode[s] == FirstCode(l, s)
                                 && firstsymbol[s] == FirstSymbol(l, s)
                                 && maxcode[s] == Limit(l, s)
    }

    predicate FastUpTo(l: Lengths, n: nat)
      requires Shape() && n <= |l|
      reads fast
    {
      forall j :: 0 <= j < 512 ==> fast[j] == FastEntry(l, n, j)
    }

    predicate ValuesUpTo(l: Lengths, n: nat)
      requires Shape() && n <= |l|
      reads value
    {
      forall i :: 0 <= i < n && l[i] > 0 ==> Index(l, i) < 288 && value[Index(l, i)] == i
    }

    /** What the tables say about table index, code length or symbol j. */
    predicate EntryOk(l: Lengths, j: nat)
      requires Shape()
      reads fast, firstcode, maxcode, firstsymbol, value
    {
      && (j < 512 ==> fast[j] == FastEntry(l, |l|, j))
      && (1 <= j < 16 ==> firstcode[j] == FirstCode(l, j) && firstsymbol[j] == FirstSymbol(l, j)
                          && maxcode[j] == Limit(l, j))
      && (j < |l| && l[j] > 0 ==> Index(l, j) < 288 && value[Index(l, j)] == j)
    }

    /** The tables hold the canonical code of l. */
    ghost predicate Built(l: Lengths)
      reads fast, firstcode, maxcode, firstsymbol, value
    {
      Shape() && maxcode[16] == 0x1_0000 && forall j: nat :: EntryOk(l, j)
    }

    /** _ssfn__zbuild_huffman: accepts exactly the lists that are no over-full code. */
    method Build(l: Lengths) returns (ok: bool)
      requires Shape()
      modifies Arrays()
      ensures ok <==> Accepts(l)
      ensures ok ==> Built(l)
    {
      var sizes := new nat[17](_ => 0);
      for j := 0 to 512
        invariant forall i :: 0 <= i < j ==> fast[i] == 0
        invariant forall s :: 0 <= s < 17 ==> sizes[s] == 0
      {
        fast[j] := 0;
      }
      for i := 0 to |l|
        invariant forall s :: 0 <= s < 16 ==> sizes[s] == CountTo(l, i, s)
        invariant forall j :: 0 <= j < 512 ==> fast[j] == 0
      {
        sizes[l[i]] := sizes[l[i]] + 1;
      }
      sizes[0] := 0;
      for s := 1 to 16
        invariant CountsFit(l, s)
        invariant forall t :: 1 <= t < 16 ==> sizes[t] == Count(l, t)
        invariant forall j :: 0 <= j < 512 ==> fast[j] == 0
      {
        if sizes[s] > Pow2(s) {
          assert !AcceptsAt(l, s);
          return false;
        }
      }
      var nextCode := new nat[16](_ => 0);
      ok := BuildLevels(l, sizes, nextCode);
      if ok {
        maxcode[16] := 0x1_0000;
        BuildEntries(l, nextCode);
        assert forall j: nat :: EntryOk(l, j);
      }
    }

    /** Where the next code of every length is once the symbols below i have theirs. */
    static predicate NextAt(l: Lengths, next: seq<nat>, i: nat) {
      && |next| == 16 && i <= |l|
      && forall t :: 1 <= t < 16 ==> next[t] == FirstCode(l, t) + CountTo(l, i, t)
    }

    static lemma NextStep(l: Lengths, next: seq<nat>, i: nat)
      requires NextAt(l, next, i) && i < |l|
      ensures l[i] == 0 ==> NextAt(l, next, i + 1)
      ensures l[i] > 0 ==> next[l[i]] == Code(l, i) && NextAt(l, next[l[i] := next[l[i]] + 1], i + 1)
    {
    }

    predicate NextUpTo(l: Lengths, nextCode: array<nat>, n: nat)
      requires nextCode.Length == 16 && n <= 16
      reads nextCode
    {
      forall s :: 1 <= s < n ==> nextCode[s] == FirstCode(l, s)
    }

    /** The first loop over the code lengths. */
    method BuildLevels(l: Lengths, sizes: array<nat>, nextCode: array<nat>) returns (ok: bool)
      requires Shape() && sizes.Length == 17 && nextCode.Length == 16
      requires sizes !in Arrays() && nextCode !in Arrays() && sizes != nextCode
      requires CountsFit(l, 16) && forall t :: 1 <= t < 16 ==> sizes[t] == Count(l, t)
      modifies nextCode, firstcode, firstsymbol, maxcode
      ensures ok <==> Accepts(l)
      ensures ok ==> LevelsUpTo(l, 16) && NextUpTo(l, nextCode, 16)
    {
      var code, k := 0, 0;
      ok := true;
      for s := 1 to 16
        invariant code == FirstCode(l, s) && k == FirstSymbol(l, s)
        invariant AcceptsUpTo(l, s) && NextUpTo(l, nextCode, s) && LevelsUpTo(l, s)
        invariant sizes[..] == old(sizes[..])
      {
        var n := sizes[s];
        assert n == Count(l, s) by { assert sizes[..][s] == old(sizes[..])[s]; }
        LevelStep(l, s, code, n);
        nextCode[s] := code;
        firstcode[s] := code;
        firstsymbol[s] := k;
        code := code + n;
        if n > 0 && code - 1 >= Pow2(s) {
          return false;
        }
        maxcode[s] := Shl(code, 16 - s);
        code := 2 * code;
        k := k + n;
      }
    }

    /** The loop over the symbols. */
    method BuildEntries(l: Lengths, nextCode: array<nat>)
      requires Shape() && nextCode.Length == 16 && nextCode !in Arrays() && Accepts(l)
      requires LevelsUpTo(l, 16) && FastUpTo(l, 0)
      requires NextUpTo(l, nextCode, 16)
      modifies nextCode, fast, size, value
      ensures LevelsUpTo(l, 16) && FastUpTo(l, |l|) && ValuesUpTo(l, |l|)
    {
      assert NextAt(l, nextCode[..], 0);
      for i := 0 to |l|
        invariant NextAt(l, nextCode[..], i)
        invariant LevelsUpTo(l, 16) && FastUpTo(l, i) && ValuesUpTo(l, i)
      {
        var s := l[i];
        ghost var next := nextCode[..];
        NextStep(l, next, i);
        if s > 0 {
          var code := nextCode[s];
          nextCode[s] := nextCode[s] + 1;
          assert nextCode[..] == next[s := code + 1];
          EnterSymbol(l, i, code);
        } else {
          NoEntry(l, i);
        }
      }
    }

    lemma NoEntry(l: Lengths, i: nat)
      requires Shape() && i < |l| && l[i] == 0 && FastUpTo(l, i) && ValuesUpTo(l, i)
      ensures FastUpTo(l, i + 1) && ValuesUpTo(l, i + 1)
    {
    }

    /** The tables with symbol i. */
    method EnterSymbol(l: Lengths, i: nat, code: nat)
      requires Shape() && Accepts(l) && LevelsUpTo(l, 16) && i < |l| && l[i] > 0
      requires code == Code(l, i) && FastUpTo(l, i) && ValuesUpTo(l, i)
      modifies fast, size, value
      ensures FastUpTo(l, i + 1) && ValuesUpTo(l, i + 1)
    {
      var s := l[i];
      PlaceValue(l, i, code - firstcode[s] + firstsymbol[s]);
      if s <= 9 { FillFast(l, i, code); }
    }

    /** Stores symbol i at its position in the table sorted by length. */
    method PlaceValue(l: Lengths, i: nat, c: nat)
      requires Shape() && i < |l| && l[i] > 0 && c == Index(l, i) && ValuesUpTo(l, i)
      modifies size, value
      ensures ValuesUpTo(l, i + 1)
    {
      IndexBound(l, i);
      forall j | 0 <= j < i && l[j] > 0 && Index(l, j) == c ensures false {
        IndexInjective(l, i, j);
      }
      size[c] := l[i];
      value[c] := i;
    }

    /** Writes one symbol to every fast entry whose low bits are its reversed code. */
    method FillFast(l: Lengths, i: nat, code: nat)
      requires Shape() && Accepts(l) && i < |l| && 0 < l[i] <= 9 && code == Code(l, i)
      requires FastUpTo(l, i)
      modifies fast
      ensures FastUpTo(l, i + 1)
    {
      var s := l[i];
      var step := Pow2(s);
      var j := BitReverse(code, s);
      RevTop(code, 16, s);
      RevBound(code, s);
      CodeFits(l, i);
      ghost var q: nat := 0;
      forall k: nat | k < j ensures Low(k, s) != Rev(code, s) {
        Parts(k, s, 0, k);
      }
      while j < 512
        invariant j == q * step + Rev(code, s)
        invariant forall k :: 0 <= k < 512 ==>
          fast[k] == if k < j && Low(k, s) == Rev(code, s) then 512 * s + i
                     else FastEntry(l, i, k)
        decreases 512 - j
      {
        fast[j] := Or(512 * s, i);
        OrLow(s, i);
        forall k | j < k < j + step ensures Low(k, s) != Rev(code, s) {
          NotAligned(k, s, q, Rev(code, s));
        }
        Parts(j, s, q, Rev(code, s));
        Distribute(q, 1, step);
        q := q + 1;
        j := j + step;
      }
      forall k | 0 <= k < 512 ensures fast[k] == FastEntry(l, i + 1, k) {
        RevMatches(k, code, s);
      }
    }
  }

  /** Between two consecutive numbers with the same low bits there is no third. */
  lemma NotAligned(k: nat, s: nat, q: nat, r: nat)
    requires r < Pow2(s) && q * Pow2(s) + r < k < q * Pow2(s) + r + Pow2(s)
    ensures Low(k, s) != r
  {
    if Low(k, s) == r {
      Whole(k, s);
      assert (Shr(k, s) - q) * Pow2(s) == Shr(k, s) * Pow2(s) - q * Pow2(s);
      SmallMultiple(Shr(k, s) - q, Pow2(s));
    }
  }

  lemma OrLow(s: nat, i: nat)
    requires i < 512
    ensures Or(512 * s, i) == 512 * s + i
  {
    assert Pow2(9) == 512;
    OrDisjoint(i, s, 9);
    OrCommutes(i, 512 * s);
  }
}
