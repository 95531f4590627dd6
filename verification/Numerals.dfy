/** Numbers as strings: the digit loop of lai/core/vsnprintf.c and the two parsers of
lai/core/object.c.
*/
module Numerals {
  import opened Bits
  import opened Wrappers

  const WORD: nat := 0x1_0000_0000_0000_0000

  // ---------------------------------------------------------------------------------------
  // Digits
  // ---------------------------------------------------------------------------------------

  function DigitChar(d: nat, upper: bool): char
    requires d < 16
  {
    if d < 10 then '0' + d as char else if upper then 'A' + (d - 10) as char
    else 'a' + (d - 10) as char
  }

  /** Value of a hexadecimal digit. */
  function HexValue(c: char): Option<nat> {
    if '0' <= c <= '9' then Some((c - '0') as nat)
    else if 'a' <= c <= 'f' then Some((c - 'a') as nat + 10)
    else if 'A' <= c <= 'F' then Some((c - 'A') as nat + 10)
    else None
  }

  lemma DigitHasValue(d: nat, upper: bool)
    requires d < 16
    ensures HexValue(DigitChar(d, upper)) == Some(d)
    ensures d < 10 ==> '0' <= DigitChar(d, upper) <= '9' && (DigitChar(d, upper) - '0') as nat == d
  {
  }

  /** The last `limit` digits of i, without leading zeros; a limit of -1 is no limit. */
  function Digits(i: nat, base: nat, upper: bool, limit: int): (s: string)
    requires 2 <= base <= 16
    ensures s != ""
    decreases i
  {
    var rest := if limit > 0 then limit - 1 else limit;
    QuotientSmaller(i, base);
    (if i / base != 0 && rest != 0 then Digits(i / base, base, upper, rest) else "")
    + [DigitChar(i % base, upper)]
  }

  function Pad(c: char, n: nat): (s: string)
    ensures |s| == n && forall k :: 0 <= k < n ==> s[k] == c
  {
    seq(n, _ => c)
  }

  function Padded(s: string, padding: nat, c: char): string {
    if |s| < padding then Pad(c, padding - |s|) + s else s
  }

  /** How many digits i has. */
  function Length(i: nat, base: nat): (n: nat)
    requires 2 <= base
    ensures n > 0
    decreases i
  {
    QuotientSmaller(i, base);
    if i / base == 0 then 1 else 1 + Length(i / base, base)
  }

  lemma {:induction false} DigitsLength(i: nat, base: nat, upper: bool, limit: int)
    requires 2 <= base <= 16 && limit != 0 && limit >= -1
    ensures |Digits(i, base, upper, limit)|
            == if limit == -1 || Length(i, base) <= limit then Length(i, base) else limit
    decreases i
  {
    var rest := if limit > 0 then limit - 1 else limit;
    if i / base != 0 && rest != 0 { DigitsLength(i / base, base, upper, rest); }
  }

  lemma DivSmaller(i: nat, b: nat, p: nat)
    requires b > 0 && i < b * p
    ensures i / b < p
  {
    assert b * p == p * b;
    DivBound(i, b, p);
  }

  lemma {:induction false} LengthBound(i: nat, base: nat, n: nat)
    requires 2 <= base && i < Power(base, n) && n > 0
    ensures Length(i, base) <= n
    decreases n
  {
    DivSmaller(i, base, Power(base, n - 1));
    if i / base != 0 {
      LengthBound(i / base, base, n - 1);
    }
  }

  function Power(b: nat, n: nat): nat { if n == 0 then 1 else b * Power(b, n - 1) }

  lemma QuotientSmaller(n: nat, d: nat)
    requires d >= 2
    ensures 0 <= n / d && (n / d > 0 ==> n / d < n)
  {
    DivMod(n, d);
    DivNat(n, d);
    NonNegative(d - 2, n / d);
    Distribute(d - 2, 2, n / d);
    assert n / d * d == d * (n / d);
  }

  const INT: nat := 0x1_0000_0000

  /** (signed)i: the low 32 bits in two's complement. */
  function AsInt(i: nat): int { if i % INT < INT / 2 then i % INT else i % INT - INT }

  /** A signed conversion of a negative int prints a sign and the opposite. */
  predicate Negative(i: nat, signed: bool) { signed && AsInt(i) < 0 }

  function Magnitude(i: nat, signed: bool): nat { if Negative(i, signed) then -AsInt(i) else i }

  /** num_fmt: fills a buffer from its end with the digits, the padding and the sign. */
  method NumFmt(i: nat, base: nat, padding: nat, padWith: char, signed: bool, upper: bool,
                limit: int)
    returns (s: string)
    requires 2 <= base <= 16 && limit != 0 && limit >= -1
    requires var room := if Negative(i, signed) then 48 else 49;
      |Digits(Magnitude(i, signed), base, upper, limit)| <= room && padding <= room
    ensures s == (if Negative(i, signed) then "-" else "")
                 + Padded(Digits(Magnitude(i, signed), base, upper, limit), padding, padWith)
  {
    var buf := new char[50](_ => '0');
    var ptr := PutDigits(buf, Magnitude(i, signed), base, padding, padWith, upper, limit);
    if Negative(i, signed) { ptr := PutDigit(buf, ptr, '-'); }
    s := buf[ptr..49];
  }

  /** The digits of n and the padding, at the end of the buffer. */
  method PutDigits(buf: array<char>, i: nat, base: nat, padding: nat, padWith: char, upper: bool,
                   limit: int)
    returns (ptr: nat)
    requires buf.Length == 50 && 2 <= base <= 16 && limit != 0 && limit >= -1
    requires |Digits(i, base, upper, limit)| <= 49 && padding <= 49
    modifies buf
    ensures ptr <= 49 && buf[ptr..49] == Padded(Digits(i, base, upper, limit), padding, padWith)
  {
    ghost var all := Digits(i, base, upper, limit);
    var n: nat, len, pad := i, limit, padding;
    var more := true;
    ptr := 49;
    while more
      invariant 0 <= ptr <= 49 && (more ==> len != 0 && len >= -1)
      invariant all == (if more then Digits(n, base, upper, len) else "") + buf[ptr..49]
      invariant pad == if padding > 49 - ptr then padding - (49 - ptr) else 0
      decreases if more then n + 1 else 0
    {
      assert |all| == |Digits(n, base, upper, len)| + (49 - ptr);
      var c;
      n, c, len, more := NextDigit(n, base, upper, len);
      ptr := PutDigit(buf, ptr, c);
      if pad > 0 { pad := pad - 1; }
    }
    ptr := PadLeft(buf, ptr, pad, padWith);
  }

  /** The last digit of n and what is left to print. */
  method NextDigit(n: nat, base: nat, upper: bool, limit: int)
    returns (q: nat, c: char, rest: int, more: bool)
    requires 2 <= base <= 16 && limit != 0 && limit >= -1
    ensures Digits(n, base, upper, limit)
         == (if more then Digits(q, base, upper, rest) else "") + [c]
    ensures more ==> q < n && rest != 0 && rest >= -1
  {
    QuotientSmaller(n, base);
    q, c, rest := n / base, DigitChar(n % base, upper), if limit > 0 then limit - 1 else limit;
    more := q != 0 && rest != 0;
  }

  /** *--ptr = c. */
  method PutDigit(buf: array<char>, ptr: nat, c: char) returns (p: nat)
    requires buf.Length == 50 && 0 < ptr <= 49
    modifies buf
    ensures p == ptr - 1 && buf[p..49] == [c] + old(buf[ptr..49])
  {
    p := ptr - 1;
    buf[p] := c;
  }

  /** The loop of num_fmt that pads on the left. */
  method PadLeft(buf: array<char>, start: nat, n: nat, c: char) returns (ptr: nat)
    requires buf.Length == 50 && n <= start <= 49
    modifies buf
    ensures ptr <= 49 && buf[ptr..49] == Pad(c, n) + old(buf[start..49])
  {
    ptr := start;
    var k: nat := 0;
    while k < n
      invariant k <= n && ptr == start - k && buf[ptr..49] == Pad(c, k) + old(buf[start..49])
    {
      ptr := PutDigit(buf, ptr, c);
      assert Pad(c, k + 1) == [c] + Pad(c, k);
      k := k + 1;
    }
  }

  // ---------------------------------------------------------------------------------------
  // What a string of digits denotes
  // ---------------------------------------------------------------------------------------

  predicate IsDigit(c: char, base: nat) {
    HexValue(c).Some? && HexValue(c).value < base
  }

  predicate Numeral(s: string, base: nat) {
    forall i :: 0 <= i < |s| ==> IsDigit(s[i], base)
  }

  /** The number that s denotes by position. */
  function ValueOf(s: string, base: nat): nat
    requires Numeral(s, base)
  {
    if s == "" then 0
    else base * ValueOf(s[..|s| - 1], base) + HexValue(s[|s| - 1]).value
  }

  lemma ValueStep(s: string, i: nat, base: nat)
    requires i < |s| && Numeral(s[..i], base) && IsDigit(s[i], base)
    ensures Numeral(s[..i + 1], base)
    ensures ValueOf(s[..i + 1], base) == base * ValueOf(s[..i], base) + HexValue(s[i]).value
  {
    assert s[..i + 1] == s[..i] + [s[i]];
    assert s[..i + 1][..i] == s[..i];
  }

  lemma {:induction false} ValueBound(s: string, base: nat)
    requires base > 0 && Numeral(s, base)
    ensures ValueOf(s, base) < Power(base, |s|)
    decreases |s|
  {
    if s != "" {
      var w := s[..|s| - 1];
      ValueBound(w, base);
      assert IsDigit(s[|w|], base);
      Below(base, ValueOf(w, base), HexValue(s[|w|]).value, Power(base, |w|));
    }
  }

  lemma Below(base: nat, v: nat, d: nat, p: nat)
    requires v < p && d < base
    ensures base * v + d < base * p
  {
    DigitFits(base, v, d, p);
    assert base * v == v * base && base * p == p * base;
  }

  lemma {:induction false} LeadingZeros(n: nat, s: string, base: nat)
    requires base > 0 && Numeral(s, base)
    ensures Numeral(Pad('0', n) + s, base) && ValueOf(Pad('0', n) + s, base) == ValueOf(s, base)
    decreases n + |s|
  {
    var all := Pad('0', n) + s;
    if s != "" {
      LeadingZeros(n, s[..|s| - 1], base);
      assert all[..|all| - 1] == Pad('0', n) + s[..|s| - 1];
    } else if n > 0 {
      LeadingZeros(n - 1, s, base);
      assert all[..n - 1] == Pad('0', n - 1) + s;
    }
  }

  /** Printing and reading back by position: exact when the digits kept are enough. */
  lemma {:induction false} DigitsDenote(i: nat, base: nat, upper: bool, limit: int)
    requires 2 <= base <= 16 && limit != 0 && limit >= -1
    requires limit == -1 || i < Power(base, limit)
    ensures Numeral(Digits(i, base, upper, limit), base)
    ensures ValueOf(Digits(i, base, upper, limit), base) == i
    decreases i
  {
    var rest := if limit > 0 then limit - 1 else limit;
    var s := Digits(i, base, upper, limit);
    QuotientSmaller(i, base);
    if limit > 0 { DivSmaller(i, base, Power(base, limit - 1)); }
    if i / base != 0 {
      DigitsDenote(i / base, base, upper, rest);
    }
    var w := if i / base != 0 then Digits(i / base, base, upper, rest) else "";
    assert s == w + [DigitChar(i % base, upper)];
    LastDigit(w, i % base, base, upper);
    Divided(i, base);
  }

  /** What the sign and the decimal digits of a signed conversion denote. */
  function SignedValue(i: nat): int
  {
    DigitsDenote(Magnitude(i, true), 10, false, -1);
    var v: int := ValueOf(Digits(Magnitude(i, true), 10, false, -1), 10);
    if Negative(i, true) then -v else v
  }

  lemma SignedIs(i: nat)
    ensures SignedValue(i) == if AsInt(i) < 0 then AsInt(i) else i
  {
    DigitsDenote(Magnitude(i, true), 10, false, -1);
  }

  lemma TwosComplement(v: int)
    ensures (v + WORD) % INT == v % INT
  {
  }

  /** A 64-bit number v in two's complement is printed right exactly if it is a negative int or a
      number whose bit 31 is clear. */
  lemma SignedRight(v: int)
    requires -(WORD / 2) <= v < WORD / 2
    ensures var i: nat := if v < 0 then v + WORD else v;
      SignedValue(i) == v <==> if v < 0 then v >= -(INT / 2) else v % INT < INT / 2
  {
    SignedIs(if v < 0 then v + WORD else v);
    TwosComplement(v);
  }

  lemma Divided(i: nat, base: nat)
    requires base > 0
    ensures i / base >= 0 && base * (i / base) + i % base == i
  {
  }

  lemma LastDigit(w: string, d: nat, base: nat, upper: bool)
    requires d < base <= 16 && Numeral(w, base)
    ensures Numeral(w + [DigitChar(d, upper)], base)
    ensures ValueOf(w + [DigitChar(d, upper)], base) == base * ValueOf(w, base) + d
  {
    DigitHasValue(d, upper);
    assert (w + [DigitChar(d, upper)])[..|w|] == w;
  }

  // ---------------------------------------------------------------------------------------
  // Hexadecimal
  // ---------------------------------------------------------------------------------------

  /** What "%016lX" prints. */
  function HexText(v: nat): string {
    Padded(Digits(v, 16, true, 16), 16, '0')
  }

  /** lai_mutate_string of an integer. */
  method HexString(v: nat) returns (s: string)
    requires v < WORD
    ensures s == HexText(v) && |s| == 16
  {
    DigitsLength(v, 16, true, 16);
    s := NumFmt(v, 16, 16, '0', false, true, 16);
  }

  /** How many hexadecimal digits s begins with, at most n. */
  function Leading(s: string, n: nat): (k: nat)
    ensures k <= n && k <= |s|
  {
    if n == 0 || s == "" || !IsDigit(s[0], 16) then 0 else 1 + Leading(s[1..], n - 1)
  }

  lemma {:induction false} LeadingIs(s: string, n: nat, k: nat)
    requires k <= n && k <= |s| && Numeral(s[..k], 16)
    requires k == n || k == |s| || !IsDigit(s[k], 16)
    ensures Leading(s, n) == k
    decreases k
  {
    if k > 0 {
      assert IsDigit(s[..k][0], 16);
      assert s[1..][..k - 1] == s[..k][1..];
      LeadingIs(s[1..], n - 1, k - 1);
    }
  }

  lemma {:induction false} LeadingNumeral(s: string, n: nat)
    ensures Numeral(s[..Leading(s, n)], 16)
    decreases n
  {
    if Leading(s, n) > 0 {
      LeadingNumeral(s[1..], n - 1);
      assert s[..Leading(s, n)] == [s[0]] + s[1..][..Leading(s[1..], n - 1)];
    }
  }

  /** The number that the leading digits of s denote, at most 16 of them. */
  function HexNumber(s: string): nat {
    LeadingNumeral(s, 16);
    ValueOf(s[..Leading(s, 16)], 16)
  }

  lemma ShiftIn(v: nat, d: nat)
    requires d < 16
    ensures Or(Shl(v, 4), d) == 16 * v + d
  {
    assert Pow2(4) == 16;
    ShlIs(v, 4);
    OrDisjoint(d, v, 4);
    OrCommutes(d, v * Pow2(4));
  }

  /** integer <<= 4; integer |= d, in 64 bits. */
  function Shifted(v: nat, d: nat): (w: nat)
    requires d < 16
    ensures 16 * v + d < WORD ==> w == 16 * v + d
  {
    ShiftIn(v, d);
    Or(Shl(v, 4), d) % WORD
  }

  lemma {:induction false} PowerGrows(m: nat, n: nat)
    requires m <= n
    ensures Power(16, m) <= Power(16, n)
    decreases n
  {
    if m < n { PowerGrows(m, n - 1); }
  }

  lemma SixteenDigits()
    ensures Power(16, 16) == WORD
  {
    assert Power(16, 4) == 0x10000;
    assert Power(16, 8) == 0x1_0000_0000;
    assert Power(16, 12) == 0x1_0000_0000_0000;
  }

  lemma SixteenFit(s: string)
    requires Numeral(s, 16) && |s| <= 16
    ensures ValueOf(s, 16) < WORD
  {
    ValueBound(s, 16);
    PowerGrows(|s|, 16);
    SixteenDigits();
  }

  /** The loop of lai_mutate_integer over a string; the integer is shifted in 64 bits. */
  method MutateInteger(s: string) returns (v: nat)
    ensures v == HexNumber(s) && v < WORD
  {
    v := 0;
    var i := 0;
    assert Numeral(s[..0], 16);
    while i < 16
      invariant 0 <= i <= 16 && i <= |s| && v < WORD
      invariant Numeral(s[..i], 16) && v == ValueOf(s[..i], 16)
    {
      var c := if i < |s| then s[i] else '\0';
      var d: nat := 0;
      if '0' <= c <= '9' {
        d := (c - '0') as nat;
      } else if 'a' <= c <= 'f' {
        d := (c - 'a') as nat + 10;
      } else if 'A' <= c <= 'F' {
        d := (c - 'A') as nat + 10;
      } else {
        break;
      }
      ValueStep(s, i, 16);
      SixteenFit(s[..i + 1]);
      v := Shifted(v, d);
      i := i + 1;
    }
    LeadingIs(s, 16, i);
  }

  /** Every integer survives the conversion to a string and back. */
  lemma HexRoundTrip(v: nat)
    requires v < WORD
    ensures |HexText(v)| == 16 && Numeral(HexText(v), 16)
    ensures ValueOf(HexText(v), 16) == v && HexNumber(HexText(v)) == v
  {
    SixteenDigits();
    var s := Digits(v, 16, true, 16);
    DigitsLength(v, 16, true, 16);
    DigitsDenote(v, 16, true, 16);
    LeadingZeros(16 - |s|, s, 16);
    LeadingIs(HexText(v), 16, 16);
    assert HexText(v)[..16] == HexText(v);
  }

  // ---------------------------------------------------------------------------------------
  // lai_obj_to_integer and lai_obj_to_decimal_string
  // ---------------------------------------------------------------------------------------

  predicate HexMarked(s: string) {
    |s| >= 2 && s[0] == '0' && (s[1] == 'x' || s[1] == 'X')
  }

  /** What lai_obj_to_integer promises of a string: None stands for its error. */
  function Integer(s: string): Option<nat> {
    var base := if HexMarked(s) then 16 else 10;
    var body := if HexMarked(s) then s[2..] else s;
    if Numeral(body, base) then Some(ValueOf(body, base) % WORD) else None
  }

  lemma WrapStep(base: nat, v: nat, d: nat)
    ensures (base * (v % WORD) + d) % WORD == (base * v + d) % WORD
  {
    DivMod(v, WORD);
    var q, r := v / WORD, v % WORD;
    var x := base * r + d;
    assert base * v == base * q * WORD + base * r;
    DivMod(x, WORD);
    Distribute(base * q, x / WORD, WORD);
    DivUnique(base * v + d, WORD, base * q + x / WORD, x % WORD);
  }

  predicate Read(s: string, i: nat, base: nat, integer: nat) {
    i <= |s| && Numeral(s[..i], base) && integer == ValueOf(s[..i], base) % WORD
  }

  /** integer = integer * base + d, in 64 bits. */
  function Accumulated(integer: nat, base: nat, d: nat): nat { (base * integer + d) % WORD }

  lemma ReadDigit(s: string, i: nat, base: nat, integer: nat, d: nat)
    requires Read(s, i, base, integer) && i < |s| && IsDigit(s[i], base) && HexValue(s[i]) == Some(d)
    ensures Read(s, i + 1, base, Accumulated(integer, base, d))
  {
    ValueStep(s, i, base);
    WrapStep(base, ValueOf(s[..i], base), d);
  }

  lemma ReadAll(s: string, base: nat, integer: nat)
    requires Read(s, |s|, base, integer)
    ensures Numeral(s, base) && integer == ValueOf(s, base) % WORD
  {
    assert s[..|s|] == s;
  }

  /** The two loops of lai_obj_to_integer over a string. */
  method ToInteger(s: string) returns (r: Option<nat>)
    ensures r == Integer(s)
  {
    var integer: nat := 0;
    if HexMarked(s) {
      ghost var body := s[2..];
      for i := 2 to |s|
        invariant Read(body, i - 2, 16, integer)
      {
        var v: nat;
        if '0' <= s[i] <= '9' {
          v := (s[i] - '0') as nat;
        } else if 'a' <= s[i] <= 'f' {
          v := (s[i] - 'a') as nat + 10;
        } else if 'A' <= s[i] <= 'F' {
          v := (s[i] - 'A') as nat + 10;
        } else {
          assert !IsDigit(body[i - 2], 16);
          return None;
        }
        ReadDigit(body, i - 2, 16, integer, v);
        integer := Accumulated(integer, 16, v);
      }
      ReadAll(body, 16, integer);
    } else {
      for i := 0 to |s|
        invariant Read(s, i, 10, integer)
      {
        if s[i] < '0' || s[i] > '9' {
          assert !IsDigit(s[i], 10);
          return None;
        }
        ReadDigit(s, i, 10, integer, (s[i] - '0') as nat);
        integer := Accumulated(integer, 10, (s[i] - '0') as nat);
      }
      ReadAll(s, 10, integer);
    }
    r := Some(integer);
  }

  /** What "%llu" prints. */
  function DecimalText(v: nat): string {
    Digits(v, 10, false, -1)
  }

  lemma TwentyDigits()
    ensures WORD <= Power(10, 20)
  {
    assert Power(10, 5) == 100000;
    assert Power(10, 10) == 10000000000;
    assert Power(10, 15) == 1000000000000000;
    assert Power(10, 20) == 100000000000000000000;
  }

  /** lai_obj_to_decimal_string of an integer: within the 20 characters that it reserves. */
  method DecimalString(v: nat) returns (s: string)
    requires v < WORD
    ensures s == DecimalText(v) && |s| <= 20
  {
    TwentyDigits();
    LengthBound(v, 10, 20);
    DigitsLength(v, 10, false, -1);
    s := NumFmt(v, 10, 0, ' ', false, false, -1);
  }

  /** Every integer survives the conversion to decimal and back. */
  lemma DecimalRoundTrip(v: nat)
    requires v < WORD
    ensures Integer(DecimalText(v)) == Some(v)
  {
    DigitsDenote(v, 10, false, -1);
    DecimalRead(DecimalText(v), v);
  }

  lemma DecimalRead(s: string, v: nat)
    requires Numeral(s, 10) && ValueOf(s, 10) == v < WORD
    ensures Integer(s) == Some(v)
  {
    if |s| >= 2 { assert IsDigit(s[1], 10); }
  }

  /** So does its hexadecimal string, once marked as hexadecimal. */
  lemma MarkedHexRoundTrip(v: nat)
    requires v < WORD
    ensures Integer("0x" + HexText(v)) == Some(v)
  {
    HexRoundTrip(v);
    Marked(HexText(v), v);
  }

  lemma Marked(h: string, v: nat)
    requires Numeral(h, 16) && ValueOf(h, 16) == v < WORD
    ensures Integer("0x" + h) == Some(v)
  {
    assert ("0x" + h)[2..] == h;
  }

  lemma {:induction false} DecimalBelow(s: string)
    requires Numeral(s, 10)
    ensures Numeral(s, 16) && ValueOf(s, 10) <= ValueOf(s, 16)
    decreases |s|
  {
    if s != "" { DecimalBelow(s[..|s| - 1]); }
  }

  lemma {:induction false} ZeroDigits(s: string)
    requires Numeral(s, 16) && ValueOf(s, 16) == 0
    ensures Numeral(s, 10) && ValueOf(s, 10) == 0
    decreases |s|
  {
    if s != "" {
      assert IsDigit(s[|s| - 1], 16);
      ZeroDigits(s[..|s| - 1]);
    }
  }

  /** A hexadecimal numeral means the same in decimal exactly when it is a single digit. */
  lemma SameInDecimal(s: string, w: string, c: char)
    requires s == w + [c] && Numeral(s, 16)
    ensures Numeral(s, 10) && ValueOf(s, 10) == ValueOf(s, 16) <==> ValueOf(s, 16) < 10
  {
    assert s[..|w|] == w && IsDigit(s[|w|], 16);
    if ValueOf(s, 16) < 10 {
      ZeroDigits(w);
    } else if Numeral(s, 10) {
      DecimalBelow(w);
      assert IsDigit(s[|w|], 10);
    }
  }

  /** Left unmarked it is read as decimal, which gives back the integers of one digit alone. */
  lemma UnmarkedHex(v: nat)
    requires v < WORD
    ensures Integer(HexText(v)) == Some(v) <==> v < 10
  {
    HexRoundTrip(v);
    Unmarked(HexText(v), v);
  }

  lemma Unmarked(s: string, v: nat)
    requires |s| == 16 && Numeral(s, 16) && ValueOf(s, 16) == v < WORD
    ensures Integer(s) == Some(v) <==> v < 10
  {
    assert IsDigit(s[1], 16);
    SameInDecimal(s, s[..15], s[15]);
    if Numeral(s, 10) { DecimalBelow(s); }
  }
}
