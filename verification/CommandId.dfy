/** Command identities: canonical lower-case UUIDv7 text, compared byte by byte. */
module CommandId {
  import opened Text

  predicate IsHex(c: char) { '0' <= c <= '9' || 'a' <= c <= 'f' }

  function HexValue(c: char): (v: nat)
    requires IsHex(c)
    ensures v < 16
  {
    if c <= '9' then c as int - '0' as int else c as int - 'a' as int + 10
  }

  predicate IsHexText(s: string) {
    forall i :: 0 <= i < |s| ==> IsHex(s[i])
  }

  /** The text without its hyphens (`strings.ReplaceAll(value, "-", "")`). */
  function Digits(s: string): string {
    if s == [] then []
    else if s[0] == '-' then Digits(s[1..])
    else [s[0]] + Digits(s[1..])
  }

  function Pow16(n: nat): (p: nat)
    ensures p > 0
  {
    if n == 0 then 1 else 16 * Pow16(n - 1)
  }

  /** Big-endian value of hexadecimal digits. */
  function Value(s: string): nat
    requires IsHexText(s)
  {
    if s == [] then 0 else HexValue(s[0]) * Pow16(|s| - 1) + Value(s[1..])
  }

  /**
   `validateUUIDv7`: the byte layout, with `raw[6] >> 4 == 7` and
   `raw[8] & 0xc0 == 0x80` read off the hexadecimal digits they test.
   Lower case is implied by the digits being lower-case hexadecimal.
   */
  predicate Canonical(s: string) {
    && |s| == 36
    && s[8] == s[13] == s[18] == s[23] == '-'
    && var raw := Digits(s);
       && |raw| == 32 && IsHexText(raw)
       && raw[12] == '7'
       && raw[16] in "89ab"
  }

  /** The embedded Unix time in milliseconds: the first 48 bits. */
  function IssuedAt(s: string): nat
    requires Canonical(s)
  {
    Value(Digits(s)[..12])
  }

  lemma {:induction false} DigitsConcat(a: string, b: string)
    ensures Digits(a + b) == Digits(a) + Digits(b)
  {
    if a == [] {
      assert a + b == b;
    } else {
      var head, rest := a[0], a[1..];
      DigitsConcat(rest, b);
      var whole := a + b;
      assert whole[0] == head && whole[1..] == rest + b;
      assert Digits(whole) == if head == '-' then Digits(rest + b) else [head] + Digits(rest + b);
    }
  }

  lemma {:induction false} DigitsBound(s: string)
    ensures |Digits(s)| <= |s|
    ensures |Digits(s)| == |s| <==> (forall i :: 0 <= i < |s| ==> s[i] != '-')
  {
    if s != [] {
      DigitsBound(s[1..]);
      if |Digits(s)| == |s| {
        forall i | 0 <= i < |s| ensures s[i] != '-' {
          if i > 0 { assert s[1..][i - 1] == s[i]; }
        }
      } else if s[0] != '-' {
        var i :| 0 <= i < |s[1..]| && s[1..][i] == '-';
        assert s[i + 1] == '-';
      }
    }
  }

  /** A canonical identity has hyphens at its four places and nowhere else. */
  lemma CanonicalHyphens(s: string, i: nat)
    requires Canonical(s) && i < 36
    ensures s[i] == '-' <==> i in {8, 13, 18, 23}
  {
    var p0, p1, p2, p3, p4 := s[..8], s[9..13], s[14..18], s[19..23], s[24..];
    var d := ['-'];
    assert s == p0 + d + p1 + d + p2 + d + p3 + d + p4;
    DigitsConcat(p0 + d + p1 + d + p2 + d + p3 + d, p4);
    DigitsConcat(p0 + d + p1 + d + p2 + d + p3, d);
    DigitsConcat(p0 + d + p1 + d + p2 + d, p3);
    DigitsConcat(p0 + d + p1 + d + p2, d);
    DigitsConcat(p0 + d + p1 + d, p2);
    DigitsConcat(p0 + d + p1, d);
    DigitsConcat(p0 + d, p1);
    DigitsConcat(p0, d);
    assert Digits(d) == [] by { assert d[1..] == []; }
    DigitsBound(p0); DigitsBound(p1); DigitsBound(p2); DigitsBound(p3); DigitsBound(p4);
    if i < 8 { assert s[i] == p0[i]; }
    else if 8 < i < 13 { assert s[i] == p1[i - 9]; }
    else if 13 < i < 18 { assert s[i] == p2[i - 14]; }
    else if 18 < i < 23 { assert s[i] == p3[i - 19]; }
    else if 23 < i { assert s[i] == p4[i - 24]; }
  }

  /** Dropping hyphens that stand at the same places keeps the order. */
  lemma {:induction false} LessOnDigits(a: string, b: string)
    requires |a| == |b|
    requires forall i :: 0 <= i < |a| ==> (a[i] == '-' <==> b[i] == '-')
    ensures |Digits(a)| == |Digits(b)|
    ensures Less(a, b) <==> Less(Digits(a), Digits(b))
  {
    if a != [] {
      forall i | 0 <= i < |a[1..]| ensures a[1..][i] == '-' <==> b[1..][i] == '-' {
        assert a[1..][i] == a[i + 1] && b[1..][i] == b[i + 1];
      }
      LessOnDigits(a[1..], b[1..]);
      if a[0] == '-' {
        assert Digits(a) == Digits(a[1..]) && Digits(b) == Digits(b[1..]);
      } else {
        assert Digits(a)[1..] == Digits(a[1..]) && Digits(b)[1..] == Digits(b[1..]);
      }
    }
  }

  lemma {:induction false} ValueBound(s: string)
    requires IsHexText(s)
    ensures Value(s) < Pow16(|s|)
  {
    if s != [] {
      ValueBound(s[1..]);
      var v, p := HexValue(s[0]), Pow16(|s| - 1);
      assert v * p <= 15 * p by { Scale(v, 15, p); }
    }
  }

  lemma Scale(a: nat, b: nat, p: nat)
    requires a <= b
    ensures a * p <= b * p
  {
    assert (b - a) * p >= 0;
  }

  lemma LeadingDigit(x: nat, y: nat, p: nat, u: nat, v: nat)
    requires u < p && v < p
    ensures x * p + u < y * p + v <==> x < y || (x == y && u < v)
  {
    if x < y {
      Scale(x + 1, y, p);
    } else if y < x {
      Scale(y + 1, x, p);
    }
  }

  lemma HexOrder(c: char, d: char)
    requires IsHex(c) && IsHex(d)
    ensures c < d <==> HexValue(c) < HexValue(d)
    ensures c == d <==> HexValue(c) == HexValue(d)
  {
  }

  /** On hexadecimal text of one length the byte order is the numeric order. */
  lemma {:induction false} LessIsNumeric(a: string, b: string)
    requires IsHexText(a) && IsHexText(b) && |a| == |b|
    ensures Less(a, b) <==> Value(a) < Value(b)
  {
    if a != [] {
      LessIsNumeric(a[1..], b[1..]);
      ValueBound(a[1..]);
      ValueBound(b[1..]);
      HexOrder(a[0], b[0]);
      LeadingDigit(HexValue(a[0]), HexValue(b[0]), Pow16(|a| - 1), Value(a[1..]), Value(b[1..]));
    }
  }

  lemma {:induction false} LessOnPrefix(a: string, b: string, n: nat)
    requires n <= |a| == |b| && Less(a, b)
    ensures a[..n] == b[..n] || Less(a[..n], b[..n])
  {
    if n > 0 {
      assert a[..n][1..] == a[1..][..n - 1] && b[..n][1..] == b[1..][..n - 1];
      if a[0] == b[0] {
        LessOnPrefix(a[1..], b[1..], n - 1);
        assert a[..n] == [a[0]] + a[1..][..n - 1];
        assert b[..n] == [b[0]] + b[1..][..n - 1];
      }
    }
  }

  /**
   The fence of the durable-facts contract: comparing canonical identities as
   text compares them as 128-bit numbers, so a later identity is never issued
   earlier.
   */
  lemma CanonicalOrderIsTimeOrder(a: string, b: string)
    requires Canonical(a) && Canonical(b)
    ensures Less(a, b) <==> Value(Digits(a)) < Value(Digits(b))
    ensures Less(a, b) ==> IssuedAt(a) <= IssuedAt(b)
  {
    forall i | 0 <= i < 36 ensures a[i] == '-' <==> b[i] == '-' {
      CanonicalHyphens(a, i);
      CanonicalHyphens(b, i);
    }
    LessOnDigits(a, b);
    LessIsNumeric(Digits(a), Digits(b));
    if Less(a, b) {
      LessOnPrefix(Digits(a), Digits(b), 12);
      LessIsNumeric(Digits(a)[..12], Digits(b)[..12]);
    }
  }
}
