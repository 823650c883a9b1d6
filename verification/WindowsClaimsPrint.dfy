/**
 * A writer for what the validator of resource attributes reads: header, table of offsets,
 * the values, the name. Reading what was written returns the attributes that went in.
 */
module WindowsClaimsPrint {
  import opened WindowsAcl
  import opened WindowsClaims

  // ---------------------------------------------------------------- pieces

  predicate Unit(n: nat) { 0 < n < 0x1_0000 }

  predicate AllUnits(t: seq<nat>) { forall k :: 0 <= k < |t| ==> Unit(t[k]) }

  predicate IsText(t: seq<nat>) { t != [] && AllUnits(t) }

  function PrintUnits(t: seq<nat>): (b: seq<byte>)
    requires AllUnits(t)
    ensures |b| == 2 * |t| + 2
  {
    if t == [] then [0, 0] else assert Unit(t[0]); PrintWord(t[0]) + PrintUnits(t[1..])
  }

  function PrintQuad(n: nat): (b: seq<byte>)
    requires n < 0x1_0000_0000_0000_0000
    ensures |b| == 8
  {
    PrintLong(n % 0x1_0000_0000) + PrintLong(n / 0x1_0000_0000)
  }

  lemma WordInside(b: seq<byte>, at: nat, part: seq<byte>, k: nat)
    requires at <= |b| && part <= b[at..] && k + 2 <= |part|
    ensures Word(b, at + k) == Word(part, k)
  {
    assert b[at + k] == b[at..][k] && b[at + k + 1] == b[at..][k + 1];
  }

  lemma LongInside(b: seq<byte>, at: nat, part: seq<byte>, k: nat)
    requires at <= |b| && part <= b[at..] && k + 4 <= |part|
    ensures Long(b, at + k) == Long(part, k)
  {
    WordInside(b, at, part, k);
    WordInside(b, at, part, k + 2);
  }

  lemma PrefixInside(b: seq<byte>, at: nat, first: seq<byte>, second: seq<byte>)
    requires at <= |b| && first + second <= b[at..]
    ensures first <= b[at..] && at + |first| <= |b| && second <= b[at + |first|..]
  {
    assert b[at..][..|first|] == (first + second)[..|first|];
    assert b[at + |first|..] == b[at..][|first|..];
    assert b[at..][|first|..][..|second|] == (first + second)[|first|..];
  }

  lemma {:induction false} UnitsAreRead(b: seq<byte>, at: nat, t: seq<nat>)
    requires AllUnits(t)
    requires at <= |b| && PrintUnits(t) <= b[at..]
    ensures Units(b, at, t)
    decreases t
  {
    hide Word;
    if t == [] {
      assert PrintUnits(t) == [0, 0];
      WordInside(b, at, [0, 0], 0);
      assert Word([0, 0], 0) == 0 by { ZeroWord(); }
    } else {
      PrefixInside(b, at, PrintWord(t[0]), PrintUnits(t[1..]));
      WordInside(b, at, PrintWord(t[0]), 0);
      UnitsAreRead(b, at + 2, t[1..]);
      assert UnitOf(b, at, |t|) == UnitOf(b, at + 2, |t| - 1);
      forall k | 0 <= k < |t| ensures t[k] == UnitOf(b, at, k) && t[k] != 0 {
        if k > 0 { assert t[1..][k - 1] == UnitOf(b, at + 2, k - 1); }
      }
    }
  }

  lemma ZeroWord()
    ensures Word([0, 0], 0) == 0
  {
  }

  lemma QuadIsRead(b: seq<byte>, at: nat, n: nat)
    requires n < 0x1_0000_0000_0000_0000 && at <= |b| && PrintQuad(n) <= b[at..]
    ensures NumberAt(b, at, n)
  {
    hide Long, PrintLong;
    var low, high := PrintLong(n % 0x1_0000_0000), PrintLong(n / 0x1_0000_0000);
    PrefixInside(b, at, low, high);
    LongInside(b, at, low, 0);
    LongInside(b, at + 4, high, 0);
  }

  // ---------------------------------------------------------------- claims

  predicate Printable(v: Values) {
    match v
    case Numbers(n) => forall k :: 0 <= k < |n| ==> n[k] < 0x1_0000_0000_0000_0000
    case Texts(t) => forall k :: 0 <= k < |t| ==> IsText(t[k])
  }

  /** The print of each value. */
  function Pieces(v: Values): (p: seq<seq<byte>>)
    requires Printable(v)
    ensures |p| == v.Count()
    ensures forall k :: 0 <= k < |p| ==>
      |p[k]| % 2 == 0 && if v.Numbers? then p[k] == PrintQuad(v.numbers[k]) else p[k] == PrintUnits(v.texts[k])
  {
    match v
    case Numbers(n) => seq(|n|, k requires 0 <= k < |n| => PrintQuad(n[k]))
    case Texts(t) => seq(|t|, k requires 0 <= k < |t| => PrintUnits(t[k]))
  }

  /** Where the first value goes: behind the table, at a multiple of eight. */
  function Start(n: nat): (at: nat)
    ensures at >= 16 + 4 * n && at % 8 == 0 && at <= 20 + 4 * n
  {
    16 + 4 * n + 4 * (n % 2)
  }

  function OffsetOf(v: Values, k: nat): nat
    requires Printable(v) && k <= v.Count()
  {
    Start(v.Count()) + |Join(Pieces(v)[..k])|
  }

  /** The table of offsets, up to the k-th. */
  function Table(v: Values, k: nat): (b: seq<byte>)
    requires Printable(v) && k <= v.Count() && OffsetOf(v, v.Count()) < 0x1_0000_0000
    ensures |b| == 4 * k
  {
    if k == 0 then [] else OffsetsGrow(v, k - 1); Table(v, k - 1) + PrintLong(OffsetOf(v, k - 1))
  }

  lemma OffsetsGrow(v: Values, k: nat)
    requires Printable(v) && k < v.Count()
    ensures OffsetOf(v, k) + |Pieces(v)[k]| <= OffsetOf(v, v.Count())
  {
    JoinPrefix(Pieces(v), k);
    assert Pieces(v)[..v.Count()] == Pieces(v);
  }

  predicate Writable(c: Claim) {
    && c.kind < 0x1_0000 && c.flags < 0x1_0000_0000 && KindFits(c)
    && c.values.Count() >= 1 && Printable(c.values) && IsText(c.name)
    && OffsetOf(c.values, c.values.Count()) < 0x1_0000_0000
  }

  function Head(c: Claim): (b: seq<byte>)
    requires Writable(c)
    ensures |b| == 16
  {
    OffsetBound(c.values);
    PrintLong(OffsetOf(c.values, c.values.Count())) + PrintWord(c.kind) + PrintWord(0) + PrintLong(c.flags)
      + PrintLong(c.values.Count())
  }

  lemma OffsetBound(v: Values)
    requires Printable(v)
    ensures v.Count() <= OffsetOf(v, v.Count())
  {
  }

  function Gap(n: nat): (b: seq<byte>)
    ensures 16 + 4 * n + |b| == Start(n)
  {
    if n % 2 == 1 then [0, 0, 0, 0] else []
  }

  /** Header, table, gap, values and name. */
  function Unpadded(c: Claim): (b: seq<byte>)
    requires Writable(c)
  {
    var v := c.values;
    Head(c) + (Table(v, v.Count()) + (Gap(v.Count()) + (Join(Pieces(v)) + PrintUnits(c.name))))
  }

  /** And zeros up to a multiple of four. */
  function PrintClaim(c: Claim): (b: seq<byte>)
    requires Writable(c)
  {
    Unpadded(c) + Padding(|Unpadded(c)|)
  }

  function Padding(length: nat): seq<byte> {
    if length % 4 == 0 then [] else [0, 0]
  }

  lemma HeadIsRead(b: seq<byte>, c: Claim)
    requires Writable(c) && Head(c) <= b
    ensures Long(b, 0) == OffsetOf(c.values, c.values.Count()) && Long(b, 12) == c.values.Count()
    ensures Word(b, 4) == c.kind && Word(b, 6) == 0 && Long(b, 8) == c.flags
  {
    hide Long, Word, PrintLong, PrintWord, OffsetOf, Printable;
    OffsetBound(c.values);
    var at, count := PrintLong(OffsetOf(c.values, c.values.Count())), PrintLong(c.values.Count());
    var kind, zero, flags := PrintWord(c.kind), PrintWord(0), PrintLong(c.flags);
    assert Head(c) == at + (kind + (zero + (flags + count)));
    assert b[0..] == b;
    PrefixInside(b, 0, at, kind + (zero + (flags + count)));
    PrefixInside(b, 4, kind, zero + (flags + count));
    PrefixInside(b, 6, zero, flags + count);
    PrefixInside(b, 8, flags, count);
    LongInside(b, 0, at, 0);
    WordInside(b, 4, kind, 0);
    WordInside(b, 6, zero, 0);
    LongInside(b, 8, flags, 0);
    LongInside(b, 12, count, 0);
  }

  lemma {:induction false} TableIsRead(b: seq<byte>, v: Values, n: nat, k: nat)
    requires Printable(v) && n <= v.Count() && OffsetOf(v, v.Count()) < 0x1_0000_0000 && k < n
    requires |b| >= 16 && Table(v, n) <= b[16..]
    ensures 16 + 4 * n <= |b| && Long(b, 16 + 4 * k) == OffsetOf(v, k)
  {
    hide Long, PrintLong, OffsetOf;
    OffsetsGrow(v, n - 1);
    var last := PrintLong(OffsetOf(v, n - 1));
    PrefixInside(b, 16, Table(v, n - 1), last);
    if k == n - 1 {
      LongInside(b, 16 + 4 * k, last, 0);
    } else {
      TableIsRead(b, v, n - 1, k);
    }
  }

  function Times(q: nat, wide: bool): nat { if wide then 8 * q else 2 * q }

  /** A multiple of eight, or just an even number. */
  ghost predicate Aligned(n: nat, wide: bool) { exists q: nat :: n == Times(q, wide) }

  lemma AlignedSum(a: nat, b: nat, wide: bool)
    requires Aligned(a, wide) && Aligned(b, wide)
    ensures Aligned(a + b, wide)
  {
    var q: nat :| a == Times(q, wide);
    var r: nat :| b == Times(r, wide);
    assert a + b == Times(q + r, wide);
  }

  lemma AlignedMeans(n: nat, wide: bool)
    requires Aligned(n, wide)
    ensures n % 2 == 0 && (wide ==> n % 8 == 0)
  {
    var q: nat :| n == Times(q, wide);
    Twice(if wide then 4 * q else q);
    EightTimes(q);
  }

  lemma Twice(q: nat)
    ensures 2 * q % 2 == 0
  {
  }

  lemma EightTimes(q: nat)
    ensures 8 * q % 8 == 0
  {
  }

  lemma {:induction false} JoinIsAligned(p: seq<seq<byte>>, wide: bool)
    requires forall k :: 0 <= k < |p| ==> Aligned(|p[k]|, wide)
    ensures Aligned(|Join(p)|, wide)
  {
    if p == [] {
      assert 0 == Times(0, wide);
    } else {
      hide Aligned;
      JoinIsAligned(p[..|p| - 1], wide);
      AlignedSum(|Join(p[..|p| - 1])|, |p[|p| - 1]|, wide);
    }
  }

  lemma PiecesAreAligned(v: Values)
    requires Printable(v)
    ensures forall k :: 0 <= k < v.Count() ==> Aligned(|Pieces(v)[k]|, v.Numbers?)
  {
    forall k | 0 <= k < v.Count() ensures Aligned(|Pieces(v)[k]|, v.Numbers?) {
      if v.Numbers? {
        assert |Pieces(v)[k]| == Times(1, true);
      } else {
        assert |Pieces(v)[k]| == Times(|v.texts[k]| + 1, false);
      }
    }
  }

  lemma StartIsAligned(n: nat, wide: bool)
    ensures Aligned(Start(n), wide)
  {
    var q := 2 + (n + n % 2) / 2;
    assert Start(n) == Times(q, true) == Times(4 * q, false);
  }

  lemma OffsetsAreAligned(v: Values, k: nat)
    requires Printable(v) && k <= v.Count()
    ensures OffsetOf(v, k) % 2 == 0 && (v.Numbers? ==> OffsetOf(v, k) % 8 == 0)
  {
    hide Join, Pieces, Printable, Aligned, Start;
    StartIsAligned(v.Count(), v.Numbers?);
    PiecesAreAligned(v);
    JoinIsAligned(Pieces(v)[..k], v.Numbers?);
    AlignedSum(Start(v.Count()), |Join(Pieces(v)[..k])|, v.Numbers?);
    AlignedMeans(OffsetOf(v, k), v.Numbers?);
  }

  lemma EndOfValues(v: Values)
    requires Printable(v)
    ensures OffsetOf(v, v.Count()) == Start(v.Count()) + |Join(Pieces(v))|
  {
    assert Pieces(v)[..v.Count()] == Pieces(v);
  }

  lemma ValueIsRead(b: seq<byte>, v: Values, k: nat)
    requires Printable(v) && k < v.Count() && 16 + 4 * v.Count() <= |b| && Start(v.Count()) <= |b|
    requires Join(Pieces(v)) <= b[Start(v.Count())..] && Long(b, 16 + 4 * k) == OffsetOf(v, k)
    ensures if v.Numbers? then HoldsNumber(b, v.Count(), k, v.numbers[k]) else HoldsText(b, v.Count(), k, v.texts[k])
  {
    hide Long, NumberAt, Units, PrintQuad, PrintUnits;
    var p, start := Pieces(v), Start(v.Count());
    JoinPrefix(p, k);
    PrefixInside(b, start, Join(p[..k]), p[k]);
    OffsetsAreAligned(v, k);
    if v.Numbers? {
      QuadIsRead(b, OffsetOf(v, k), v.numbers[k]);
    } else {
      UnitsAreRead(b, OffsetOf(v, k), v.texts[k]);
    }
  }

  lemma PrintIsRead(b: seq<byte>, c: Claim)
    requires Writable(c) && PrintClaim(c) <= b
    ensures ClaimReads(b, c)
  {
    hide Long, Word, Table, Start, Units, HoldsText, HoldsNumber, OffsetOf, Head, Printable, Pieces, PrintUnits, Join;
    var v := c.values;
    var n := v.Count();
    var head, table, gap, values, name := Head(c), Table(v, n), Gap(n), Join(Pieces(v)), PrintUnits(c.name);
    assert b[0..] == b;
    assert head + (table + (gap + (values + name))) <= b by { assert Unpadded(c) <= PrintClaim(c); }
    PrefixInside(b, 0, head, table + (gap + (values + name)));
    PrefixInside(b, 16, table, gap + (values + name));
    PrefixInside(b, 16 + 4 * n, gap, values + name);
    PrefixInside(b, Start(n), values, name);
    HeadIsRead(b, c);
    EndOfValues(v);
    NameIsRead(b, c);
    ValuesAreRead(b, v);
  }

  lemma NameIsRead(b: seq<byte>, c: Claim)
    requires Writable(c) && |b| >= 16 && Long(b, 0) == OffsetOf(c.values, c.values.Count())
    requires Long(b, 0) <= |b| && PrintUnits(c.name) <= b[Long(b, 0)..]
    ensures HoldsName(b, c.values.Count(), c.name)
  {
    hide Long, Units, PrintUnits, Aligned, Printable;
    OffsetsAreAligned(c.values, c.values.Count());
    UnitsAreRead(b, Long(b, 0), c.name);
  }

  lemma ValuesAreRead(b: seq<byte>, v: Values)
    requires Printable(v) && OffsetOf(v, v.Count()) < 0x1_0000_0000
    requires Start(v.Count()) <= |b| && Table(v, v.Count()) <= b[16..] && Join(Pieces(v)) <= b[Start(v.Count())..]
    ensures HoldsValues(b, v.Count(), v)
  {
    hide Long, HoldsText, HoldsNumber, Table, Join, OffsetOf, Pieces;
    var n := v.Count();
    forall k | 0 <= k < n
      ensures if v.Numbers? then HoldsNumber(b, n, k, v.numbers[k]) else HoldsText(b, n, k, v.texts[k])
    {
      TableIsRead(b, v, n, k);
      ValueIsRead(b, v, k);
    }
  }

  lemma UnpaddedIsEven(c: Claim)
    requires Writable(c)
    ensures |Unpadded(c)| % 2 == 0
  {
    hide Head, Table, Join, PrintUnits, OffsetOf, Printable, Pieces, Aligned;
    var end := OffsetOf(c.values, c.values.Count());
    OffsetsAreAligned(c.values, c.values.Count());
    EndOfValues(c.values);
    assert |Unpadded(c)| == end + 2 * |c.name| + 2;
  }

  lemma PaddingFits(length: nat)
    requires length % 2 == 0
    ensures (length + |Padding(length)|) % 4 == 0
  {
  }

  lemma PrintIsPadded(c: Claim)
    requires Writable(c)
    ensures |PrintClaim(c)| % 4 == 0
  {
    hide Unpadded, Padding;
    UnpaddedIsEven(c);
    PaddingFits(|Unpadded(c)|);
  }

  /** Every claim can be written, and what was written is read as that claim. */
  lemma ClaimRoundTrip(c: Claim)
    requires Writable(c)
    ensures ClaimReads(PrintClaim(c), c) && |PrintClaim(c)| % 4 == 0
    ensures forall d :: ClaimReads(PrintClaim(c), d) ==> d == c
  {
    hide ClaimReads, Writable, Head, Table;
    PrintIsPadded(c);
    PrintIsRead(PrintClaim(c), c);
    forall d | ClaimReads(PrintClaim(c), d) ensures d == c { ClaimIsUnique(PrintClaim(c), c, d); }
  }

  // ---------------------------------------------------------------- entries and lists

  predicate WritableAttribute(a: Attribute) {
    && a.mask < 0x1_0000_0000 && ValidSid(a.sid) && Writable(a.claim)
    && 8 + |a.sid| + |PrintClaim(a.claim)| < 0x1_0000
  }

  function PrintAttribute(a: Attribute): (e: seq<byte>)
    requires WritableAttribute(a)
    ensures |e| == 8 + |a.sid| + |PrintClaim(a.claim)|
  {
    [RESOURCE_ATTRIBUTE, a.flags] + (PrintWord(8 + |a.sid| + |PrintClaim(a.claim)|)
      + (PrintLong(a.mask) + (a.sid + PrintClaim(a.claim))))
  }

  lemma AttributeRoundTrip(a: Attribute)
    requires WritableAttribute(a)
    ensures EntryReads(PrintAttribute(a), a)
  {
    hide Word, Long, PrintWord, PrintLong, PrintClaim, ClaimReads, Writable;
    var e, claim := PrintAttribute(a), PrintClaim(a.claim);
    var size, mask := PrintWord(8 + |a.sid| + |claim|), PrintLong(a.mask);
    var head: seq<byte> := [RESOURCE_ATTRIBUTE, a.flags];
    assert e[0..] == e;
    PrefixInside(e, 0, head, size + (mask + (a.sid + claim)));
    PrefixInside(e, 2, size, mask + (a.sid + claim));
    PrefixInside(e, 4, mask, a.sid + claim);
    PrefixInside(e, 8, a.sid, claim);
    WordInside(e, 2, size, 0);
    LongInside(e, 4, mask, 0);
    assert e[8 + |a.sid|..] == claim;
    ClaimRoundTrip(a.claim);
  }

  predicate AllWritable(attributes: seq<Attribute>) {
    forall i :: 0 <= i < |attributes| ==> WritableAttribute(attributes[i])
  }

  function PrintAttributes(attributes: seq<Attribute>): (entries: seq<seq<byte>>)
    requires AllWritable(attributes)
    ensures |entries| == |attributes|
    ensures forall i :: 0 <= i < |entries| ==> entries[i] == PrintAttribute(attributes[i])
  {
    seq(|attributes|, i requires 0 <= i < |attributes| => PrintAttribute(attributes[i]))
  }

  /** The header: revision 2, a reserved byte, size modulo 65536, count, two reserved bytes. */
  function PrintResourceAcl(attributes: seq<Attribute>, sbz1: byte, sbz2: (byte, byte)): seq<byte>
    requires AllWritable(attributes) && |attributes| < 0x1_0000
  {
    var body := Join(PrintAttributes(attributes));
    [2, sbz1] + PrintWord((8 + |body|) % 0x1_0000) + PrintWord(|attributes|) + [sbz2.0, sbz2.1] + body
  }

  /** Every list of attributes can be written, is accepted, and is read back as that list only. */
  lemma AclRoundTrip(attributes: seq<Attribute>, sbz1: byte, sbz2: (byte, byte))
    requires AllWritable(attributes) && |attributes| < 0x1_0000
    ensures var acl := PrintResourceAcl(attributes, sbz1, sbz2);
      forall read :: DescribesAttributes(acl, read) <==> read == attributes
  {
    hide EntryReads, PrintAttribute, WritableAttribute, PrintResourceAcl, PrintAttributes, DescribesAttributes;
    var entries := PrintAttributes(attributes);
    var acl := PrintResourceAcl(attributes, sbz1, sbz2);
    HeaderIsRead(attributes, sbz1, sbz2);
    forall i | 0 <= i < |entries| ensures EntryReads(entries[i], attributes[i]) {
      assert WritableAttribute(attributes[i]);
      AttributeRoundTrip(attributes[i]);
    }
    ListedMeans(acl, entries, attributes);
    forall read | DescribesAttributes(acl, read) ensures read == attributes {
      AttributesAreUnique(acl, attributes, read);
    }
  }

  lemma ListedMeans(acl: seq<byte>, entries: seq<seq<byte>>, attributes: seq<Attribute>)
    requires SoundHeader(acl) && AllRead(entries, attributes)
    requires |entries| == Word(acl, 4) && acl[8..] == Join(entries)
    ensures DescribesAttributes(acl, attributes)
  {
    hide AllRead, Join, Word;
    assert ListsAttributes(acl, entries, attributes);
  }

  lemma HeaderIsRead(attributes: seq<Attribute>, sbz1: byte, sbz2: (byte, byte))
    requires AllWritable(attributes) && |attributes| < 0x1_0000
    ensures var acl := PrintResourceAcl(attributes, sbz1, sbz2);
      SoundHeader(acl) && Word(acl, 4) == |attributes| && acl[8..] == Join(PrintAttributes(attributes))
  {
    hide PrintAttributes, Join, AllWritable, PrintWord;
    var body := Join(PrintAttributes(attributes));
    var acl := PrintResourceAcl(attributes, sbz1, sbz2);
    var size, count := PrintWord((8 + |body|) % 0x1_0000), PrintWord(|attributes|);
    assert acl[2] == size[0] && acl[3] == size[1] && acl[4] == count[0] && acl[5] == count[1];
    assert acl[8..] == body;
  }
}
