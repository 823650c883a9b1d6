/**
 * The byte-level validator of Windows security descriptors: owner SID, DACL header and
 * its sequence of access control entries, laid out as in sections 2.4.2.2, 2.4.4.1 and
 * 2.4.5 of MS-DTYP. The validator is one forward pass over the bytes; the reference it is
 * proved against speaks of a list of entries and of how that list prints.
 */
module WindowsAcl {
  newtype byte = x: int | 0 <= x < 256

  const ALLOWED: byte := 0
  const DENIED: byte := 1
  const INHERIT_ONLY := 0x08
  const INHERITED := 0x10
  const UNKNOWN_FLAGS := 0xe0
  const GENERIC_WRITE := 0x40000000
  const GENERIC_ALL := 0x10000000
  const MAXIMUM_ALLOWED := 0x02000000
  const FILE_GENERIC_WRITE := 0x00120116
  const FILE_ALL_ACCESS := 0x001f01ff

  datatype Fault =
    | UntrustedOwner
    | MalformedAcl
    | MalformedAce
    | UnsupportedAce
    | Noncanonical
    | InvalidSid
    | MaximumAccess
    | MutationAuthority
    | UnparsedData

  datatype Verdict = Accepted | Refused(fault: Fault)

  // ---------------------------------------------------------------- little-endian fields

  function Word(b: seq<byte>, at: nat): (n: nat)
    requires at + 2 <= |b|
    ensures n < 0x1_0000
  {
    b[at] as nat + 256 * b[at + 1] as nat
  }

  function Long(b: seq<byte>, at: nat): (n: nat)
    requires at + 4 <= |b|
    ensures n < 0x1_0000_0000
  {
    Word(b, at) + 0x1_0000 * Word(b, at + 2)
  }

  function PrintWord(n: nat): (b: seq<byte>)
    requires n < 0x1_0000
    ensures |b| == 2 && Word(b, 0) == n
  {
    [(n % 256) as byte, (n / 256) as byte]
  }

  function PrintLong(n: nat): (b: seq<byte>)
    requires n < 0x1_0000_0000
    ensures |b| == 4 && Long(b, 0) == n
  {
    PrintWord(n % 0x1_0000) + PrintWord(n / 0x1_0000)
  }

  lemma WordsDetermineBytes(a: seq<byte>, i: nat, b: seq<byte>, j: nat)
    requires i + 2 <= |a| && j + 2 <= |b| && Word(a, i) == Word(b, j)
    ensures a[i] == b[j] && a[i + 1] == b[j + 1]
    ensures a[i..i + 2] == b[j..j + 2]
  {
  }

  lemma LongsDetermineBytes(a: seq<byte>, i: nat, b: seq<byte>, j: nat)
    requires i + 4 <= |a| && j + 4 <= |b| && Long(a, i) == Long(b, j)
    ensures a[i..i + 4] == b[j..j + 4]
  {
    LongIsTwoWords(Word(a, i), Word(a, i + 2), Word(b, j), Word(b, j + 2));
    WordsDetermineBytes(a, i, b, j);
    WordsDetermineBytes(a, i + 2, b, j + 2);
  }

  lemma LongIsTwoWords(low: nat, high: nat, low': nat, high': nat)
    requires low < 0x1_0000 && low' < 0x1_0000 && low + 0x1_0000 * high == low' + 0x1_0000 * high'
    ensures low == low' && high == high'
  {
  }

  // ---------------------------------------------------------------- identifiers and rights

  predicate ValidSid(sid: seq<byte>) {
    && |sid| >= 8
    && sid[0] == 1
    && sid[1] <= 15
    && |sid| == 8 + 4 * sid[1] as nat
  }

  /** Bitwise conjunction of two unsigned numbers. */
  function And(a: nat, b: nat): nat {
    if a == 0 || b == 0 then 0 else (if a % 2 == 1 && b % 2 == 1 then 1 else 0) + 2 * And(a / 2, b / 2)
  }

  /** Bitwise disjunction of two unsigned numbers. */
  function Or(a: nat, b: nat): nat
    decreases a + b
  {
    if a == 0 then b else if b == 0 then a else
    (if a % 2 == 1 || b % 2 == 1 then 1 else 0) + 2 * Or(a / 2, b / 2)
  }

  predicate Shares(a: nat, b: nat) {
    And(a, b) != 0
  }

  lemma {:induction false} SharesWithEither(a: nat, b: nat, c: nat)
    ensures Shares(Or(a, b), c) <==> Shares(a, c) || Shares(b, c)
    decreases a + b
  {
    if a != 0 && b != 0 && c != 0 {
      SharesWithEither(a / 2, b / 2, c / 2);
    }
  }

  predicate HasFlag(flags: byte, bit: nat) {
    Shares(flags as nat, bit)
  }

  function Expanded(mask: nat): nat {
    var written := if Shares(mask, GENERIC_WRITE) then Or(mask, FILE_GENERIC_WRITE) else mask;
    if Shares(mask, GENERIC_ALL) then Or(written, FILE_ALL_ACCESS) else written
  }

  // ---------------------------------------------------------------- the reference

  datatype Ace = Ace(kind: byte, flags: byte, mask: nat, sid: seq<byte>) {
    predicate WellFormed() {
      && (kind == ALLOWED || kind == DENIED)
      && !HasFlag(flags, UNKNOWN_FLAGS)
      && mask < 0x1_0000_0000
      && ValidSid(sid)
    }

    /** Place in the canonical order: explicit denials, explicit grants, inherited entries. */
    function Rank(): nat {
      if HasFlag(flags, INHERITED) then 2 else if kind == ALLOWED then 1 else 0
    }

    /** Grants something now to a principal outside `trusted`. */
    predicate Exposes(trusted: seq<seq<byte>>) {
      kind == ALLOWED && !HasFlag(flags, INHERIT_ONLY) && sid !in trusted
    }

    predicate Maximal() {
      Shares(mask, MAXIMUM_ALLOWED)
    }

    predicate Mutates(dangerous: nat) {
      Shares(Expanded(mask), dangerous)
    }

    predicate Harmless(trusted: seq<seq<byte>>, dangerous: nat) {
      Exposes(trusted) ==> !Maximal() && !Mutates(dangerous)
    }

    function Print(): (b: seq<byte>)
      requires WellFormed()
      ensures |b| == 8 + |sid|
    {
      [kind, flags] + PrintWord(8 + |sid|) + PrintLong(mask) + sid
    }
  }

  ghost predicate Canonical(aces: seq<Ace>) {
    forall p, q :: 0 <= p < q < |aces| ==> aces[p].Rank() <= aces[q].Rank()
  }

  ghost predicate Sound(aces: seq<Ace>, trusted: seq<seq<byte>>, dangerous: nat) {
    forall i :: 0 <= i < |aces| ==> aces[i].WellFormed() && aces[i].Harmless(trusted, dangerous)
  }

  ghost predicate Secure(aces: seq<Ace>, trusted: seq<seq<byte>>, dangerous: nat) {
    Canonical(aces) && Sound(aces, trusted, dangerous)
  }

  ghost predicate AllWellFormed(aces: seq<Ace>) {
    forall i :: 0 <= i < |aces| ==> aces[i].WellFormed()
  }

  ghost function PrintAll(aces: seq<Ace>): seq<byte>
    requires AllWellFormed(aces)
  {
    if aces == [] then [] else PrintAll(aces[..|aces| - 1]) + aces[|aces| - 1].Print()
  }

  /** The header: revision 2, a reserved byte, size modulo 65536, count, two reserved bytes. */
  ghost function PrintAcl(aces: seq<Ace>, sbz1: byte, sbz2: (byte, byte)): seq<byte>
    requires AllWellFormed(aces) && |aces| < 0x1_0000
  {
    var body := PrintAll(aces);
    [2, sbz1] + PrintWord((8 + |body|) % 0x1_0000) + PrintWord(|aces|) + [sbz2.0, sbz2.1] + body
  }

  predicate SoundHeader(acl: seq<byte>) {
    |acl| >= 8 && acl[0] == 2 && Word(acl, 2) == |acl| % 0x1_0000
  }

  ghost predicate Lists(acl: seq<byte>, aces: seq<Ace>)
    requires SoundHeader(acl)
  {
    AllWellFormed(aces) && |aces| == Word(acl, 4) && acl[8..] == PrintAll(aces)
  }

  ghost predicate Describes(acl: seq<byte>, trusted: seq<seq<byte>>, dangerous: nat) {
    && SoundHeader(acl)
    && exists aces :: Secure(aces, trusted, dangerous) && Lists(acl, aces)
  }

  // ---------------------------------------------------------------- one entry

  datatype Entry = Good(ace: Ace) | Bad(fault: Fault)

  /** What the pass concludes about the next entry, given the entries before it. */
  ghost function NextEntry(before: seq<Ace>, rest: seq<byte>, trusted: seq<seq<byte>>, dangerous: nat): Entry {
    if |rest| < 8 then Bad(MalformedAce) else
    var size := Word(rest, 2);
    if size < 12 || size % 4 != 0 || size > |rest| || HasFlag(rest[1], UNKNOWN_FLAGS) then Bad(MalformedAce) else
    if rest[0] != DENIED && rest[0] != ALLOWED then Bad(UnsupportedAce) else
    var ace := Ace(rest[0], rest[1], Long(rest, 4), rest[8..size]);
    if exists p :: 0 <= p < |before| && before[p].Rank() > ace.Rank() then Bad(Noncanonical) else
    if !ValidSid(ace.sid) then Bad(InvalidSid) else
    if ace.Exposes(trusted) && ace.Maximal() then Bad(MaximumAccess) else
    if ace.Exposes(trusted) && ace.Mutates(dangerous) then Bad(MutationAuthority) else
    Good(ace)
  }

  lemma PrintFields(a: Ace, rest: seq<byte>)
    requires a.WellFormed() && a.Print() <= rest
    ensures |rest| >= 16 && rest[0] == a.kind && rest[1] == a.flags && Word(rest, 2) == 8 + |a.sid|
    ensures Long(rest, 4) == a.mask && rest[8..8 + |a.sid|] == a.sid
  {
    var b := a.Print();
    var size, mask := PrintWord(8 + |a.sid|), PrintLong(a.mask);
    assert b[2] == size[0] && b[3] == size[1];
    assert b[4] == mask[0] && b[5] == mask[1] && b[6] == mask[2] && b[7] == mask[3];
    assert b[8..] == a.sid;
    assert rest[8..8 + |a.sid|] == b[8..];
  }

  lemma FieldsPrint(rest: seq<byte>, a: Ace)
    requires a.WellFormed() && |rest| >= 8 + |a.sid|
    requires rest[0] == a.kind && rest[1] == a.flags && Word(rest, 2) == 8 + |a.sid|
    requires Long(rest, 4) == a.mask && rest[8..8 + |a.sid|] == a.sid
    ensures rest[..8 + |a.sid|] == a.Print()
  {
    assert rest[2..4] == PrintWord(8 + |a.sid|) by {
      WordsDetermineBytes(rest, 2, PrintWord(8 + |a.sid|), 0);
    }
    assert rest[4..8] == PrintLong(a.mask) by {
      LongsDetermineBytes(rest, 4, PrintLong(a.mask), 0);
    }
    FourParts(rest, 8 + |a.sid|);
    assert rest[..2] == [a.kind, a.flags];
  }

  lemma FourParts(b: seq<byte>, end: nat)
    requires 8 <= end <= |b|
    ensures b[..end] == b[..2] + b[2..4] + b[4..8] + b[8..end]
  {
  }

  /** The next entry is good exactly when one more printed entry keeps the list secure. */
  lemma NextEntryIsRight(before: seq<Ace>, rest: seq<byte>, trusted: seq<seq<byte>>, dangerous: nat, a: Ace)
    requires Secure(before, trusted, dangerous)
    ensures NextEntry(before, rest, trusted, dangerous) == Good(a)
       <==> Secure(before + [a], trusted, dangerous) && a.WellFormed() && a.Print() <= rest
  {
    var after := before + [a];
    if NextEntry(before, rest, trusted, dangerous) == Good(a) {
      FieldsPrint(rest, a);
      assert Secure(after, trusted, dangerous);
    }
    if Secure(after, trusted, dangerous) && a.WellFormed() && a.Print() <= rest {
      PrintFields(a, rest);
      assert after[|before|] == a && a.Harmless(trusted, dangerous);
      forall p | 0 <= p < |before| ensures before[p].Rank() <= a.Rank() {
        assert after[p].Rank() <= after[|before|].Rank();
      }
      assert |a.Print()| <= |rest|;
      assert Ace(rest[0], rest[1], Long(rest, 4), rest[8..8 + |a.sid|]) == a;
    }
  }

  // ---------------------------------------------------------------- lists of entries

  lemma {:induction false} PrintsPrefix(aces: seq<Ace>, k: nat)
    requires AllWellFormed(aces) && k < |aces|
    ensures PrintAll(aces[..k]) + aces[k].Print() <= PrintAll(aces)
  {
    hide Ace.WellFormed, Ace.Print;
    var front := aces[..|aces| - 1];
    if k < |front| {
      PrintsPrefix(front, k);
      assert front[..k] == aces[..k];
    }
  }

  lemma PrefixTail<T>(done: seq<T>, next: seq<T>, whole: seq<T>)
    requires done + next <= whole
    ensures done <= whole && next <= whole[|done|..]
  {
    assert whole[..|done|] == (done + next)[..|done|];
    assert whole[|done|..][..|next|] == (done + next)[|done|..];
  }

  lemma EntryIsUnique(a: Ace, b: Ace, rest: seq<byte>)
    requires a.WellFormed() && b.WellFormed() && a.Print() <= rest && b.Print() <= rest
    ensures a == b
  {
    PrintFields(a, rest);
    PrintFields(b, rest);
  }

  lemma LastIsUnique(a: seq<Ace>, b: seq<Ace>, n: nat, whole: seq<byte>)
    requires AllWellFormed(a) && AllWellFormed(b) && |a| == n + 1 <= |b| && a[..n] == b[..n]
    requires PrintAll(a) <= whole && PrintAll(b) <= whole
    ensures a[n] == b[n]
  {
    hide Ace.WellFormed, Ace.Print;
    var done := PrintAll(a[..n]);
    PrefixTail(done, a[n].Print(), whole);
    PrintsPrefix(b, n);
    PrefixTail(done, b[n].Print(), whole);
    EntryIsUnique(a[n], b[n], whole[|done|..]);
  }

  /** Bytes are read as a list of entries in at most one way. */
  lemma {:induction false} ReadingIsUnique(a: seq<Ace>, b: seq<Ace>, whole: seq<byte>)
    requires AllWellFormed(a) && AllWellFormed(b) && |a| <= |b|
    requires PrintAll(a) <= whole && PrintAll(b) <= whole
    ensures a == b[..|a|]
  {
    hide Ace.WellFormed, Ace.Print;
    if a != [] {
      var n := |a| - 1;
      PrefixTail(PrintAll(a[..n]), a[n].Print(), whole);
      ReadingIsUnique(a[..n], b, whole);
      LastIsUnique(a, b, n, whole);
      assert a == a[..n] + [a[n]];
    }
  }

  /** The pass stops at `f`: every entry before it is good, the list so far is `aces`. */
  ghost predicate StopsAfter(acl: seq<byte>, trusted: seq<seq<byte>>, dangerous: nat, aces: seq<Ace>, f: Fault)
    requires SoundHeader(acl)
  {
    && Secure(aces, trusted, dangerous)
    && AllWellFormed(aces)
    && PrintAll(aces) <= acl[8..]
    && var rest := acl[8 + |PrintAll(aces)|..];
       if |aces| == Word(acl, 4) then rest != [] && f == UnparsedData
       else |aces| < Word(acl, 4) && NextEntry(aces, rest, trusted, dangerous) == Bad(f)
  }

  ghost predicate FirstFault(acl: seq<byte>, trusted: seq<seq<byte>>, dangerous: nat, f: Fault)
    requires SoundHeader(acl)
  {
    exists aces :: StopsAfter(acl, trusted, dangerous, aces, f)
  }

  /** In a secure reading every entry is good when the pass comes to it. */
  lemma NoFaultInside(good: seq<Ace>, n: nat, body: seq<byte>, trusted: seq<seq<byte>>, dangerous: nat)
    requires Secure(good, trusted, dangerous) && AllWellFormed(good) && n < |good| && body == PrintAll(good)
    ensures AllWellFormed(good[..n]) && PrintAll(good[..n]) <= body
    ensures NextEntry(good[..n], body[|PrintAll(good[..n])|..], trusted, dangerous) == Good(good[n])
  {
    hide NextEntry, Ace.WellFormed, Ace.Print, Ace.Rank, Ace.Harmless;
    PrintsPrefix(good, n);
    PrefixTail(PrintAll(good[..n]), good[n].Print(), body);
    assert Secure(good[..n] + [good[n]], trusted, dangerous) by {
      assert good[..n] + [good[n]] == good[..n + 1];
    }
    NextEntryIsRight(good[..n], body[|PrintAll(good[..n])|..], trusted, dangerous, good[n]);
  }

  /** A list the pass stops after is no beginning of a secure reading of the same bytes. */
  lemma StopExcludes(acl: seq<byte>, trusted: seq<seq<byte>>, dangerous: nat, f: Fault, aces: seq<Ace>, good: seq<Ace>)
    requires SoundHeader(acl) && StopsAfter(acl, trusted, dangerous, aces, f)
    requires Secure(good, trusted, dangerous)
    ensures !Lists(acl, good)
  {
    hide NextEntry, Ace.WellFormed, Ace.Print, Secure;
    if Lists(acl, good) {
      var body := acl[8..];
      ReadingIsUnique(aces, good, body);
      assert good[..|good|] == good;
      assert acl[8 + |PrintAll(aces)|..] == body[|PrintAll(aces)|..];
      if |aces| < |good| {
        NoFaultInside(good, |aces|, body, trusted, dangerous);
      }
    }
  }

  /** A fault and a secure reading exclude one another. */
  lemma FaultExcludesReading(acl: seq<byte>, trusted: seq<seq<byte>>, dangerous: nat, f: Fault)
    requires SoundHeader(acl) && FirstFault(acl, trusted, dangerous, f)
    ensures !Describes(acl, trusted, dangerous)
  {
    var aces: seq<Ace> :| StopsAfter(acl, trusted, dangerous, aces, f);
    forall good: seq<Ace> | Secure(good, trusted, dangerous) ensures !Lists(acl, good) {
      StopExcludes(acl, trusted, dangerous, f, aces, good);
    }
  }

  // ---------------------------------------------------------------- the pass itself

  method TrustedWindowsSid(sid: seq<byte>, trusted: seq<seq<byte>>) returns (found: bool)
    ensures found <==> sid in trusted
  {
    for i := 0 to |trusted|
      invariant sid !in trusted[..i]
    {
      if sid == trusted[i] {
        return true;
      }
    }
    return false;
  }

  method ValidateWindowsSecurity(owner: seq<byte>, acl: seq<byte>, trusted: seq<seq<byte>>, dangerous: nat)
    returns (v: Verdict)
    ensures v.Accepted? <==> ValidSid(owner) && owner in trusted && Describes(acl, trusted, dangerous)
    ensures v == Refused(UntrustedOwner) <==> !ValidSid(owner) || owner !in trusted
    ensures v == Refused(MalformedAcl) <==> ValidSid(owner) && owner in trusted && !SoundHeader(acl)
    ensures v.Refused? && v.fault != UntrustedOwner && v.fault != MalformedAcl
        ==> SoundHeader(acl) && FirstFault(acl, trusted, dangerous, v.fault)
  {
    var known := TrustedWindowsSid(owner, trusted);
    if !ValidSid(owner) || !known {
      return Refused(UntrustedOwner);
    }
    if |acl| < 8 || acl[0] != 2 || Word(acl, 2) != |acl| % 0x1_0000 {
      return Refused(MalformedAcl);
    }
    var fault := ScanEntries(acl, trusted, dangerous);
    if fault.Refused? {
      FaultExcludesReading(acl, trusted, dangerous, fault.fault);
    }
    return fault;
  }

  ghost predicate Progress(acl: seq<byte>, trusted: seq<seq<byte>>, dangerous: nat, aces: seq<Ace>, offset: nat) {
    && Secure(aces, trusted, dangerous)
    && AllWellFormed(aces)
    && 8 <= offset <= |acl|
    && acl[8..offset] == PrintAll(aces)
  }

  lemma StopHere(acl: seq<byte>, trusted: seq<seq<byte>>, dangerous: nat, aces: seq<Ace>, offset: nat, f: Fault)
    requires SoundHeader(acl) && Progress(acl, trusted, dangerous, aces, offset) && |aces| < Word(acl, 4)
    requires NextEntry(aces, acl[offset..], trusted, dangerous) == Bad(f)
    ensures FirstFault(acl, trusted, dangerous, f)
  {
    hide NextEntry, AllWellFormed, Secure;
    assert acl[8..][..|PrintAll(aces)|] == PrintAll(aces);
    assert acl[8 + |PrintAll(aces)|..] == acl[offset..];
    assert StopsAfter(acl, trusted, dangerous, aces, f);
  }

  lemma AllCounted(acl: seq<byte>, trusted: seq<seq<byte>>, dangerous: nat, aces: seq<Ace>, offset: nat)
    requires SoundHeader(acl) && Progress(acl, trusted, dangerous, aces, offset) && |aces| == Word(acl, 4)
    ensures if offset == |acl| then Describes(acl, trusted, dangerous)
            else FirstFault(acl, trusted, dangerous, UnparsedData)
  {
    if offset == |acl| {
      assert acl[8..offset] == acl[8..];
      assert Lists(acl, aces);
    } else {
      assert acl[8..][..|PrintAll(aces)|] == PrintAll(aces);
      assert StopsAfter(acl, trusted, dangerous, aces, UnparsedData);
    }
  }

  lemma GoOn(acl: seq<byte>, trusted: seq<seq<byte>>, dangerous: nat, aces: seq<Ace>, offset: nat, a: Ace)
    requires Progress(acl, trusted, dangerous, aces, offset)
    requires NextEntry(aces, acl[offset..], trusted, dangerous) == Good(a)
    ensures Progress(acl, trusted, dangerous, aces + [a], offset + 8 + |a.sid|)
  {
    hide NextEntry, Canonical, Sound, Ace.WellFormed, Ace.Print;
    NextEntryIsRight(aces, acl[offset..], trusted, dangerous, a);
    SliceGrows(acl, offset, a.Print());
    assert (aces + [a])[..|aces|] == aces;
  }

  lemma SliceGrows(acl: seq<byte>, offset: nat, e: seq<byte>)
    requires 8 <= offset <= |acl| && e <= acl[offset..]
    ensures acl[8..offset + |e|] == acl[8..offset] + e
  {
    assert acl[offset..][..|e|] == e;
  }

  lemma RanksSoFar(aces: seq<Ace>, a: Ace, inherited: bool, explicitAllow: bool)
    requires a.kind == ALLOWED || a.kind == DENIED
    requires inherited <==> HoldsRank(aces, 2)
    requires explicitAllow <==> HoldsRank(aces, 1)
    ensures (exists p :: 0 <= p < |aces| && aces[p].Rank() > a.Rank())
       <==> (inherited && a.Rank() != 2) || (a.Rank() == 0 && explicitAllow)
    ensures HoldsRank(aces + [a], 2) <==> inherited || a.Rank() == 2
    ensures HoldsRank(aces + [a], 1) <==> explicitAllow || a.Rank() == 1
  {
    var after := aces + [a];
    assert after[|aces|] == a && forall p :: 0 <= p < |aces| ==> after[p] == aces[p];
  }

  ghost predicate HoldsRank(aces: seq<Ace>, rank: int) {
    exists p :: 0 <= p < |aces| && aces[p].Rank() == rank
  }

  /** The loop over the entries and the check for trailing bytes. */
  method ScanEntries(acl: seq<byte>, trusted: seq<seq<byte>>, dangerous: nat) returns (v: Verdict)
    requires SoundHeader(acl)
    ensures v.Accepted? ==> Describes(acl, trusted, dangerous)
    ensures v.Refused? ==> FirstFault(acl, trusted, dangerous, v.fault)
    ensures v != Refused(UntrustedOwner) && v != Refused(MalformedAcl)
  {
    hide Describes, FirstFault, Ace.WellFormed, Ace.Print;
    var offset := 8;
    var inherited, explicitAllow := false, false;
    ghost var aces: seq<Ace> := [];
    for index := 0 to Word(acl, 4)
      invariant |aces| == index
      invariant 8 <= offset
      invariant Progress(acl, trusted, dangerous, aces, offset)
      invariant inherited <==> HoldsRank(aces, 2)
      invariant explicitAllow <==> HoldsRank(aces, 1)
    {
      var fault, size := ScanEntry(acl, offset, trusted, dangerous, inherited, explicitAllow, aces);
      if fault.Refused? {
        StopHere(acl, trusted, dangerous, aces, offset, fault.fault);
        return fault;
      }
      ghost var ace := NextEntry(aces, acl[offset..], trusted, dangerous).ace;
      RanksSoFar(aces, ace, inherited, explicitAllow);
      if HasFlag(acl[offset + 1], INHERITED) {
        inherited := true;
      } else if acl[offset] == ALLOWED {
        explicitAllow := true;
      }
      GoOn(acl, trusted, dangerous, aces, offset, ace);
      aces := aces + [ace];
      offset := offset + size;
    }
    AllCounted(acl, trusted, dangerous, aces, offset);
    if offset != |acl| {
      return Refused(UnparsedData);
    }
    return Accepted;
  }

  /** One turn of the loop: all checks on the entry at `offset`. */
  method ScanEntry(acl: seq<byte>, offset: nat, trusted: seq<seq<byte>>, dangerous: nat,
                   inherited: bool, explicitAllow: bool, ghost aces: seq<Ace>)
    returns (v: Verdict, size: nat)
    requires offset <= |acl|
    requires inherited <==> HoldsRank(aces, 2)
    requires explicitAllow <==> HoldsRank(aces, 1)
    ensures var next := NextEntry(aces, acl[offset..], trusted, dangerous);
      if v.Refused? then next == Bad(v.fault)
      else
        && next.Good?
        && size == 8 + |next.ace.sid|
        && offset + size <= |acl|
        && acl[offset] == next.ace.kind
        && acl[offset + 1] == next.ace.flags
    ensures v != Refused(UntrustedOwner) && v != Refused(MalformedAcl)
  {
    ghost var rest := acl[offset..];
    size := 0;
    if offset + 8 > |acl| {
      return Refused(MalformedAce), size;
    }
    var typ, flags := acl[offset], acl[offset + 1];
    size := Word(acl, offset + 2);
    if size < 12 || size % 4 != 0 || offset + size > |acl| || HasFlag(flags, UNKNOWN_FLAGS) {
      return Refused(MalformedAce), size;
    }
    if typ != DENIED && typ != ALLOWED {
      return Refused(UnsupportedAce), size;
    }
    var aceInherited := HasFlag(flags, INHERITED);
    ghost var ace := Ace(rest[0], rest[1], Long(rest, 4), rest[8..size]);
    RanksSoFar(aces, ace, inherited, explicitAllow);
    if (inherited && !aceInherited) || (!aceInherited && explicitAllow && typ == DENIED) {
      return Refused(Noncanonical), size;
    }
    var sid := acl[offset + 8..offset + size];
    assert sid == ace.sid;
    if !ValidSid(sid) || |sid| != size - 8 {
      return Refused(InvalidSid), size;
    }
    var known := TrustedWindowsSid(sid, trusted);
    if typ == ALLOWED && !HasFlag(flags, INHERIT_ONLY) && !known {
      var mask := Long(acl, offset + 4);
      assert mask == ace.mask;
      if Shares(mask, MAXIMUM_ALLOWED) {
        return Refused(MaximumAccess), size;
      }
      if Shares(Expanded(mask), dangerous) {
        return Refused(MutationAuthority), size;
      }
    }
    return Accepted, size;
  }

  // ---------------------------------------------------------------- round trip

  /** Every secure list prints, with any reserved bytes, to a DACL the reference describes. */
  lemma PrintedListIsDescribed(aces: seq<Ace>, trusted: seq<seq<byte>>, dangerous: nat, sbz1: byte, sbz2: (byte, byte))
    requires Secure(aces, trusted, dangerous) && AllWellFormed(aces) && |aces| < 0x1_0000
    ensures Describes(PrintAcl(aces, sbz1, sbz2), trusted, dangerous)
  {
    var body := PrintAll(aces);
    var acl := PrintAcl(aces, sbz1, sbz2);
    var size, count := PrintWord((8 + |body|) % 0x1_0000), PrintWord(|aces|);
    assert acl[2] == size[0] && acl[3] == size[1] && acl[4] == count[0] && acl[5] == count[1];
    assert acl[8..] == body;
    assert Lists(acl, aces);
  }

  lemma HeaderParts(b: seq<byte>)
    requires |b| >= 8
    ensures b == [b[0], b[1]] + b[2..4] + b[4..6] + [b[6], b[7]] + b[8..]
  {
  }

  lemma ListedIsPrinted(acl: seq<byte>, aces: seq<Ace>)
    requires SoundHeader(acl) && Lists(acl, aces)
    ensures |aces| < 0x1_0000 && acl == PrintAcl(aces, acl[1], (acl[6], acl[7]))
  {
    hide AllWellFormed, PrintAll;
    assert acl[2..4] == PrintWord(|acl| % 0x1_0000) by {
      WordsDetermineBytes(acl, 2, PrintWord(|acl| % 0x1_0000), 0);
    }
    assert acl[4..6] == PrintWord(|aces|) by {
      WordsDetermineBytes(acl, 4, PrintWord(|aces|), 0);
    }
    HeaderParts(acl);
  }

  /** The bytes are the print of this secure list, and no other list reads as the same entries. */
  ghost predicate PrintsOnly(acl: seq<byte>, trusted: seq<seq<byte>>, dangerous: nat, aces: seq<Ace>)
    requires SoundHeader(acl)
  {
    && Secure(aces, trusted, dangerous) && AllWellFormed(aces) && |aces| < 0x1_0000
    && acl == PrintAcl(aces, acl[1], (acl[6], acl[7]))
    && forall other :: AllWellFormed(other) && Lists(acl, other) ==> other == aces
  }

  /** And every DACL the reference describes is the print of one secure list. */
  lemma DescribedIsPrinted(acl: seq<byte>, trusted: seq<seq<byte>>, dangerous: nat)
    requires Describes(acl, trusted, dangerous)
    ensures exists aces :: PrintsOnly(acl, trusted, dangerous, aces)
  {
    hide Secure, PrintAcl, PrintAll;
    var aces :| Secure(aces, trusted, dangerous) && Lists(acl, aces);
    ListedIsPrinted(acl, aces);
    forall other | AllWellFormed(other) && Lists(acl, other) ensures other == aces {
      ReadingIsUnique(other, aces, acl[8..]);
    }
    assert PrintsOnly(acl, trusted, dangerous, aces);
  }

  ghost predicate ThreeBlocks(aces: seq<Ace>, i: nat, j: nat) {
    && i <= j <= |aces|
    && (forall p :: 0 <= p < i ==> !HasFlag(aces[p].flags, INHERITED) && aces[p].kind == DENIED)
    && (forall p :: i <= p < j ==> !HasFlag(aces[p].flags, INHERITED) && aces[p].kind == ALLOWED)
    && (forall p :: j <= p < |aces| ==> HasFlag(aces[p].flags, INHERITED))
  }

  /** Canonical order is explicit denials, then explicit grants, then inherited entries. */
  lemma CanonicalMeansThreeBlocks(aces: seq<Ace>)
    requires AllWellFormed(aces)
    ensures Canonical(aces) <==> exists i, j :: ThreeBlocks(aces, i, j)
  {
    if Canonical(aces) {
      var i := 0;
      while i < |aces| && aces[i].Rank() == 0
        invariant 0 <= i <= |aces|
        invariant forall p :: 0 <= p < i ==> aces[p].Rank() == 0
      {
        i := i + 1;
      }
      var j := i;
      while j < |aces| && aces[j].Rank() == 1
        invariant i <= j <= |aces|
        invariant forall p :: i <= p < j ==> aces[p].Rank() == 1
      {
        j := j + 1;
      }
      assert forall p :: j <= p < |aces| ==> aces[j].Rank() <= aces[p].Rank();
      if i < j < |aces| {
        assert aces[i].Rank() <= aces[j].Rank();
      }
      assert ThreeBlocks(aces, i, j);
    }
  }

  /** A grant is dangerous through its own bits or through a generic right it carries. */
  lemma WhatMutates(a: Ace, dangerous: nat)
    ensures a.Mutates(dangerous) <==>
      || Shares(a.mask, dangerous)
      || (Shares(a.mask, GENERIC_WRITE) && Shares(FILE_GENERIC_WRITE, dangerous))
      || (Shares(a.mask, GENERIC_ALL) && Shares(FILE_ALL_ACCESS, dangerous))
  {
    var written := if Shares(a.mask, GENERIC_WRITE) then Or(a.mask, FILE_GENERIC_WRITE) else a.mask;
    SharesWithEither(a.mask, FILE_GENERIC_WRITE, dangerous);
    SharesWithEither(written, FILE_ALL_ACCESS, dangerous);
  }
}
