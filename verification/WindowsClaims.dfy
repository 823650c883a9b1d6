/**
 * The byte-level validator of the resource attributes of a Windows file: a system ACL whose
 * entries each carry a claim, laid out as in sections 2.4.4.15 and 2.4.10.1 of MS-DTYP.
 * It is proved against a reference that says what the bytes are read as: a list of
 * attributes, each with its flags, mask, SID and a named claim of numbers or strings.
 */
module WindowsClaims {
  import opened WindowsAcl

  const RESOURCE_ATTRIBUTE: byte := 0x12
  const STRINGS := 3

  /** The values of a claim: 64-bit numbers, or strings of UTF-16 units. */
  datatype Values = Numbers(numbers: seq<nat>) | Texts(texts: seq<seq<nat>>) {
    function Count(): nat { if Numbers? then |numbers| else |texts| }
  }

  datatype Claim = Claim(kind: nat, flags: nat, name: seq<nat>, values: Values)

  datatype Attribute = Attribute(flags: byte, mask: nat, sid: seq<byte>, claim: Claim)

  datatype AttributeFault = Malformed | Unsupported

  datatype Evidence = Passed(evidence: string) | Rejected(fault: AttributeFault)

  // ---------------------------------------------------------------- what a claim is read as

  predicate NumericKind(kind: nat) { kind == 1 || kind == 2 || kind == 6 }

  function UnitOf(b: seq<byte>, at: nat, k: nat): nat
    requires at + 2 * k + 2 <= |b|
  {
    Word(b, at + 2 * k)
  }

  /** The units `t` and a closing zero unit start at `at`. */
  predicate Units(b: seq<byte>, at: nat, t: seq<nat>) {
    && at + 2 * |t| + 2 <= |b|
    && (forall k :: 0 <= k < |t| ==> t[k] == UnitOf(b, at, k) && t[k] != 0)
    && UnitOf(b, at, |t|) == 0
  }

  predicate TextAt(b: seq<byte>, at: nat, t: seq<nat>) { t != [] && Units(b, at, t) }

  predicate NumberAt(b: seq<byte>, at: nat, v: nat) {
    at + 8 <= |b| && v == Long(b, at) + 0x1_0000_0000 * Long(b, at + 4)
  }

  /** Data lies behind the header and the table of `n` offsets. */
  predicate Behind(at: nat, n: nat, alignment: nat)
    requires alignment > 0
  {
    at >= 16 + 4 * n && at % alignment == 0
  }

  predicate HoldsNumber(b: seq<byte>, n: nat, k: nat, v: nat)
    requires k < n && 16 + 4 * n <= |b|
  {
    var at := Long(b, 16 + 4 * k);
    Behind(at, n, 8) && NumberAt(b, at, v)
  }

  predicate HoldsText(b: seq<byte>, n: nat, k: nat, t: seq<nat>)
    requires k < n && 16 + 4 * n <= |b|
  {
    var at := Long(b, 16 + 4 * k);
    Behind(at, n, 2) && TextAt(b, at, t)
  }

  predicate HoldsValues(b: seq<byte>, n: nat, values: Values)
    requires 16 + 4 * n <= |b|
  {
    && values.Count() == n
    && match values
       case Numbers(v) => forall k :: 0 <= k < n ==> HoldsNumber(b, n, k, v[k])
       case Texts(t) => forall k :: 0 <= k < n ==> HoldsText(b, n, k, t[k])
  }

  predicate HoldsName(b: seq<byte>, n: nat, name: seq<nat>)
    requires |b| >= 4
  {
    Behind(Long(b, 0), n, 2) && TextAt(b, Long(b, 0), name)
  }

  predicate KindFits(c: Claim) {
    if c.values.Numbers? then NumericKind(c.kind) else c.kind == STRINGS
  }

  predicate ClaimReads(b: seq<byte>, c: Claim) {
    var n := c.values.Count();
    && n >= 1 && 16 + 4 * n <= |b|
    && Long(b, 12) == n && Word(b, 6) == 0
    && Word(b, 4) == c.kind && Long(b, 8) == c.flags && KindFits(c)
    && HoldsName(b, n, c.name)
    && HoldsValues(b, n, c.values)
  }

  lemma TextIsUnique(b: seq<byte>, at: nat, t: seq<nat>, u: seq<nat>)
    requires Units(b, at, t) && Units(b, at, u)
    ensures t == u
  {
  }

  lemma ValuesAreUnique(b: seq<byte>, n: nat, v: Values, w: Values)
    requires 16 + 4 * n <= |b| && HoldsValues(b, n, v) && HoldsValues(b, n, w)
    requires v.Numbers? <==> w.Numbers?
    ensures v == w
  {
    if v.Numbers? {
      forall k | 0 <= k < n ensures v.numbers[k] == w.numbers[k] {
        assert HoldsNumber(b, n, k, v.numbers[k]) && HoldsNumber(b, n, k, w.numbers[k]);
      }
    } else {
      forall k | 0 <= k < n ensures v.texts[k] == w.texts[k] {
        assert HoldsText(b, n, k, v.texts[k]) && HoldsText(b, n, k, w.texts[k]);
        TextIsUnique(b, Long(b, 16 + 4 * k), v.texts[k], w.texts[k]);
      }
    }
  }

  /** Bytes are read as a claim in at most one way. */
  lemma ClaimIsUnique(b: seq<byte>, c: Claim, d: Claim)
    requires ClaimReads(b, c) && ClaimReads(b, d)
    ensures c == d
  {
    hide HoldsValues, Units;
    TextIsUnique(b, Long(b, 0), c.name, d.name);
    ValuesAreUnique(b, c.values.Count(), c.values, d.values);
  }

  // ---------------------------------------------------------------- the checks of one claim

  /** `boundedWindowsUTF16` */
  method BoundedWindowsUtf16(b: seq<byte>, at: nat) returns (ok: bool)
    ensures ok <==> exists t :: TextAt(b, at, t)
  {
    if at + 2 > |b| {
      return false;
    }
    ghost var text: seq<nat> := [];
    var index := at;
    while index + 2 <= |b|
      invariant index == at + 2 * |text| && index <= |b|
      invariant forall k :: 0 <= k < |text| ==> text[k] == UnitOf(b, at, k) && text[k] != 0
    {
      if Word(b, index) == 0 {
        assert Units(b, at, text);
        forall t | TextAt(b, at, t) ensures t == text { TextIsUnique(b, at, t, text); }
        assert text != [] ==> TextAt(b, at, text);
        return index > at;
      }
      assert UnitOf(b, at, |text|) == Word(b, index);
      text := text + [Word(b, index)];
      index := index + 2;
    }
    forall t ensures !TextAt(b, at, t) {
      assert |t| < |text| ==> text[|t|] == UnitOf(b, at, |t|);
    }
    return false;
  }

  /** The offsets of numbers. */
  method CheckNumbers(b: seq<byte>, n: nat) returns (ok: bool)
    requires 16 + 4 * n <= |b|
    ensures ok <==> exists v :: HoldsValues(b, n, Numbers(v))
  {
    ghost var numbers: seq<nat> := [];
    for k := 0 to n
      invariant |numbers| == k
      invariant forall j :: 0 <= j < k ==> HoldsNumber(b, n, j, numbers[j])
    {
      var at := Long(b, 16 + 4 * k);
      if at % 8 != 0 || at < 16 + 4 * n || at > |b| - 8 {
        forall v ensures !HoldsValues(b, n, Numbers(v)) {
          assert |v| == n ==> !HoldsNumber(b, n, k, v[k]);
        }
        return false;
      }
      numbers := numbers + [Long(b, at) + 0x1_0000_0000 * Long(b, at + 4)];
    }
    assert HoldsValues(b, n, Numbers(numbers));
    return true;
  }

  /** The offsets of strings. */
  method CheckTexts(b: seq<byte>, n: nat) returns (ok: bool)
    requires 16 + 4 * n <= |b|
    ensures ok <==> exists t :: HoldsValues(b, n, Texts(t))
  {
    hide Units;
    ghost var texts: seq<seq<nat>> := [];
    for k := 0 to n
      invariant |texts| == k
      invariant forall j :: 0 <= j < k ==> HoldsText(b, n, j, texts[j])
    {
      var at := Long(b, 16 + 4 * k);
      var bounded := BoundedWindowsUtf16(b, at);
      if at % 2 != 0 || at < 16 + 4 * n || !bounded {
        forall t ensures !HoldsValues(b, n, Texts(t)) {
          assert |t| == n ==> !HoldsText(b, n, k, t[k]);
        }
        return false;
      }
      ghost var text :| TextAt(b, at, text);
      texts := texts + [text];
    }
    assert HoldsValues(b, n, Texts(texts));
    return true;
  }

  /** `validWindowsResourceClaim`: accepted exactly when the bytes can be read as a claim. */
  method ValidWindowsResourceClaim(b: seq<byte>) returns (ok: bool)
    ensures ok <==> exists c :: ClaimReads(b, c)
  {
    hide HoldsValues, Units;
    if |b| < 20 {
      return false;
    }
    var at, kind, count := Long(b, 0), Word(b, 4), Long(b, 12);
    var named := BoundedWindowsUtf16(b, at);
    if Word(b, 6) != 0 || count < 1 || count > (|b| - 16) / 4 || at < 16 + count * 4 || at % 2 != 0 || !named {
      return false;
    }
    ghost var name :| TextAt(b, at, name);
    ghost var flags := Long(b, 8);
    if kind == 1 || kind == 2 || kind == 6 {
      ok := CheckNumbers(b, count);
      if ok {
        ghost var v :| HoldsValues(b, count, Numbers(v));
        CountHeld(b, count, Numbers(v));
        assert ClaimReads(b, Claim(kind, flags, name, Numbers(v)));
      } else {
        forall c ensures !ClaimReads(b, c) {
          assert c.values.Numbers? ==> !HoldsValues(b, count, Numbers(c.values.numbers));
        }
      }
    } else if kind == STRINGS {
      ok := CheckTexts(b, count);
      if ok {
        ghost var t :| HoldsValues(b, count, Texts(t));
        CountHeld(b, count, Texts(t));
        assert ClaimReads(b, Claim(kind, flags, name, Texts(t)));
      } else {
        forall c ensures !ClaimReads(b, c) {
          assert c.values.Texts? ==> !HoldsValues(b, count, Texts(c.values.texts));
        }
      }
    } else {
      return false;
    }
  }

  lemma CountHeld(b: seq<byte>, n: nat, v: Values)
    requires 16 + 4 * n <= |b| && HoldsValues(b, n, v)
    ensures v.Count() == n
  {
  }

  // ---------------------------------------------------------------- what an entry is read as

  predicate EntryReads(e: seq<byte>, a: Attribute) {
    && |e| >= 8 && |e| % 4 == 0
    && e[0] == RESOURCE_ATTRIBUTE && e[1] == a.flags
    && Word(e, 2) == |e|
    && Long(e, 4) == a.mask
    && ValidSid(a.sid) && a.sid <= e[8..]
    && ClaimReads(e[8 + |a.sid|..], a.claim)
  }

  ghost predicate IsEntry(e: seq<byte>) { exists a :: EntryReads(e, a) }

  lemma SidIsUnique(s: seq<byte>, t: seq<byte>, whole: seq<byte>)
    requires ValidSid(s) && ValidSid(t) && s <= whole && t <= whole
    ensures s == t
  {
    assert s[1] == whole[1] == t[1];
  }

  lemma EntryIsReadOnce(e: seq<byte>, a: Attribute, b: Attribute)
    requires EntryReads(e, a) && EntryReads(e, b)
    ensures a == b
  {
    hide ClaimReads, ValidSid;
    SidIsUnique(a.sid, b.sid, e[8..]);
    ClaimIsUnique(e[8 + |a.sid|..], a.claim, b.claim);
  }

  /** `windowsResourceSIDLength` */
  method WindowsResourceSidLength(value: seq<byte>) returns (length: nat, ok: bool)
    ensures ok <==> exists sid :: ValidSid(sid) && sid <= value
    ensures ok ==> length <= |value| && ValidSid(value[..length])
  {
    if |value| < 8 || value[0] != 1 || value[1] > 15 {
      return 0, false;
    }
    length := 8 + 4 * value[1] as nat;
    ok := length <= |value|;
    if ok {
      assert ValidSid(value[..length]) && value[..length] <= value;
    }
  }

  /** The checks of the loop on one entry that has passed those on kind and size. */
  method CheckEntry(e: seq<byte>) returns (ok: bool)
    requires |e| >= 20 && |e| % 4 == 0 && e[0] == RESOURCE_ATTRIBUTE && Word(e, 2) == |e|
    ensures ok <==> IsEntry(e)
  {
    hide ClaimReads;
    var length, sound := WindowsResourceSidLength(e[8..]);
    if !sound || 8 + length + 20 > |e| {
      forall a ensures !EntryReads(e, a) {
        if EntryReads(e, a) {
          SidIsUnique(a.sid, e[8..][..length], e[8..]);
          ClaimIsLong(e[8 + |a.sid|..], a.claim);
        }
      }
      return false;
    }
    ghost var sid := e[8..][..length];
    forall a | EntryReads(e, a) ensures a.sid == sid { SidIsUnique(a.sid, sid, e[8..]); }
    ok := ValidWindowsResourceClaim(e[8 + length..]);
    if ok {
      ghost var claim :| ClaimReads(e[8 + length..], claim);
      assert EntryReads(e, Attribute(e[1], Long(e, 4), sid, claim));
    }
  }

  lemma ClaimIsLong(b: seq<byte>, c: Claim)
    requires ClaimReads(b, c)
    ensures |b| >= 20
  {
  }

  // ---------------------------------------------------------------- lists of entries

  function Join(parts: seq<seq<byte>>): seq<byte> {
    if parts == [] then [] else Join(parts[..|parts| - 1]) + parts[|parts| - 1]
  }

  lemma JoinOneMore(parts: seq<seq<byte>>, part: seq<byte>)
    ensures Join(parts + [part]) == Join(parts) + part
  {
    assert (parts + [part])[..|parts|] == parts;
  }

  lemma {:induction false} JoinPrefix(parts: seq<seq<byte>>, k: nat)
    requires k < |parts|
    ensures Join(parts[..k]) + parts[k] <= Join(parts)
  {
    var front := parts[..|parts| - 1];
    if k < |front| {
      JoinPrefix(front, k);
      assert front[..k] == parts[..k];
    }
  }

  ghost predicate AllEntries(entries: seq<seq<byte>>) {
    forall i :: 0 <= i < |entries| ==> IsEntry(entries[i])
  }

  ghost predicate AllRead(entries: seq<seq<byte>>, attributes: seq<Attribute>) {
    |entries| == |attributes| && forall i :: 0 <= i < |entries| ==> EntryReads(entries[i], attributes[i])
  }

  ghost predicate ListsAttributes(acl: seq<byte>, entries: seq<seq<byte>>, attributes: seq<Attribute>)
    requires SoundHeader(acl)
  {
    AllRead(entries, attributes) && |entries| == Word(acl, 4) && acl[8..] == Join(entries)
  }

  /** The bytes are an ACL header and this list of resource attributes, to the last byte. */
  ghost predicate DescribesAttributes(acl: seq<byte>, attributes: seq<Attribute>) {
    SoundHeader(acl) && exists entries :: ListsAttributes(acl, entries, attributes)
  }

  lemma EntriesAreRead(entries: seq<seq<byte>>) returns (attributes: seq<Attribute>)
    requires AllEntries(entries)
    ensures AllRead(entries, attributes)
  {
    hide EntryReads;
    attributes := [];
    for i := 0 to |entries|
      invariant |attributes| == i && forall j :: 0 <= j < i ==> EntryReads(entries[j], attributes[j])
    {
      assert IsEntry(entries[i]);
      var a :| EntryReads(entries[i], a);
      attributes := attributes + [a];
    }
  }

  /** Two entries at the beginning of the same bytes are the same entry. */
  lemma EntryIsUnique(e: seq<byte>, f: seq<byte>, rest: seq<byte>)
    requires IsEntry(e) && IsEntry(f) && e <= rest && f <= rest
    ensures e == f
  {
    hide ClaimReads, ValidSid;
    assert Word(e, 2) == Word(rest, 2) == Word(f, 2);
  }

  lemma {:induction false} CutsAreUnique(a: seq<seq<byte>>, b: seq<seq<byte>>, whole: seq<byte>)
    requires AllEntries(a) && AllEntries(b) && |a| <= |b|
    requires Join(a) <= whole && Join(b) <= whole
    ensures a == b[..|a|]
  {
    hide IsEntry;
    if a != [] {
      var n := |a| - 1;
      var done := Join(a[..n]);
      assert a[..n] == b[..n] by {
        PrefixTail(done, a[n], whole);
        CutsAreUnique(a[..n], b, whole);
      }
      PrefixTail(done, a[n], whole);
      JoinPrefix(b, n);
      PrefixTail(done, b[n], whole);
      EntryIsUnique(a[n], b[n], whole[|done|..]);
    }
  }

  /** The bytes of an ACL are read as a list of attributes in at most one way. */
  lemma AttributesAreUnique(acl: seq<byte>, a: seq<Attribute>, b: seq<Attribute>)
    requires DescribesAttributes(acl, a) && DescribesAttributes(acl, b)
    ensures a == b
  {
    hide EntryReads;
    var d :| ListsAttributes(acl, d, a);
    var e :| ListsAttributes(acl, e, b);
    ReadAreEntries(d, a);
    ReadAreEntries(e, b);
    CutsAreUnique(d, e, acl[8..]);
    forall i | 0 <= i < |a| ensures a[i] == b[i] {
      assert d[i] == e[i];
      EntryIsReadOnce(d[i], a[i], b[i]);
    }
  }

  lemma ReadAreEntries(entries: seq<seq<byte>>, attributes: seq<Attribute>)
    requires AllRead(entries, attributes)
    ensures AllEntries(entries)
  {
    hide EntryReads;
    forall i | 0 <= i < |entries| ensures IsEntry(entries[i]) { assert EntryReads(entries[i], attributes[i]); }
  }

  // ---------------------------------------------------------------- the first fault

  datatype Next = Entry(entry: seq<byte>) | Flaw(fault: AttributeFault)

  /** What the pass concludes about the next entry. */
  ghost function NextEntryOf(rest: seq<byte>): Next {
    if |rest| < 4 then Flaw(Malformed) else
    var size := Word(rest, 2);
    if rest[0] != RESOURCE_ATTRIBUTE || size < 20 || size % 4 != 0 || size > |rest| then Flaw(Unsupported) else
    if IsEntry(rest[..size]) then Entry(rest[..size]) else Flaw(Malformed)
  }

  /** An entry is accepted exactly when the bytes go on with one. */
  lemma NextIsRight(rest: seq<byte>, e: seq<byte>)
    ensures NextEntryOf(rest) == Entry(e) <==> IsEntry(e) && e <= rest
  {
    hide ClaimReads, ValidSid;
    if IsEntry(e) && e <= rest {
      var a :| EntryReads(e, a);
      ClaimIsLong(e[8 + |a.sid|..], a.claim);
      assert Word(e, 2) == Word(rest, 2);
      assert rest[..|e|] == e;
    }
  }

  /** The pass stops at `f` behind `entries`. */
  ghost predicate StopsBehind(acl: seq<byte>, entries: seq<seq<byte>>, f: AttributeFault)
    requires SoundHeader(acl)
  {
    && AllEntries(entries)
    && Join(entries) <= acl[8..]
    && var rest := acl[8..][|Join(entries)|..];
       if |entries| == Word(acl, 4) then rest != [] && f == Malformed
       else |entries| < Word(acl, 4) && NextEntryOf(rest) == Flaw(f)
  }

  ghost predicate FirstFaultIs(acl: seq<byte>, f: AttributeFault) {
    if !SoundHeader(acl) then f == Malformed else exists entries :: StopsBehind(acl, entries, f)
  }

  lemma StopExcludesList(acl: seq<byte>, stop: seq<seq<byte>>, f: AttributeFault, good: seq<seq<byte>>)
    requires SoundHeader(acl) && StopsBehind(acl, stop, f) && AllEntries(good) && |good| == Word(acl, 4)
    ensures Join(good) != acl[8..]
  {
    hide IsEntry, NextEntryOf, Word;
    if Join(good) == acl[8..] {
      CutsAreUnique(stop, good, acl[8..]);
      assert good[..|good|] == good;
      if |stop| < |good| {
        JoinPrefix(good, |stop|);
        PrefixTail(Join(stop), good[|stop|], acl[8..]);
        NextIsRight(acl[8..][|Join(stop)|..], good[|stop|]);
      }
    }
  }

  /** Bytes at which the pass stops are no list of attributes. */
  lemma FaultExcludesAttributes(acl: seq<byte>, f: AttributeFault, attributes: seq<Attribute>)
    requires FirstFaultIs(acl, f)
    ensures !DescribesAttributes(acl, attributes)
  {
    hide StopsBehind, AllRead, AllEntries, Join;
    if SoundHeader(acl) {
      var stop :| StopsBehind(acl, stop, f);
      forall good ensures !ListsAttributes(acl, good, attributes) {
        if AllRead(good, attributes) && |good| == Word(acl, 4) {
          ReadAreEntries(good, attributes);
          StopExcludesList(acl, stop, f, good);
        }
      }
    }
  }

  lemma FaultIsUnique(acl: seq<byte>, f: AttributeFault, g: AttributeFault)
    requires FirstFaultIs(acl, f) && FirstFaultIs(acl, g)
    ensures f == g
  {
    if SoundHeader(acl) {
      var d :| StopsBehind(acl, d, f);
      var e :| StopsBehind(acl, e, g);
      if |d| <= |e| { StopsAreOne(acl, d, f, e, g); } else { StopsAreOne(acl, e, g, d, f); }
    }
  }

  lemma StopsAreOne(acl: seq<byte>, d: seq<seq<byte>>, f: AttributeFault, e: seq<seq<byte>>, g: AttributeFault)
    requires SoundHeader(acl) && StopsBehind(acl, d, f) && StopsBehind(acl, e, g) && |d| <= |e|
    ensures f == g
  {
    hide IsEntry, NextEntryOf;
    CutsAreUnique(d, e, acl[8..]);
    if |d| < |e| {
      JoinPrefix(e, |d|);
      PrefixTail(Join(d), e[|d|], acl[8..]);
      NextIsRight(acl[8..][|Join(d)|..], e[|d|]);
    } else {
      assert d == e;
    }
  }

  // ---------------------------------------------------------------- the pass itself

  ghost predicate Scanned(acl: seq<byte>, entries: seq<seq<byte>>, offset: nat) {
    8 <= offset <= |acl| && AllEntries(entries) && acl[8..offset] == Join(entries)
  }

  lemma ScannedStops(acl: seq<byte>, entries: seq<seq<byte>>, offset: nat, f: AttributeFault)
    requires SoundHeader(acl) && Scanned(acl, entries, offset) && |entries| <= Word(acl, 4)
    requires if |entries| == Word(acl, 4) then offset < |acl| && f == Malformed
             else NextEntryOf(acl[offset..]) == Flaw(f)
    ensures FirstFaultIs(acl, f)
  {
    hide AllEntries, NextEntryOf;
    assert acl[8..][..|Join(entries)|] == Join(entries);
    assert acl[8..][|Join(entries)|..] == acl[offset..];
    assert StopsBehind(acl, entries, f);
  }

  lemma ScannedGoesOn(acl: seq<byte>, entries: seq<seq<byte>>, offset: nat, e: seq<byte>)
    requires Scanned(acl, entries, offset) && IsEntry(e) && e <= acl[offset..]
    ensures Scanned(acl, entries + [e], offset + |e|)
  {
    hide IsEntry, Join;
    JoinOneMore(entries, e);
    SliceGrows(acl, offset, e);
  }

  lemma ScannedAll(acl: seq<byte>, entries: seq<seq<byte>>)
    requires SoundHeader(acl) && Scanned(acl, entries, |acl|) && |entries| == Word(acl, 4)
    ensures exists attributes :: |attributes| == |entries| && DescribesAttributes(acl, attributes)
  {
    hide IsEntry, AllEntries;
    var attributes := EntriesAreRead(entries);
    assert acl[8..|acl|] == acl[8..];
    assert ListsAttributes(acl, entries, attributes);
  }

  /**
   * `validateWindowsResourceAttributeACL`: accepted exactly when the bytes are a list of
   * attributes; the evidence is empty exactly for the empty list, and the digest of all
   * bytes otherwise. A refusal names the first fault of the pass.
   */
  method ValidateWindowsResourceAttributeAcl(acl: seq<byte>, digest: seq<byte> -> string) returns (v: Evidence)
    ensures v.Passed? <==> exists attributes :: DescribesAttributes(acl, attributes)
    ensures forall attributes :: DescribesAttributes(acl, attributes) ==>
      v == Passed(if attributes == [] then "" else digest(acl))
    ensures forall f :: v == Rejected(f) <==> FirstFaultIs(acl, f)
  {
    hide DescribesAttributes, FirstFaultIs, Scanned;
    if |acl| < 8 || acl[0] != 2 || Word(acl, 2) != |acl| % 0x1_0000 {
      NoHeader(acl);
      SettlesVerdict(acl, digest, Rejected(Malformed));
      return Rejected(Malformed);
    }
    v := ScanAttributes(acl, digest);
    SettlesVerdict(acl, digest, v);
  }

  lemma NoHeader(acl: seq<byte>)
    requires !SoundHeader(acl)
    ensures FirstFaultIs(acl, Malformed)
  {
  }

  /** The loop over the entries, and the check that nothing follows them. */
  method ScanAttributes(acl: seq<byte>, digest: seq<byte> -> string) returns (v: Evidence)
    requires SoundHeader(acl)
    ensures if v.Rejected? then FirstFaultIs(acl, v.fault) else
      exists a :: DescribesAttributes(acl, a) && v.evidence == if a == [] then "" else digest(acl)
  {
    hide DescribesAttributes, FirstFaultIs, IsEntry, Scanned;
    var offset := 8;
    var count := Word(acl, 4);
    ghost var entries: seq<seq<byte>> := [];
    ScannedNone(acl);
    for index := 0 to count
      invariant |entries| == index && 8 <= offset <= |acl|
      invariant Scanned(acl, entries, offset)
    {
      ghost var rest := acl[offset..];
      if offset + 4 > |acl| {
        ScannedStops(acl, entries, offset, Malformed);
        return Rejected(Malformed);
      }
      var size := Word(acl, offset + 2);
      assert Word(rest, 2) == size && rest[0] == acl[offset];
      if acl[offset] != RESOURCE_ATTRIBUTE || size < 20 || size % 4 != 0 || offset + size > |acl| {
        ScannedStops(acl, entries, offset, Unsupported);
        return Rejected(Unsupported);
      }
      var entry := acl[offset..offset + size];
      assert entry == rest[..size];
      assert Word(entry, 2) == size;
      var sound := CheckEntry(entry);
      if !sound {
        ScannedStops(acl, entries, offset, Malformed);
        return Rejected(Malformed);
      }
      ScannedGoesOn(acl, entries, offset, entry);
      entries := entries + [entry];
      offset := offset + size;
    }
    if offset != |acl| {
      ScannedStops(acl, entries, offset, Malformed);
      return Rejected(Malformed);
    }
    ScannedAll(acl, entries);
    return Passed(if count == 0 then "" else digest(acl));
  }

  lemma ScannedNone(acl: seq<byte>)
    requires SoundHeader(acl)
    ensures Scanned(acl, [], 8)
  {
  }

  /** What the pass establishes settles all of its contract. */
  lemma SettlesVerdict(acl: seq<byte>, digest: seq<byte> -> string, v: Evidence)
    requires if v.Rejected? then FirstFaultIs(acl, v.fault) else
      exists a :: DescribesAttributes(acl, a) && v.evidence == if a == [] then "" else digest(acl)
    ensures v.Passed? <==> exists a :: DescribesAttributes(acl, a)
    ensures forall a :: DescribesAttributes(acl, a) ==> v == Passed(if a == [] then "" else digest(acl))
    ensures forall f :: v == Rejected(f) <==> FirstFaultIs(acl, f)
  {
    hide DescribesAttributes, FirstFaultIs;
    forall f, a: seq<Attribute> | FirstFaultIs(acl, f) ensures !DescribesAttributes(acl, a) {
      FaultExcludesAttributes(acl, f, a);
    }
    forall a, b | DescribesAttributes(acl, a) && DescribesAttributes(acl, b) ensures a == b {
      AttributesAreUnique(acl, a, b);
    }
    forall f, g | FirstFaultIs(acl, f) && FirstFaultIs(acl, g) ensures f == g { FaultIsUnique(acl, f, g); }
  }
}
