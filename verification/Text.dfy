/**
 Labels and the byte order of strings: `membership.ValidateLabel`, ASCII case
 folding, and the comparison that Go's `<` and SQLite's binary collation share.
 */
module Text {

  const MAX_LABEL := 63

  predicate IsDigit(c: char) { '0' <= c <= '9' }

  predicate IsUpper(c: char) { 'A' <= c <= 'Z' }

  predicate IsLetter(c: char) { IsUpper(c) || 'a' <= c <= 'z' }

  /** `^[A-Za-z0-9][A-Za-z0-9._-]{0,62}$` */
  predicate ValidLabel(name: string) {
    && 1 <= |name| <= MAX_LABEL
    && (IsLetter(name[0]) || IsDigit(name[0]))
    && forall i :: 0 < i < |name| ==>
         IsLetter(name[i]) || IsDigit(name[i]) || name[i] in "._-"
  }

  function LowerChar(c: char): char {
    if IsUpper(c) then (c as int + 32) as char else c
  }

  /** The `label_key` of a label. */
  function Lower(s: string): (r: string)
    ensures |r| == |s|
  {
    seq(|s|, i requires 0 <= i < |s| => LowerChar(s[i]))
  }

  /** Byte-wise lexicographic order. */
  predicate Less(a: string, b: string) {
    b != [] && (a == [] || a[0] < b[0] || (a[0] == b[0] && Less(a[1..], b[1..])))
  }

  predicate AtMost(a: string, b: string) {
    a == b || Less(a, b)
  }

  lemma LessIsIrreflexive(a: string)
    ensures !Less(a, a)
  {
  }

  lemma {:induction false} LessIsTransitive(a: string, b: string, c: string)
    requires Less(a, b) && Less(b, c)
    ensures Less(a, c)
  {
    if a != [] && a[0] == b[0] && b[0] == c[0] {
      LessIsTransitive(a[1..], b[1..], c[1..]);
    }
  }

  lemma {:induction false} LessIsConnected(a: string, b: string)
    ensures a == b || Less(a, b) || Less(b, a)
  {
    if a != [] && b != [] && a[0] == b[0] {
      LessIsConnected(a[1..], b[1..]);
      assert a == [a[0]] + a[1..] && b == [b[0]] + b[1..];
    }
  }

  lemma LessIsAsymmetric(a: string, b: string)
    requires Less(a, b)
    ensures a != b && !Less(b, a)
  {
    if Less(b, a) {
      LessIsTransitive(a, b, a);
    }
    LessIsIrreflexive(a);
  }
}
