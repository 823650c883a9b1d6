/** Device identities and portable file names, as `identity.ParseID` and `transfer.ValidatePortableName` check them. */
module Names {
  import opened Text

  predicate IsBase64Url(c: char) { IsLetter(c) || IsDigit(c) || c == '-' || c == '_' }

  /** The decoder skips line breaks. */
  function WithoutBreaks(s: string): string {
    if s == [] then [] else (if s[0] == '\r' || s[0] == '\n' then [] else [s[0]]) + WithoutBreaks(s[1..])
  }

  /** Unpadded base64url of thirty-two bytes. */
  predicate ValidDevice(s: string) {
    var t := WithoutBreaks(s);
    |t| == 43 && forall i :: 0 <= i < |t| ==> IsBase64Url(t[i])
  }

  // ---- portable names, as byte strings -------------------------------------

  function ByteAt(s: string, i: nat): int {
    if i < |s| then s[i] as int else -1
  }

  predicate Continues(s: string, from: nat, to: nat) {
    forall i :: from <= i < to ==> 0x80 <= ByteAt(s, i) <= 0xBF
  }

  /** The length of the first rune, or 0 if the bytes do not begin with one. */
  function RuneLength(s: string): (n: nat)
    ensures n <= |s|
  {
    var a, b := ByteAt(s, 0), ByteAt(s, 1);
    if 0 <= a < 0x80 then 1
    else if 0xC2 <= a <= 0xDF && |s| >= 2 && Continues(s, 1, 2) then 2
    else if 0xE0 <= a <= 0xEF && |s| >= 3 && Continues(s, 1, 3) && (a == 0xE0 ==> b >= 0xA0) && (a == 0xED ==> b < 0xA0)
    then 3
    else if 0xF0 <= a <= 0xF4 && |s| >= 4 && Continues(s, 1, 4) && (a == 0xF0 ==> b >= 0x90) && (a == 0xF4 ==> b < 0x90)
    then 4
    else 0
  }

  predicate ValidUtf8(s: string) {
    s == [] || (RuneLength(s) > 0 && ValidUtf8(s[RuneLength(s)..]))
  }

  predicate PortableByte(c: char) {
    ' ' <= c && c as int != 0x7F && c !in "<>:\"/\\|?*"
  }

  function UpperChar(c: char): char {
    if 'a' <= c <= 'z' then (c as int - 32) as char else c
  }

  /** The upper-case name up to its first dot. No other letter folds to one of the reserved names. */
  function Base(name: string): string {
    if name == [] || name[0] == '.' then [] else [UpperChar(name[0])] + Base(name[1..])
  }

  predicate ReservedPort(base: string) {
    && |base| >= 4 && (base[..3] == "COM" || base[..3] == "LPT")
    && ((|base| == 4 && '1' <= base[3] <= '9') ||
        (|base| == 5 && ByteAt(base, 3) == 0xC2 && ByteAt(base, 4) in {0xB9, 0xB2, 0xB3}))
  }

  predicate ValidPortableName(name: string) {
    && 1 <= |name| <= 255 && ValidUtf8(name)
    && name != "." && name != ".." && name[|name| - 1] != '.' && name[|name| - 1] != ' '
    && (forall i :: 0 <= i < |name| ==> PortableByte(name[i]))
    && Base(name) !in {"CON", "PRN", "AUX", "NUL"} && !ReservedPort(Base(name))
  }
}
