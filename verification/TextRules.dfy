/**
 The string shapes the validators share. Strings are byte strings: characters below 256 holding UTF-8.
 */
module TextRules {
  const MAX_ID_BYTES: nat := 128
  const MAX_CATALOG_STRING_BYTES: nat := 128

  predicate IsLowerHex(s: string, length: nat) {
    |s| == length && forall i :: 0 <= i < |s| ==> '0' <= s[i] <= '9' || 'a' <= s[i] <= 'f'
  }

  predicate IsDigest(s: string) {
    IsLowerHex(s, 64)
  }

  predicate IsAlphanumeric(c: char) {
    '0' <= c <= '9' || 'a' <= c <= 'z' || 'A' <= c <= 'Z'
  }

  /** Printable ASCII of bounded length. */
  predicate IsSafeId(s: string) {
    0 < |s| <= MAX_ID_BYTES && forall i :: 0 <= i < |s| ==> ' ' <= s[i] <= '~'
  }

  predicate IsCatalogString(s: string) {
    0 < |s| <= MAX_CATALOG_STRING_BYTES && forall i :: 0 <= i < |s| ==> IsAlphanumeric(s[i]) || s[i] in "._:-/"
  }

  predicate IsIdentifier(s: string) {
    0 < |s| <= MAX_ID_BYTES && forall i :: 0 <= i < |s| ==> IsAlphanumeric(s[i]) || s[i] in "._-"
  }

  /** A C0 control, DEL, or the two-byte form of a C1 control. */
  predicate HasControl(s: string) {
    ControlFrom(s, 0)
  }

  predicate ControlFrom(s: string, i: nat)
    decreases |s| - i
  {
    i < |s|
    && (s[i] as int < 0x20 || s[i] as int == 0x7F
        || (s[i] as int == 0xC2 && i + 1 < |s| && 0x80 <= s[i + 1] as int < 0xA0)
        || ControlFrom(s, i + 1))
  }
}
