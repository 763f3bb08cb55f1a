/**
 * The recovery-key text area. Whatever is typed or pasted is normalised:
 * hyphens dropped, letters upper-cased, everything but hex digits thrown
 * away, cut to 64 digits and regrouped in fours joined by `-`. The field
 * is complete when 64 digits remain.
 */
module RecoveryKeyInput {
  import opened JsValues
  import Text
  import RecoveryKey

  const RecoveryKeyLength := 64
  const GroupSize := 4
  const TotalGroups := RecoveryKeyLength / GroupSize

  /** `s.toUpperCase()`, for the ASCII letters. */
  function Upper(s: string): (u: string)
    ensures |u| == |s| && forall i :: 0 <= i < |s| ==> u[i] == AsciiUpper(s[i])
  {
    seq(|s|, i requires 0 <= i < |s| => AsciiUpper(s[i]))
  }

  /** `removeHyphens(formatted)`: every `-` dropped, then upper-cased. */
  function RemoveHyphens(formatted: string): (r: string)
    ensures |r| <= |formatted|
    ensures forall i :: 0 <= i < |r| ==> r[i] != '-'
  {
    Upper(Text.RemoveAll(formatted, '-'))
  }

  /** `isValidHexChar(char)`: `/^[0-9A-Fa-f]$/` on a one-character string. */
  predicate IsValidHexChar(c: char)
  {
    RecoveryKey.IsHexChar(c)
  }

  /** `.split("").filter(isValidHexChar).join("")`. */
  function KeepHex(s: string): (h: string)
    ensures |h| <= |s|
    ensures forall i :: 0 <= i < |h| ==> IsValidHexChar(h[i])
  {
    if s == [] then [] else (if IsValidHexChar(s[0]) then [s[0]] else []) + KeepHex(s[1..])
  }

  /** `.slice(0, n)`. */
  function Take(s: string, n: nat): (t: string)
    ensures |t| == if |s| <= n then |s| else n
  {
    if |s| <= n then s else s[..n]
  }

  /** The hex digits the handlers keep of what was entered. */
  function Digits(entered: string): (h: string)
    ensures |h| <= RecoveryKeyLength
  {
    Upper(Take(KeepHex(RemoveHyphens(entered)), RecoveryKeyLength))
  }

  /** What `handleChange` and `handlePaste` hand to `onChange`. */
  function Normalize(entered: string): string
  {
    Text.Grouped(Digits(entered), GroupSize)
  }

  /** `formatWithHyphens(hex)`: pushes `hex.slice(i, i + 4)` for i = 0, 4, 8, … then joins with `-`. */
  method FormatWithHyphens(hex: string) returns (formatted: string)
    ensures formatted == Text.Grouped(hex, GroupSize)
  {
    var groups: seq<string> := [];
    var i := 0;
    assert hex[0..] == hex;
    while i < |hex|
      invariant 0 <= i
      invariant i <= |hex| ==> groups + Text.Chunks(hex[i..], GroupSize) == Text.Chunks(hex, GroupSize)
      invariant i > |hex| ==> groups == Text.Chunks(hex, GroupSize)
      decreases |hex| - i
    {
      var end := if i + GroupSize <= |hex| then i + GroupSize else |hex|;
      Text.ChunksLoopStep(hex, GroupSize, groups, i);
      groups := groups + [hex[i..end]];
      i := i + GroupSize;
    }
    formatted := Text.Join(groups, "-");
  }

  /** `handleChange`: the new text of the field, normalised. */
  method HandleChange(value: string) returns (next: string)
    ensures next == Normalize(value)
  {
    var raw := RemoveHyphens(value);
    var filtered := Upper(Take(KeepHex(raw), RecoveryKeyLength));
    next := FormatWithHyphens(filtered);
  }

  /** `handlePaste`: the browser's own paste is prevented and the clipboard text normalised instead. */
  method HandlePaste(pastedData: string) returns (next: string, defaultPrevented: bool)
    ensures defaultPrevented
    ensures next == Normalize(pastedData)
  {
    defaultPrevented := true;
    var raw := RemoveHyphens(pastedData);
    var filtered := Upper(Take(KeepHex(raw), RecoveryKeyLength));
    next := FormatWithHyphens(filtered);
  }

  /** `isComplete`: 64 characters once the hyphens are gone. */
  predicate IsComplete(value: string)
  {
    |RemoveHyphens(value)| == RecoveryKeyLength
  }

  // ---------------------------------------------------------------------
  // Properties

  /** Upper-casing upper-case hex digits changes nothing. */
  lemma UpperHex(s: string)
    requires forall i :: 0 <= i < |s| ==> RecoveryKey.IsHexUpper(s[i])
    ensures Upper(s) == s
  {
  }

  /** The digits kept are upper-case hex digits and contain no hyphen. */
  lemma DigitsAreUpperHex(entered: string)
    ensures forall i :: 0 <= i < |Digits(entered)| ==> RecoveryKey.IsHexUpper(Digits(entered)[i])
  {
    var kept := Take(KeepHex(RemoveHyphens(entered)), RecoveryKeyLength);
    assert forall i :: 0 <= i < |kept| ==> IsValidHexChar(kept[i]);
  }

  /** Keeping the hex digits of a string of hex digits keeps all of it. */
  lemma {:induction false} KeepHexOfHex(s: string)
    requires forall i :: 0 <= i < |s| ==> IsValidHexChar(s[i])
    ensures KeepHex(s) == s
  {
    if s != [] {
      KeepHexOfHex(s[1..]);
    }
  }

  /** A string of at most `4 * m` characters has at most `m` groups of four. */
  lemma {:induction false} ChunksOfFourCount(s: string, m: nat)
    requires |s| <= GroupSize * m
    ensures |Text.Chunks(s, GroupSize)| <= m
    decreases m
  {
    if |s| > GroupSize {
      ChunksOfFourCount(s[GroupSize..], m - 1);
    }
  }

  /** Every slice but the last has the full `n` characters. */
  lemma {:induction false} ChunksFull(s: string, n: nat)
    requires n > 0
    ensures forall k :: 0 <= k < |Text.Chunks(s, n)| - 1 ==> |Text.Chunks(s, n)[k]| == n
    decreases |s|
  {
    if |s| > n {
      ChunksFull(s[n..], n);
      assert Text.Chunks(s, n) == [s[..n]] + Text.Chunks(s[n..], n);
    }
  }

  /**
   * The shape of a normalised value: at most 64 upper-case hex digits, in
   * at most 16 groups, every group but the last of four, and the digits
   * back when the hyphens are removed.
   */
  lemma NormalizedShape(entered: string)
    ensures Normalize(entered) == Text.Join(Text.Chunks(Digits(entered), GroupSize), "-")
    ensures RemoveHyphens(Normalize(entered)) == Digits(entered)
    ensures |Digits(entered)| <= RecoveryKeyLength
    ensures forall i :: 0 <= i < |Digits(entered)| ==> RecoveryKey.IsHexUpper(Digits(entered)[i])
    ensures |Text.Chunks(Digits(entered), GroupSize)| <= TotalGroups
    ensures forall k :: 0 <= k < |Text.Chunks(Digits(entered), GroupSize)| - 1 ==> |Text.Chunks(Digits(entered), GroupSize)[k]| == GroupSize
  {
    var d := Digits(entered);
    DigitsAreUpperHex(entered);
    Text.UngroupGrouped(d, GroupSize);
    UpperHex(d);
    ChunksOfFourCount(d, TotalGroups);
    ChunksFull(d, GroupSize);
  }

  /** A normalised value passes through the handlers unchanged. */
  lemma NormalizeIdempotent(entered: string)
    ensures Normalize(Normalize(entered)) == Normalize(entered)
  {
    var d := Digits(entered);
    NormalizedShape(entered);
    KeepHexOfHex(d);
    UpperHex(d);
    assert Digits(Normalize(entered)) == d;
  }

  /** `removeHyphens(formatWithHyphens(h))` is `h` upper-cased, for any `h` without hyphens. */
  lemma RemoveHyphensOfGrouped(hex: string)
    requires forall i :: 0 <= i < |hex| ==> hex[i] != '-'
    ensures RemoveHyphens(Text.Grouped(hex, GroupSize)) == Upper(hex)
  {
    Text.UngroupGrouped(hex, GroupSize);
  }

  /** The field is complete after an edit exactly when the entered text held at least 64 hex digits. */
  lemma CompleteExactlyWhenEnoughDigits(entered: string)
    ensures IsComplete(Normalize(entered)) <==> |KeepHex(RemoveHyphens(entered))| >= RecoveryKeyLength
  {
    NormalizedShape(entered);
  }

  /** A recovery key as displayed at setup is kept as it is, and completes the field. */
  lemma DisplayedKeyAccepted(key: Bytes)
    requires |key| == RecoveryKey.RecoveryKeyLength
    ensures Normalize(RecoveryKey.Format(key)) == RecoveryKey.Format(key)
    ensures IsComplete(RecoveryKey.Format(key))
  {
    var hex := RecoveryKey.Hex(key);
    RecoveryKey.HexIsUpper(key);
    RemoveHyphensOfGrouped(hex);
    UpperHex(hex);
    KeepHexOfHex(hex);
    assert Digits(RecoveryKey.Format(key)) == hex;
  }
}
