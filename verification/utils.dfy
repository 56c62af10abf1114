/** The pure string and dictionary helpers of the utilities module. */
module Utils {

  function Min(a: int, b: int): int { if a <= b then a else b }
  function Max(a: int, b: int): int { if a >= b then a else b }

  /** Python's `s[:k]`: a non-negative `k` keeps at most `k` characters, a
      negative `k` drops `-k` characters from the end (and may drop them all). */
  function PrefixSlice(s: string, k: int): (r: string)
    ensures 0 <= k ==> r == s[..Min(k, |s|)]
    ensures k < 0 ==> r == s[..Max(0, |s| + k)]
  {
    if k >= 0 then s[..Min(k, |s|)] else s[..Max(0, |s| + k)]
  }

  const Ellipsis: string := "..."

  /** `truncate_string`: text that fits is returned as is; longer text keeps
      its first `maxLength - 3` characters (as a Python slice) followed by "...". */
  function TruncateString(text: string, maxLength: int): (r: string)
    ensures |text| <= maxLength ==> r == text
    ensures |text| > maxLength ==> |r| >= 3 && r[|r| - 3..] == Ellipsis
    ensures |text| > maxLength && maxLength >= 3 ==>
      |r| == maxLength && r[..maxLength - 3] == text[..maxLength - 3]
    ensures |text| > maxLength && maxLength < 3 ==>
      r[..|r| - 3] == text[..Max(0, |text| + maxLength - 3)]
  {
    if |text| <= maxLength then text else PrefixSlice(text, maxLength - 3) + Ellipsis
  }

  /** With a limit of at least 3, truncating twice is truncating once, and the
      result never exceeds the limit. */
  lemma TruncateIdempotent(text: string, maxLength: int)
    requires maxLength >= 3
    ensures |TruncateString(text, maxLength)| <= maxLength
    ensures TruncateString(TruncateString(text, maxLength), maxLength) == TruncateString(text, maxLength)
  {
  }

  /** A limit below 3 turns the slice bound negative: text that is too long
      comes back LONGER than the limit (e.g. six characters under a limit of 2
      give "abcde..."). */
  lemma TruncateBelowThreeOverflows(text: string, maxLength: int)
    requires maxLength < 3 && |text| > maxLength
    ensures |TruncateString(text, maxLength)| > maxLength
    ensures TruncateString("abcdef", 2) == "abcde..."
  {
  }

  /** The characters `sanitize_filename` replaces. */
  const InvalidFilenameChars: string := "<>:\"/\\|?*"

  /** `s.replace(c, repl)` for single characters. */
  function ReplaceChar(s: string, c: char, repl: char): (r: string)
    ensures |r| == |s|
    ensures forall i :: 0 <= i < |s| ==> r[i] == (if s[i] == c then repl else s[i])
  {
    seq(|s|, i requires 0 <= i < |s| => if s[i] == c then repl else s[i])
  }

  /** One `replace(ch, '_')` pass per character of `chars`, in order. */
  function ReplaceEach(s: string, chars: string): string
    decreases |chars|
  {
    if |chars| == 0 then s else ReplaceEach(ReplaceChar(s, chars[0], '_'), chars[1..])
  }

  /** Independent, one-pass reading of the same transformation. */
  function MaskChars(s: string, chars: string): (r: string)
    ensures |r| == |s|
  {
    seq(|s|, i requires 0 <= i < |s| => if s[i] in chars then '_' else s[i])
  }

  /** Replacing characters one at a time equals masking them all at once. */
  lemma {:induction false} ReplaceEachIsMask(s: string, chars: string)
    ensures ReplaceEach(s, chars) == MaskChars(s, chars)
    decreases |chars|
  {
    if |chars| > 0 {
      var t := ReplaceChar(s, chars[0], '_');
      ReplaceEachIsMask(t, chars[1..]);
      forall i | 0 <= i < |s|
        ensures MaskChars(t, chars[1..])[i] == MaskChars(s, chars)[i]
      {
        assert s[i] in chars <==> s[i] == chars[0] || s[i] in chars[1..];
      }
    }
  }

  /** `sanitize_filename`. */
  function SanitizeFilename(filename: string): (r: string)
    ensures |r| == |filename|
    ensures forall i :: 0 <= i < |r| ==> r[i] !in InvalidFilenameChars
    ensures forall i :: 0 <= i < |r| ==> filename[i] !in InvalidFilenameChars ==> r[i] == filename[i]
    ensures forall i :: 0 <= i < |r| ==> filename[i] in InvalidFilenameChars ==> r[i] == '_'
  {
    ReplaceEachIsMask(filename, InvalidFilenameChars);
    ReplaceEach(filename, InvalidFilenameChars)
  }

  /** Sanitizing a sanitized name changes nothing. */
  lemma SanitizeIdempotent(filename: string)
    ensures SanitizeFilename(SanitizeFilename(filename)) == SanitizeFilename(filename)
  {
  }

  /** `merge_dicts`: a fresh dictionary holding every key of either input, the
      override's value winning where both have one. */
  function MergeDicts<K, V>(base: map<K, V>, override: map<K, V>): (r: map<K, V>)
    ensures r.Keys == base.Keys + override.Keys
    ensures forall k :: k in override ==> r[k] == override[k]
    ensures forall k :: k in base && k !in override ==> r[k] == base[k]
  {
    base + override
  }

  /** Merging in an empty override, or into an empty base, is the identity;
      merging is idempotent in the override. */
  lemma MergeDictsIdentities<K, V>(base: map<K, V>, override: map<K, V>)
    ensures MergeDicts(base, map[]) == base
    ensures MergeDicts(map[], override) == override
    ensures MergeDicts(MergeDicts(base, override), override) == MergeDicts(base, override)
  {
  }
}
