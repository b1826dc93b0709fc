/** The PHP string built-ins the command relies on: strpos, trim and string truthiness. */
module PhpStrings {
  import opened Wrappers

  /** `needle` occurs in `haystack` starting at index `at`. */
  predicate OccursAt(haystack: string, needle: string, at: nat) {
    at + |needle| <= |haystack| && haystack[at..at + |needle|] == needle
  }

  /**
   * PHP's strpos: the first index at or after `offset` where
   * `needle` occurs, or false (None). PHP refuses an offset beyond the string's length,
   * and PHP 7 answers false, with a warning, for an empty needle.
   */
  function StrPos(haystack: string, needle: string, offset: nat): (r: Option<nat>)
    requires offset <= |haystack| && needle != ""
    ensures r.Some? ==> offset <= r.value && OccursAt(haystack, needle, r.value)
    ensures r.Some? ==> forall j :: offset <= j < r.value ==> !OccursAt(haystack, needle, j)
    ensures r.None? ==> forall j :: offset <= j ==> !OccursAt(haystack, needle, j)
    decreases |haystack| - offset
  {
    if offset + |needle| > |haystack| then None
    else if haystack[offset..offset + |needle|] == needle then Some(offset)
    else StrPos(haystack, needle, offset + 1)
  }

  /** The characters trim() strips by default: " \t\n\r\0\x0B". */
  predicate IsBlank(c: char) {
    c == ' ' || c == '\t' || c == '\n' || c == '\r' || c == '\0' || c == '\U{000B}'
  }

  /** How many blank characters `s` starts with. */
  function LeadingBlanks(s: string): (n: nat)
    ensures n <= |s|
    ensures forall k :: 0 <= k < n ==> IsBlank(s[k])
    ensures n < |s| ==> !IsBlank(s[n])
  {
    if s == [] || !IsBlank(s[0]) then 0 else 1 + LeadingBlanks(s[1..])
  }

  /** How many blank characters `s` ends with. */
  function TrailingBlanks(s: string): (n: nat)
    ensures n <= |s|
    ensures forall k :: |s| - n <= k < |s| ==> IsBlank(s[k])
    ensures n < |s| ==> !IsBlank(s[|s| - 1 - n])
  {
    if s == [] || !IsBlank(s[|s| - 1]) then 0 else 1 + TrailingBlanks(s[..|s| - 1])
  }

  /** PHP's trim: `s` without its leading and trailing blanks. */
  function Trim(s: string): (r: string)
    ensures r != [] ==> !IsBlank(r[0]) && !IsBlank(r[|r| - 1])
    ensures LeadingBlanks(s) + |r| <= |s|
    ensures r == s[LeadingBlanks(s)..LeadingBlanks(s) + |r|]
    ensures forall k :: LeadingBlanks(s) + |r| <= k < |s| ==> IsBlank(s[k])
  {
    var i := LeadingBlanks(s);
    var t := s[i..];
    var r := t[..|t| - TrailingBlanks(t)];
    assert s[i..i + |r|] == r;
    r
  }

  /**
   * PHP's truthiness of a string: only "" and "0" are false, so a string of two
   * or more characters, such as "00" or " 0", is true.
   */
  predicate IsFalsy(s: string): (b: bool)
    ensures b ==> |s| <= 1 && forall k :: 0 <= k < |s| ==> s[k] == '0'
  {
    s == "" || s == "0"
  }
}
