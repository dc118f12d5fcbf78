/**
  Whitespace trimming as the two runtimes of the system perform it: the chat page
  tests `input.trim()` (JavaScript's `String.prototype.trim`) and the ingestion script
  tests `raw_text.strip()` (Python's `str.strip` with no argument). Both remove the
  longest whitespace prefix and suffix; they differ only in which characters count
  as whitespace.
*/
module Text {

  /** Which runtime's notion of whitespace applies. */
  datatype Flavor = JavaScript | Python

  /**
    JavaScript: the WhiteSpace and LineTerminator code points of ECMA-262 (tab, VT,
    FF, space, NBSP, BOM, the Zs separators, LF, CR, LS, PS).
    Python: the code points for which `str.isspace` holds (tab through CR, the
    information separators 0x1C-0x1F, space, NEL, NBSP, the Zs separators, LS, PS).
    The BOM counts only for JavaScript; 0x1C-0x1F and NEL only for Python.
  */
  predicate IsSpace(f: Flavor, c: char) {
    var n := c as int;
    var shared :=
      n == 0x09 || n == 0x0A || n == 0x0B || n == 0x0C || n == 0x0D || n == 0x20 ||
      n == 0xA0 || n == 0x1680 || (0x2000 <= n <= 0x200A) ||
      n == 0x2028 || n == 0x2029 || n == 0x202F || n == 0x205F || n == 0x3000;
    match f
    case JavaScript => shared || n == 0xFEFF
    case Python => shared || (0x1C <= n <= 0x1F) || n == 0x85
  }

  /** Every character of `s` is whitespace (vacuously true of the empty string). */
  predicate IsBlank(f: Flavor, s: string) {
    forall i :: 0 <= i < |s| ==> IsSpace(f, s[i])
  }

  /** The length of the longest whitespace prefix of `s`. */
  function LeadingSpace(f: Flavor, s: string): (n: nat)
    ensures n <= |s|
    ensures forall k :: 0 <= k < n ==> IsSpace(f, s[k])
    ensures n < |s| ==> !IsSpace(f, s[n])
    decreases |s|
  {
    if |s| > 0 && IsSpace(f, s[0]) then LeadingSpace(f, s[1..]) + 1 else 0
  }

  /** The length of the longest whitespace suffix of `s`. */
  function TrailingSpace(f: Flavor, s: string): (n: nat)
    ensures n <= |s|
    ensures forall k :: |s| - n <= k < |s| ==> IsSpace(f, s[k])
    ensures n < |s| ==> !IsSpace(f, s[|s| - 1 - n])
    decreases |s|
  {
    if |s| > 0 && IsSpace(f, s[|s| - 1]) then TrailingSpace(f, s[..|s| - 1]) + 1 else 0
  }

  /** Drops the longest whitespace prefix. */
  function TrimStart(f: Flavor, s: string): string {
    s[LeadingSpace(f, s)..]
  }

  /** Drops the longest whitespace suffix. */
  function TrimEnd(f: Flavor, s: string): string {
    s[..|s| - TrailingSpace(f, s)]
  }

  /** `trim()` / `strip()`: both ends stripped of whitespace. */
  function Trim(f: Flavor, s: string): (t: string)
    ensures |t| <= |s|
    ensures |t| > 0 ==> !IsSpace(f, t[0]) && !IsSpace(f, t[|t| - 1])
  {
    TrimEnd(f, TrimStart(f, s))
  }

  /** The trimmed string is the contiguous slice of the input between its whitespace prefix and suffix. */
  lemma {:induction false} TrimIsSlice(f: Flavor, s: string)
    ensures var i := LeadingSpace(f, s);
      var j := |s| - TrailingSpace(f, s[i..]);
      && i <= j <= |s|
      && Trim(f, s) == s[i..j]
  {
    var i := LeadingSpace(f, s);
    var j := |s| - TrailingSpace(f, s[i..]);
    TakeOfDrop(s, i, j - i);
  }

  /** Everything `trim()` removes, on either side of the slice it keeps, is whitespace. */
  lemma {:induction false} TrimRemovesOnlySpace(f: Flavor, s: string)
    ensures var i := LeadingSpace(f, s);
      var j := |s| - TrailingSpace(f, s[i..]);
      && IsBlank(f, s[..i])
      && IsBlank(f, s[j..])
  {
    var i := LeadingSpace(f, s);
    var m := s[i..];
    var j := |s| - TrailingSpace(f, m);
    forall k | 0 <= k < |s| - j
      ensures IsSpace(f, s[j..][k])
    {
      assert s[j..][k] == m[j - i + k];
    }
  }

  /** Taking `n` elements after dropping `i` is the slice from `i` to `i + n`. */
  lemma TakeOfDrop<T>(s: seq<T>, i: nat, n: nat)
    requires i + n <= |s|
    ensures s[i..][..n] == s[i..i + n]
  {
  }

  /**
    The test the chat page and the ingestion script both make: the trimmed string is
    empty exactly when the whole input is whitespace.
  */
  lemma {:induction false} TrimEmptyIffBlank(f: Flavor, s: string)
    ensures Trim(f, s) == [] <==> IsBlank(f, s)
  {
    var i := LeadingSpace(f, s);
    var m := s[i..];
    var e := TrailingSpace(f, m);
    if Trim(f, s) == [] {
      assert e == |m|;
    }
  }
}
