/**
 * Whitespace trimming as Python's `str.strip()` (no arguments) does it:
 * leading and trailing characters for which `str.isspace()` holds are removed.
 */
module Text {

  /** The characters `str.isspace()` accepts: ASCII tab to carriage return, the
      four ASCII separators, space, NEL, no-break space and the Unicode space
      separators and line/paragraph separators. */
  predicate IsSpace(c: char) {
    || c == ' '
    || ('\t' <= c <= '\r')
    || ('\U{1C}' <= c <= '\U{1F}')
    || c == '\U{85}'
    || c == '\U{A0}'
    || c == '\U{1680}'
    || ('\U{2000}' <= c <= '\U{200A}')
    || c == '\U{2028}'
    || c == '\U{2029}'
    || c == '\U{202F}'
    || c == '\U{205F}'
    || c == '\U{3000}'
  }

  /** The length of the whitespace run at the start of `s`. */
  function LeadCount(s: string): (n: nat)
    ensures n <= |s|
    ensures forall i :: 0 <= i < n ==> IsSpace(s[i])
    ensures n < |s| ==> !IsSpace(s[n])
  {
    if s == [] || !IsSpace(s[0]) then 0 else 1 + LeadCount(s[1..])
  }

  /** The length of the whitespace run at the end of `s`. */
  function TrailCount(s: string): (n: nat)
    ensures n <= |s|
    ensures forall i :: |s| - n <= i < |s| ==> IsSpace(s[i])
    ensures n < |s| ==> !IsSpace(s[|s| - 1 - n])
  {
    if s == [] || !IsSpace(s[|s| - 1]) then 0 else 1 + TrailCount(s[..|s| - 1])
  }

  /** `s.strip()`: the slice of `s` left once the leading and the trailing
      whitespace runs are cut off. */
  function Strip(s: string): (r: string)
    ensures LeadCount(s) + |r| <= |s|
    ensures r == s[LeadCount(s)..LeadCount(s) + |r|]
    ensures forall i :: LeadCount(s) + |r| <= i < |s| ==> IsSpace(s[i])
    ensures r != [] ==> !IsSpace(r[0]) && !IsSpace(r[|r| - 1])
    ensures r == [] <==> forall i :: 0 <= i < |s| ==> IsSpace(s[i])
  {
    var t := s[LeadCount(s)..];
    t[..|t| - TrailCount(t)]
  }

  /** A word between two whitespace runs is what stripping leaves. */
  lemma StripPadded(s: string, lead: string, word: string, trail: string)
    requires s == lead + word + trail
    requires forall i :: 0 <= i < |lead| ==> IsSpace(lead[i])
    requires forall i :: 0 <= i < |trail| ==> IsSpace(trail[i])
    requires word != [] && !IsSpace(word[0]) && !IsSpace(word[|word| - 1])
    ensures Strip(s) == word
  {
    var n, r := LeadCount(s), Strip(s);
    assert s[|lead|] == word[0];
    assert n == |lead|;
    assert s[|lead| + |word| - 1] == word[|word| - 1];
    assert r != [];
    assert |r| == |word|;
    assert r == s[|lead|..|lead| + |word|];
  }

  /** Stripping twice is stripping once. */
  lemma StripIdempotent(s: string)
    ensures Strip(Strip(s)) == Strip(s)
  {
    var r := Strip(s);
    if r != [] {
      assert LeadCount(r) == 0;
      assert TrailCount(r) == 0;
    }
  }
}
