/**
 * The line filter of `load_wordlist`: a raw line is dropped when its stripped
 * form is empty or when the raw line itself begins with `#`; every other line
 * contributes its stripped text, in file order.
 */
module Wordlist {
  import Text

  /** `line.startswith('#')`, tested on the raw (unstripped) line. */
  predicate IsComment(line: string) {
    |line| > 0 && line[0] == '#'
  }

  /** The comprehension's condition `line.strip() and not line.startswith('#')`. */
  predicate Keep(line: string) {
    Text.Strip(line) != [] && !IsComment(line)
  }

  /** The list `load_wordlist` returns for the given raw lines. */
  function LoadWordlist(lines: seq<string>): (candidates: seq<string>)
    ensures |candidates| <= |lines|
  {
    if lines == [] then []
    else (if Keep(lines[0]) then [Text.Strip(lines[0])] else []) + LoadWordlist(lines[1..])
  }

  /** Every candidate is non-empty and neither starts nor ends with whitespace. */
  lemma {:induction false} LoadWordlistTrimmed(lines: seq<string>)
    ensures forall k :: 0 <= k < |LoadWordlist(lines)| ==>
      var w := LoadWordlist(lines)[k];
      w != [] && !Text.IsSpace(w[0]) && !Text.IsSpace(w[|w| - 1])
  {
    if lines != [] {
      LoadWordlistTrimmed(lines[1..]);
    }
  }

  /** Whether each line passes the filter, line by line. */
  function Flags(lines: seq<string>): seq<bool> {
    seq(|lines|, i requires 0 <= i < |lines| => Keep(lines[i]))
  }

  /** The positions holding `true`, in increasing order. */
  function Positions(f: seq<bool>): (ix: seq<nat>)
    ensures forall k :: 0 <= k < |ix| ==> ix[k] < |f| && f[ix[k]]
    ensures forall k, l :: 0 <= k < l < |ix| ==> ix[k] < ix[l]
    ensures forall i :: 0 <= i < |f| && f[i] ==> i in ix
  {
    if f == [] then []
    else
      var init := f[..|f| - 1];
      var rest := Positions(init);
      assert forall i :: 0 <= i < |init| ==> init[i] == f[i];
      rest + (if f[|f| - 1] then [|f| - 1] else [])
  }

  /** The positions of the lines that pass the filter, in increasing order. */
  function Kept(lines: seq<string>): (ix: seq<nat>)
    ensures forall k :: 0 <= k < |ix| ==> ix[k] < |lines| && Keep(lines[ix[k]])
    ensures forall k, l :: 0 <= k < l < |ix| ==> ix[k] < ix[l]
    ensures forall i :: 0 <= i < |lines| && Keep(lines[i]) ==> i in ix
  {
    Positions(Flags(lines))
  }

  /** Filtering a file is filtering its two halves one after the other. */
  lemma {:induction false} LoadWordlistAppend(a: seq<string>, b: seq<string>)
    ensures LoadWordlist(a + b) == LoadWordlist(a) + LoadWordlist(b)
  {
    if a == [] {
      assert a + b == b;
    } else {
      var h := if Keep(a[0]) then [Text.Strip(a[0])] else [];
      assert (a + b)[0] == a[0] && (a + b)[1..] == a[1..] + b;
      assert LoadWordlist(a + b) == h + LoadWordlist(a[1..] + b);
      LoadWordlistAppend(a[1..], b);
      assert h + (LoadWordlist(a[1..]) + LoadWordlist(b)) == (h + LoadWordlist(a[1..])) + LoadWordlist(b);
    }
  }

  /** The candidates are exactly the stripped kept lines, one each, in file order. */
  lemma {:induction false} LoadWordlistIndexed(lines: seq<string>)
    ensures |LoadWordlist(lines)| == |Kept(lines)|
    ensures forall k :: 0 <= k < |Kept(lines)| ==> LoadWordlist(lines)[k] == Text.Strip(lines[Kept(lines)[k]])
  {
    if lines != [] {
      var n := |lines|;
      var init, last := lines[..n - 1], lines[n - 1];
      assert lines == init + [last];
      LoadWordlistAppend(init, [last]);
      LoadWordlistIndexed(init);
      assert [last][1..] == [];
      KeptSnoc(init, last);
    }
  }

  /** A line added at the end adds its own position when it is kept. */
  lemma KeptSnoc(init: seq<string>, last: string)
    ensures Kept(init + [last]) == Kept(init) + (if Keep(last) then [|init|] else [])
  {
    var lines := init + [last];
    assert Flags(lines)[..|init|] == Flags(init);
  }

  /** A `#` after leading whitespace is not a comment: the line survives, stripped. */
  lemma IndentedHashSurvives()
    ensures LoadWordlist(["  #admin\n"]) == ["#admin"]
  {
    var line := "  #admin\n";
    Text.StripPadded(line, "  ", "#admin", "\n");
    assert !IsComment(line);
  }

  /** Comment lines and whitespace-only lines contribute nothing. */
  lemma CommentsAndBlanksDropped()
    ensures LoadWordlist(["#www\n", " \t\n", "\n", ""]) == []
  {
    var lines := ["#www\n", " \t\n", "\n", ""];
    assert !Keep(lines[0]);
    assert Text.Strip(lines[1]) == [] && Text.Strip(lines[2]) == [] && Text.Strip(lines[3]) == [];
    assert lines[1..][1..][1..][1..] == [];
  }
}
