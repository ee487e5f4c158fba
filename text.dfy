/** JavaScript's `String.prototype.trim`, which `addTodo` applies to the
    input both to test it and to build the new record's text. */
module Text {

  /** The characters `trim` removes: the white space and line terminators of
      the ECMAScript grammar (tab, vertical tab, form feed, space, no-break
      space, the byte order mark, the other space separators of Unicode
      category Zs, line feed, carriage return, line and paragraph
      separator). */
  predicate IsWhitespace(c: char) {
    c == '\t' || c == '\n' || c == '\U{000B}' || c == '\U{000C}' || c == '\r'
    || c == ' ' || c == '\U{00A0}' || c == '\U{1680}'
    || ('\U{2000}' <= c <= '\U{200A}')
    || c == '\U{2028}' || c == '\U{2029}' || c == '\U{202F}' || c == '\U{205F}'
    || c == '\U{3000}' || c == '\U{FEFF}'
  }

  predicate AllWhitespace(s: string) {
    forall i :: 0 <= i < |s| ==> IsWhitespace(s[i])
  }

  /** The first index at or after `i` that does not hold white space
      (`|s|` when there is none). */
  function SkipBlanksForward(s: string, i: nat): (k: nat)
    requires i <= |s|
    ensures i <= k <= |s|
    ensures forall j :: i <= j < k ==> IsWhitespace(s[j])
    ensures k < |s| ==> !IsWhitespace(s[k])
    decreases |s| - i
  {
    if i < |s| && IsWhitespace(s[i]) then SkipBlanksForward(s, i + 1) else i
  }

  /** The least index `k`, with `lo <= k <= j`, such that `s[k..j]` is all
      white space. */
  function SkipBlanksBackward(s: string, lo: nat, j: nat): (k: nat)
    requires lo <= j <= |s|
    ensures lo <= k <= j
    ensures forall m :: k <= m < j ==> IsWhitespace(s[m])
    ensures lo < k ==> !IsWhitespace(s[k - 1])
    decreases j - lo
  {
    if lo < j && IsWhitespace(s[j - 1]) then SkipBlanksBackward(s, lo, j - 1) else j
  }

  /** Where the trimmed text begins in `s`. */
  function TrimStart(s: string): nat {
    SkipBlanksForward(s, 0)
  }

  /** Where the trimmed text ends in `s`. */
  function TrimEnd(s: string): nat {
    SkipBlanksBackward(s, TrimStart(s), |s|)
  }

  /** `s.trim()`: the part of `s` between its leading and its trailing white
      space. Everything outside it is white space, and it neither begins
      nor ends with white space. */
  function Trim(s: string): (r: string)
    ensures TrimStart(s) <= TrimEnd(s) <= |s| && |r| == TrimEnd(s) - TrimStart(s)
    ensures forall i :: 0 <= i < |r| ==> r[i] == s[TrimStart(s) + i]
    ensures forall i :: 0 <= i < TrimStart(s) ==> IsWhitespace(s[i])
    ensures forall i :: TrimEnd(s) <= i < |s| ==> IsWhitespace(s[i])
    ensures r == [] || (!IsWhitespace(r[0]) && !IsWhitespace(r[|r| - 1]))
  {
    s[TrimStart(s)..TrimEnd(s)]
  }

  /** The empty-input test of `addTodo`: `trim` yields the empty string
      exactly when every character of the input is white space. */
  lemma TrimEmptyIff(s: string)
    ensures Trim(s) == [] <==> AllWhitespace(s)
  {
  }

  /** A string that neither begins nor ends with white space is its own trim. */
  lemma TrimUntouched(s: string)
    requires s == [] || (!IsWhitespace(s[0]) && !IsWhitespace(s[|s| - 1]))
    ensures Trim(s) == s
  {
  }

  /** Trimming twice is trimming once, so the stored text is already trimmed. */
  lemma TrimIdempotent(s: string)
    ensures Trim(Trim(s)) == Trim(s)
  {
  }
}
