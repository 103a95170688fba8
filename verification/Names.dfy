/** References and receipts as the local provider takes them: given or generated, then stripped. */
module Names {
  /** What Python's `str.strip` takes for a blank. */
  predicate IsBlank(c: char) {
    || '\U{9}' <= c <= '\U{D}' || '\U{1C}' <= c <= ' ' || c in {'\U{85}', '\U{A0}', '\U{1680}'}
    || '\U{2000}' <= c <= '\U{200A}' || c in {'\U{2028}', '\U{2029}', '\U{202F}', '\U{205F}', '\U{3000}'}
  }

  /** The text without the blanks around it. */
  function Stripped(s: string): (t: string)
    ensures |t| <= |s|
    decreases |s|
  {
    if s == "" then s
    else if IsBlank(s[0]) then Stripped(s[1..])
    else if IsBlank(s[|s| - 1]) then Stripped(s[..|s| - 1])
    else s
  }

  ghost predicate AllBlank(s: string) {
    forall c :: c in s ==> IsBlank(c)
  }

  predicate NoBlankEnds(s: string) {
    s != "" ==> !IsBlank(s[0]) && !IsBlank(s[|s| - 1])
  }

  /** Only blanks are taken away, and none is left at either end. */
  lemma {:induction false} StrippedIs(s: string) returns (before: string, after: string)
    ensures s == before + Stripped(s) + after
    ensures NoBlankEnds(Stripped(s)) && AllBlank(before) && AllBlank(after)
    decreases |s|
  {
    before, after := "", "";
    if s != "" {
      if IsBlank(s[0]) {
        before, after := StrippedIs(s[1..]);
        assert s == [s[0]] + s[1..];
        before := [s[0]] + before;
      } else if IsBlank(s[|s| - 1]) {
        before, after := StrippedIs(s[..|s| - 1]);
        assert s == s[..|s| - 1] + [s[|s| - 1]];
        after := after + [s[|s| - 1]];
      }
    }
  }

  /** What the caller gave, or a generated name, without blanks around it. */
  function NameOr(given: string, prefix: string, token: string): string {
    Stripped(if given != "" then given else prefix + token)
  }

  /** A name without blanks at its ends is taken as it is. */
  lemma NameKept(given: string, prefix: string, token: string)
    requires given != "" && NoBlankEnds(given)
    ensures NameOr(given, prefix, token) == given
  {}
}
