/** The few string operations the source leans on. */
module Strings {

  /** `s.rstrip(c)`. */
  function StripRight(s: string, c: char): (r: string)
    ensures r <= s && (|r| > 0 ==> r[|r|-1] != c)
    ensures forall k :: |r| <= k < |s| ==> s[k] == c
  {
    if |s| > 0 && s[|s|-1] == c then StripRight(s[..|s|-1], c) else s
  }

  /** `"".join(parts)`. */
  function Join(parts: seq<string>): string {
    if |parts| == 0 then "" else parts[0] + Join(parts[1..])
  }

  predicate OccursAt(s: string, part: string, i: nat) {
    i + |part| <= |s| && s[i..i + |part|] == part
  }

  /** `part in s`. */
  predicate Contains(s: string, part: string) {
    exists i :: 0 <= i <= |s| && OccursAt(s, part, i)
  }
}
