/** String operations the pages use for searching and labelling:
    `toLowerCase`/`toUpperCase` (ASCII letters only), `includes` and `startsWith`. */
module Text {
  import opened Wrappers

  function LowerChar(c: char): char {
    if 'A' <= c <= 'Z' then (c as int + 32) as char else c
  }

  function UpperChar(c: char): char {
    if 'a' <= c <= 'z' then (c as int - 32) as char else c
  }

  /** `s.toLowerCase()` */
  function ToLower(s: string): (r: string)
    ensures |r| == |s|
    ensures forall i :: 0 <= i < |s| ==> r[i] == LowerChar(s[i])
  {
    seq(|s|, i requires 0 <= i < |s| => LowerChar(s[i]))
  }

  /** `s.charAt(0).toUpperCase()`: the empty string for an empty `s`. */
  function FirstUpper(s: string): (r: string)
    ensures |s| == 0 ==> r == ""
    ensures |s| > 0 ==> r == [UpperChar(s[0])]
  {
    if |s| == 0 then "" else [UpperChar(s[0])]
  }

  /** `message || fallback`: a server message when present and non-empty. */
  function MessageOr(message: Option<string>, fallback: string): (r: string)
    ensures message.Some? && message.value != "" ==> r == message.value
    ensures message.None? || message.value == "" ==> r == fallback
  {
    if message.Some? && message.value != "" then message.value else fallback
  }

  /** `s.includes(t)`: `t` occurs in `s` as a contiguous run. */
  predicate Contains(s: string, t: string)
    decreases |s|
  {
    t <= s || (|s| > 0 && Contains(s[1..], t))
  }

  /** `s.startsWith(t)` */
  predicate StartsWith(s: string, t: string) {
    t <= s
  }

  /** The independent meaning of `includes`: some position `k` of `s` starts a copy of `t`. */
  ghost predicate OccursAt(s: string, t: string, k: int) {
    0 <= k && k + |t| <= |s| && s[k..k + |t|] == t
  }

  /** Case-insensitive `includes`, as the search boxes write it:
      `a.toLowerCase().includes(b.toLowerCase())`. */
  predicate ContainsIgnoringCase(s: string, t: string) {
    Contains(ToLower(s), ToLower(t))
  }

  lemma {:induction false} ContainsMeansOccurs(s: string, t: string)
    ensures Contains(s, t) <==> exists k :: OccursAt(s, t, k)
    decreases |s|
  {
    if t <= s {
      assert s[0..|t|] == t;
      assert OccursAt(s, t, 0);
    } else if |s| == 0 {
    } else {
      ContainsMeansOccurs(s[1..], t);
      if exists k :: OccursAt(s[1..], t, k) {
        var k :| OccursAt(s[1..], t, k);
        assert s[1..][k..k + |t|] == s[k + 1..k + 1 + |t|];
        assert OccursAt(s, t, k + 1);
      }
      if exists k :: OccursAt(s, t, k) {
        var k :| OccursAt(s, t, k);
        if k > 0 {
          assert s[1..][k - 1..k - 1 + |t|] == s[k..k + |t|];
          assert OccursAt(s[1..], t, k - 1);
        }
      }
    }
  }

  /** The empty search term occurs in every string, so it never filters anything out. */
  lemma EmptyTermMatches(s: string)
    ensures Contains(s, "")
    ensures ContainsIgnoringCase(s, "")
  {
  }
}
