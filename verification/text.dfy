/** The few Python `str` operations the configuration parser relies on:
    `isspace`, `rstrip()`, `lstrip()`, `lower()`, `split(' ')`, `' '.join`
    and `partition(' ')`. Strings are sequences of characters. */
module Text {

  const Space: char := ' '

  /** Python's `str.isspace` for one character: the ASCII separators plus
      the Unicode white-space characters. */
  predicate IsSpace(c: char) {
    || c == ' ' || c == '\t' || c == '\n' || c == '\r'
    || c == '\U{B}' || c == '\U{C}'
    || ('\U{1C}' <= c <= '\U{1F}')
    || c == '\U{85}' || c == '\U{A0}' || c == '\U{1680}'
    || ('\U{2000}' <= c <= '\U{200A}')
    || c == '\U{2028}' || c == '\U{2029}' || c == '\U{202F}' || c == '\U{205F}'
    || c == '\U{3000}'
  }

  /** `s.rstrip()`: drops all trailing white space and nothing else. */
  function RStrip(s: string): (r: string)
    ensures r <= s
    ensures |r| == 0 || !IsSpace(r[|r| - 1])
    ensures forall i :: |r| <= i < |s| ==> IsSpace(s[i])
    decreases |s|
  {
    if |s| > 0 && IsSpace(s[|s| - 1]) then RStrip(s[..|s| - 1]) else s
  }

  /** `s.lstrip()`: drops all leading white space and nothing else. */
  function LStrip(s: string): (r: string)
    ensures |r| <= |s| && r == s[|s| - |r|..]
    ensures |r| == 0 || !IsSpace(r[0])
    ensures forall i :: 0 <= i < |s| - |r| ==> IsSpace(s[i])
    decreases |s|
  {
    if |s| > 0 && IsSpace(s[0]) then LStrip(s[1..]) else s
  }

  /** `s.strip()`: both ends at once. */
  function Strip(s: string): string {
    LStrip(RStrip(s))
  }

  /** One character of `str.lower()`. Only the characters whose lower-case
      form is a single ASCII letter are mapped: `A`..`Z` and U+212A KELVIN
      SIGN (whose lower case is `k`). */
  function LowerChar(c: char): char {
    if 'A' <= c <= 'Z' then (c as int - 'A' as int + 'a' as int) as char
    else if c == '\U{212A}' then 'k'
    else c
  }

  function Lower(s: string): string {
    seq(|s|, i requires 0 <= i < |s| => LowerChar(s[i]))
  }

  /** Index of the first space of `s`. */
  function FirstSpace(s: string): (i: nat)
    requires Space in s
    ensures i < |s| && s[i] == Space
    ensures Space !in s[..i]
  {
    if s[0] == Space then 0 else 1 + FirstSpace(s[1..])
  }

  /** `' '.join(parts)`. */
  function Join(parts: seq<string>): string {
    if |parts| == 0 then ""
    else if |parts| == 1 then parts[0]
    else parts[0] + [Space] + Join(parts[1..])
  }

  /** `s.split(' ')`: the pieces between single spaces, empty pieces kept. */
  function Split(s: string): (r: seq<string>)
    ensures |r| >= 1
    ensures forall i :: 0 <= i < |r| ==> Space !in r[i]
    ensures Join(r) == s
    ensures |r| >= 2 <==> Space in s
    decreases |s|
  {
    if Space !in s then [s]
    else
      var i := FirstSpace(s);
      assert s == s[..i] + [Space] + s[i + 1..];
      [s[..i]] + Split(s[i + 1..])
  }

  /** `s.partition(' ')` without the separator: the text before the first
      space and the text after it (empty when there is no space). */
  function Partition(s: string): (r: (string, string))
    ensures Space !in r.0
    ensures Space in s ==> s == r.0 + [Space] + r.1
    ensures Space !in s ==> r == (s, "")
  {
    if Space in s then
      var i := FirstSpace(s);
      assert s == s[..i] + [Space] + s[i + 1..];
      (s[..i], s[i + 1..])
    else (s, "")
  }

  /** The first piece of `s.split(' ')` is the text before the first space,
      and the remaining pieces are the split of the text after it. */
  lemma SplitByPartition(s: string)
    ensures Split(s)[0] == Partition(s).0
    ensures Space in s ==> Split(s)[1..] == Split(Partition(s).1)
    ensures Space in s ==> Split(s)[1] == Partition(Partition(s).1).0
  {
    if Space in s {
      SplitByPartition(Partition(s).1);
    }
  }

  /** Re-joining every piece of `s.split(' ')` but the first gives back exactly
      the text after the first space: runs of spaces are preserved. */
  lemma JoinTailIsRest(s: string)
    ensures Join(Split(s)[1..]) == Partition(s).1
  {
    if Space in s {
      var i := FirstSpace(s);
      assert Split(s)[1..] == Split(s[i + 1..]);
      assert Partition(s).1 == s[i + 1..];
    }
  }
}
