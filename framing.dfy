/** The framing patch applied to a received chunk before it is decoded:
    cut the string just after its last closing brace. */
module Framing {

  /** String.LastIndexOf(c): the index of the last occurrence of `c` in `s`,
      or -1 when `c` does not occur. */
  function LastIndexOf(s: string, c: char): (r: int)
    ensures -1 <= r < |s|
    ensures r >= 0 ==> s[r] == c
    ensures forall j :: r < j < |s| ==> s[j] != c
    ensures r == -1 <==> c !in s
  {
    if |s| == 0 then -1
    else if s[|s| - 1] == c then |s| - 1
    else LastIndexOf(s[..|s| - 1], c)
  }

  /** The cut made in Update: when the last '}' is not the final character,
      keep the prefix up to and including it (with no '}' at all that prefix
      is empty); otherwise the string is left alone. */
  function Trim(s: string): (r: string)
    ensures r <= s
    ensures '}' in s ==> |r| > 0 && r[|r| - 1] == '}' && '}' !in s[|r|..]
    ensures '}' !in s ==> r == ""
  {
    var lastClose := LastIndexOf(s, '}');
    if lastClose < |s| - 1 then s[..lastClose + 1] else s
  }

  /** A string that already ends with '}' passes through unchanged. */
  lemma TrimClosed(s: string)
    requires |s| > 0 && s[|s| - 1] == '}'
    ensures Trim(s) == s
  {
  }

  /** Trimming is idempotent. */
  lemma TrimIdempotent(s: string)
    ensures Trim(Trim(s)) == Trim(s)
  {
    var r := Trim(s);
    if '}' in s {
      TrimClosed(r);
    }
  }

  /** A message ending in '}' followed by a tail without '}' (the newline the
      sender appends, or the start of the next message) is cut back to the
      message. */
  lemma TrimDropsTail(m: string, tail: string)
    requires |m| > 0 && m[|m| - 1] == '}'
    requires '}' !in tail
    ensures Trim(m + tail) == m
  {
    var s := m + tail;
    assert s[|m| - 1] == '}';
    assert forall j :: |m| <= j < |s| ==> s[j] == tail[j - |m|];
    assert s[..|m|] == m;
  }

  /** Concatenated messages are not separated: every complete message before
      the last '}' is kept in front of it. */
  lemma TrimKeepsEarlierMessages(a: string, b: string, tail: string)
    requires |a| > 0 && a[|a| - 1] == '}'
    requires |b| > 0 && b[|b| - 1] == '}'
    requires '}' !in tail
    ensures Trim(a + b + tail) == a + b
  {
    TrimDropsTail(a + b, tail);
  }
}
