/**
 * String helpers with Python's meaning: `sub in s` on strings and
 * `s.split(' ')[0]`.
 */
module Text {

  /** Python's `sub in s` for strings: `sub` occurs in `s` as a contiguous infix. */
  predicate Contains(s: string, sub: string)
    decreases |s|
  {
    |sub| <= |s| && (s[..|sub|] == sub || (0 < |s| && Contains(s[1..], sub)))
  }

  /** `Contains` is exactly "some window of `s` equals `sub`". */
  lemma {:induction false} ContainsAt(s: string, sub: string, k: nat)
    requires k + |sub| <= |s| && s[k..k + |sub|] == sub
    ensures Contains(s, sub)
    decreases k
  {
    if k > 0 {
      assert s[1..][k - 1..k - 1 + |sub|] == s[k..k + |sub|];
      ContainsAt(s[1..], sub, k - 1);
    } else {
      assert s[..|sub|] == s[0..|sub|];
    }
  }

  /** Whatever occurs in `s` still occurs once text is added on either side. */
  lemma {:induction false} ContainsWithin(a: string, s: string, b: string, sub: string)
    requires Contains(s, sub)
    ensures Contains(a + s + b, sub)
    decreases |s|
  {
    if s[..|sub|] == sub {
      var w := a + s + b;
      assert w[|a|..|a| + |sub|] == s[..|sub|];
      ContainsAt(w, sub, |a|);
    } else {
      ContainsWithin(a + [s[0]], s[1..], b, sub);
      assert a + [s[0]] + s[1..] + b == a + s + b;
    }
  }

  /** Whatever occurs in `s` still occurs once text is added after it. */
  lemma ContainsLeft(s: string, b: string, sub: string)
    requires Contains(s, sub)
    ensures Contains(s + b, sub)
  {
    ContainsWithin([], s, b, sub);
    assert [] + s + b == s + b;
  }

  /** Whatever occurs in `s` still occurs once text is added before it. */
  lemma ContainsRight(a: string, s: string, sub: string)
    requires Contains(s, sub)
    ensures Contains(a + s, sub)
  {
    ContainsWithin(a, s, [], sub);
    assert a + s + [] == a + s;
  }

  /** A string contains itself. */
  lemma ContainsSelf(s: string)
    ensures Contains(s, s)
  {
    assert s[..|s|] == s;
  }

  /** Python's `s.split(' ')[0]`: the text before the first space (all of `s` if it has none). */
  function BeforeFirstSpace(s: string): (r: string)
    ensures |r| <= |s| && r == s[..|r|]
    ensures ' ' !in r
    ensures |r| < |s| ==> s[|r|] == ' '
  {
    if s == [] || s[0] == ' ' then [] else [s[0]] + BeforeFirstSpace(s[1..])
  }

  /** Python's `s.split(sep)`: the pieces between occurrences of `sep`, always at least one. */
  function Split(s: string, sep: char): (r: seq<string>)
    ensures |r| >= 1
  {
    if s == [] then [""]
    else
      var rest := Split(s[1..], sep);
      if s[0] == sep then [""] + rest
      else [[s[0]] + rest[0]] + rest[1..]
  }
}
