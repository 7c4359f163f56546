/** Prefix and suffix facts about strings, used to read paths and storage keys back. */
module Text {
  import opened Optional

  predicate HasPrefix(prefix: string, s: string)
  {
    |prefix| <= |s| && s[..|prefix|] == prefix
  }

  predicate HasSuffix(suffix: string, s: string)
  {
    |suffix| <= |s| && s[|s| - |suffix|..] == suffix
  }

  /** What follows `prefix` in `s`, or None when `s` does not start with it. */
  function StripPrefix(prefix: string, s: string): (rest: Option<string>)
    ensures rest.Some? <==> HasPrefix(prefix, s)
    ensures rest.Some? ==> prefix + rest.value == s
  {
    if HasPrefix(prefix, s) then
      assert prefix + s[|prefix|..] == s by {
        assert s == s[..|prefix|] + s[|prefix|..];
      }
      Some(s[|prefix|..])
    else
      None
  }

  /** Stripping a prefix undoes prepending it. */
  lemma StripPrefixOfConcat(prefix: string, rest: string)
    ensures StripPrefix(prefix, prefix + rest) == Some(rest)
  {
  }

  /** Two strings with a common suffix are equal exactly when what precedes the suffix is. */
  lemma {:induction false} ConcatCancelRight(a: string, b: string, suffix: string)
    requires a + suffix == b + suffix
    ensures a == b
  {
    assert |a| == |b|;
    assert a == (a + suffix)[..|a|];
    assert b == (b + suffix)[..|b|];
  }
}
