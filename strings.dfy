/** Python's `s.replace(pat, '')` on text: every occurrence of `pat` is
    removed, scanning left to right, occurrences never overlapping, and the
    text left behind by one removal is not rescanned for a match that
    starts before it. */
module Strings {

  /** `pat` occurs in `s` starting at index `i`. */
  predicate MatchAt(s: string, pat: string, i: int)
  {
    0 <= i && i + |pat| <= |s| && s[i..i + |pat|] == pat
  }

  /** `pat` occurs somewhere in `s`. */
  predicate Contains(s: string, pat: string)
  {
    exists i :: 0 <= i <= |s| && MatchAt(s, pat, i)
  }

  /** `s.replace(pat, '')` for a non-empty `pat`; the result is never
      longer than `s`. */
  function RemoveAll(s: string, pat: string): (r: string)
    requires |pat| > 0
    ensures |r| <= |s|
    decreases |s|
  {
    if |s| < |pat| then s
    else if s[..|pat|] == pat then RemoveAll(s[|pat|..], pat)
    else [s[0]] + RemoveAll(s[1..], pat)
  }

  /** Removal only deletes: every character of the result comes from `s`,
      and no character occurs more often than it did in `s`. */
  lemma {:induction false} RemoveKeepsCharacters(s: string, pat: string)
    requires |pat| > 0
    ensures multiset(RemoveAll(s, pat)) <= multiset(s)
    decreases |s|
  {
    if |s| < |pat| {
    } else if s[..|pat|] == pat {
      assert s == s[..|pat|] + s[|pat|..];
      RemoveKeepsCharacters(s[|pat|..], pat);
    } else {
      assert s == [s[0]] + s[1..];
      RemoveKeepsCharacters(s[1..], pat);
    }
  }

  /** Text without an occurrence of `pat` comes back unchanged. */
  lemma {:induction false} RemoveAbsent(s: string, pat: string)
    requires |pat| > 0
    requires !Contains(s, pat)
    ensures RemoveAll(s, pat) == s
    decreases |s|
  {
    if |s| >= |pat| {
      assert !MatchAt(s, pat, 0);
      assert s[..|pat|] != pat;
      if Contains(s[1..], pat) {
        var i :| 0 <= i <= |s[1..]| && MatchAt(s[1..], pat, i);
        assert i + |pat| <= |s[1..]| && s[1..][i..i + |pat|] == pat;
        assert s[i + 1..i + 1 + |pat|] == s[1..][i..i + |pat|];
        assert MatchAt(s, pat, i + 1);
      }
      RemoveAbsent(s[1..], pat);
    }
  }

  /** A character that does not occur in `s` is not a pattern found in it. */
  lemma AbsentChar(s: string, c: char)
    requires c !in s
    ensures !Contains(s, [c])
  {
    forall i | 0 <= i <= |s|
      ensures !MatchAt(s, [c], i)
    {
      if i + 1 <= |s| {
        assert s[i..i + 1] == [s[i]];
      }
    }
  }

  /** Removing a one-character pattern deletes every copy of that character
      and keeps every other character with its multiplicity. */
  lemma {:induction false} RemoveChar(s: string, c: char)
    ensures multiset(RemoveAll(s, [c])) == multiset(s)[c := 0]
    ensures c !in RemoveAll(s, [c])
    decreases |s|
  {
    var r := RemoveAll(s, [c]);
    if |s| < 1 {
    } else {
      assert s == [s[0]] + s[1..];
      RemoveChar(s[1..], c);
      if s[0] == c {
        assert r == RemoveAll(s[1..], [c]);
        assert multiset(s) == multiset(s[1..]) + multiset{c};
      } else {
        assert s[..1] != [c];
        assert r == [s[0]] + RemoveAll(s[1..], [c]);
        assert multiset(r) == multiset{s[0]} + multiset(RemoveAll(s[1..], [c]));
      }
    }
    assert multiset(r)[c] == 0;
  }

  /** One pass does not find every occurrence a removal creates:
      "urlurl((" loses its inner "url(" and the outer one closes up. */
  lemma RemoveIsSinglePass()
    ensures RemoveAll("urlurl((", "url(") == "url("
    ensures Contains(RemoveAll("urlurl((", "url("), "url(")
  {
    var s, pat := "urlurl((", "url(";
    assert s[..4] != pat by { assert s[3] != pat[3]; }
    assert s[1..][..4] != pat by { assert s[1] != pat[0]; }
    assert s[2..][..4] != pat by { assert s[2] != pat[0]; }
    assert s[3..][..4] == pat;
    assert s[3..][4..] == s[7..];
    assert MatchAt(pat, pat, 0);
  }
}
