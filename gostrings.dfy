/** The functions of Go's `strings` package that the modelled code relies on, over
    strings viewed as sequences of characters. */
module GoStrings {

  /** strings.HasPrefix */
  predicate HasPrefix(s: string, prefix: string) {
    |prefix| <= |s| && s[..|prefix|] == prefix
  }

  /** strings.HasSuffix */
  predicate HasSuffix(s: string, suffix: string) {
    |suffix| <= |s| && s[|s| - |suffix|..] == suffix
  }

  /** strings.Contains: `sub` starts at some position of `s` (the empty string
      occurs everywhere, also in the empty string). */
  predicate Contains(s: string, sub: string)
    decreases |s|
  {
    HasPrefix(s, sub) || (|s| > 0 && Contains(s[1..], sub))
  }

  /** `sub` occurs in `s` starting at index `i`. */
  predicate OccursAt(s: string, sub: string, i: nat) {
    i + |sub| <= |s| && s[i..i + |sub|] == sub
  }

  /** strings.TrimPrefix: removes one leading `prefix` if there is one. */
  function TrimPrefix(s: string, prefix: string): (r: string)
    ensures HasPrefix(s, prefix) ==> prefix + r == s
    ensures !HasPrefix(s, prefix) ==> r == s
  {
    if HasPrefix(s, prefix) then s[|prefix|..] else s
  }

  /** strings.TrimSuffix: removes one trailing `suffix` if there is one. */
  function TrimSuffix(s: string, suffix: string): (r: string)
    ensures HasSuffix(s, suffix) ==> r + suffix == s
    ensures !HasSuffix(s, suffix) ==> r == s
  {
    if HasSuffix(s, suffix) then s[..|s| - |suffix|] else s
  }

  /** The recursive `Contains` agrees with the positional definition of an occurrence. */
  lemma {:induction false} ContainsIffOccurs(s: string, sub: string)
    ensures Contains(s, sub) <==> exists i: nat :: OccursAt(s, sub, i)
    decreases |s|
  {
    if Contains(s, sub) {
      if HasPrefix(s, sub) {
        assert OccursAt(s, sub, 0);
      } else {
        ContainsIffOccurs(s[1..], sub);
        var i: nat :| OccursAt(s[1..], sub, i);
        assert s[i + 1..i + 1 + |sub|] == s[1..][i..i + |sub|];
        assert OccursAt(s, sub, i + 1);
      }
    }
    if exists i: nat :: OccursAt(s, sub, i) {
      var i: nat :| OccursAt(s, sub, i);
      if i > 0 {
        assert s[1..][i - 1..i - 1 + |sub|] == s[i..i + |sub|];
        assert OccursAt(s[1..], sub, i - 1);
        ContainsIffOccurs(s[1..], sub);
      } else {
        assert HasPrefix(s, sub);
      }
    }
  }

  /** An occurrence never is longer than the string it occurs in. */
  lemma {:induction false} ContainsLength(s: string, sub: string)
    requires Contains(s, sub)
    ensures |sub| <= |s|
    decreases |s|
  {
    if !HasPrefix(s, sub) {
      ContainsLength(s[1..], sub);
    }
  }

  /** Every character of an occurring string is a character of `s`; so a string
      with a character missing from `s` does not occur in `s`. */
  lemma {:induction false} ContainsOnlyCharsOf(s: string, sub: string, k: nat)
    requires Contains(s, sub) && k < |sub|
    ensures sub[k] in s
    decreases |s|
  {
    if HasPrefix(s, sub) {
      assert s[k] == sub[k];
    } else {
      ContainsOnlyCharsOf(s[1..], sub, k);
      assert sub[k] == s[1..][IndexOf(s[1..], sub[k])];
    }
  }

  /** Some index at which `c` stands in `s`. */
  function IndexOf(s: string, c: char): (i: nat)
    requires c in s
    ensures i < |s| && s[i] == c
  {
    if s[0] == c then 0 else 1 + IndexOf(s[1..], c)
  }

  /** What occurs in a suffix occurs in the whole string. */
  lemma {:induction false} ContainsInSuffix(a: string, b: string, sub: string)
    requires Contains(b, sub)
    ensures Contains(a + b, sub)
    decreases |a|
  {
    if a != [] {
      assert (a + b)[1..] == a[1..] + b;
      ContainsInSuffix(a[1..], b, sub);
    } else {
      assert a + b == b;
    }
  }

  /** When the last character of `a` does not belong to `sub`, no occurrence of
      `sub` can straddle the boundary of `a + b`: it occurs in `a + b` only if it
      occurs in `a` or in `b`. */
  lemma {:induction false} NoStraddle(a: string, b: string, sub: string)
    requires |sub| > 0 && |a| > 0 && a[|a| - 1] !in sub
    requires !Contains(a, sub) && !Contains(b, sub)
    ensures !Contains(a + b, sub)
    decreases |a|
  {
    var ab := a + b;
    assert ab[|a| - 1] == a[|a| - 1];
    if HasPrefix(ab, sub) {
      if |sub| <= |a| {
        assert false;
      } else {
        assert false;
      }
    }
    assert ab[1..] == a[1..] + b;
    if |a| == 1 {
      assert ab[1..] == b;
    } else {
      assert a[1..][|a[1..]| - 1] == a[|a| - 1];
      NoStraddle(a[1..], b, sub);
    }
  }
}
