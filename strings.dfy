/** The few string operations of Python and its `posixpath` module that the
    checkpoint-naming and filtering logic relies on. */
module Strings {

  /** `sub` occurs in `s` starting at index `i`. */
  ghost predicate OccursAt(s: string, sub: string, i: int) {
    0 <= i && i + |sub| <= |s| && s[i..i + |sub|] == sub
  }

  /** Python's `sub in s` for strings: `sub` is a substring of `s`. */
  predicate Contains(s: string, sub: string)
    ensures Contains(s, sub) ==> |sub| <= |s|
    ensures sub == [] ==> Contains(s, sub)
    decreases |s|
  {
    sub <= s || (|s| > 0 && Contains(s[1..], sub))
  }

  /** The scanning definition agrees with "occurs at some index". */
  lemma {:induction false} ContainsIffOccurs(s: string, sub: string)
    ensures Contains(s, sub) <==> exists i :: OccursAt(s, sub, i)
    decreases |s|
  {
    if sub <= s {
      assert OccursAt(s, sub, 0);
    } else if |s| > 0 {
      ContainsIffOccurs(s[1..], sub);
      if exists i :: OccursAt(s[1..], sub, i) {
        var i :| OccursAt(s[1..], sub, i);
        assert s[1..][i..i + |sub|] == s[i + 1..i + 1 + |sub|];
        assert OccursAt(s, sub, i + 1);
      }
      if exists i :: OccursAt(s, sub, i) {
        var i :| OccursAt(s, sub, i);
        assert s[1..][i - 1..i - 1 + |sub|] == s[i..i + |sub|];
        assert OccursAt(s[1..], sub, i - 1);
      }
    }
  }

  /** Python's `s.replace(pat, rep)`: every non-overlapping occurrence of `pat`,
      found scanning left to right, is replaced by `rep`. */
  function ReplaceAll(s: string, pat: string, rep: string): (r: string)
    requires |pat| > 0
    ensures forall c :: c in r ==> c in s || c in rep
    decreases |s|
  {
    if |s| == 0 then ""
    else if pat <= s then rep + ReplaceAll(s[|pat|..], pat, rep)
    else [s[0]] + ReplaceAll(s[1..], pat, rep)
  }

  /** Text without an occurrence of the pattern is left as it is. */
  lemma {:induction false} ReplaceAllWithoutOccurrence(s: string, pat: string, rep: string)
    requires |pat| > 0 && !Contains(s, pat)
    ensures ReplaceAll(s, pat, rep) == s
    decreases |s|
  {
    if |s| > 0 {
      ReplaceAllWithoutOccurrence(s[1..], pat, rep);
      assert s == [s[0]] + s[1..];
    }
  }

  /** Python's `s.split("/")[-1]`: the text after the last slash, or all of `s`
      when it has none. */
  function LastComponent(s: string): (r: string)
    ensures '/' !in r
    ensures |r| <= |s| && s[|s| - |r|..] == r
    ensures |r| < |s| ==> s[|s| - |r| - 1] == '/'
  {
    if |s| == 0 || s[|s| - 1] == '/' then ""
    else LastComponent(s[..|s| - 1]) + [s[|s| - 1]]
  }

  predicate IsAbsolute(path: string) {
    |path| > 0 && path[0] == '/'
  }

  /** `posixpath.join(a, b)`: an absolute `b` replaces `a`; otherwise a slash is
      inserted unless `a` is empty or already ends in one. */
  function Join(a: string, b: string): (r: string)
    ensures IsAbsolute(b) ==> r == b
    ensures !IsAbsolute(b) ==> r == a + b || r == a + "/" + b
    ensures !IsAbsolute(b) && a != "" ==> a <= r
    ensures !IsAbsolute(b) ==> (r == a + "/" + b <==> a != "" && a[|a| - 1] != '/')
  {
    if IsAbsolute(b) then b
    else if a == "" || a[|a| - 1] == '/' then a + b
    else a + "/" + b
  }

  /** Joining a slash-free name makes it the last component of the path. */
  lemma LastComponentOfJoin(a: string, b: string)
    requires '/' !in b
    ensures LastComponent(Join(a, b)) == b
  {
    var s := Join(a, b);
    var prefix := if a == "" || a[|a| - 1] == '/' then a else a + "/";
    assert s == prefix + b;
    LastComponentFrom(s, |prefix|);
    assert s[|prefix|..] == b;
  }

  /** When `s[n..]` is slash-free and `s[n-1]` is a slash (or `n` is 0), that
      stretch is the last component. */
  lemma {:induction false} LastComponentFrom(s: string, n: nat)
    requires n <= |s|
    requires n == 0 || s[n - 1] == '/'
    requires forall k :: n <= k < |s| ==> s[k] != '/'
    ensures LastComponent(s) == s[n..]
  {
    if |s| > n {
      var init := s[..|s| - 1];
      LastComponentFrom(init, n);
      assert s[n..] == init[n..] + [s[|s| - 1]];
    }
  }
}
