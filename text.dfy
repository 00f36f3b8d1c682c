/** Counting the occurrences of a short tag in a piece of markup. */
module Text {

  /** The string has no `<`, so it can open no tag. */
  predicate Plain(s: string) {
    forall k :: 0 <= k < |s| ==> s[k] != '<'
  }

  /** Number of positions at which `p` starts in `s`. */
  function Occurrences(s: string, p: string): nat
    requires p != []
    decreases |s|
  {
    if |s| < |p| then 0
    else (if s[..|p|] == p then 1 else 0) + Occurrences(s[1..], p)
  }

  /** No suffix of `s` is a proper beginning of `p`, so no occurrence of `p` can start in `s` and end beyond it. */
  ghost predicate NoStraddle(s: string, p: string) {
    forall k :: 0 <= k < |s| && |s| - k < |p| ==> s[k..] != p[..|s| - k]
  }

  lemma {:induction false} OccurrencesConcat(a: string, b: string, p: string)
    requires p != [] && NoStraddle(a, p)
    ensures Occurrences(a + b, p) == Occurrences(a, p) + Occurrences(b, p)
    decreases |a|
  {
    if a == [] {
      assert a + b == b;
    } else {
      assert (a + b)[1..] == a[1..] + b;
      assert NoStraddle(a[1..], p) by {
        forall k | 0 <= k < |a[1..]| && |a[1..]| - k < |p|
          ensures a[1..][k..] != p[..|a[1..]| - k]
        {
          assert a[1..][k..] == a[k + 1..];
        }
      }
      OccurrencesConcat(a[1..], b, p);
      if |a| < |p| {
        assert a[0..] == a;
        if |a + b| >= |p| {
          assert (a + b)[..|p|][..|a|] == a;
        }
      } else {
        assert (a + b)[..|p|] == a[..|p|];
      }
    }
  }

  lemma {:induction false} PlainCounts(s: string, p: string)
    requires Plain(s) && p != [] && p[0] == '<'
    ensures Occurrences(s, p) == 0 && NoStraddle(s, p)
    decreases |s|
  {
    if |s| >= |p| {
      assert s[..|p|][0] == s[0];
      PlainCounts(s[1..], p);
    }
    forall k | 0 <= k < |s| && |s| - k < |p|
      ensures s[k..] != p[..|s| - k]
    {
      assert s[k..][0] == s[k];
    }
  }

  /** A literal that is one `<` followed by plain text: it holds `p` once if `p` begins it, and never otherwise. */
  lemma TagCounts(rest: string, p: string)
    requires Plain(rest) && p != [] && p[0] == '<' && |rest| + 1 >= |p|
    ensures Occurrences("<" + rest, p) == if rest[..|p| - 1] == p[1..] then 1 else 0
    ensures NoStraddle("<" + rest, p)
  {
    var s := "<" + rest;
    assert s[1..] == rest;
    PlainCounts(rest, p);
    if rest[..|p| - 1] == p[1..] {
      assert s[..|p|] == [s[0]] + rest[..|p| - 1];
    } else {
      assert s[..|p|][1..] == rest[..|p| - 1];
    }
    forall k | 0 <= k < |s| && |s| - k < |p|
      ensures s[k..] != p[..|s| - k]
    {
      assert k > 0 && s[k..][0] == rest[k - 1];
    }
  }
}
