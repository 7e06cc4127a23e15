/** The "append the elements that pass a test" loop that several Go functions
    of the system write out by hand, as one specification function. */
module Sequences {

  /** The elements of `s` that satisfy `p`, in their original order. */
  function Filter<T>(s: seq<T>, p: T -> bool): (r: seq<T>)
    ensures |r| <= |s|
    ensures forall k :: 0 <= k < |r| ==> p(r[k])
  {
    if s == [] then []
    else Filter(s[..|s| - 1], p) + (if p(s[|s| - 1]) then [s[|s| - 1]] else [])
  }

  /** Concatenation is associative; stated once so that long proofs need not rediscover it. */
  lemma AppendAssoc<T>(a: seq<T>, b: seq<T>, c: seq<T>)
    ensures a + b + c == a + (b + c)
  {
  }

  /** One more element: the loop step of every filtering loop. */
  lemma FilterSnoc<T>(s: seq<T>, x: T, p: T -> bool)
    ensures Filter(s + [x], p) == Filter(s, p) + (if p(x) then [x] else [])
  {
    assert (s + [x])[..|s + [x]| - 1] == s;
  }

  /** The loop step over a prefix: the prefix one element longer. */
  lemma FilterPrefix<T>(s: seq<T>, i: nat, p: T -> bool)
    requires i < |s|
    ensures Filter(s[..i + 1], p) == Filter(s[..i], p) + (if p(s[i]) then [s[i]] else [])
  {
    assert s[..i + 1][..i] == s[..i];
  }

  /** An element is kept exactly when it occurs in the input and passes the test. */
  lemma {:induction false} FilterMembership<T>(s: seq<T>, p: T -> bool, x: T)
    ensures x in Filter(s, p) <==> x in s && p(x)
  {
    if s != [] {
      var init := s[..|s| - 1];
      FilterMembership(init, p, x);
      assert s == init + [s[|s| - 1]];
    }
  }

  /** Filtering concatenated input filters each part, keeping the parts in order. */
  lemma {:induction false} FilterAppend<T>(a: seq<T>, b: seq<T>, p: T -> bool)
    ensures Filter(a + b, p) == Filter(a, p) + Filter(b, p)
  {
    if b == [] {
      assert a + b == a;
    } else {
      var init := b[..|b| - 1];
      var x := b[|b| - 1];
      assert b == init + [x];
      assert a + b == (a + init) + [x];
      FilterAppend(a, init, p);
      FilterSnoc(a + init, x, p);
      FilterSnoc(init, x, p);
    }
  }

  /** When every element already passes, nothing is removed. */
  lemma {:induction false} FilterKeepsAll<T>(s: seq<T>, p: T -> bool)
    requires forall k :: 0 <= k < |s| ==> p(s[k])
    ensures Filter(s, p) == s
  {
    if s != [] {
      FilterKeepsAll(s[..|s| - 1], p);
    }
  }

  /** Filtering twice with the same test is filtering once. */
  lemma FilterIdempotent<T>(s: seq<T>, p: T -> bool)
    ensures Filter(Filter(s, p), p) == Filter(s, p)
  {
    FilterKeepsAll(Filter(s, p), p);
  }
}
