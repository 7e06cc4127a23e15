/** The parts of Go's `strings` package the system relies on, with the
    semantics of the Go library written out. */
module Strings {

  /** `unicode.IsSpace`: the Latin-1 white space characters and the Unicode
      White_Space property above Latin-1. `strings.TrimSpace` trims these. */
  predicate IsSpace(c: char) {
    c == ' ' || c == '\t' || c == '\n' || c == '\U{0B}' || c == '\U{0C}' || c == '\r'
    || c == '\U{85}' || c == '\U{A0}' || c == '\U{1680}'
    || ('\U{2000}' <= c <= '\U{200A}')
    || c == '\U{2028}' || c == '\U{2029}' || c == '\U{202F}' || c == '\U{205F}' || c == '\U{3000}'
  }

  /** A string made of white space only (the empty string included). */
  predicate IsBlank(s: string) {
    forall k :: 0 <= k < |s| ==> IsSpace(s[k])
  }

  function TrimLeft(s: string): (r: string)
    ensures |r| <= |s| && r == s[|s| - |r|..]
    ensures r == [] || !IsSpace(r[0])
    ensures forall k :: 0 <= k < |s| - |r| ==> IsSpace(s[k])
  {
    if |s| > 0 && IsSpace(s[0]) then
      var r := TrimLeft(s[1..]);
      assert s[1..][|s| - 1 - |r|..] == s[|s| - |r|..];
      r
    else s
  }

  function TrimRight(s: string): (r: string)
    ensures |r| <= |s| && r == s[..|r|]
    ensures r == [] || !IsSpace(r[|r| - 1])
    ensures forall k :: |r| <= k < |s| ==> IsSpace(s[k])
  {
    if |s| > 0 && IsSpace(s[|s| - 1]) then
      var r := TrimRight(s[..|s| - 1]);
      assert s[..|s| - 1][..|r|] == s[..|r|];
      r
    else s
  }

  /** `strings.TrimSpace`: leading and trailing white space removed. */
  function TrimSpace(s: string): (r: string)
    ensures r == [] || (!IsSpace(r[0]) && !IsSpace(r[|r| - 1]))
  {
    TrimRight(TrimLeft(s))
  }

  /** Trimming leaves nothing exactly when the string is blank. */
  lemma TrimSpaceEmpty(s: string)
    ensures TrimSpace(s) == [] <==> IsBlank(s)
  {
    var l := TrimLeft(s);
    if l != [] {
      assert l[0] == s[|s| - |l|];
      assert !IsSpace(l[0]);
    }
  }

  /** Trimming keeps every character that is not white space. */
  lemma TrimSpaceKeeps(s: string, i: nat)
    requires i < |s| && !IsSpace(s[i])
    ensures s[i] in TrimSpace(s)
  {
    var l := TrimLeft(s);
    var j := i - (|s| - |l|);
    assert l[j] == s[i];
    var r := TrimRight(l);
    assert r[j] == l[j];
  }

  /** A string that neither starts nor ends with white space is left as it is. */
  lemma TrimSpaceUnchanged(s: string)
    requires s != [] && !IsSpace(s[0]) && !IsSpace(s[|s| - 1])
    ensures TrimSpace(s) == s
  {
  }

  /** Leading white space in front of a non-space character is trimmed off. */
  lemma {:induction false} TrimLeftAfter(pre: string, x: string)
    requires IsBlank(pre) && x != [] && !IsSpace(x[0])
    ensures TrimLeft(pre + x) == x
    decreases |pre|
  {
    if pre != [] {
      assert (pre + x)[0] == pre[0];
      assert (pre + x)[1..] == pre[1..] + x;
      TrimLeftAfter(pre[1..], x);
    }
  }

  /** Trailing white space after a non-space character is trimmed off. */
  lemma {:induction false} TrimRightBefore(x: string, post: string)
    requires IsBlank(post) && x != [] && !IsSpace(x[|x| - 1])
    ensures TrimRight(x + post) == x
    decreases |post|
  {
    if post != [] {
      var init := post[..|post| - 1];
      assert (x + post)[|x + post| - 1] == post[|post| - 1];
      assert (x + post)[..|x + post| - 1] == x + init;
      TrimRightBefore(x, init);
    } else {
      assert x + post == x;
    }
  }

  /** White space around a word is trimmed off, and the word is kept whole. */
  lemma TrimSpaceAround(pre: string, w: string, post: string)
    requires IsBlank(pre) && IsBlank(post)
    requires w != [] && !IsSpace(w[0]) && !IsSpace(w[|w| - 1])
    ensures TrimSpace(pre + w + post) == w
  {
    assert pre + w + post == pre + (w + post);
    TrimLeftAfter(pre, w + post);
    TrimRightBefore(w, post);
  }

  /** `strings.Contains` with a one-character needle is membership. */
  lemma ContainsChar(s: string, c: char)
    ensures Contains(s, [c]) <==> c in s
  {
    if c in s {
      var i :| 0 <= i < |s| && s[i] == c;
      assert OccursAt(s, [c], i);
    }
    if Contains(s, [c]) {
      var i :| 0 <= i <= |s| - 1 && OccursAt(s, [c], i);
      assert s[i..i + 1][0] == s[i];
    }
  }

  /** `strings.ToLower`, restricted to ASCII letters (other characters are kept). */
  function ToLower(s: string): (r: string)
    ensures |r| == |s|
    ensures forall k :: 0 <= k < |s| ==> r[k] == LowerChar(s[k])
  {
    if s == [] then [] else ToLower(s[..|s| - 1]) + [LowerChar(s[|s| - 1])]
  }

  function LowerChar(c: char): char {
    if 'A' <= c <= 'Z' then (c as int + 32) as char else c
  }

  /** `strings.HasPrefix`. */
  predicate HasPrefix(s: string, prefix: string) {
    |prefix| <= |s| && s[..|prefix|] == prefix
  }

  /** `sep` occurs in `s` starting at index `i`. */
  predicate OccursAt(s: string, sep: string, i: int) {
    0 <= i && i + |sep| <= |s| && s[i..i + |sep|] == sep
  }

  /** `strings.Contains`. */
  predicate Contains(s: string, sub: string) {
    exists i :: 0 <= i <= |s| - |sub| && OccursAt(s, sub, i)
  }

  /** The first occurrence of `sep` in `s` at or after `from`, or -1 (`strings.Index` for `from == 0`). */
  function IndexFrom(s: string, sep: string, from: nat): (r: int)
    requires |sep| > 0
    ensures r == -1 || (from <= r && OccursAt(s, sep, r))
    ensures forall i :: from <= i && (r == -1 || i < r) ==> !OccursAt(s, sep, i)
    decreases |s| - from
  {
    if from + |sep| > |s| then -1
    else if s[from..from + |sep|] == sep then from
    else IndexFrom(s, sep, from + 1)
  }

  /** `strings.Split` for a non-empty separator: the pieces between the
      non-overlapping occurrences of `sep`, found left to right. */
  function Split(s: string, sep: string): (r: seq<string>)
    requires |sep| > 0
    ensures |r| >= 1
    decreases |s|
  {
    var i := IndexFrom(s, sep, 0);
    if i < 0 then [s] else [s[..i]] + Split(s[i + |sep|..], sep)
  }

  /** `strings.Join`, the inverse partner of `Split`. */
  function Join(parts: seq<string>, sep: string): string {
    if |parts| == 0 then ""
    else if |parts| == 1 then parts[0]
    else parts[0] + sep + Join(parts[1..], sep)
  }

  /** Joining a head in front of at least one more part puts the separator between them. */
  lemma JoinCons(head: string, rest: seq<string>, sep: string)
    requires |rest| >= 1
    ensures Join([head] + rest, sep) == head + sep + Join(rest, sep)
  {
    assert ([head] + rest)[1..] == rest;
  }

  /** Cutting `s` around an occurrence of `sep` at `i` and gluing it back gives `s`. */
  lemma CutAround(s: string, sep: string, i: int)
    requires OccursAt(s, sep, i)
    ensures s == s[..i] + sep + s[i + |sep|..]
  {
    assert s == s[..i] + s[i..i + |sep|] + s[i + |sep|..];
  }

  /** Splitting and joining back gives the original string. */
  lemma {:induction false} JoinSplit(s: string, sep: string)
    requires |sep| > 0
    ensures Join(Split(s, sep), sep) == s
    decreases |s|
  {
    var i := IndexFrom(s, sep, 0);
    if i >= 0 {
      var rest := s[i + |sep|..];
      var parts := Split(rest, sep);
      calc {
        Join(Split(s, sep), sep);
        Join([s[..i]] + parts, sep);
        { JoinCons(s[..i], parts, sep); }
        s[..i] + sep + Join(parts, sep);
        { JoinSplit(rest, sep); }
        s[..i] + sep + rest;
        { CutAround(s, sep, i); }
        s;
      }
    }
  }

  /** No piece contains the separator. */
  lemma {:induction false} SplitPiecesFree(s: string, sep: string)
    requires |sep| > 0
    ensures forall k :: 0 <= k < |Split(s, sep)| ==> !Contains(Split(s, sep)[k], sep)
    decreases |s|
  {
    var i := IndexFrom(s, sep, 0);
    if i < 0 {
      NoOccurrenceNotContains(s, sep);
    } else {
      var head := s[..i];
      SplitPiecesFree(s[i + |sep|..], sep);
      forall j | 0 <= j <= |head| - |sep| && OccursAt(head, sep, j) ensures false {
        assert s[j..j + |sep|] == head[j..j + |sep|];
        assert OccursAt(s, sep, j);
      }
    }
  }

  /** An occurrence found by `IndexFrom` is one `Contains` sees. */
  lemma FoundIsContained(s: string, sep: string)
    requires |sep| > 0
    ensures IndexFrom(s, sep, 0) >= 0 ==> Contains(s, sep)
  {
    var i := IndexFrom(s, sep, 0);
    if i >= 0 {
      assert OccursAt(s, sep, i);
    }
  }

  lemma NoOccurrenceNotContains(s: string, sep: string)
    requires |sep| > 0
    requires IndexFrom(s, sep, 0) == -1
    ensures !Contains(s, sep)
  {
  }

  /** Number of occurrences of the character `c` in `s`. */
  function CountChar(s: string, c: char): nat {
    if s == [] then 0 else CountChar(s[..|s| - 1], c) + (if s[|s| - 1] == c then 1 else 0)
  }

  lemma {:induction false} CountCharAppend(a: string, b: string, c: char)
    ensures CountChar(a + b, c) == CountChar(a, c) + CountChar(b, c)
  {
    if b != [] {
      var init := b[..|b| - 1];
      assert (a + b)[..|a + b| - 1] == a + init;
      assert (a + b)[|a + b| - 1] == b[|b| - 1];
      CountCharAppend(a, init, c);
    } else {
      assert a + b == a;
    }
  }

  lemma {:induction false} CountCharZero(s: string, c: char)
    ensures CountChar(s, c) == 0 <==> c !in s
  {
    if s != [] {
      CountCharZero(s[..|s| - 1], c);
      assert s == s[..|s| - 1] + [s[|s| - 1]];
    }
  }

  /** Splitting on a one-character separator yields one more piece than there are separators. */
  lemma {:induction false} SplitCharCount(s: string, c: char)
    ensures |Split(s, [c])| == CountChar(s, c) + 1
    decreases |s|
  {
    var i := IndexFrom(s, [c], 0);
    if i < 0 {
      forall k | 0 <= k < |s| ensures s[k] != c {
        assert !OccursAt(s, [c], k);
      }
      CountCharZero(s, c);
    } else {
      var rest := s[i + 1..];
      SplitCharCount(rest, c);
      assert s == s[..i] + [c] + rest;
      CountCharAppend(s[..i] + [c], rest, c);
      CountCharAppend(s[..i], [c], c);
      forall k | 0 <= k < i ensures s[..i][k] != c {
        assert !OccursAt(s, [c], k);
      }
      CountCharZero(s[..i], c);
    }
  }

  /** The first occurrence of a character, located by a direct look. */
  lemma IndexOfChar(s: string, c: char, i: nat)
    requires i < |s| && s[i] == c && c !in s[..i]
    ensures IndexFrom(s, [c], 0) == i
  {
    assert OccursAt(s, [c], i);
    forall j | 0 <= j < i ensures !OccursAt(s, [c], j) {
      assert s[j] == s[..i][j];
    }
  }

  /** Where a character is found, that character is there; so one that does not occur is not found. */
  lemma IndexOfFound(s: string, c: char)
    ensures IndexFrom(s, [c], 0) >= 0 ==> IndexFrom(s, [c], 0) < |s| && s[IndexFrom(s, [c], 0)] == c
  {
    var i := IndexFrom(s, [c], 0);
    if i >= 0 {
      assert s[i..i + 1][0] == s[i];
    }
  }

  /** A string without the separator character is a single piece. */
  lemma SplitCharAbsent(s: string, c: char)
    requires c !in s
    ensures Split(s, [c]) == [s]
  {
    IndexOfFound(s, c);
  }

  /** Splitting `a + [c] + b` on `c`, where neither side holds `c`, gives back both sides. */
  lemma SplitCharAround(a: string, c: char, b: string)
    requires c !in a && c !in b
    ensures Split(a + [c] + b, [c]) == [a, b]
  {
    var s := a + [c] + b;
    var i := IndexFrom(s, [c], 0);
    assert OccursAt(s, [c], |a|);
    assert forall k :: 0 <= k < |a| ==> s[k] == a[k] && !OccursAt(s, [c], k);
    assert i == |a|;
    assert s[..i] == a;
    assert s[i + 1..] == b;
    SplitCharAbsent(b, c);
  }
}
