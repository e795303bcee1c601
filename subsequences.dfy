/** Order-preserving selection from a sequence, shared by the character
    filter of the numeric parser and the item filter of entity setup. */
module Subsequences {

  /** `t` can be obtained from `s` by deleting elements. */
  predicate IsSubsequence<T(==)>(t: seq<T>, s: seq<T>) {
    if t == [] then true
    else if s == [] then false
    else if t[0] == s[0] then IsSubsequence(t[1..], s[1..])
    else IsSubsequence(t, s[1..])
  }

  /** A subsequence of the tail is a subsequence of the whole. */
  lemma {:induction false} SubsequenceDropHead<T>(t: seq<T>, s: seq<T>)
    requires s != [] && IsSubsequence(t, s[1..])
    ensures IsSubsequence(t, s)
    decreases |t| + |s|
  {
    if t != [] && t[0] == s[0] {
      SubsequenceTail(t, s[1..]);
    }
  }

  /** Dropping the first element of a subsequence keeps it a subsequence. */
  lemma {:induction false} SubsequenceTail<T>(t: seq<T>, s: seq<T>)
    requires t != [] && IsSubsequence(t, s)
    ensures IsSubsequence(t[1..], s)
    decreases |t| + |s|
  {
    if s != [] {
      if t[0] == s[0] {
        if t[1..] != [] {
          SubsequenceDropHead(t[1..], s);
        }
      } else {
        SubsequenceTail(t, s[1..]);
        SubsequenceDropHead(t[1..], s);
      }
    }
  }

  /** Appending one element to both sides keeps a subsequence. */
  lemma {:induction false} SubsequenceAppend<T>(t: seq<T>, s: seq<T>, x: T)
    requires IsSubsequence(t, s)
    ensures IsSubsequence(t + [x], s + [x])
    decreases |s|
  {
    if t == [] {
      assert t + [x] == [x];
      SubsequenceOfSingleton(s, x);
    } else {
      assert s != [];
      assert (t + [x])[0] == t[0] && (t + [x])[1..] == t[1..] + [x];
      assert (s + [x])[0] == s[0] && (s + [x])[1..] == s[1..] + [x];
      if t[0] == s[0] {
        SubsequenceAppend(t[1..], s[1..], x);
      } else {
        SubsequenceAppend(t, s[1..], x);
      }
    }
  }

  /** Appending an element to the whole keeps a subsequence. */
  lemma {:induction false} SubsequenceExtend<T>(t: seq<T>, s: seq<T>, x: T)
    requires IsSubsequence(t, s)
    ensures IsSubsequence(t, s + [x])
    decreases |s|
  {
    if t != [] {
      assert s != [];
      assert (s + [x])[0] == s[0] && (s + [x])[1..] == s[1..] + [x];
      if t[0] == s[0] {
        SubsequenceExtend(t[1..], s[1..], x);
      } else {
        SubsequenceExtend(t, s[1..], x);
      }
    }
  }

  lemma {:induction false} SubsequenceOfSingleton<T>(s: seq<T>, x: T)
    ensures IsSubsequence([x], s + [x])
    decreases |s|
  {
    if s != [] {
      assert (s + [x])[1..] == s[1..] + [x];
      if s[0] != x {
        SubsequenceOfSingleton(s[1..], x);
      }
    }
  }
}
