/** Order-preserving filtering of sequences, the model of JavaScript's
    `Array.prototype.filter`. Defined as a left-to-right scan (the last
    element is decided last), so that appending one element is one unfolding. */
module Seqs {

  /** The elements of `s` that satisfy `p`, in their original order. */
  function Keep<T(!new)>(s: seq<T>, p: T -> bool): (r: seq<T>)
    ensures |r| <= |s|
  {
    if s == [] then []
    else
      var init := s[..|s| - 1];
      assert s == init + [s[|s| - 1]];
      Keep(init, p) + (if p(s[|s| - 1]) then [s[|s| - 1]] else [])
  }

  /** A filter keeps exactly the elements that satisfy `p`, each as often as it occurs. */
  lemma {:induction false} KeepContents<T(!new)>(s: seq<T>, p: T -> bool)
    ensures forall x :: x in Keep(s, p) <==> x in s && p(x)
    ensures forall x :: multiset(Keep(s, p))[x] == if p(x) then multiset(s)[x] else 0
    decreases |s|
  {
    if s != [] {
      var init, last := s[..|s| - 1], s[|s| - 1];
      KeepContents(init, p);
      assert s == init + [last];
      assert multiset(s) == multiset(init) + multiset{last};
    }
  }

  /** `sub` can be obtained from `s` by deleting elements: it keeps their relative order. */
  predicate IsSubsequence<T(==)>(sub: seq<T>, s: seq<T>)
    decreases |s|
  {
    sub == [] ||
    (s != [] &&
     (IsSubsequence(sub, s[..|s| - 1]) ||
      (sub[|sub| - 1] == s[|s| - 1] && IsSubsequence(sub[..|sub| - 1], s[..|s| - 1]))))
  }

  /** Filtering distributes over concatenation. */
  lemma {:induction false} KeepAppend<T(!new)>(a: seq<T>, b: seq<T>, p: T -> bool)
    ensures Keep(a + b, p) == Keep(a, p) + Keep(b, p)
    decreases |b|
  {
    if b == [] {
      assert a + b == a;
    } else {
      var b', last := b[..|b| - 1], b[|b| - 1];
      var tail := if p(last) then [last] else [];
      assert (a + b)[..|a + b| - 1] == a + b';
      assert (a + b)[|a + b| - 1] == last;
      assert Keep(a + b, p) == Keep(a + b', p) + tail;
      assert Keep(b, p) == Keep(b', p) + tail;
      KeepAppend(a, b', p);
    }
  }

  /** Filtering a sequence that starts with `x`. */
  lemma {:induction false} KeepCons<T(!new)>(x: T, s: seq<T>, p: T -> bool)
    ensures Keep([x] + s, p) == (if p(x) then [x] else []) + Keep(s, p)
  {
    KeepAppend([x], s, p);
    var one: seq<T> := [x];
    assert one[..0] == [];
    assert Keep(one, p) == Keep([], p) + (if p(x) then [x] else []);
  }

  /** A filter keeps the survivors in their original relative order. */
  lemma {:induction false} KeepIsSubsequence<T(!new)>(s: seq<T>, p: T -> bool)
    ensures IsSubsequence(Keep(s, p), s)
    decreases |s|
  {
    if s != [] {
      var init := s[..|s| - 1];
      KeepIsSubsequence(init, p);
      if !p(s[|s| - 1]) {
        assert Keep(s, p) == Keep(init, p);
      } else {
        var r := Keep(s, p);
        assert r[..|r| - 1] == Keep(init, p);
      }
    }
  }
}
