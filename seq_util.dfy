/** Sequence operations that the components use in several places
    (`Array.prototype.filter`, `includes`-then-toggle, filtering by index),
    with the facts about them that the rest of the model relies on. */
module SeqUtil {

  /** `a` is obtained from `b` by deleting elements: same elements, same order. */
  predicate IsSubsequence<T(==)>(a: seq<T>, b: seq<T>)
    decreases |b|
  {
    a == [] || (b != [] && if a[0] == b[0] then IsSubsequence(a[1..], b[1..]) else IsSubsequence(a, b[1..]))
  }

  /** No value occurs twice. */
  ghost predicate NoDuplicates<T(!new)>(s: seq<T>) {
    forall x :: multiset(s)[x] <= 1
  }

  /** Dropping the first element of the smaller sequence keeps it a subsequence. */
  lemma {:induction false} SubsequenceDropFirst<T>(a: seq<T>, b: seq<T>)
    requires a != [] && IsSubsequence(a, b)
    ensures IsSubsequence(a[1..], b)
    decreases |b|, 1
  {
    if a[1..] != [] {
      if a[0] == b[0] {
        SubsequenceCons(a[1..], b[1..], b[0]);
      } else {
        SubsequenceDropFirst(a, b[1..]);
        SubsequenceCons(a[1..], b[1..], b[0]);
      }
    }
  }

  /** Putting an element in front of the larger sequence keeps a subsequence. */
  lemma {:induction false} SubsequenceCons<T>(a: seq<T>, b: seq<T>, y: T)
    requires IsSubsequence(a, b)
    ensures IsSubsequence(a, [y] + b)
    decreases |b| + 1, 0
  {
    assert ([y] + b)[1..] == b;
    if a != [] && a[0] == y {
      SubsequenceDropFirst(a, b);
    }
  }

  /** Appending to the larger sequence keeps a subsequence. */
  lemma {:induction false} SubsequenceSnoc<T>(a: seq<T>, b: seq<T>, x: T)
    requires IsSubsequence(a, b)
    ensures IsSubsequence(a, b + [x])
    decreases |b|
  {
    if a != [] {
      assert (b + [x])[1..] == b[1..] + [x];
      if a[0] == b[0] {
        SubsequenceSnoc(a[1..], b[1..], x);
      } else {
        SubsequenceSnoc(a, b[1..], x);
      }
    }
  }

  /** Appending the same element to both keeps a subsequence. */
  lemma {:induction false} SubsequenceSnocBoth<T>(a: seq<T>, b: seq<T>, x: T)
    requires IsSubsequence(a, b)
    ensures IsSubsequence(a + [x], b + [x])
    decreases |b|
  {
    if a == [] {
      assert a + [x] == [x];
      SubsequenceSingle(b, x);
    } else {
      assert (a + [x])[0] == a[0] && (a + [x])[1..] == a[1..] + [x];
      assert (b + [x])[1..] == b[1..] + [x];
      if a[0] == b[0] {
        SubsequenceSnocBoth(a[1..], b[1..], x);
      } else {
        SubsequenceSnocBoth(a, b[1..], x);
      }
    }
  }

  lemma {:induction false} SubsequenceSingle<T>(b: seq<T>, x: T)
    ensures IsSubsequence([x], b + [x])
    decreases |b|
  {
    if b != [] && b[0] != x {
      assert (b + [x])[1..] == b[1..] + [x];
      SubsequenceSingle(b[1..], x);
    }
  }

  /** `s.filter(keep)`: the elements that satisfy `keep`, in their order, each
      with its number of occurrences. */
  function Filter<T(==,!new)>(s: seq<T>, keep: T -> bool): (r: seq<T>)
    ensures forall x :: multiset(r)[x] == if keep(x) then multiset(s)[x] else 0
    ensures forall x :: x in r <==> x in s && keep(x)
    ensures IsSubsequence(r, s)
    decreases |s|
  {
    if s == [] then []
    else
      var rest := Filter(s[1..], keep);
      assert s == [s[0]] + s[1..];
      if keep(s[0]) then
        assert ([s[0]] + rest)[1..] == rest;
        [s[0]] + rest
      else
        SubsequenceCons(rest, s[1..], s[0]);
        rest
  }

  /** Passing one more element of `s`: a subsequence of the first `i`
      elements is one of the first `i + 1`, with or without that element
      appended. */
  lemma SubsequencePrefixStep<T>(kept: seq<T>, s: seq<T>, i: nat)
    requires i < |s| && IsSubsequence(kept, s[..i])
    ensures IsSubsequence(kept, s[..i + 1])
    ensures IsSubsequence(kept + [s[i]], s[..i + 1])
  {
    assert s[..i + 1] == s[..i] + [s[i]];
    SubsequenceSnoc(kept, s[..i], s[i]);
    SubsequenceSnocBoth(kept, s[..i], s[i]);
  }

  /** A filter that keeps every element returns the sequence itself. */
  lemma {:induction false} FilterKeepsAll<T(!new)>(s: seq<T>, keep: T -> bool)
    requires forall i :: 0 <= i < |s| ==> keep(s[i])
    ensures Filter(s, keep) == s
    decreases |s|
  {
    if s != [] {
      FilterKeepsAll(s[1..], keep);
      assert [s[0]] + s[1..] == s;
    }
  }

  /** Every element of a subsequence is an element of the whole. */
  lemma {:induction false} SubsequenceMember<T>(a: seq<T>, b: seq<T>, x: T)
    requires IsSubsequence(a, b) && x in a
    ensures x in b
    decreases |b|
  {
    if a[0] == b[0] {
      if x != a[0] {
        assert x in a[1..];
        SubsequenceMember(a[1..], b[1..], x);
      }
    } else {
      SubsequenceMember(a, b[1..], x);
    }
  }

  /** `s.filter(i => i !== x)`. */
  function RemoveAll<T(==,!new)>(s: seq<T>, x: T): seq<T> {
    Filter(s, y => y != x)
  }

  /** The toggle both the quiz selection and the authoring answer key use:
      `s.includes(x) ? s.filter(i => i !== x) : [...s, x]`. */
  function Toggle<T(==,!new)>(s: seq<T>, x: T): (r: seq<T>)
    ensures x in r <==> x !in s
    ensures x in s ==> multiset(r) == multiset(s)[x := 0] && IsSubsequence(r, s)
    ensures x !in s ==> r == s + [x]
    ensures NoDuplicates(s) ==> NoDuplicates(r)
  {
    if x in s then
      var r := RemoveAll(s, x);
      assert multiset(r) == multiset(s)[x := 0];
      r
    else s + [x]
  }

  /** `s.filter((_, i) => i !== index)`: an index outside the sequence removes nothing. */
  function RemoveAt<T>(s: seq<T>, index: int): (r: seq<T>)
    ensures 0 <= index < |s| ==> |r| == |s| - 1
    ensures 0 <= index < |s| ==> forall j :: 0 <= j < |r| ==> r[j] == if j < index then s[j] else s[j + 1]
    ensures !(0 <= index < |s|) ==> r == s
  {
    if 0 <= index < |s| then s[..index] + s[index + 1..] else s
  }
}
