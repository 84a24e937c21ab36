/** Scoring of one answer in the quiz session (components/QuizRunner.tsx):
    both the answer key and the selection are sorted with JavaScript's default
    `sort()` and compared element by element. The default sort compares the
    decimal strings of the numbers, so `[10, 9]` is already in order; the model
    sorts by that order too. */
module Scoring {

  import opened Types
  import opened JsText

  /** `a` may come before `b` in `sort()`: `String(b) < String(a)` does not hold. */
  predicate JsLeq(a: int, b: int) {
    !StrLess(NumberToString(b), NumberToString(a))
  }

  lemma JsLeqTotal(a: int, b: int)
    ensures JsLeq(a, b) || JsLeq(b, a)
  {
    if StrLess(NumberToString(b), NumberToString(a)) {
      StrLessAsymmetric(NumberToString(b), NumberToString(a));
    }
  }

  lemma JsLeqAntisymmetric(a: int, b: int)
    requires JsLeq(a, b) && JsLeq(b, a)
    ensures a == b
  {
    if NumberToString(a) != NumberToString(b) {
      StrLessTotal(NumberToString(a), NumberToString(b));
    } else {
      NumberToStringInjective(a, b);
    }
  }

  lemma JsLeqTransitive(a: int, b: int, c: int)
    requires JsLeq(a, b) && JsLeq(b, c)
    ensures JsLeq(a, c)
  {
    var sa, sb, sc := NumberToString(a), NumberToString(b), NumberToString(c);
    if StrLess(sc, sa) {
      if sa == sb {
        NumberToStringInjective(a, b);
      } else if sb == sc {
        NumberToStringInjective(b, c);
      } else {
        StrLessTotal(sa, sb);
        StrLessTotal(sb, sc);
        StrLessTransitive(sc, sa, sb);
      }
    }
  }

  /** Any two integers compare. */
  ghost predicate Total(leq: (int, int) -> bool) {
    forall a, b :: leq(a, b) || leq(b, a)
  }

  /** Only equal integers compare both ways. */
  ghost predicate Antisymmetric(leq: (int, int) -> bool) {
    forall a, b :: leq(a, b) && leq(b, a) ==> a == b
  }

  ghost predicate Transitive(leq: (int, int) -> bool) {
    forall a, b, c :: leq(a, b) && leq(b, c) ==> leq(a, c)
  }

  lemma TotalAt(leq: (int, int) -> bool, a: int, b: int)
    requires Total(leq)
    ensures leq(a, b) || leq(b, a)
  {
  }

  lemma AntisymmetricAt(leq: (int, int) -> bool, a: int, b: int)
    requires Antisymmetric(leq) && leq(a, b) && leq(b, a)
    ensures a == b
  {
  }

  lemma TransitiveAt(leq: (int, int) -> bool, a: int, b: int, c: int)
    requires Transitive(leq) && leq(a, b) && leq(b, c)
    ensures leq(a, c)
  {
  }

  /** The comparison of the default sort is a total order on integers. */
  lemma JsLeqTotalOrder()
    ensures Total(JsLeq) && Antisymmetric(JsLeq) && Transitive(JsLeq)
  {
    forall a, b ensures JsLeq(a, b) || JsLeq(b, a) { JsLeqTotal(a, b); }
    forall a, b | JsLeq(a, b) && JsLeq(b, a) ensures a == b { JsLeqAntisymmetric(a, b); }
    forall a, b, c | JsLeq(a, b) && JsLeq(b, c) ensures JsLeq(a, c) { JsLeqTransitive(a, b, c); }
  }

  /** Every element may come before every later one. */
  predicate SortedBy(s: seq<int>, leq: (int, int) -> bool) {
    forall i, j :: 0 <= i < j < |s| ==> leq(s[i], s[j])
  }

  /** Inserts `x` in front of the first element it may precede. */
  function InsertBy(x: int, s: seq<int>, leq: (int, int) -> bool): seq<int>
    decreases |s|
  {
    if s == [] then [x]
    else if leq(x, s[0]) then [x] + s
    else [s[0]] + InsertBy(x, s[1..], leq)
  }

  lemma {:induction false} InsertPermutes(x: int, s: seq<int>, leq: (int, int) -> bool)
    ensures multiset(InsertBy(x, s, leq)) == multiset(s) + multiset{x}
    decreases |s|
  {
    if s != [] {
      assert s == [s[0]] + s[1..];
      if !leq(x, s[0]) {
        InsertPermutes(x, s[1..], leq);
      }
    }
  }

  /** An element that may precede the head of a sorted sequence may be put in front of it. */
  lemma ConsSorted(x: int, s: seq<int>, leq: (int, int) -> bool)
    requires Transitive(leq) && SortedBy(s, leq)
    requires s != [] ==> leq(x, s[0])
    ensures SortedBy([x] + s, leq)
  {
    forall j | 0 < j < |s| ensures leq(x, s[j]) {
      TransitiveAt(leq, x, s[0], s[j]);
    }
  }

  /** The head of a sorted sequence may stay in front of a sorted rearrangement
      of its tail and an element it precedes. */
  lemma KeepHeadSorted(x: int, s: seq<int>, rest: seq<int>, leq: (int, int) -> bool)
    requires s != [] && SortedBy(s, leq) && leq(s[0], x)
    requires SortedBy(rest, leq) && multiset(rest) == multiset(s[1..]) + multiset{x}
    ensures SortedBy([s[0]] + rest, leq)
  {
    forall j | 0 <= j < |rest| ensures leq(s[0], rest[j]) {
      assert rest[j] in multiset(rest);
      if rest[j] != x {
        assert rest[j] in multiset(s[1..]);
        var k :| 0 <= k < |s[1..]| && s[1..][k] == rest[j];
        assert s[k + 1] == rest[j];
      }
    }
  }

  lemma {:induction false} InsertSorted(x: int, s: seq<int>, leq: (int, int) -> bool)
    requires Total(leq) && Transitive(leq) && SortedBy(s, leq)
    ensures SortedBy(InsertBy(x, s, leq), leq)
    decreases |s|
  {
    if s == [] || leq(x, s[0]) {
      ConsSorted(x, s, leq);
    } else {
      TotalAt(leq, x, s[0]);
      InsertSorted(x, s[1..], leq);
      InsertPermutes(x, s[1..], leq);
      KeepHeadSorted(x, s, InsertBy(x, s[1..], leq), leq);
    }
  }

  /** Insertion sort by `leq`: a permutation of `s`, sorted when `leq` is a
      total order. */
  function SortBy(s: seq<int>, leq: (int, int) -> bool): (r: seq<int>)
    ensures multiset(r) == multiset(s)
    ensures Total(leq) && Transitive(leq) ==> SortedBy(r, leq)
    decreases |s|
  {
    if s == [] then []
    else
      assert s == [s[0]] + s[1..];
      InsertPermutes(s[0], SortBy(s[1..], leq), leq);
      assert Total(leq) && Transitive(leq) ==> SortedBy(InsertBy(s[0], SortBy(s[1..], leq), leq), leq) by {
        if Total(leq) && Transitive(leq) { InsertSorted(s[0], SortBy(s[1..], leq), leq); }
      }
      InsertBy(s[0], SortBy(s[1..], leq), leq)
  }

  /** The head of a sorted sequence may precede each of its elements. */
  lemma HeadFirst(a: seq<int>, y: int, leq: (int, int) -> bool)
    requires Total(leq) && SortedBy(a, leq) && y in multiset(a)
    ensures leq(a[0], y)
  {
    var i :| 0 <= i < |a| && a[i] == y;
    if i == 0 { TotalAt(leq, y, y); } else { assert leq(a[0], a[i]); }
  }

  lemma SortedTail(a: seq<int>, leq: (int, int) -> bool)
    requires a != [] && SortedBy(a, leq)
    ensures SortedBy(a[1..], leq)
  {
    forall p, q | 0 <= p < q < |a| - 1 ensures leq(a[1..][p], a[1..][q]) {
      assert a[1..][p] == a[p + 1] && a[1..][q] == a[q + 1];
    }
  }

  /** Removing the same head from two sequences with equal multisets leaves
      equal multisets. */
  lemma SameTails(a: seq<int>, b: seq<int>)
    requires a != [] && b != [] && a[0] == b[0] && multiset(a) == multiset(b)
    ensures multiset(a[1..]) == multiset(b[1..])
  {
    var x, ta, tb := a[0], a[1..], b[1..];
    assert a == [x] + ta && b == [x] + tb;
    assert multiset(a) == multiset{x} + multiset(ta);
    assert multiset(b) == multiset{x} + multiset(tb);
    forall y ensures multiset(ta)[y] == multiset(tb)[y] {
      assert multiset(a)[y] == multiset{x}[y] + multiset(ta)[y];
      assert multiset(b)[y] == multiset{x}[y] + multiset(tb)[y];
    }
  }

  /** Two sequences sorted by a total antisymmetric order with the same
      elements are equal. */
  lemma {:induction false} SortedUnique(a: seq<int>, b: seq<int>, leq: (int, int) -> bool)
    requires Total(leq) && Antisymmetric(leq) && SortedBy(a, leq) && SortedBy(b, leq)
    requires multiset(a) == multiset(b)
    ensures a == b
    decreases |a|
  {
    assert |a| == |multiset(a)| == |b|;
    if a != [] {
      assert a[0] in multiset(b) && b[0] in multiset(a);
      HeadFirst(b, a[0], leq);
      HeadFirst(a, b[0], leq);
      AntisymmetricAt(leq, a[0], b[0]);
      SameTails(a, b);
      SortedTail(a, leq);
      SortedTail(b, leq);
      SortedUnique(a[1..], b[1..], leq);
      assert a == [a[0]] + a[1..] && b == [b[0]] + b[1..];
    }
  }

  /** `Array.prototype.sort()` on numbers: the permutation of `s` sorted by
      the strings of its elements. Any sorting algorithm gives this same
      result (SortedUnique). */
  function JsSort(s: seq<int>): (r: seq<int>)
    ensures multiset(r) == multiset(s)
    ensures SortedBy(r, JsLeq)
  {
    JsLeqTotalOrder();
    SortBy(s, JsLeq)
  }

  /** Any sorted permutation of `s` is what `sort()` returns. */
  lemma JsSortUnique(s: seq<int>, t: seq<int>)
    requires SortedBy(t, JsLeq) && multiset(t) == multiset(s)
    ensures JsSort(s) == t
  {
    JsLeqTotalOrder();
    SortedUnique(JsSort(s), t, JsLeq);
  }

  /** Sorting again changes nothing. */
  lemma JsSortIdempotent(s: seq<int>)
    ensures JsSort(JsSort(s)) == JsSort(s)
  {
    JsSortUnique(JsSort(s), JsSort(s));
  }

  /** The comparison of `isCorrect`: the sorted key against the sorted selection. */
  predicate Correct(correctIndices: seq<int>, selected: seq<int>)
    ensures Correct(correctIndices, selected) ==> |correctIndices| == |selected|
  {
    JsSort(correctIndices) == JsSort(selected)
  }

  /** The answer is correct exactly when the key and the selection hold the
      same indices the same number of times: the order of selection never
      matters. */
  lemma CorrectIffSameMultiset(correctIndices: seq<int>, selected: seq<int>)
    ensures Correct(correctIndices, selected) <==> multiset(correctIndices) == multiset(selected)
  {
    if multiset(correctIndices) == multiset(selected) {
      JsSortUnique(selected, JsSort(correctIndices));
    }
  }

  /** Two selections with the same elements score alike. */
  lemma SelectionOrderIrrelevant(correctIndices: seq<int>, s: seq<int>, t: seq<int>)
    requires multiset(s) == multiset(t)
    ensures Correct(correctIndices, s) == Correct(correctIndices, t)
  {
    CorrectIffSameMultiset(correctIndices, s);
    CorrectIffSameMultiset(correctIndices, t);
  }

  /** The problem with its answer key sorted in place, as `isCorrect` leaves it. */
  function WithSortedKey(p: Problem): (q: Problem)
    ensures multiset(q.correctIndices) == multiset(p.correctIndices)
    ensures q.(correctIndices := p.correctIndices) == p
  {
    p.(correctIndices := JsSort(p.correctIndices))
  }

  /** The two problems differ at most in the order of their answer keys. */
  predicate SameUpToKeyOrder(p: Problem, q: Problem) {
    && q.(correctIndices := p.correctIndices) == p
    && multiset(q.correctIndices) == multiset(p.correctIndices)
  }

  /** Sorting the key in place does not change how any selection scores, and
      sorting it a second time changes nothing. */
  lemma SortingKeyKeepsScore(p: Problem, selected: seq<int>)
    ensures Correct(WithSortedKey(p).correctIndices, selected) == Correct(p.correctIndices, selected)
    ensures WithSortedKey(WithSortedKey(p)) == WithSortedKey(p)
    ensures SameUpToKeyOrder(p, WithSortedKey(p))
  {
    CorrectIffSameMultiset(p.correctIndices, selected);
    CorrectIffSameMultiset(WithSortedKey(p).correctIndices, selected);
    JsSortIdempotent(p.correctIndices);
  }

  /** `getChoiceLabel(idx)`: the letter with code 97 + idx followed by a dot. */
  function ChoiceLabel(idx: nat): (mark: string)
    requires 97 + idx < 0xD800
    ensures |mark| == 2 && mark[1] == '.'
    ensures mark[0] as int == 97 + idx
  {
    [(97 + idx) as char, '.']
  }

  /** The first 26 choices are labelled `a.` to `z.`, and different choices
      get different labels. */
  lemma ChoiceLabelLetters(i: nat, j: nat)
    requires 97 + i < 0xD800 && 97 + j < 0xD800
    ensures i < 26 ==> 'a' <= ChoiceLabel(i)[0] <= 'z'
    ensures i != j ==> ChoiceLabel(i) != ChoiceLabel(j)
  {
    if i != j {
      assert ChoiceLabel(i)[0] != ChoiceLabel(j)[0];
    }
  }
}
