/** The list operations behind the library of sets (App.tsx). The library
    is an ordered list; new sets go to the front. */
module Library {

  import opened Wrappers
  import opened Types
  import opened SeqUtil

  /** The ids of the sets, in library order. */
  function Ids(sets: seq<ProblemSet>): (ids: seq<string>)
    ensures |ids| == |sets|
    ensures forall i :: 0 <= i < |sets| ==> ids[i] == sets[i].id
  {
    seq(|sets|, i requires 0 <= i < |sets| => sets[i].id)
  }

  /** No two sets share an id. */
  predicate UniqueIds(sets: seq<ProblemSet>) {
    forall i, j :: 0 <= i < j < |sets| ==> sets[i].id != sets[j].id
  }

  /** Putting a set in front keeps the ids unique exactly when its id is new. */
  lemma PrependUnique(s: ProblemSet, sets: seq<ProblemSet>)
    ensures UniqueIds([s] + sets) <==> UniqueIds(sets) && s.id !in Ids(sets)
  {
    var r := [s] + sets;
    if UniqueIds(r) {
      forall i, j | 0 <= i < j < |sets|
        ensures sets[i].id != sets[j].id
      {
        assert r[i + 1] == sets[i] && r[j + 1] == sets[j];
      }
      forall k | 0 <= k < |sets|
        ensures Ids(sets)[k] != s.id
      {
        assert r[0] == s && r[k + 1] == sets[k];
        assert r[0].id != r[k + 1].id;
      }
    }
  }

  /** `sets.map(s => s.id === saved.id ? saved : s)`: every set with the
      saved id is replaced; length, order and the other sets stay. */
  function ReplaceById(sets: seq<ProblemSet>, saved: ProblemSet): (r: seq<ProblemSet>)
    ensures |r| == |sets|
    ensures forall i :: 0 <= i < |sets| && sets[i].id == saved.id ==> r[i] == saved
    ensures forall i :: 0 <= i < |sets| && sets[i].id != saved.id ==> r[i] == sets[i]
    ensures Ids(r) == Ids(sets)
    ensures saved.id !in Ids(sets) ==> r == sets
  {
    seq(|sets|, i requires 0 <= i < |sets| => if sets[i].id == saved.id then saved else sets[i])
  }

  /** Replacing keeps the ids unique, and keeps them duplicated if they were. */
  lemma ReplaceKeepsUnique(sets: seq<ProblemSet>, saved: ProblemSet)
    ensures UniqueIds(ReplaceById(sets, saved)) <==> UniqueIds(sets)
  {
    var r := ReplaceById(sets, saved);
    forall i | 0 <= i < |r|
      ensures r[i].id == sets[i].id
    {
      assert Ids(r)[i] == Ids(sets)[i];
    }
  }

  /** Does not have this id. */
  predicate OtherId(s: ProblemSet, id: string) {
    s.id != id
  }

  /** `sets.filter(s => s.id !== id)`: the sets with another id, in order. */
  function RemoveById(sets: seq<ProblemSet>, id: string): (r: seq<ProblemSet>)
    ensures id !in Ids(r)
    ensures IsSubsequence(r, sets)
    ensures forall s: ProblemSet :: s in r <==> s in sets && s.id != id
    ensures forall s: ProblemSet :: s.id != id ==> multiset(r)[s] == multiset(sets)[s]
  {
    var r := Filter(sets, s => OtherId(s, id));
    assert id !in Ids(r) by {
      forall k | 0 <= k < |r|
        ensures Ids(r)[k] != id
      {
        assert r[k] in r;
      }
    }
    r
  }

  /** A subsequence of a list with unique ids has unique ids. */
  lemma {:induction false} SubsequenceUnique(a: seq<ProblemSet>, b: seq<ProblemSet>)
    requires IsSubsequence(a, b) && UniqueIds(b)
    ensures UniqueIds(a)
    decreases |b|
  {
    if a != [] {
      assert UniqueIds(b[1..]) by {
        forall i, j | 0 <= i < j < |b[1..]|
          ensures b[1..][i].id != b[1..][j].id
        {
          assert b[1..][i] == b[i + 1] && b[1..][j] == b[j + 1];
        }
      }
      if a[0] == b[0] {
        SubsequenceUnique(a[1..], b[1..]);
        forall j | 0 < j < |a|
          ensures a[0].id != a[j].id
        {
          assert a[j] == a[1..][j - 1];
          assert a[j] in a[1..];
          SubsequenceMember(a[1..], b[1..], a[j]);
          var m :| 0 <= m < |b[1..]| && b[1..][m] == a[j];
          assert b[m + 1] == a[j];
        }
        forall i, j | 0 <= i < j < |a|
          ensures a[i].id != a[j].id
        {
          if i > 0 {
            assert a[i] == a[1..][i - 1] && a[j] == a[1..][j - 1];
          }
        }
      } else {
        SubsequenceUnique(a, b[1..]);
      }
    }
  }

  /** Removing keeps the ids unique. */
  lemma RemoveKeepsUnique(sets: seq<ProblemSet>, id: string)
    ensures UniqueIds(sets) ==> UniqueIds(RemoveById(sets, id))
  {
    if UniqueIds(sets) {
      SubsequenceUnique(RemoveById(sets, id), sets);
    }
  }

  /** Removing an id the library does not hold changes nothing. */
  lemma RemoveAbsent(sets: seq<ProblemSet>, id: string)
    requires id !in Ids(sets)
    ensures RemoveById(sets, id) == sets
  {
    forall i | 0 <= i < |sets|
      ensures OtherId(sets[i], id)
    {
      assert Ids(sets)[i] == sets[i].id;
    }
    FilterKeepsAll(sets, s => OtherId(s, id));
  }

  /** `sets.find(s => s.id === id)`: the first set with the id. */
  function FindById(sets: seq<ProblemSet>, id: string): (r: Option<ProblemSet>)
    ensures r.Some? <==> id in Ids(sets)
    ensures r.Some? ==> r.value in sets && r.value.id == id
    ensures r.Some? ==> exists i :: 0 <= i < |sets| && sets[i] == r.value
                                     && forall j :: 0 <= j < i ==> sets[j].id != id
    decreases |sets|
  {
    if sets == [] then None
    else if sets[0].id == id then
      assert Ids(sets)[0] == id;
      Some(sets[0])
    else
      var r := FindById(sets[1..], id);
      assert Ids(sets) == [sets[0].id] + Ids(sets[1..]);
      if r.Some? then
        var i :| 0 <= i < |sets[1..]| && sets[1..][i] == r.value
                 && forall j :: 0 <= j < i ==> sets[1..][j].id != id;
        assert sets[i + 1] == r.value;
        assert forall j :: 0 <= j < i + 1 ==> sets[j].id != id by {
          forall j | 0 <= j < i + 1
            ensures sets[j].id != id
          {
            if j > 0 {
              assert sets[j] == sets[1..][j - 1];
            }
          }
        }
        r
      else
        r
  }

  /** The suffix an imported set's title gets. */
  const ImportSuffix: string := " (導入)"
  /** The prefix of a review set's title. */
  const ReviewPrefix: string := "復習: "

  /** The decoded set with a fresh id, a fresh creation time and the import
      suffix on its title; its problems are those of the decoded set. */
  function ImportedSet(decoded: ProblemSet, freshId: string, now: int): (s: ProblemSet)
    ensures s.id == freshId && s.createdAt == now && s.problems == decoded.problems
    ensures |s.title| == |decoded.title| + |ImportSuffix|
    ensures s.title[..|decoded.title|] == decoded.title
    ensures s.title[|decoded.title|..] == ImportSuffix
  {
    var t := decoded.title + ImportSuffix;
    assert t[..|decoded.title|] == decoded.title;
    assert t[|decoded.title|..] == ImportSuffix;
    ProblemSet(freshId, t, now, decoded.problems)
  }

  /** The review set built from the kept problems: `復習: <title> (<date>)`. */
  function ReviewSet(kept: seq<Problem>, title: string, freshId: string, now: int, date: string): (s: ProblemSet)
    ensures s.id == freshId && s.createdAt == now && s.problems == kept
    ensures |s.title| == |ReviewPrefix| + |title| + |date| + 3
    ensures s.title[..|ReviewPrefix|] == ReviewPrefix
    ensures s.title[|ReviewPrefix|..|ReviewPrefix| + |title|] == title
    ensures s.title[|ReviewPrefix| + |title|..] == " (" + date + ")"
  {
    var t := ReviewPrefix + title + " (" + date + ")";
    assert t[..|ReviewPrefix|] == ReviewPrefix;
    assert t[|ReviewPrefix|..|ReviewPrefix| + |title|] == title;
    assert t[|ReviewPrefix| + |title|..] == " (" + date + ")";
    ProblemSet(freshId, t, now, kept)
  }
}
