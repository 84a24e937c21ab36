/** The quiz session engine (components/QuizRunner.tsx): one pass over the
    problems of a set, one event at a time. */
module QuizRunner {

  import opened Wrappers
  import opened Types
  import opened SeqUtil
  import Scoring

  /** The arguments of `onFinish`: the kept problems and the set's title. */
  datatype Finish = Finish(kept: seq<Problem>, title: string)

  /** The state of one session. `problems` is the set's own problem list:
      scoring sorts the current problem's answer key in place, so that list
      is state too. */
  class Session {
    const title: string
    /** The problems as the set held them when the session started. */
    ghost const original: seq<Problem>

    var problems: seq<Problem>
    var currentIdx: nat
    var selectedIndices: seq<int>
    var isSubmitted: bool
    var keptProblems: seq<Problem>
    var showSwipe: bool
    var commentIdx: nat
    /** `onFinish` has been called; the parent then unmounts the session and
        no further event reaches it. */
    ghost var finished: bool

    ghost predicate Valid()
      reads this
    {
      && ProblemsFromSet()
      && (if problems == [] then currentIdx == 0 else currentIdx < |problems|)
      && SelectionValid()
      && (commentIdx == 0 || commentIdx < |Comments()|)
      && (!finished ==> KeptFromPassed())
    }

    /** A selection never repeats an index, and a submitted one is not empty. */
    ghost predicate SelectionValid()
      reads this`selectedIndices, this`isSubmitted
    {
      && NoDuplicates(selectedIndices)
      && (isSubmitted ==> selectedIndices != [])
    }

    /** The kept problems come from the ones already passed, in encounter order. */
    ghost predicate KeptFromPassed()
      reads this`keptProblems, this`problems, this`currentIdx
    {
      currentIdx <= |problems| && IsSubsequence(keptProblems, problems[..currentIdx])
    }

    /** The session changes a problem of the set only by reordering its
        answer key. */
    ghost predicate ProblemsFromSet()
      reads this`problems
    {
      && |problems| == |original|
      && (forall i :: 0 <= i < |problems| ==> Scoring.SameUpToKeyOrder(original[i], problems[i]))
    }

    /** `currentProblem` exists (otherwise the session renders nothing and
        no event handler is reachable). */
    predicate HasCurrent()
      reads this
    {
      currentIdx < |problems|
    }

    /** `currentProblem?.comments || []`. */
    function Comments(): seq<string>
      reads this`problems, this`currentIdx
    {
      if currentIdx < |problems| then problems[currentIdx].comments else []
    }

    constructor (s: ProblemSet)
      ensures Valid() && !finished
      ensures title == s.title && original == s.problems && problems == s.problems
      ensures currentIdx == 0 && selectedIndices == [] && !isSubmitted
      ensures keptProblems == [] && !showSwipe && commentIdx == 0
    {
      title := s.title;
      original := s.problems;
      problems := s.problems;
      currentIdx := 0;
      selectedIndices := [];
      isSubmitted := false;
      keptProblems := [];
      showSwipe := false;
      commentIdx := 0;
      finished := false;
    }

    /** The memoised `isCorrect`: sorts the current problem's answer key in
        place, sorts a copy of the selection, and compares the two. The result
        is the order-independent comparison of the key with the selection. */
    method IsCorrect() returns (correct: bool)
      requires Valid() && !finished
      modifies this`problems
      ensures Valid()
      ensures correct <==> HasCurrent()
                           && multiset(old(problems)[currentIdx].correctIndices) == multiset(selectedIndices)
      ensures problems == if HasCurrent()
                          then old(problems)[currentIdx := Scoring.WithSortedKey(old(problems)[currentIdx])]
                          else old(problems)
    {
      if currentIdx >= |problems| {
        return false;
      }
      var p := problems[currentIdx];
      var key := Scoring.JsSort(p.correctIndices);
      problems := problems[currentIdx := p.(correctIndices := key)];
      var selected := Scoring.JsSort(selectedIndices);
      correct := key == selected;
      Scoring.CorrectIffSameMultiset(p.correctIndices, selectedIndices);
      Scoring.SortingKeyKeepsScore(original[currentIdx], selectedIndices);
      assert problems[..currentIdx] == old(problems)[..currentIdx];
    }

    /** `handleToggleOption(idx)`. */
    method ToggleOption(idx: int)
      requires Valid() && !finished && HasCurrent()
      modifies this`selectedIndices
      ensures Valid()
      ensures old(isSubmitted) ==> selectedIndices == old(selectedIndices)
      ensures !old(isSubmitted) && !problems[currentIdx].isMultipleChoice ==> selectedIndices == [idx]
      ensures !old(isSubmitted) && problems[currentIdx].isMultipleChoice
              ==> selectedIndices == Toggle(old(selectedIndices), idx)
    {
      if isSubmitted {
        return;
      }
      if problems[currentIdx].isMultipleChoice {
        selectedIndices := Toggle(selectedIndices, idx);
      } else {
        selectedIndices := [idx];
      }
    }

    /** `handleSubmit`: enabled only with a non-empty selection; submitting
        again changes nothing. */
    method Submit()
      requires Valid() && !finished
      modifies this`isSubmitted
      ensures Valid()
      ensures isSubmitted <==> old(isSubmitted) || selectedIndices != []
      ensures selectedIndices == [] ==> isSubmitted == old(isSubmitted)
      ensures old(isSubmitted) ==> isSubmitted
    {
      if selectedIndices == [] {
        return;
      }
      isSubmitted := true;
    }

    /** `moveToNext`: the next problem with a fresh selection, or, on the last
        problem, `onFinish` with the kept list as this handler sees it. */
    method MoveToNext() returns (finish: Option<Finish>)
      requires Valid() && !finished && HasCurrent()
      modifies this`currentIdx, this`selectedIndices, this`isSubmitted, this`showSwipe, this`commentIdx, this`finished
      ensures Valid()
      ensures old(currentIdx) < |problems| - 1 ==>
                && finish == None && !finished
                && currentIdx == old(currentIdx) + 1
                && selectedIndices == [] && !isSubmitted && !showSwipe && commentIdx == 0
      ensures old(currentIdx) == |problems| - 1 ==>
                && finish == Some(Finish(keptProblems, title)) && finished
                && currentIdx == old(currentIdx) && selectedIndices == old(selectedIndices)
                && isSubmitted == old(isSubmitted) && showSwipe == old(showSwipe)
                && commentIdx == old(commentIdx)
    {
      if currentIdx < |problems| - 1 {
        SubsequencePrefixStep(keptProblems, problems, currentIdx);
        currentIdx := currentIdx + 1;
        selectedIndices := [];
        isSubmitted := false;
        showSwipe := false;
        commentIdx := 0;
        finish := None;
      } else {
        finished := true;
        finish := Some(Finish(keptProblems, title));
      }
    }

    /** `handleNext`: a correct answer moves on; an incorrect one only opens
        the keep/discard card. */
    method HandleNext() returns (finish: Option<Finish>)
      requires Valid() && !finished && HasCurrent()
      modifies this`problems, this`currentIdx, this`selectedIndices, this`isSubmitted
      modifies this`showSwipe, this`commentIdx, this`finished
      ensures Valid()
      ensures problems == old(problems)[old(currentIdx) := Scoring.WithSortedKey(old(problems)[old(currentIdx)])]
      ensures var correct := multiset(old(problems)[old(currentIdx)].correctIndices) == multiset(old(selectedIndices));
              !correct ==>
                && finish == None && !finished && showSwipe
                && currentIdx == old(currentIdx) && selectedIndices == old(selectedIndices)
                && isSubmitted == old(isSubmitted) && commentIdx == old(commentIdx)
      ensures var correct := multiset(old(problems)[old(currentIdx)].correctIndices) == multiset(old(selectedIndices));
              correct && old(currentIdx) < |problems| - 1 ==>
                && finish == None && !finished
                && currentIdx == old(currentIdx) + 1
                && selectedIndices == [] && !isSubmitted && !showSwipe && commentIdx == 0
      ensures var correct := multiset(old(problems)[old(currentIdx)].correctIndices) == multiset(old(selectedIndices));
              correct && old(currentIdx) == |problems| - 1 ==>
                && finish == Some(Finish(keptProblems, title)) && finished
                && currentIdx == old(currentIdx) && selectedIndices == old(selectedIndices)
                && isSubmitted == old(isSubmitted) && showSwipe == old(showSwipe)
                && commentIdx == old(commentIdx)
    {
      var correct := IsCorrect();
      if !correct {
        showSwipe := true;
        finish := None;
      } else {
        finish := MoveToNext();
      }
    }

    /** `handleSwipe(keep)`: the append to the kept list is a queued update,
        while `moveToNext` runs with the list this handler captured. Keeping
        the last problem therefore appends it only after `onFinish` has been
        handed the earlier list. */
    method HandleSwipe(keep: bool) returns (finish: Option<Finish>)
      requires Valid() && !finished && HasCurrent()
      modifies this`keptProblems, this`currentIdx, this`selectedIndices, this`isSubmitted
      modifies this`showSwipe, this`commentIdx, this`finished
      ensures Valid()
      ensures keptProblems == old(keptProblems) + if keep then [problems[old(currentIdx)]] else []
      ensures old(currentIdx) < |problems| - 1 ==>
                && finish == None && !finished
                && currentIdx == old(currentIdx) + 1
                && selectedIndices == [] && !isSubmitted && !showSwipe && commentIdx == 0
      ensures old(currentIdx) == |problems| - 1 ==>
                && finish == Some(Finish(old(keptProblems), title)) && finished
                && currentIdx == old(currentIdx) && selectedIndices == old(selectedIndices)
                && isSubmitted == old(isSubmitted) && showSwipe == old(showSwipe)
                && commentIdx == old(commentIdx)
    {
      var current := problems[currentIdx];
      if currentIdx < |problems| - 1 {
        SubsequencePrefixStep(keptProblems, problems, currentIdx);
      }
      finish := MoveToNext();
      if keep {
        keptProblems := keptProblems + [current];
      }
    }

    /** The keep/discard step as evidently intended: a problem kept on the
        last card is part of the list handed to `onFinish`. */
    method HandleSwipeKeepingLast(keep: bool) returns (finish: Option<Finish>)
      requires Valid() && !finished && HasCurrent()
      modifies this`keptProblems, this`currentIdx, this`selectedIndices, this`isSubmitted
      modifies this`showSwipe, this`commentIdx, this`finished
      ensures Valid()
      ensures keptProblems == old(keptProblems) + if keep then [problems[old(currentIdx)]] else []
      ensures old(currentIdx) < |problems| - 1 ==>
                && finish == None && !finished
                && currentIdx == old(currentIdx) + 1
                && selectedIndices == [] && !isSubmitted && !showSwipe && commentIdx == 0
      ensures old(currentIdx) == |problems| - 1 ==>
                && finish == Some(Finish(keptProblems, title)) && finished
                && currentIdx == old(currentIdx) && selectedIndices == old(selectedIndices)
                && isSubmitted == old(isSubmitted) && showSwipe == old(showSwipe)
                && commentIdx == old(commentIdx)
    {
      var current := problems[currentIdx];
      var kept := keptProblems + if keep then [current] else [];
      if currentIdx < |problems| - 1 {
        SubsequencePrefixStep(keptProblems, problems, currentIdx);
        finish := MoveToNext();
        if !keep {
          assert kept == keptProblems;
        }
        keptProblems := kept;
      } else {
        keptProblems := kept;
        finished := true;
        finish := Some(Finish(kept, title));
      }
    }

    /** One tick of the three-second comment rotation. The interval runs only
        while the explanation is being viewed (`viewing`: hovered, or a touch
        device), the answer is submitted and there is more than one comment. */
    method Tick(viewing: bool)
      requires Valid() && !finished
      modifies this`commentIdx
      ensures Valid()
      ensures commentIdx == if viewing && isSubmitted && |Comments()| > 1
                            then (old(commentIdx) + 1) % |Comments()|
                            else old(commentIdx)
      ensures Comments() != [] ==> commentIdx < |Comments()|
    {
      var n := |Comments()|;
      if viewing && isSubmitted && n > 1 {
        commentIdx := (commentIdx + 1) % n;
      }
    }
  }
}
