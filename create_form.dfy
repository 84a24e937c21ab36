/** The authoring form's state and handlers (components/CreateForm.tsx). */
module CreateForm {

  import opened Wrappers
  import opened Types
  import opened SeqUtil
  import opened JsText
  import opened Draft

  /** What one press of the generate button ends in. */
  datatype GenerationOutcome =
    | Rejected          // nothing to generate from: no request is made
    | Failed            // the request or its parsing failed
    | Generated(count: nat)

  class Form {
    /** The set being edited, if any. */
    const initialSet: Option<ProblemSet>

    var title: string
    var problems: seq<DraftProblem>
    var knowledge: string
    var images: seq<string>
    var aiCategoryOverride: CategoryOverride

    ghost predicate Valid()
      reads this
    {
      |images| <= MaxImages
    }

    /** The form's first state: the edited set's title and problems, or an
        empty title and one blank problem with id `blankId`. */
    constructor (initial: Option<ProblemSet>, blankId: string)
      ensures Valid()
      ensures initialSet == initial
      ensures title == if initial.Some? then initial.value.title else ""
      ensures problems == if initial.Some? then FromProblems(initial.value.problems) else [BlankDraft(blankId)]
      ensures knowledge == "" && images == [] && aiCategoryOverride == Auto
    {
      initialSet := initial;
      title := if initial.Some? then initial.value.title else "";
      problems := if initial.Some? then FromProblems(initial.value.problems) else [BlankDraft(blankId)];
      knowledge := "";
      images := [];
      aiCategoryOverride := Auto;
    }

    /** `addProblem`: exactly one blank problem at the end. */
    method AddProblem(freshId: string)
      modifies this`problems
      ensures problems == old(problems) + [BlankDraft(freshId)]
    {
      problems := problems + [BlankDraft(freshId)];
    }

    /** `removeProblem`: the last remaining problem cannot be removed. */
    method RemoveProblem(index: int)
      modifies this`problems
      ensures |old(problems)| <= 1 ==> problems == old(problems)
      ensures |old(problems)| > 1 ==> problems == RemoveAt(old(problems), index)
      ensures |old(problems)| >= 1 ==> |problems| >= 1
    {
      if |problems| > 1 {
        problems := RemoveAt(problems, index);
      }
    }

    /** `updateProblem`: only the problem at `index` changes, and in it only
        the fields `updates` gives. */
    method UpdateProblem(index: int, updates: DraftProblem)
      requires 0 <= index < |problems|
      modifies this`problems
      ensures problems == old(problems)[index := Apply(old(problems)[index], updates)]
      ensures |problems| == |old(problems)|
      ensures forall j :: 0 <= j < |problems| && j != index ==> problems[j] == old(problems)[j]
    {
      problems := problems[index := Apply(problems[index], updates)];
    }

    /** `toggleCorrect`: a single-choice problem's key becomes exactly
        `[cIndex]`; a multiple-choice one's loses `cIndex` if it has it and
        gains it at the end otherwise. */
    method ToggleCorrect(pIndex: int, cIndex: int)
      requires 0 <= pIndex < |problems|
      modifies this`problems
      ensures |problems| == |old(problems)|
      ensures forall j :: 0 <= j < |problems| && j != pIndex ==> problems[j] == old(problems)[j]
      ensures var p := old(problems)[pIndex];
              problems[pIndex] == p.(correctIndices := Some(
                if p.isMultipleChoice == Some(true) then Toggle(p.correctIndices.GetOr([]), cIndex) else [cIndex]))
    {
      var p := problems[pIndex];
      var current := p.correctIndices.GetOr([]);
      if p.isMultipleChoice == Some(true) {
        UpdateProblem(pIndex, NoUpdates.(correctIndices := Some(Toggle(current, cIndex))));
      } else {
        UpdateProblem(pIndex, NoUpdates.(correctIndices := Some([cIndex])));
      }
    }

    /** The add-choice button: an empty choice with a fresh id at the end. */
    method AddChoice(pIndex: int, choiceId: string)
      requires 0 <= pIndex < |problems|
      modifies this`problems
      ensures |problems| == |old(problems)|
      ensures forall j :: 0 <= j < |problems| && j != pIndex ==> problems[j] == old(problems)[j]
      ensures var p := old(problems)[pIndex];
              problems[pIndex] == p.(choices := Some(p.choices.GetOr([]) + [Choice(choiceId, "")]))
    {
      var p := problems[pIndex];
      UpdateProblem(pIndex, NoUpdates.(choices := Some(p.choices.GetOr([]) + [Choice(choiceId, "")])));
    }

    /** Editing the text of choice `cIndex` (shown only for existing choices). */
    method EditChoiceText(pIndex: int, cIndex: int, text: string)
      requires 0 <= pIndex < |problems|
      requires problems[pIndex].choices.Some? && 0 <= cIndex < |problems[pIndex].choices.value|
      modifies this`problems
      ensures |problems| == |old(problems)|
      ensures forall j :: 0 <= j < |problems| && j != pIndex ==> problems[j] == old(problems)[j]
      ensures var cs := old(problems)[pIndex].choices.value;
              problems[pIndex] == old(problems)[pIndex].(choices := Some(cs[cIndex := cs[cIndex].(text := text)]))
    {
      var cs := problems[pIndex].choices.value;
      UpdateProblem(pIndex, NoUpdates.(choices := Some(cs[cIndex := cs[cIndex].(text := text)])));
    }

    /** The add-comment button: one empty comment at the end. */
    method AddComment(pIndex: int)
      requires 0 <= pIndex < |problems|
      modifies this`problems
      ensures |problems| == |old(problems)|
      ensures forall j :: 0 <= j < |problems| && j != pIndex ==> problems[j] == old(problems)[j]
      ensures var p := old(problems)[pIndex];
              problems[pIndex] == p.(comments := Some(p.comments.GetOr([]) + [""]))
    {
      var p := problems[pIndex];
      UpdateProblem(pIndex, NoUpdates.(comments := Some(p.comments.GetOr([]) + [""])));
    }

    /** Editing comment `cIndex` (shown only for existing comments). */
    method EditComment(pIndex: int, cIndex: int, text: string)
      requires 0 <= pIndex < |problems|
      requires problems[pIndex].comments.Some? && 0 <= cIndex < |problems[pIndex].comments.value|
      modifies this`problems
      ensures |problems| == |old(problems)|
      ensures forall j :: 0 <= j < |problems| && j != pIndex ==> problems[j] == old(problems)[j]
      ensures var cs := old(problems)[pIndex].comments.value;
              problems[pIndex] == old(problems)[pIndex].(comments := Some(cs[cIndex := text]))
    {
      var cs := problems[pIndex].comments.value;
      UpdateProblem(pIndex, NoUpdates.(comments := Some(cs[cIndex := text])));
    }

    /** Removing comment `cIndex` (shown only for existing comments). */
    method RemoveComment(pIndex: int, cIndex: int)
      requires 0 <= pIndex < |problems|
      requires problems[pIndex].comments.Some?
      modifies this`problems
      ensures |problems| == |old(problems)|
      ensures forall j :: 0 <= j < |problems| && j != pIndex ==> problems[j] == old(problems)[j]
      ensures var cs := old(problems)[pIndex].comments.value;
              problems[pIndex] == old(problems)[pIndex].(comments := Some(RemoveAt(cs, cIndex)))
    {
      var cs := problems[pIndex].comments.value;
      UpdateProblem(pIndex, NoUpdates.(comments := Some(RemoveAt(cs, cIndex))));
    }

    /** `handleImageUpload` with the files already read as data URLs, in
        order: only the first `3 - |images|` files are read, and each read
        appends its result and cuts the list back to three. */
    method UploadImages(files: seq<string>)
      requires Valid()
      modifies this`images
      ensures Valid()
      ensures images == AfterUpload(old(images), files)
    {
      var accepted := files[..SliceEnd(|files|, MaxImages - |images|)];
      ghost var held := images;
      var k := 0;
      while k < |accepted|
        invariant 0 <= k <= |accepted|
        invariant images == held + accepted[..k]
        invariant |images| <= MaxImages
      {
        var next := images + [accepted[k]];
        var cut := if |next| < MaxImages then |next| else MaxImages;
        assert |held| + |accepted| <= MaxImages;
        images := next[..cut];
        assert accepted[..k + 1] == accepted[..k] + [accepted[k]];
        k := k + 1;
      }
      assert accepted[..k] == accepted;
    }

    /** The delete button on image `index`. */
    method RemoveImage(index: int)
      requires Valid()
      modifies this`images
      ensures Valid()
      ensures images == RemoveAt(old(images), index)
    {
      images := RemoveAt(images, index);
    }

    /** `generateAIQuiz` around one generator call whose result is `response`:
        with blank knowledge and no images nothing happens; a failure leaves
        the draft as it is; a success merges the mapped candidates and clears
        the knowledge text and the images. */
    method GenerateAIQuiz(response: Result<seq<Candidate>, string>,
                          problemIds: nat -> string, choiceIds: (nat, nat) -> string)
      returns (outcome: GenerationOutcome)
      requires Valid()
      modifies this`problems, this`knowledge, this`images
      ensures Valid()
      ensures outcome == Rejected <==> IsBlank(old(knowledge)) && old(images) == []
      ensures outcome == Rejected || outcome == Failed ==>
                problems == old(problems) && knowledge == old(knowledge) && images == old(images)
      ensures outcome == Failed <==> outcome != Rejected && response.Failure?
      ensures outcome.Generated? ==>
                && response.Success? && outcome.count == |response.value|
                && problems == MergeGenerated(old(problems),
                                 MapCandidates(response.value, aiCategoryOverride, problemIds, choiceIds))
                && knowledge == "" && images == []
    {
      TrimEmptyIffBlank(knowledge);
      if Trim(knowledge) == "" && images == [] {
        return Rejected;
      }
      if response.Failure? {
        return Failed;
      }
      var generated := MapCandidates(response.value, aiCategoryOverride, problemIds, choiceIds);
      AcceptGenerated(generated);
      outcome := Generated(|generated|);
    }

    /** The success branch of `generateAIQuiz`: the generated problems are
        merged into the draft and the inputs are cleared. */
    method AcceptGenerated(generated: seq<Problem>)
      modifies this`problems, this`knowledge, this`images
      ensures problems == MergeGenerated(old(problems), generated)
      ensures knowledge == "" && images == []
    {
      problems := MergeGenerated(problems, generated);
      knowledge := "";
      images := [];
    }

    /** `handleSubmit`: the set handed to `onSaveSet`, or nothing when the
        title is blank. */
    method HandleSubmit(setId: string, problemIds: nat -> string, now: int) returns (saved: Option<ProblemSet>)
      ensures saved == SaveSet(title, problems, initialSet, setId, problemIds, now)
      ensures saved.None? <==> IsBlank(title)
    {
      saved := SaveSet(title, problems, initialSet, setId, problemIds, now);
    }
  }
}
