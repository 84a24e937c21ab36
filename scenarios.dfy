/** Whole-application runs over concrete data: the session, the library and
    the authoring form driven event by event. */
module Scenarios {

  import opened Wrappers
  import opened Types
  import opened QuizRunner
  import opened App
  import opened CreateForm
  import opened Draft
  import opened JsText
  import Scoring

  /** One single-choice problem with choices `x` and `y`, the first correct. */
  const OneProblem: Problem := Problem("q1", "A", [Choice("c1", "x"), Choice("c2", "y")], [0], false, "", Compulsory, [])
  const OneProblemSet: ProblemSet := ProblemSet("s1", "Set", 1, [OneProblem])

  /** A library holding the one-problem set, loaded from storage. */
  method LoadedStore() returns (store: Store)
    ensures fresh(store)
    ensures store.sets == [OneProblemSet] && store.activeSet == None
  {
    store := new Store.Load(Some("stored"), (text: string) => Some([OneProblemSet]));
  }

  /** A session over the one-problem set with `choice` selected and submitted. */
  method Answered(choice: int) returns (session: Session)
    ensures fresh(session) && session.Valid() && !session.finished && session.HasCurrent()
    ensures session.problems == [OneProblem] && session.currentIdx == 0 && session.title == "Set"
    ensures session.selectedIndices == [choice] && session.isSubmitted && session.keptProblems == []
  {
    session := new Session(OneProblemSet);
    session.ToggleOption(choice);
    session.Submit();
  }

  /** A wrong answer on the only problem opens the keep/discard card. */
  method Missed() returns (session: Session)
    ensures fresh(session) && session.Valid() && !session.finished && session.HasCurrent()
    ensures session.showSwipe && session.currentIdx == 0 && |session.problems| == 1
    ensures session.problems == [OneProblem] && session.keptProblems == [] && session.title == "Set"
  {
    session := Answered(1);
    assert multiset(OneProblem.correctIndices)[0] != multiset(session.selectedIndices)[0];
    assert Scoring.JsSort([0]) == [0];
    assert Scoring.WithSortedKey(OneProblem) == OneProblem;
    var finish := session.HandleNext();
  }

  /** The finished session handed to a loaded library. */
  method FinishInto(kept: seq<Problem>, title: string) returns (before: seq<ProblemSet>, after: seq<ProblemSet>)
    ensures before == [OneProblemSet]
    ensures kept == [] ==> after == before
    ensures kept != [] ==> |after| == 2 && after[1..] == before && after[0].problems == kept && after[0].id == "r1"
  {
    var store := LoadedStore();
    before := store.sets;
    store.HandleStartSet(OneProblemSet);
    store.HandleFinishQuiz(kept, title, "r1", 2, "1/1/2026");
    after := store.sets;
  }

  /** The missed problem is discarded: the session ends and the library
      gains no review set. */
  method MissedAndDiscarded() returns (triaged: bool, before: seq<ProblemSet>, after: seq<ProblemSet>)
    ensures triaged
    ensures after == before
  {
    var session := Missed();
    triaged := session.showSwipe;
    var finish := session.HandleSwipe(false);
    before, after := FinishInto(finish.value.kept, finish.value.title);
  }

  /** The right answer on the only problem ends the session at once, and the
      library gains no review set. */
  method AnsweredCorrectly() returns (finished: bool, before: seq<ProblemSet>, after: seq<ProblemSet>)
    ensures finished
    ensures after == before
  {
    var session := Answered(0);
    var finish := session.HandleNext();
    finished := finish.Some?;
    before, after := FinishInto(finish.value.kept, finish.value.title);
  }

  /** Keeping the missed problem on the last card, as written: the kept
      problem does not reach the list handed over, and no review set is made. */
  method LostLastKeep() returns (kept: seq<Problem>, before: seq<ProblemSet>, after: seq<ProblemSet>)
    ensures kept == [OneProblem]
    ensures after == before
  {
    var session := Missed();
    var finish := session.HandleSwipe(true);
    kept := session.keptProblems;
    before, after := FinishInto(finish.value.kept, finish.value.title);
  }

  /** The same run with the corrected handler: one review set holding the
      kept problem goes in front of the library. */
  method KeptLastReachesLibrary() returns (before: seq<ProblemSet>, after: seq<ProblemSet>)
    ensures |after| == |before| + 1 && after[1..] == before
    ensures after[0].problems == [OneProblem] && after[0].id == "r1"
  {
    var session := Missed();
    var finish := session.HandleSwipeKeepingLast(true);
    before, after := FinishInto(finish.value.kept, finish.value.title);
  }

  /** Generating with no knowledge text and no images is refused before any
      request, and the draft stays as it is. */
  method GenerateWithoutInput(response: Result<seq<Candidate>, string>) returns (outcome: GenerationOutcome, before: seq<DraftProblem>, after: seq<DraftProblem>)
    ensures outcome == Rejected
    ensures after == before
  {
    var form := new Form(None, "p1");
    before := form.problems;
    outcome := form.GenerateAIQuiz(response, (i: nat) => "g", (i: nat, j: nat) => "c");
    after := form.problems;
  }

  /** A code the decoder rejects imports nothing. */
  method ImportInvalidCode(decode: string -> Option<ProblemSet>) returns (imported: bool, before: seq<ProblemSet>, after: seq<ProblemSet>)
    requires decode("not-base64!!").None?
    ensures !imported
    ensures after == before
  {
    var store := LoadedStore();
    before := store.sets;
    store.EditImportCode("not-base64!!");
    assert Trim("not-base64!!") == "not-base64!!" by {
      assert !IsJsWhitespace('n') && !IsJsWhitespace('!');
    }
    imported := store.HandleImport(decode, "i1", 3);
    after := store.sets;
  }

  /** The fresh form cannot be saved without a title. */
  method SaveUntitledForm() returns (saved: Option<ProblemSet>)
    ensures saved == None
  {
    var form := new Form(None, "p1");
    saved := form.HandleSubmit("s9", (i: nat) => "g", 5);
  }

  /** Once titled, the fresh form's blank problem is saved with the
      placeholder question and choice texts. */
  method SaveTitledForm() returns (saved: Option<ProblemSet>)
    ensures saved.Some? && saved.value.title == "Set" && saved.value.id == "s9"
    ensures |saved.value.problems| == 1
    ensures saved.value.problems[0].question == UntitledQuestion
    ensures saved.value.problems[0].choices == [Choice("1", UntitledChoice), Choice("2", UntitledChoice)]
    ensures saved.value.problems[0].correctIndices == [0]
  {
    var form := new Form(None, "p1");
    form.title := "Set";
    assert !IsBlank("Set") by {
      assert "Set"[0] == 'S' && !IsJsWhitespace('S');
    }
    saved := form.HandleSubmit("s9", (i: nat) => "g", 5);
    NormaliseBlank("p1", "g");
  }
}
