# QuestionApp, modelled in Dafny

QuestionApp is a React quiz app for medical exam practice. A user keeps a
library of problem sets. A set can be authored by hand or with a generator,
shared as a text code and imported, and played as a quiz session. In a session,
every missed problem can be kept for review. When the session ends, the kept
problems become a new review set at the front of the library.

This project models the app's logic as Dafny: the data model, the quiz
session engine, the authoring form and the library store. It proves what those
parts promise. Rendering, the swipe gesture, storage, the share codec and the
generator call are left out; see "## Left out".

Modules, one per concern:

- `Types` (types.ts): `Choice`, `ProblemCategory` (exactly `Compulsory` and
  `Clinical`), `Problem` (all eight fields; `correctIndices` is a plain list
  that nothing ties to the choices or to `isMultipleChoice`), `ProblemSet` and
  `TabType` (exactly `Library` and `Create`).
- `QuizRunner`: the class `Session`, holding the session's state fields. Each
  handler is a method, and the class invariant `Valid` holds across them:
  - the index stays inside the set;
  - the selection has no duplicates, and a submitted selection is not empty;
  - the comment index stays below the comment count;
  - the kept list is a subsequence of the problems already passed.
- `Scoring`: what `isCorrect` computes.
  - JavaScript's default `sort()` orders numbers by their decimal strings, and
    is modelled that way.
  - Any sorted permutation is that sort's result (`SortedUnique`).
  - The score is therefore exactly multiset equality of key and selection.
- `CreateForm`: the class `Form`, holding the form's state fields. Each
  handler is a method; the image upload is a loop.
- `Draft`: the pure parts of the form.
  - partial problems and the spread update;
  - the total save-time normalisation, with its placeholders;
  - the mapping and merging of generated candidates;
  - the data-URL split (section 3 of RFC 2397);
  - the three-image cap.
- `Library` and `App`: the library's list operations, and the class `Store`
  with the shell's handlers. Id uniqueness is preserved whenever the supplied
  fresh ids are new.
- `JsText`, `SeqUtil` and `Wrappers`: the JavaScript string behaviour the
  source relies on, sequence helpers, and `Option`/`Result`.
  - JsText covers `trim` with its whitespace set, `split`, `String(n)` for
    integers, and string order. The order compares code points, which
    equals JavaScript's code-unit order on the ASCII digit strings it is
    applied to.
  - SeqUtil covers `filter`, the toggle idiom and removal by index.
- `Scenarios`: whole runs over concrete data, including the one that exhibits
  the finding below.

Ids from `crypto.randomUUID`, `Date.now` and `toLocaleDateString` are
parameters of the operations that use them. The share-code decoder, the
storage parser and the generator's response are parameters too.

Where the code and the design description disagree, the model follows the
code:

- The kept problem is the session's copy, whose answer key has already been
  sorted in place. It is not the original.
- An edit-save replaces every set with the saved id.
- A decoded share code is accepted without any shape check.
- The generator's candidates are trusted without validation.
- A merge after generation can leave the draft with no problems.
- The design promises that incomplete problems are completed on save. But the title input, each question and each choice text are `required` fields (components/CreateForm.tsx:300, 317, 330). The form has no `noValidate` (line 185), and the save button is a submit button (line 372). So the browser blocks the save while any of them is empty. The placeholder question and choice texts of the handler are never reached through the form.
- The last kept problem is lost (see "## Findings").

## Model

| member | source | states |
|---|---|---|
| QuizRunner.Session.constructor | components/QuizRunner.tsx:14-21 | a session starts on the first problem with an empty selection, nothing submitted, nothing kept, no triage card and comment 0, and satisfies the session invariant |
| QuizRunner.Session.IsCorrect | components/QuizRunner.tsx:25-30 | the result is true exactly when there is a current problem whose answer key holds the same indices as the selection, counted with multiplicity; the only state change is the current key sorted in place; the invariant is kept |
| QuizRunner.Session.ToggleOption | components/QuizRunner.tsx:47-59 | after a submit the selection is frozen; a single-choice toggle makes the selection exactly `[idx]`; a multiple-choice toggle removes `idx` if present and appends it otherwise; the selection never gets a duplicate |
| QuizRunner.Session.Submit | components/QuizRunner.tsx:61-64 | submitted afterwards exactly when it was before or the selection is non-empty; an empty selection changes nothing and a second submit changes nothing |
| QuizRunner.Session.HandleNext | components/QuizRunner.tsx:66-72 | an incorrect answer only opens the triage card; index, selection, submitted flag and kept list stay; a correct one advances or finishes exactly as moveToNext does, and the finish leaves index, selection, submitted flag, triage card and comment index as they were |
| QuizRunner.Session.MoveToNext | components/QuizRunner.tsx:74-84 | on a non-last problem the index goes up by exactly one and selection, submitted flag, triage card and comment index reset, with the kept list unchanged; on the last problem nothing advances and the finish carries the kept list and the set's title |
| QuizRunner.Session.HandleSwipe | components/QuizRunner.tsx:86-91 | keep appends the current problem to the end of the kept list and discard leaves it; the step then advances as moveToNext; on the last card the finish carries the kept list as it was before the append, and leaves index, selection, submitted flag, triage card and comment index as they were |
| QuizRunner.Session.HandleSwipeKeepingLast | components/QuizRunner.tsx:86-91 | the same step with the finish, on the last card, carrying the kept list including a problem kept on that card |
| QuizRunner.Session.Tick | components/QuizRunner.tsx:35-45 | a tick while viewing a submitted answer with more than one comment moves the comment index to the next one modulo the comment count; otherwise it stays; the index remains below the comment count |
| Scoring.Correct | components/QuizRunner.tsx:29 | the comparison of the two default-sorted lists; equal sorted lists imply key and selection have the same length |
| Scoring.CorrectIffSameMultiset | components/QuizRunner.tsx:27-29 | the sorted key equals the sorted selection exactly when they hold the same indices the same number of times |
| Scoring.SelectionOrderIrrelevant | components/QuizRunner.tsx:28-29 | two selections with the same elements always score alike |
| Scoring.JsLeqTotalOrder | components/QuizRunner.tsx:27-28 | ordering integers by their decimal strings is total, antisymmetric and transitive |
| Scoring.SortBy | components/QuizRunner.tsx:27-28 | sorting by a comparison keeps the multiset of the input, and its output is sorted when the comparison is total and transitive |
| Scoring.SortedUnique | components/QuizRunner.tsx:27-29 | two sorted lists with the same multiset are equal under a total antisymmetric order |
| Scoring.JsSort | components/QuizRunner.tsx:27-28 | `sort()` returns a permutation of its input sorted by decimal strings |
| Scoring.JsSortUnique | components/QuizRunner.tsx:27-28 | any permutation of the input sorted by decimal strings is that sort's result |
| Scoring.JsSortIdempotent | components/QuizRunner.tsx:27 | sorting a sorted list changes nothing |
| Scoring.WithSortedKey | components/QuizRunner.tsx:27 | sorting the key in place keeps every other field and the key's multiset |
| Scoring.SortingKeyKeepsScore | components/QuizRunner.tsx:27 | the in-place sort changes no score, and sorting again changes nothing |
| Scoring.ChoiceLabel | components/QuizRunner.tsx:95 | the label is the character with code 97 + idx followed by a dot |
| Scoring.ChoiceLabelLetters | components/QuizRunner.tsx:95 | the first 26 labels are the letters a to z, and different choices get different labels |
| JsText.Trim | components/CreateForm.tsx:163 | `trim()` never lengthens the string; the result neither starts nor ends with JavaScript whitespace; a non-blank string never trims to empty |
| JsText.TrimStart | components/CreateForm.tsx:163 | the longest suffix that does not start with JavaScript whitespace; only whitespace is removed |
| JsText.TrimEnd | components/CreateForm.tsx:163 | the longest prefix that does not end with JavaScript whitespace; only whitespace is removed |
| JsText.TrimEmptyIffBlank | components/CreateForm.tsx:163 | a string trims to empty exactly when every character is JavaScript whitespace |
| JsText.Split | components/CreateForm.tsx:73-74 | `split` on one character yields at least one part |
| JsText.SplitJoin | components/CreateForm.tsx:73-74 | joining the parts with the separator gives the string back, and no part contains the separator |
| JsText.SplitAtFirst | components/CreateForm.tsx:73-74 | the first part is the text before the first separator and the rest is the split of what follows |
| JsText.SplitWithoutSeparator | components/CreateForm.tsx:73-74 | a string without the separator splits into itself alone |
| JsText.NumberToString | components/QuizRunner.tsx:27-28 | `String(x)` for an integer is non-empty, starts with `-` exactly when x is negative, and is otherwise decimal digits |
| JsText.Digits | components/QuizRunner.tsx:27-28 | the decimal digits of a natural number are non-empty and all digits, with a single digit exactly below ten |
| JsText.NumberToStringInjective | components/QuizRunner.tsx:27-28 | different integers print as different strings, so the string order separates them |
| JsText.StrLessTotal | components/QuizRunner.tsx:27-28 | any two different strings are ordered one way or the other |
| JsText.StrLessTransitive | components/QuizRunner.tsx:27-28 | the string order is transitive |
| SeqUtil.Filter | components/CreateForm.tsx:112 | `filter` keeps the elements that satisfy the test; it keeps their order, and each keeps its number of occurrences |
| SeqUtil.Toggle | components/QuizRunner.tsx:50-55 | toggling removes every copy of a present element and appends an absent one, keeping the list free of duplicates |
| SeqUtil.RemoveAt | components/CreateForm.tsx:139 | removing by index drops exactly that element and shifts the rest; an index outside the list removes nothing |
| Draft.FromProblems | components/CreateForm.tsx:17 | the draft of a set has one complete draft per problem, in order |
| Draft.BlankDraft | components/CreateForm.tsx:18 | the blank problem has two empty choices `1` and `2`, the key `[0]`, single-choice, compulsory, an empty question and explanation, and no comments |
| Draft.Apply | components/CreateForm.tsx:145 | each field the update gives wins; every other field keeps its value; the empty update changes nothing |
| Draft.ApplyIdempotent | components/CreateForm.tsx:145 | applying one update twice is applying it once |
| Draft.StringOr | components/CreateForm.tsx:166-167 | an absent or empty string becomes the default; any other is kept |
| Draft.NormaliseChoices | components/CreateForm.tsx:168 | every choice keeps its id; an empty text becomes the placeholder and any other text is kept |
| Draft.KeptComments | components/CreateForm.tsx:173 | exactly the non-blank comments survive, in order and with their multiplicity |
| Draft.Normalise | components/CreateForm.tsx:165-174 | the conversion is total; a missing or empty id gets the fresh one; the question is never empty; a missing key becomes `[0]`; a missing category becomes compulsory; blank comments go |
| Draft.NormaliseBlank | components/CreateForm.tsx:165-174 | the save-time conversion of the handler turns an untouched blank problem into one with the placeholder question and choice texts and the key `[0]` (the form's `required` fields stop the browser from calling the handler in that state) |
| Draft.NormaliseFixedIffComplete | components/CreateForm.tsx:165-174 | saving gives a problem back unchanged exactly when it has an id and a question, no empty choice text and no blank comment |
| Draft.CompleteIsFixed | components/CreateForm.tsx:165-174 | saving a complete problem gives it back |
| Draft.IncompleteChanges | components/CreateForm.tsx:165-174 | saving an incomplete problem always changes it |
| Draft.CompleteCommentsKept | components/CreateForm.tsx:173 | a list without blank comments survives the filter unchanged |
| Draft.SaveSet | components/CreateForm.tsx:161-182 | nothing is saved exactly when the title is blank after trimming; otherwise the set has the untrimmed title; it reuses the edited set's id and creation time when those are truthy and takes the fresh ones otherwise; every draft is normalised in order |
| Draft.SaveUnchangedSet | components/CreateForm.tsx:161-182 | an edited set with a title, an id, a creation time and complete problems is saved back unchanged |
| Draft.FreshChoices | components/CreateForm.tsx:104 | each candidate choice text becomes a choice with its own fresh id, in order |
| Draft.ToProblem | components/CreateForm.tsx:101-110 | a candidate becomes a multiple-choice problem exactly when more than one index is correct; it takes the override category unless the override is auto; it starts with no comments; question, choice texts, key and explanation are kept |
| Draft.MapCandidates | components/CreateForm.tsx:101-110 | every candidate is mapped, in order, with its own fresh ids |
| Draft.MergeGenerated | components/CreateForm.tsx:112 | the merged draft is the drafts whose question is not exactly empty, in order, followed by all generated problems |
| Draft.MergeEmptyIff | components/CreateForm.tsx:112 | a merge empties the draft exactly when nothing was generated and every draft question is empty |
| Draft.DataUrlPayload | components/CreateForm.tsx:73 | the payload exists exactly when the URL has a comma |
| Draft.DataUrlMimeType | components/CreateForm.tsx:74 | the media type exists exactly when a colon comes before the first semicolon |
| Draft.SplitCount | components/CreateForm.tsx:73-74 | `split` yields more than one part exactly when the separator occurs |
| Draft.DataUrlParts | components/CreateForm.tsx:73-74 | for `data:<mime>;base64,<payload>` the splitter returns exactly the media type and the payload |
| Draft.SliceEnd | components/CreateForm.tsx:41 | `slice(0, n)` keeps n elements when 0 <= n <= length, and never more than the length |
| Draft.AfterUpload | components/CreateForm.tsx:41-47 | an upload keeps the held images first and never lets the list exceed three |
| CreateForm.Form.constructor | components/CreateForm.tsx:16-27 | the form starts from the edited set's title and problems, or from an empty title and one blank problem, with no knowledge text, no images and the auto category |
| CreateForm.Form.AddProblem | components/CreateForm.tsx:124-135 | exactly one blank problem is appended |
| CreateForm.Form.RemoveProblem | components/CreateForm.tsx:137-141 | a single problem is never removed; otherwise exactly the problem at the index goes and the rest keep their order |
| CreateForm.Form.UpdateProblem | components/CreateForm.tsx:143-147 | only the problem at the index changes, only in the fields given, and the length stays |
| CreateForm.Form.ToggleCorrect | components/CreateForm.tsx:149-159 | a single-choice key becomes exactly `[c]`; a multiple-choice key loses c if present and gains it at the end otherwise; no other problem changes |
| CreateForm.Form.AddChoice | components/CreateForm.tsx:333-336 | one empty choice with the fresh id is appended to that problem only |
| CreateForm.Form.EditChoiceText | components/CreateForm.tsx:326-330 | only that choice's text changes |
| CreateForm.Form.AddComment | components/CreateForm.tsx:360 | one empty comment is appended to that problem only |
| CreateForm.Form.EditComment | components/CreateForm.tsx:352-356 | only that comment changes |
| CreateForm.Form.RemoveComment | components/CreateForm.tsx:357 | exactly that comment is removed from that problem only |
| CreateForm.Form.UploadImages | components/CreateForm.tsx:37-48 | the first `3 - n` files are appended in order, so at most three images are held |
| CreateForm.Form.RemoveImage | components/CreateForm.tsx:273 | exactly the image at the index goes |
| CreateForm.Form.GenerateAIQuiz | components/CreateForm.tsx:50-122 | it is rejected exactly when the knowledge text is blank and there are no images; rejection and failure leave draft, knowledge and images unchanged; success merges the mapped candidates and clears knowledge and images |
| CreateForm.Form.AcceptGenerated | components/CreateForm.tsx:112-114 | the success branch merges the generated problems and clears the inputs |
| CreateForm.Form.HandleSubmit | components/CreateForm.tsx:161-182 | the set handed over is the save-time conversion of the form, and none exactly when the title is blank |
| Library.PrependUnique | App.tsx:41 | putting a set in front keeps ids unique exactly when its id is new |
| Library.ReplaceById | App.tsx:39 | every set with the saved id is replaced and the others stay; length, order and ids are kept; an absent id changes nothing |
| Library.ReplaceKeepsUnique | App.tsx:39 | replacing keeps the ids unique |
| Library.RemoveById | App.tsx:71 | exactly the sets with the id go, and the rest keep their order and multiplicity |
| Library.SubsequenceUnique | App.tsx:71 | a subsequence of a library with unique ids has unique ids |
| Library.RemoveKeepsUnique | App.tsx:71 | removing keeps the ids unique |
| Library.RemoveAbsent | App.tsx:71 | removing an absent id changes nothing |
| Library.FindById | App.tsx:142 | the lookup finds a set exactly when the id is present, and it is the first set with that id |
| Library.ImportedSet | App.tsx:53-58 | an imported set has the fresh id, the fresh time, the decoded problems and the decoded title followed by ` (導入)` |
| Library.ReviewSet | App.tsx:92-97 | a review set has the fresh id, the fresh time, exactly the kept problems and the title `復習: <title> (<date>)` |
| App.Store.Load | App.tsx:13-31 | a stored text that parses becomes the library; a missing, empty or unparsable one leaves it empty; the shell starts on the library tab with nothing open |
| App.Store.HandleSaveSet | App.tsx:37-45 | while editing, every set with the saved id is replaced; otherwise the set is put in front; afterwards the tab is the library and nothing is being edited; unique ids stay unique |
| App.Store.HandleImport | App.tsx:47-67 | a blank code does nothing; a code that does not decode changes nothing; a decoded set goes in front as an imported set and the dialog closes and clears; a fresh id keeps ids unique |
| App.Store.RequestDelete | App.tsx:141-144 | the delete prompt is armed with the first set with the id, and only when one exists |
| App.Store.ConfirmDelete | App.tsx:69-74 | every set with the prompted id goes, the rest keep their order, and the prompt closes; without a prompt nothing changes |
| App.Store.CancelDelete | App.tsx:184 | the prompt closes |
| App.Store.HandleFinishQuiz | App.tsx:90-101 | a non-empty kept list puts exactly one review set in front; an empty one leaves the library; the session closes either way |
| App.Store.HandleStartSet | App.tsx:76-78 | the set's session opens |
| App.Store.CloseSession | App.tsx:107 | the session closes without touching the library |
| App.Store.HandleEditSet | App.tsx:80-83 | the form tab opens on the set |
| App.Store.HandleCancelEdit | App.tsx:85-88 | nothing is being edited and the library tab shows |
| App.Store.SwitchTab | App.tsx:115-118 | the tab switches; going to the library drops the edited set |
| App.Store.SetImportModal | App.tsx:129 | the import dialog opens or closes |
| App.Store.EditImportCode | App.tsx:214 | the code text becomes what was typed |
| Scenarios.MissedAndDiscarded | components/QuizRunner.tsx:66-91 | one problem, wrong answer and discard: the triage card shows and the library is unchanged |
| Scenarios.AnsweredCorrectly | components/QuizRunner.tsx:66-84 | one problem answered right: the session finishes at once and the library is unchanged |
| Scenarios.LostLastKeep | components/QuizRunner.tsx:82-91 | one problem, wrong answer and keep: the kept list holds the problem, yet the library is unchanged |
| Scenarios.KeptLastReachesLibrary | components/QuizRunner.tsx:86-91 | the same run with the corrected step adds one review set holding the problem |
| Scenarios.GenerateWithoutInput | components/CreateForm.tsx:51 | generating from a fresh form with no text and no images is refused and the draft stays |
| Scenarios.ImportInvalidCode | App.tsx:47-66 | a code the decoder rejects imports nothing and the library stays |
| Scenarios.SaveUntitledForm | components/CreateForm.tsx:163 | a fresh form without a title saves nothing |
| Scenarios.SaveTitledForm | components/CreateForm.tsx:161-182 | `handleSubmit`, called on a fresh titled form, returns a set whose one problem has the placeholder question and choice texts and the key `[0]` (in the browser the `required` fields block this submit) |

## Left out

- Rendering, styling, the header, the choice colouring and the swipe gesture. The gesture's only decision reaches the engine as the boolean `keep`.
- Storage writes and the read itself. The model keeps only the outcome: the stored text is parsed, and a failure gives an empty library. The parser is a parameter.
- The share codec: `JSON.stringify`, base64 and UTF-8. The decoder is a parameter from the trimmed code to an optional set. Because the code does no shape check, any value the decoder yields is accepted.
- The generator call, its prompt and its schema, the mode, the problem count and the difficulty, which only feed the prompt. The alert texts are left out too. The response is a parameter: a list of candidates, or a failure.
- The `isGenerating` flag and the asynchronous interleavings: file reads finishing out of order, and a second generation while one is running. Uploads are read in order.
- The `setInterval` scheduling and its cleanup, and the hover and touch detection. Only the tick step is modelled, and `viewing` stands for hover-or-touch.
- The browser's validation of the `required` title, question and choice fields (components/CreateForm.tsx:300, 317, 330). It cancels the submit before `handleSubmit` runs. The model calls the handler directly, so `HandleSubmit` and `SaveSet` also describe submits the browser would block.
- The text-field setters for the title, the question, the explanation and the category buttons, and the category-override buttons. Each only assigns one value, and `UpdateProblem` covers the per-problem ones.
- `useEffect` re-synchronisation of the form with a changed initial set.
- Aliasing. The choice-text edit writes through a `Choice` object shared with the library's set; the model updates the value. Likewise, the in-place sort of a key at 25-30 reaches the library's own set object; the model sorts the session's copy. Also, the memoised `isCorrect` sorts during render, while the model sorts when the answer is checked. The result is the same, because the sort is idempotent.
- An index outside the draft in `updateProblem`, which the UI never passes and JavaScript would answer by growing the array.
- The unchecked cast of the generator's category string. Candidates carry a `ProblemCategory`.
- Scoring.JsSort: `String(n)` is modelled for integers as plain decimal digits. Floats, `NaN`, and magnitudes of 10^21 and above, which print in exponent notation, are not modelled.
- Scoring.ChoiceLabel: requires the code 97 + idx to stay below 0xD800. The model covers neither the wrap-around of `fromCharCode` nor surrogate codes.
- Timestamps and ids are unbounded integers and strings. The number type's float precision is not modelled.

## Findings

| source | as written | input that shows it | evidently intended | confidence | as-written member | corrected member |
|---|---|---|---|---|---|---|
| components/QuizRunner.tsx:86-91 | keeping a problem queues the append, then calls `moveToNext`, which on the last problem hands `onFinish` the kept list captured before the append (line 82) | a set with one problem, answered wrongly and kept (Scenarios.LostLastKeep): the kept list holds the problem but no review set is created | a problem kept on the last card is part of the list handed to `onFinish`, so the review set holds it (Scenarios.KeptLastReachesLibrary) | high; not executed | QuizRunner.Session.HandleSwipe | QuizRunner.Session.HandleSwipeKeepingLast |
