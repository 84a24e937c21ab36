/** The value-level logic of the authoring form (components/CreateForm.tsx):
    partial problems, their save-time normalisation, the mapping of
    generated candidates, the data-URL split and the image cap. */
module Draft {

  import opened Wrappers
  import opened Types
  import opened SeqUtil
  import opened JsText

  const UntitledQuestion: string := "無題の問題"
  const UntitledChoice: string := "無題の選択肢"
  /** The most images the generator may be given. */
  const MaxImages: nat := 3

  /** `Partial<Problem>`: every field may be absent. */
  datatype DraftProblem = DraftProblem(
    id: Option<string>,
    question: Option<string>,
    choices: Option<seq<Choice>>,
    correctIndices: Option<seq<int>>,
    isMultipleChoice: Option<bool>,
    explanation: Option<string>,
    category: Option<ProblemCategory>,
    comments: Option<seq<string>>)

  /** The update that gives no field. */
  const NoUpdates: DraftProblem := DraftProblem(None, None, None, None, None, None, None, None)

  /** A complete problem seen as a draft. */
  function FromProblem(p: Problem): (d: DraftProblem)
    ensures d.id == Some(p.id) && d.question == Some(p.question) && d.choices == Some(p.choices)
    ensures d.correctIndices == Some(p.correctIndices) && d.isMultipleChoice == Some(p.isMultipleChoice)
    ensures d.explanation == Some(p.explanation) && d.category == Some(p.category)
    ensures d.comments == Some(p.comments)
  {
    DraftProblem(Some(p.id), Some(p.question), Some(p.choices), Some(p.correctIndices),
                 Some(p.isMultipleChoice), Some(p.explanation), Some(p.category), Some(p.comments))
  }

  /** The problems of a set, as drafts. */
  function FromProblems(ps: seq<Problem>): (ds: seq<DraftProblem>)
    ensures |ds| == |ps|
    ensures forall i :: 0 <= i < |ps| ==> ds[i] == FromProblem(ps[i])
  {
    seq(|ps|, i requires 0 <= i < |ps| => FromProblem(ps[i]))
  }

  /** The blank problem the form starts with and `addProblem` appends: two
      empty choices `'1'` and `'2'`, the first one correct, single-choice,
      compulsory and without comments. */
  function BlankDraft(id: string): (d: DraftProblem)
    ensures d.id == Some(id) && d.question == Some("") && d.explanation == Some("")
    ensures d.choices == Some([Choice("1", ""), Choice("2", "")])
    ensures d.correctIndices == Some([0]) && d.isMultipleChoice == Some(false)
    ensures d.category == Some(Compulsory) && d.comments == Some([])
  {
    DraftProblem(Some(id), Some(""), Some([Choice("1", ""), Choice("2", "")]), Some([0]),
                 Some(false), Some(""), Some(Compulsory), Some([]))
  }

  /** The spread `{ ...d, ...updates }`: each field the update gives wins,
      every other field keeps its value. */
  function Apply(d: DraftProblem, updates: DraftProblem): (r: DraftProblem)
    ensures updates.id.Some? ==> r.id == updates.id
    ensures updates.id.None? ==> r.id == d.id
    ensures updates.question.Some? ==> r.question == updates.question
    ensures updates.question.None? ==> r.question == d.question
    ensures updates.choices.Some? ==> r.choices == updates.choices
    ensures updates.choices.None? ==> r.choices == d.choices
    ensures updates.correctIndices.Some? ==> r.correctIndices == updates.correctIndices
    ensures updates.correctIndices.None? ==> r.correctIndices == d.correctIndices
    ensures updates.isMultipleChoice.Some? ==> r.isMultipleChoice == updates.isMultipleChoice
    ensures updates.isMultipleChoice.None? ==> r.isMultipleChoice == d.isMultipleChoice
    ensures updates.explanation.Some? ==> r.explanation == updates.explanation
    ensures updates.explanation.None? ==> r.explanation == d.explanation
    ensures updates.category.Some? ==> r.category == updates.category
    ensures updates.category.None? ==> r.category == d.category
    ensures updates.comments.Some? ==> r.comments == updates.comments
    ensures updates.comments.None? ==> r.comments == d.comments
    ensures updates == NoUpdates ==> r == d
  {
    DraftProblem(
      if updates.id.Some? then updates.id else d.id,
      if updates.question.Some? then updates.question else d.question,
      if updates.choices.Some? then updates.choices else d.choices,
      if updates.correctIndices.Some? then updates.correctIndices else d.correctIndices,
      if updates.isMultipleChoice.Some? then updates.isMultipleChoice else d.isMultipleChoice,
      if updates.explanation.Some? then updates.explanation else d.explanation,
      if updates.category.Some? then updates.category else d.category,
      if updates.comments.Some? then updates.comments else d.comments)
  }

  /** Applying the same update twice is applying it once. */
  lemma ApplyIdempotent(d: DraftProblem, updates: DraftProblem)
    ensures Apply(Apply(d, updates), updates) == Apply(d, updates)
  {
  }

  // ---------------------------------------------------------------------
  // Save-time normalisation

  /** `s || dflt` for an optional string: absent and `''` are both falsy. */
  function StringOr(s: Option<string>, dflt: string): (r: string)
    ensures s.Some? && s.value != "" ==> r == s.value
    ensures s.None? || s.value == "" ==> r == dflt
  {
    if s.Some? && s.value != "" then s.value else dflt
  }

  /** A comment survives saving when it is not blank after trimming. */
  predicate KeepComment(c: string) {
    Trim(c) != ""
  }

  /** Every choice with an empty text gets the placeholder text. */
  function NormaliseChoices(cs: seq<Choice>): (r: seq<Choice>)
    ensures |r| == |cs|
    ensures forall i :: 0 <= i < |cs| ==> r[i].id == cs[i].id && r[i].text != ""
    ensures forall i :: 0 <= i < |cs| ==> cs[i].text != "" ==> r[i].text == cs[i].text
    ensures forall i :: 0 <= i < |cs| ==> cs[i].text == "" ==> r[i].text == UntitledChoice
  {
    seq(|cs|, i requires 0 <= i < |cs| =>
      cs[i].(text := if cs[i].text != "" then cs[i].text else UntitledChoice))
  }

  /** `comments.filter(c => c.trim() !== '')`: the non-blank comments, in
      order, each as often as it was there. */
  function KeptComments(cs: seq<string>): (r: seq<string>)
    ensures forall i :: 0 <= i < |r| ==> !IsBlank(r[i])
    ensures IsSubsequence(r, cs)
    ensures forall c :: !IsBlank(c) ==> multiset(r)[c] == multiset(cs)[c]
    ensures forall c :: IsBlank(c) ==> c !in r
  {
    var r := Filter(cs, KeepComment);
    forall i | 0 <= i < |r|
      ensures !IsBlank(r[i])
    {
      assert r[i] in r;
      TrimEmptyIffBlank(r[i]);
    }
    forall c | !IsBlank(c)
      ensures multiset(r)[c] == multiset(cs)[c]
    {
      TrimEmptyIffBlank(c);
    }
    forall c | IsBlank(c)
      ensures c !in r
    {
      TrimEmptyIffBlank(c);
    }
    r
  }

  /** The per-problem map of `handleSubmit`: a total conversion of a draft
      into a `Problem`. `freshId` is the UUID drawn when the draft has none. */
  function Normalise(d: DraftProblem, freshId: string): (p: Problem)
    ensures p.id == StringOr(d.id, freshId)
    ensures p.question != ""
    ensures d.question.Some? && d.question.value != "" ==> p.question == d.question.value
    ensures d.question.None? || d.question.value == "" ==> p.question == UntitledQuestion
    ensures d.choices.None? ==> p.choices == []
    ensures d.choices.Some? ==> p.choices == NormaliseChoices(d.choices.value)
    ensures p.correctIndices == d.correctIndices.GetOr([0])
    ensures p.isMultipleChoice <==> d.isMultipleChoice == Some(true)
    ensures p.explanation == d.explanation.GetOr("")
    ensures p.category == d.category.GetOr(Compulsory)
    ensures p.comments == KeptComments(d.comments.GetOr([]))
  {
    Problem(
      StringOr(d.id, freshId),
      StringOr(d.question, UntitledQuestion),
      if d.choices.Some? then NormaliseChoices(d.choices.value) else [],
      d.correctIndices.GetOr([0]),
      d.isMultipleChoice.GetOr(false),
      d.explanation.GetOr(""),
      d.category.GetOr(Compulsory),
      KeptComments(d.comments.GetOr([])))
  }

  /** An untouched blank problem is saved with the placeholder question and
      choice texts, the first choice correct and nothing else filled in. */
  lemma NormaliseBlank(id: string, freshId: string)
    requires id != ""
    ensures Normalise(BlankDraft(id), freshId)
            == Problem(id, UntitledQuestion, [Choice("1", UntitledChoice), Choice("2", UntitledChoice)],
                       [0], false, "", Compulsory, [])
  {
    var cs := NormaliseChoices([Choice("1", ""), Choice("2", "")]);
    assert cs == [Choice("1", UntitledChoice), Choice("2", UntitledChoice)];
    assert KeptComments([]) == [];
  }

  /** A problem that saving leaves as it is: it has an id and a question,
      no choice text is empty and no comment is blank. */
  predicate Complete(p: Problem) {
    && p.id != ""
    && p.question != ""
    && (forall i :: 0 <= i < |p.choices| ==> p.choices[i].text != "")
    && (forall i :: 0 <= i < |p.comments| ==> !IsBlank(p.comments[i]))
  }

  /** Normalising the draft of a complete problem gives that problem back;
      for any other problem it gives something else. */
  lemma NormaliseFixedIffComplete(p: Problem, freshId: string)
    requires freshId != ""
    ensures Normalise(FromProblem(p), freshId) == p <==> Complete(p)
  {
    if Complete(p) {
      CompleteIsFixed(p, freshId);
    } else {
      IncompleteChanges(p, freshId);
    }
  }

  /** Normalising the draft of a complete problem gives it back. */
  lemma CompleteIsFixed(p: Problem, freshId: string)
    requires Complete(p)
    ensures Normalise(FromProblem(p), freshId) == p
  {
    CompleteCommentsKept(p.comments);
    assert NormaliseChoices(p.choices) == p.choices;
  }

  /** Normalising the draft of an incomplete problem changes something. */
  lemma IncompleteChanges(p: Problem, freshId: string)
    requires freshId != "" && !Complete(p)
    ensures Normalise(FromProblem(p), freshId) != p
  {
    var q := Normalise(FromProblem(p), freshId);
    if p.id == "" {
      assert q.id != p.id;
    } else if p.question == "" {
      assert q.question != p.question;
    } else if exists i :: 0 <= i < |p.choices| && p.choices[i].text == "" {
      var i :| 0 <= i < |p.choices| && p.choices[i].text == "";
      assert q.choices[i].text != p.choices[i].text;
    } else {
      var i :| 0 <= i < |p.comments| && IsBlank(p.comments[i]);
      assert p.comments[i] in p.comments;
      assert p.comments[i] !in q.comments;
    }
  }

  /** Saving keeps a list of comments none of which is blank. */
  lemma CompleteCommentsKept(cs: seq<string>)
    requires forall i :: 0 <= i < |cs| ==> !IsBlank(cs[i])
    ensures KeptComments(cs) == cs
  {
    forall i | 0 <= i < |cs|
      ensures KeepComment(cs[i])
    {
      TrimEmptyIffBlank(cs[i]);
    }
    FilterKeepsAll(cs, KeepComment);
  }

  /** `handleSubmit`: nothing is saved when the trimmed title is empty.
      Otherwise the set keeps the untrimmed title, reuses the id and the
      creation time of the set being edited when those are truthy, and
      normalises every draft in order. `setId`, `problemIds` and `now` stand
      for the UUIDs and the clock. */
  function SaveSet(title: string, drafts: seq<DraftProblem>, initial: Option<ProblemSet>,
                   setId: string, problemIds: nat -> string, now: int): (r: Option<ProblemSet>)
    ensures r.None? <==> IsBlank(title)
    ensures r.Some? ==> r.value.title == title
    ensures r.Some? ==> r.value.id == (if initial.Some? && initial.value.id != "" then initial.value.id else setId)
    ensures r.Some? ==> r.value.createdAt == (if initial.Some? && initial.value.createdAt != 0 then initial.value.createdAt else now)
    ensures r.Some? ==> |r.value.problems| == |drafts|
    ensures r.Some? ==> forall i :: 0 <= i < |drafts| ==> r.value.problems[i] == Normalise(drafts[i], problemIds(i))
  {
    TrimEmptyIffBlank(title);
    if Trim(title) == "" then None
    else
      Some(ProblemSet(
        if initial.Some? && initial.value.id != "" then initial.value.id else setId,
        title,
        if initial.Some? && initial.value.createdAt != 0 then initial.value.createdAt else now,
        seq(|drafts|, i requires 0 <= i < |drafts| => Normalise(drafts[i], problemIds(i)))))
  }

  /** A set with a title, an id, a creation time and complete problems is
      saved back unchanged when its drafts are not edited. */
  lemma SaveUnchangedSet(s: ProblemSet, setId: string, problemIds: nat -> string, now: int)
    requires !IsBlank(s.title) && s.id != "" && s.createdAt != 0
    requires forall i :: 0 <= i < |s.problems| ==> Complete(s.problems[i])
    requires forall i :: 0 <= i < |s.problems| ==> problemIds(i) != ""
    ensures SaveSet(s.title, FromProblems(s.problems), Some(s), setId, problemIds, now) == Some(s)
  {
    var r := SaveSet(s.title, FromProblems(s.problems), Some(s), setId, problemIds, now);
    forall i | 0 <= i < |s.problems|
      ensures r.value.problems[i] == s.problems[i]
    {
      NormaliseFixedIffComplete(s.problems[i], problemIds(i));
    }
    assert r.value.problems == s.problems;
  }

  // ---------------------------------------------------------------------
  // Generated candidates

  /** One element of the generator's JSON array. */
  datatype Candidate = Candidate(
    question: string,
    choices: seq<string>,
    correctIndices: seq<int>,
    explanation: string,
    category: ProblemCategory)

  /** `aiCategoryOverride`: `'auto'` or one fixed category. */
  datatype CategoryOverride = Auto | Only(category: ProblemCategory)

  /** The choices of a candidate, each with a fresh id. */
  function FreshChoices(texts: seq<string>, choiceIds: nat -> string): (cs: seq<Choice>)
    ensures |cs| == |texts|
    ensures forall j :: 0 <= j < |texts| ==> cs[j] == Choice(choiceIds(j), texts[j])
  {
    seq(|texts|, j requires 0 <= j < |texts| => Choice(choiceIds(j), texts[j]))
  }

  /** The mapping of one candidate: multiple-choice exactly when more than
      one index is correct, the override category unless it is `'auto'`,
      and no comments. */
  function ToProblem(c: Candidate, override: CategoryOverride, id: string, choiceIds: nat -> string): (p: Problem)
    ensures p.id == id && p.question == c.question && p.explanation == c.explanation
    ensures ChoiceTexts(p.choices) == c.choices
    ensures p.correctIndices == c.correctIndices
    ensures p.isMultipleChoice <==> |c.correctIndices| > 1
    ensures override.Only? ==> p.category == override.category
    ensures override.Auto? ==> p.category == c.category
    ensures p.comments == []
  {
    var cs := FreshChoices(c.choices, choiceIds);
    assert ChoiceTexts(cs) == c.choices;
    Problem(id, c.question, cs, c.correctIndices, |c.correctIndices| > 1, c.explanation,
            if override.Only? then override.category else c.category, [])
  }

  /** `dataArray.map(...)`: candidate i gets problem id `problemIds(i)` and
      its choice j the id `choiceIds(i, j)`. */
  function MapCandidates(cs: seq<Candidate>, override: CategoryOverride,
                         problemIds: nat -> string, choiceIds: (nat, nat) -> string): (ps: seq<Problem>)
    ensures |ps| == |cs|
    ensures forall i :: 0 <= i < |cs| ==>
              ps[i] == ToProblem(cs[i], override, problemIds(i), (j: nat) => choiceIds(i, j))
  {
    seq(|cs|, i requires 0 <= i < |cs| => ToProblem(cs[i], override, problemIds(i), (j: nat) => choiceIds(i, j)))
  }

  /** A draft survives a merge unless its question is exactly `''` (an
      absent question is kept). */
  predicate HasQuestion(d: DraftProblem) {
    d.question != Some("")
  }

  /** `[...prev.filter(p => p.question !== ''), ...newProblems]`. */
  function MergeGenerated(drafts: seq<DraftProblem>, generated: seq<Problem>): (r: seq<DraftProblem>)
    ensures |r| >= |generated|
    ensures r[|r| - |generated|..] == FromProblems(generated)
    ensures IsSubsequence(r[..|r| - |generated|], drafts)
    ensures forall d :: d in r[..|r| - |generated|] <==> d in drafts && HasQuestion(d)
    ensures forall d :: HasQuestion(d) ==> multiset(r[..|r| - |generated|])[d] == multiset(drafts)[d]
  {
    var kept := Filter(drafts, HasQuestion);
    var r := kept + FromProblems(generated);
    assert r[..|kept|] == kept;
    assert r[|kept|..] == FromProblems(generated);
    r
  }

  /** A merge empties the draft exactly when nothing was generated and
      every draft problem has the empty question. */
  lemma MergeEmptyIff(drafts: seq<DraftProblem>, generated: seq<Problem>)
    ensures MergeGenerated(drafts, generated) == [] <==>
            generated == [] && forall i :: 0 <= i < |drafts| ==> drafts[i].question == Some("")
  {
    var r := MergeGenerated(drafts, generated);
    if r == [] {
      forall i | 0 <= i < |drafts|
        ensures drafts[i].question == Some("")
      {
        assert drafts[i] in drafts;
        assert r[..|r| - |generated|] == [];
        assert drafts[i] !in r[..|r| - |generated|];
      }
    } else if generated == [] {
      var d := r[0];
      assert d in r[..|r| - |generated|];
      assert d in drafts && HasQuestion(d);
    }
  }

  // ---------------------------------------------------------------------
  // Data URLs (section 3 of RFC 2397) and the image cap

  /** `url.split(',')[1]`: the payload after the first comma. */
  function DataUrlPayload(url: string): (r: Option<string>)
    ensures r.Some? <==> ',' in url
  {
    SplitJoin(url, ',');
    SplitCount(url, ',');
    Part(Split(url, ','), 1)
  }

  /** `url.split(';')[0].split(':')[1]`: the media type between the first
      colon and the first semicolon. */
  function DataUrlMimeType(url: string): (r: Option<string>)
    ensures r.Some? <==> ':' in Split(url, ';')[0]
  {
    SplitCount(Split(url, ';')[0], ':');
    Part(Split(Split(url, ';')[0], ':'), 1)
  }

  /** Splitting yields more than one part exactly when the separator occurs. */
  lemma {:induction false} SplitCount(s: string, sep: char)
    ensures |Split(s, sep)| > 1 <==> sep in s
    decreases |s|
  {
    if s != [] {
      SplitCount(s[1..], sep);
      assert s == [s[0]] + s[1..];
    }
  }

  /** For `data:<mime>;base64,<payload>` with a media type free of the
      three separators and a payload without a comma (the base64 alphabet
      has none), the splitter returns the media type and the payload. */
  lemma DataUrlParts(mime: string, payload: string)
    requires ',' !in mime && ';' !in mime && ':' !in mime && ',' !in payload
    ensures DataUrlMimeType("data:" + mime + ";base64," + payload) == Some(mime)
    ensures DataUrlPayload("data:" + mime + ";base64," + payload) == Some(payload)
  {
    var url := "data:" + mime + ";base64," + payload;
    var head := "data:" + mime + ";base64";
    assert url == head + [','] + payload;
    assert ',' !in head;
    SplitAtFirst(head, payload, ',');
    SplitWithoutSeparator(payload, ',');
    assert Split(url, ',') == [head, payload];

    var front := "data:" + mime;
    assert url == front + [';'] + ("base64," + payload);
    assert ';' !in front;
    SplitAtFirst(front, "base64," + payload, ';');
    assert Split(url, ';')[0] == front;
    assert front == "data" + [':'] + mime;
    SplitAtFirst("data", mime, ':');
    SplitWithoutSeparator(mime, ':');
    assert Split(front, ':') == ["data", mime];
  }

  /** `files.slice(0, n)` for a sequence of `len` elements. */
  function SliceEnd(len: nat, n: int): (k: nat)
    ensures k <= len
    ensures 0 <= n <= len ==> k == n
  {
    if n < 0 then (if len + n < 0 then 0 else len + n)
    else if n < len then n else len
  }

  /** The images after an upload of `files` into `held`: the first
      `3 - |held|` files are appended in order, so the list never exceeds
      three entries. */
  function AfterUpload(held: seq<string>, files: seq<string>): (r: seq<string>)
    ensures |held| <= MaxImages ==> |r| <= MaxImages
    ensures |r| >= |held| && r[..|held|] == held
    ensures |held| <= MaxImages ==> |r| == |held| + (if |files| < MaxImages - |held| then |files| else MaxImages - |held|)
  {
    held + files[..SliceEnd(|files|, MaxImages - |held|)]
  }
}
