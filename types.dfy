/** The records the whole application is written over (types.ts). */
module Types {

  /** One answer option: an identifier and its text. */
  datatype Choice = Choice(id: string, text: string)

  /** The two exam categories, `'compulsory'` and `'clinical'`. */
  datatype ProblemCategory = Compulsory | Clinical

  /** A question. Nothing in the record ties `correctIndices` to the number
      of choices or to `isMultipleChoice`. */
  datatype Problem = Problem(
    id: string,
    question: string,
    choices: seq<Choice>,
    correctIndices: seq<int>,
    isMultipleChoice: bool,
    explanation: string,
    category: ProblemCategory,
    comments: seq<string>)

  /** A named, ordered list of problems; `createdAt` is a millisecond timestamp. */
  datatype ProblemSet = ProblemSet(id: string, title: string, createdAt: int, problems: seq<Problem>)

  /** The two tabs of the shell. */
  datatype TabType = Library | Create

  /** The texts of a list of choices, in order. */
  function ChoiceTexts(cs: seq<Choice>): (texts: seq<string>)
    ensures |texts| == |cs|
    ensures forall i :: 0 <= i < |cs| ==> texts[i] == cs[i].text
  {
    seq(|cs|, i requires 0 <= i < |cs| => cs[i].text)
  }
}
