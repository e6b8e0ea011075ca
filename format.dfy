/** The response formatter: how one sample is rendered as chosen or rejected text. */
module Format {
  import opened Samples

  /** The separator placed between the reasoning and the answer. */
  const AnswerLabel: string := "\n\nAnswer: "

  /** The reasoning is shown only when it is asked for and is not empty. */
  predicate ShowsReasoning(s: Sample, includeReasoning: bool)
  {
    includeReasoning && s.reasoning != []
  }

  /**
   * `format_response`: the answer always ends the text; when the reasoning is
   * shown it opens the text and is followed by the label, otherwise the text
   * is the answer itself.
   */
  function FormatResponse(s: Sample, includeReasoning: bool): (r: string)
    ensures |r| >= |s.answer| && r[|r| - |s.answer|..] == s.answer
    ensures ShowsReasoning(s, includeReasoning) ==>
      && |r| == |s.reasoning| + |AnswerLabel| + |s.answer|
      && r[..|s.reasoning|] == s.reasoning
      && r[|s.reasoning|..|s.reasoning| + |AnswerLabel|] == AnswerLabel
    ensures !ShowsReasoning(s, includeReasoning) ==> r == s.answer
  {
    if includeReasoning && s.reasoning != [] then
      s.reasoning + AnswerLabel + s.answer
    else
      s.answer
  }

  /**
   * Asking for the reasoning changes the text exactly when the sample has
   * reasoning to show.
   */
  lemma ReasoningChangesResponse(s: Sample)
    ensures FormatResponse(s, true) != FormatResponse(s, false) <==> s.reasoning != []
  {
    if s.reasoning != [] {
      assert |FormatResponse(s, true)| > |FormatResponse(s, false)|;
    }
  }

  /** The two worked examples: empty reasoning gives the bare answer. */
  lemma FormatExamples()
    ensures FormatResponse(Sample("id", "P", "", "42", "e", "g", "d", "x"), true) == "42"
    ensures FormatResponse(Sample("id", "P", "R", "42", "e", "g", "d", "x"), true) == "R\n\nAnswer: 42"
    ensures FormatResponse(Sample("id", "P", "R", "42", "e", "g", "d", "x"), false) == "42"
  {
  }
}
