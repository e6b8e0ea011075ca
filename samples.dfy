/**
 * The records the triple generator reads and writes: evaluation samples,
 * the categorizer's outcome tags, and the preference triples with their
 * provenance metadata.
 */
module Samples {

  datatype Option<T> = None | Some(value: T) {
    predicate IsFailure() { None? }

    function PropagateFailure<U>(): Option<U>
      requires None?
    {
      None
    }

    function Extract(): T
      requires Some?
    {
      value
    }
  }

  /** The four outcome tags produced by the evaluation loader's categorizer. */
  datatype Category = TP | TN | FP | FN

  /** TP and TN samples are the correct (chosen) side; FP and FN the incorrect (rejected) side. */
  predicate IsCorrect(c: Category)
  {
    c == TP || c == TN
  }

  /** One evaluation sample, as the evaluation loader produces it. */
  datatype Sample = Sample(
    sampleId: string,
    prompt: string,
    reasoning: string,
    answer: string,
    evaluatorModel: string,
    generatorModel: string,
    dataset: string,
    experiment: string)

  /**
   * The categorizer of the evaluation loader. Its decision rule is not part
   * of this model, so every operation takes it as a parameter: a pure,
   * total function from samples to categories.
   */
  type Categorizer = Sample -> Category

  /**
   * The metadata mapping of a triple, with its fixed key set. The
   * `prompt_mismatch` key exists only for triples built in cross mode,
   * hence the Option.
   */
  datatype Metadata = Metadata(
    chosenSampleId: string,
    rejectedSampleId: string,
    chosenCategory: Category,
    rejectedCategory: Category,
    evaluatorModel: string,
    chosenGenerator: string,
    rejectedGenerator: string,
    dataset: string,
    experiment: string,
    promptMismatch: Option<bool>)

  /** A preference triple (`DPOTriple`). */
  datatype Triple = Triple(prompt: string, chosen: string, rejected: string, metadata: Metadata)
}
