/**
 * First step of `create_dpo_triples`: every sample goes to the correct list
 * (category TP or TN) or to the incorrect list (FP or FN), in input order.
 */
module Partition {
  import opened Samples
  import opened Seqs

  /** The test the categorization loop applies to one sample. */
  function Correctness(categorize: Categorizer, correct: bool): Sample -> bool
  {
    s => IsCorrect(categorize(s)) == correct
  }

  /** The samples whose correctness is `correct`, in input order. */
  function Keep(samples: seq<Sample>, categorize: Categorizer, correct: bool): seq<Sample>
  {
    Filter(samples, Correctness(categorize, correct))
  }

  /** The categorization loop: builds `correct_samples` and `incorrect_samples`. */
  method PartitionSamples(samples: seq<Sample>, categorize: Categorizer)
    returns (correct: seq<Sample>, incorrect: seq<Sample>)
    ensures correct == Keep(samples, categorize, true)
    ensures incorrect == Keep(samples, categorize, false)
  {
    correct, incorrect := [], [];
    for i := 0 to |samples|
      invariant correct == Keep(samples[..i], categorize, true)
      invariant incorrect == Keep(samples[..i], categorize, false)
    {
      assert samples[..i + 1][..i] == samples[..i];
      var category := categorize(samples[i]);
      if category == TP || category == TN {
        correct := correct + [samples[i]];
      } else {
        incorrect := incorrect + [samples[i]];
      }
    }
    assert samples[..|samples|] == samples;
  }

  /** A sample is in a partition exactly when it is an input with that correctness. */
  lemma KeepMember(samples: seq<Sample>, categorize: Categorizer, correct: bool, x: Sample)
    ensures x in Keep(samples, categorize, correct) <==> x in samples && IsCorrect(categorize(x)) == correct
  {
    FilterMember(samples, Correctness(categorize, correct), x);
  }

  /**
   * Completeness: the two lists together hold every input sample exactly as
   * often as the input does, so their lengths add up to the input's.
   */
  lemma PartitionComplete(samples: seq<Sample>, categorize: Categorizer)
    ensures multiset(Keep(samples, categorize, true)) + multiset(Keep(samples, categorize, false)) == multiset(samples)
    ensures |Keep(samples, categorize, true)| + |Keep(samples, categorize, false)| == |samples|
  {
    FilterComplement(samples, Correctness(categorize, true), Correctness(categorize, false));
    assert |multiset(samples)| == |samples|;
  }

  /** Order within each list follows the input: partitioning commutes with concatenation. */
  lemma KeepAppend(xs: seq<Sample>, ys: seq<Sample>, categorize: Categorizer, correct: bool)
    ensures Keep(xs + ys, categorize, correct) == Keep(xs, categorize, correct) + Keep(ys, categorize, correct)
  {
    FilterAppend(xs, ys, Correctness(categorize, correct));
  }
}
