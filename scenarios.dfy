/**
 * The worked pairing scenario: two correct and two incorrect samples on one
 * prompt give four same-prompt triples; one more correct sample on another
 * prompt gives six cross-mode triples, and the two built from that sample
 * are flagged as prompt mismatches.
 */
module Scenarios {
  import opened Samples
  import opened Seqs
  import opened Partition
  import opened Grouping
  import opened Pairing

  /** The partition of `correct + incorrect` when the categorizer agrees with the split. */
  lemma PartitionOf(correct: seq<Sample>, incorrect: seq<Sample>, categorize: Categorizer)
    requires forall i :: 0 <= i < |correct| ==> IsCorrect(categorize(correct[i]))
    requires forall i :: 0 <= i < |incorrect| ==> !IsCorrect(categorize(incorrect[i]))
    ensures Keep(correct + incorrect, categorize, true) == correct
    ensures Keep(correct + incorrect, categorize, false) == incorrect
  {
    KeepAppend(correct, incorrect, categorize, true);
    KeepAppend(correct, incorrect, categorize, false);
    FilterKeepsAll(correct, Correctness(categorize, true));
    FilterKeepsNone(incorrect, Correctness(categorize, true));
    FilterKeepsNone(correct, Correctness(categorize, false));
    FilterKeepsAll(incorrect, Correctness(categorize, false));
  }

  /** The pairs of the same-prompt scenario: the whole product of its one prompt. */
  lemma SamePromptScenarioPairs(c1: Sample, c2: Sample, r1: Sample, r2: Sample, categorize: Categorizer)
    requires IsCorrect(categorize(c1)) && IsCorrect(categorize(c2))
    requires !IsCorrect(categorize(r1)) && !IsCorrect(categorize(r2))
    requires c1.prompt == c2.prompt == r1.prompt == r2.prompt
    ensures Pairs([c1, c2, r1, r2], categorize, true) == [(c1, r1), (c1, r2), (c2, r1), (c2, r2)]
  {
    var correct, incorrect := [c1, c2], [r1, r2];
    assert [c1, c2, r1, r2] == correct + incorrect;
    PartitionOf(correct, incorrect, categorize);
    var p := c1.prompt;
    FilterKeepsAll(correct, HasPrompt(p));
    FilterKeepsAll(incorrect, HasPrompt(p));
    assert WithPrompt(correct, p) == correct && WithPrompt(incorrect, p) == incorrect;
    assert PromptsInOrder(correct) == [p] by {
      assert correct[..1] == [c1] && [c1][..0] == [];
      assert PromptsInOrder([c1]) == [p];
    }
    assert Product(correct, incorrect) == [(c1, r1), (c1, r2), (c2, r1), (c2, r2)] by {
      assert correct[..1] == [c1] && [c1][..0] == [];
      assert Product([c1], incorrect) == [(c1, r1), (c1, r2)];
    }
    assert PromptBlocks([p], correct, incorrect) == Product(correct, incorrect) by {
      assert [p][..0] == [];
    }
  }

  /** Two correct and two incorrect samples on one prompt give four triples on that prompt. */
  lemma SamePromptScenario(c1: Sample, c2: Sample, r1: Sample, r2: Sample, categorize: Categorizer, includeReasoning: bool)
    requires IsCorrect(categorize(c1)) && IsCorrect(categorize(c2))
    requires !IsCorrect(categorize(r1)) && !IsCorrect(categorize(r2))
    requires c1.prompt == c2.prompt == r1.prompt == r2.prompt
    ensures var ts := DpoTriples([c1, c2, r1, r2], categorize, includeReasoning, true);
            |ts| == 4 && forall i :: 0 <= i < |ts| ==> ts[i].prompt == c1.prompt && ts[i].metadata.promptMismatch == None
  {
    SamePromptScenarioPairs(c1, c2, r1, r2, categorize);
  }

  /** The pairs of the cross scenario, in correct-major order. */
  lemma CrossScenarioPairs(c1: Sample, c2: Sample, q: Sample, r1: Sample, r2: Sample, categorize: Categorizer)
    requires IsCorrect(categorize(c1)) && IsCorrect(categorize(c2)) && IsCorrect(categorize(q))
    requires !IsCorrect(categorize(r1)) && !IsCorrect(categorize(r2))
    ensures Pairs([c1, c2, q, r1, r2], categorize, false) == [(c1, r1), (c1, r2), (c2, r1), (c2, r2), (q, r1), (q, r2)]
  {
    var correct, incorrect := [c1, c2, q], [r1, r2];
    assert [c1, c2, q, r1, r2] == correct + incorrect;
    PartitionOf(correct, incorrect, categorize);
    assert correct[..2] == [c1, c2] && [c1, c2][..1] == [c1] && [c1][..0] == [];
    assert Product([c1], incorrect) == [(c1, r1), (c1, r2)];
    assert Product([c1, c2], incorrect) == [(c1, r1), (c1, r2), (c2, r1), (c2, r2)];
  }

  /**
   * One more correct sample on another prompt: cross mode gives six triples,
   * and only the two built from that sample are flagged as mismatches.
   */
  lemma CrossScenario(c1: Sample, c2: Sample, q: Sample, r1: Sample, r2: Sample, categorize: Categorizer, includeReasoning: bool)
    requires IsCorrect(categorize(c1)) && IsCorrect(categorize(c2)) && IsCorrect(categorize(q))
    requires !IsCorrect(categorize(r1)) && !IsCorrect(categorize(r2))
    requires c1.prompt == c2.prompt == r1.prompt == r2.prompt != q.prompt
    ensures var ts := DpoTriples([c1, c2, q, r1, r2], categorize, includeReasoning, false);
            && |ts| == 6
            && (forall i :: 0 <= i < 4 ==> ts[i].metadata.promptMismatch == Some(false))
            && (forall i :: 4 <= i < 6 ==> ts[i].prompt == q.prompt && ts[i].metadata.promptMismatch == Some(true))
  {
    CrossScenarioPairs(c1, c2, q, r1, r2, categorize);
  }
}
