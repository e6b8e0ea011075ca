/**
 * The pairing engine and triple assembler of `create_dpo_triples`.
 *
 * The functions (Product, PromptBlocks, Pairs, Assemble, DpoTriples) say
 * which triples come out and in what order; the methods are the source's
 * nested loops, proved to produce exactly those triples; the lemmas state
 * what the generator promises about them.
 */
module Pairing {
  import opened Samples
  import opened Seqs
  import opened Format
  import opened Partition
  import opened Grouping

  /** A (correct, incorrect) pair: the chosen and the rejected sample of one triple. */
  type Pair = (Sample, Sample)

  /** One correct sample against each incorrect sample in turn: the inner loop. */
  function Row(c: Sample, rs: seq<Sample>): seq<Pair>
  {
    seq(|rs|, j requires 0 <= j < |rs| => (c, rs[j]))
  }

  /** The cross product of `cs` and `rs` in correct-major order: the two nested loops. */
  function Product(cs: seq<Sample>, rs: seq<Sample>): seq<Pair>
  {
    if cs == [] then [] else Product(cs[..|cs| - 1], rs) + Row(cs[|cs| - 1], rs)
  }

  /**
   * Same-prompt pairing: for each key of the correct grouping, in key order,
   * the product of that prompt's correct group and incorrect group.
   */
  function PromptBlocks(keys: seq<string>, correct: seq<Sample>, incorrect: seq<Sample>): seq<Pair>
  {
    if keys == [] then []
    else
      var n := |keys| - 1;
      PromptBlocks(keys[..n], correct, incorrect)
        + Product(WithPrompt(correct, keys[n]), WithPrompt(incorrect, keys[n]))
  }

  /** The pairs behind the triples, in output order, for either mode. */
  function Pairs(samples: seq<Sample>, categorize: Categorizer, requireSamePrompt: bool): seq<Pair>
  {
    var correct := Keep(samples, categorize, true);
    var incorrect := Keep(samples, categorize, false);
    if requireSamePrompt then PromptBlocks(PromptsInOrder(correct), correct, incorrect)
    else Product(correct, incorrect)
  }

  /** The triple built for one pair; `recordMismatch` is set in cross mode. */
  function AssembleTriple(p: Pair, includeReasoning: bool, categorize: Categorizer, recordMismatch: bool): Triple
  {
    var (c, r) := p;
    Triple(
      c.prompt,
      FormatResponse(c, includeReasoning),
      FormatResponse(r, includeReasoning),
      Metadata(
        c.sampleId, r.sampleId, categorize(c), categorize(r),
        c.evaluatorModel, c.generatorModel, r.generatorModel, c.dataset, c.experiment,
        if recordMismatch then Some(c.prompt != r.prompt) else None))
  }

  function Assemble(pairs: seq<Pair>, includeReasoning: bool, categorize: Categorizer, recordMismatch: bool): seq<Triple>
  {
    seq(|pairs|, i requires 0 <= i < |pairs| => AssembleTriple(pairs[i], includeReasoning, categorize, recordMismatch))
  }

  /** What `create_dpo_triples` returns. */
  function DpoTriples(samples: seq<Sample>, categorize: Categorizer, includeReasoning: bool, requireSamePrompt: bool): seq<Triple>
  {
    Assemble(Pairs(samples, categorize, requireSamePrompt), includeReasoning, categorize, !requireSamePrompt)
  }

  // ---------------------------------------------------------------------------
  // The loops

  lemma AssembleSnoc(pairs: seq<Pair>, p: Pair, includeReasoning: bool, categorize: Categorizer, recordMismatch: bool)
    ensures Assemble(pairs + [p], includeReasoning, categorize, recordMismatch)
         == Assemble(pairs, includeReasoning, categorize, recordMismatch) + [AssembleTriple(p, includeReasoning, categorize, recordMismatch)]
  {
  }

  lemma AssembleAppend(xs: seq<Pair>, ys: seq<Pair>, includeReasoning: bool, categorize: Categorizer, recordMismatch: bool)
    ensures Assemble(xs + ys, includeReasoning, categorize, recordMismatch)
         == Assemble(xs, includeReasoning, categorize, recordMismatch) + Assemble(ys, includeReasoning, categorize, recordMismatch)
  {
  }

  /** Same-prompt mode: the two groupings, then the loop over the correct grouping's keys. */
  method PairSamePrompt(correct: seq<Sample>, incorrect: seq<Sample>, includeReasoning: bool, categorize: Categorizer)
    returns (triples: seq<Triple>)
    ensures triples == Assemble(PromptBlocks(PromptsInOrder(correct), correct, incorrect), includeReasoning, categorize, false)
  {
    var correctKeys, correctByPrompt := GroupByPrompt(correct);
    var incorrectKeys, incorrectByPrompt := GroupByPrompt(incorrect);
    triples := [];
    for k := 0 to |correctKeys|
      invariant triples == Assemble(PromptBlocks(correctKeys[..k], correct, incorrect), includeReasoning, categorize, false)
    {
      var prompt := correctKeys[k];
      PromptBlockStep(correctKeys, k, correct, incorrect, includeReasoning, categorize);
      if prompt !in incorrectByPrompt {
        // no incorrect sample has this prompt, so its block is empty
        PromptsInOrderMember(incorrect, prompt);
        continue;
      }
      triples := AppendPromptTriples(triples, prompt, correctByPrompt[prompt], incorrectByPrompt[prompt], includeReasoning, categorize);
    }
    assert correctKeys[..|correctKeys|] == correctKeys;
  }

  /** One more key adds the triples of its block, and none if it has no incorrect sample. */
  lemma PromptBlockStep(keys: seq<string>, k: nat, correct: seq<Sample>, incorrect: seq<Sample>,
                        includeReasoning: bool, categorize: Categorizer)
    requires k < |keys|
    ensures var prompt := keys[k];
            && Assemble(PromptBlocks(keys[..k + 1], correct, incorrect), includeReasoning, categorize, false)
               == Assemble(PromptBlocks(keys[..k], correct, incorrect), includeReasoning, categorize, false)
                + Assemble(Product(WithPrompt(correct, prompt), WithPrompt(incorrect, prompt)), includeReasoning, categorize, false)
            && (WithPrompt(incorrect, prompt) == [] ==> PromptBlocks(keys[..k + 1], correct, incorrect) == PromptBlocks(keys[..k], correct, incorrect))
            && forall i :: 0 <= i < |WithPrompt(correct, prompt)| ==> WithPrompt(correct, prompt)[i].prompt == prompt
  {
    var prompt := keys[k];
    assert keys[..k + 1][..k] == keys[..k];
    AssembleAppend(PromptBlocks(keys[..k], correct, incorrect),
      Product(WithPrompt(correct, prompt), WithPrompt(incorrect, prompt)), includeReasoning, categorize, false);
    ProductNoIncorrect(WithPrompt(correct, prompt));
    WithPromptPrompt(correct, prompt);
  }

  /** The two inner loops of same-prompt mode, for the groups of one prompt. */
  method AppendPromptTriples(
    start: seq<Triple>, prompt: string, chosenGroup: seq<Sample>, rejectedGroup: seq<Sample>,
    includeReasoning: bool, categorize: Categorizer)
    returns (triples: seq<Triple>)
    requires forall i :: 0 <= i < |chosenGroup| ==> chosenGroup[i].prompt == prompt
    ensures triples == start + Assemble(Product(chosenGroup, rejectedGroup), includeReasoning, categorize, false)
  {
    triples := start;
    ghost var pairs: seq<Pair> := [];
    for a := 0 to |chosenGroup|
      invariant pairs == Product(chosenGroup[..a], rejectedGroup)
      invariant triples == start + Assemble(pairs, includeReasoning, categorize, false)
    {
      assert chosenGroup[..a + 1][..a] == chosenGroup[..a];
      var c := chosenGroup[a];
      for b := 0 to |rejectedGroup|
        invariant pairs == Product(chosenGroup[..a], rejectedGroup) + Row(c, rejectedGroup[..b])
        invariant triples == start + Assemble(pairs, includeReasoning, categorize, false)
      {
        var r := rejectedGroup[b];
        var triple := Triple(
          prompt,
          FormatResponse(c, includeReasoning),
          FormatResponse(r, includeReasoning),
          Metadata(
            c.sampleId, r.sampleId, categorize(c), categorize(r),
            c.evaluatorModel, c.generatorModel, r.generatorModel, c.dataset, c.experiment,
            None));
        AssembleSnoc(pairs, (c, r), includeReasoning, categorize, false);
        assert Row(c, rejectedGroup[..b + 1]) == Row(c, rejectedGroup[..b]) + [(c, r)];
        triples := triples + [triple];
        pairs := pairs + [(c, r)];
      }
      assert rejectedGroup[..|rejectedGroup|] == rejectedGroup;
    }
    assert chosenGroup[..|chosenGroup|] == chosenGroup;
  }

  /** Cross mode: every correct sample against every incorrect sample. */
  method PairCross(correct: seq<Sample>, incorrect: seq<Sample>, includeReasoning: bool, categorize: Categorizer)
    returns (triples: seq<Triple>)
    ensures triples == Assemble(Product(correct, incorrect), includeReasoning, categorize, true)
  {
    triples := [];
    ghost var pairs: seq<Pair> := [];
    for a := 0 to |correct|
      invariant pairs == Product(correct[..a], incorrect)
      invariant triples == Assemble(pairs, includeReasoning, categorize, true)
    {
      assert correct[..a + 1][..a] == correct[..a];
      var c := correct[a];
      for b := 0 to |incorrect|
        invariant pairs == Product(correct[..a], incorrect) + Row(c, incorrect[..b])
        invariant triples == Assemble(pairs, includeReasoning, categorize, true)
      {
        var r := incorrect[b];
        var triple := Triple(
          c.prompt,
          FormatResponse(c, includeReasoning),
          FormatResponse(r, includeReasoning),
          Metadata(
            c.sampleId, r.sampleId, categorize(c), categorize(r),
            c.evaluatorModel, c.generatorModel, r.generatorModel, c.dataset, c.experiment,
            Some(c.prompt != r.prompt)));
        AssembleSnoc(pairs, (c, r), includeReasoning, categorize, true);
        assert Row(c, incorrect[..b + 1]) == Row(c, incorrect[..b]) + [(c, r)];
        triples := triples + [triple];
        pairs := pairs + [(c, r)];
      }
      assert incorrect[..|incorrect|] == incorrect;
    }
    assert correct[..|correct|] == correct;
  }

  /** `create_dpo_triples`: partition, then pair in the chosen mode. */
  method CreateDpoTriples(samples: seq<Sample>, categorize: Categorizer, includeReasoning: bool, requireSamePrompt: bool)
    returns (triples: seq<Triple>)
    ensures triples == DpoTriples(samples, categorize, includeReasoning, requireSamePrompt)
  {
    var correct, incorrect := PartitionSamples(samples, categorize);
    if requireSamePrompt {
      triples := PairSamePrompt(correct, incorrect, includeReasoning, categorize);
    } else {
      triples := PairCross(correct, incorrect, includeReasoning, categorize);
    }
  }

  // ---------------------------------------------------------------------------
  // The cross product

  lemma {:induction false} ProductLength(cs: seq<Sample>, rs: seq<Sample>)
    ensures |Product(cs, rs)| == |cs| * |rs|
  {
    if cs != [] {
      var n := |cs| - 1;
      ProductLength(cs[..n], rs);
      assert n * |rs| + |rs| == |cs| * |rs|;
    }
  }

  /** Correct-major order: pair (i, j) sits at position i * |rs| + j. */
  lemma {:induction false} ProductAt(cs: seq<Sample>, rs: seq<Sample>, i: nat, j: nat)
    requires i < |cs| && j < |rs|
    ensures i * |rs| + j < |Product(cs, rs)|
    ensures Product(cs, rs)[i * |rs| + j] == (cs[i], rs[j])
  {
    var n := |cs| - 1;
    ProductLength(cs[..n], rs);
    ProductLength(cs, rs);
    if i < n {
      ProductAt(cs[..n], rs, i, j);
    } else {
      assert i * |rs| + j == |Product(cs[..n], rs)| + j;
    }
  }

  lemma {:induction false} ProductMember(cs: seq<Sample>, rs: seq<Sample>, p: Pair)
    ensures p in Product(cs, rs) <==> p.0 in cs && p.1 in rs
  {
    if cs != [] {
      var n := |cs| - 1;
      ProductMember(cs[..n], rs, p);
      assert cs == cs[..n] + [cs[n]];
      if p.0 == cs[n] && p.1 in rs {
        var j :| 0 <= j < |rs| && rs[j] == p.1;
        assert Row(cs[n], rs)[j] == p;
      }
    }
  }

  // ---------------------------------------------------------------------------
  // Same-prompt mode

  lemma {:induction false} PromptBlocksMember(keys: seq<string>, correct: seq<Sample>, incorrect: seq<Sample>, p: Pair)
    ensures p in PromptBlocks(keys, correct, incorrect) <==>
      p.0.prompt in keys && p.0 in correct && p.1 in incorrect && p.0.prompt == p.1.prompt
  {
    if keys != [] {
      var n := |keys| - 1;
      PromptBlocksMember(keys[..n], correct, incorrect, p);
      ProductMember(WithPrompt(correct, keys[n]), WithPrompt(incorrect, keys[n]), p);
      WithPromptMember(correct, keys[n], p.0);
      WithPromptMember(incorrect, keys[n], p.1);
      assert keys == keys[..n] + [keys[n]];
    }
  }

  /**
   * Same-prompt mode pairs exactly the correct and incorrect input samples
   * that share a prompt: nothing else, and none of those is missed.
   */
  lemma SamePromptPairsIff(samples: seq<Sample>, categorize: Categorizer, c: Sample, r: Sample)
    ensures (c, r) in Pairs(samples, categorize, true) <==>
      && c in samples && IsCorrect(categorize(c))
      && r in samples && !IsCorrect(categorize(r))
      && c.prompt == r.prompt
  {
    var correct := Keep(samples, categorize, true);
    var incorrect := Keep(samples, categorize, false);
    PromptBlocksMember(PromptsInOrder(correct), correct, incorrect, (c, r));
    KeepMember(samples, categorize, true, c);
    KeepMember(samples, categorize, false, r);
    PromptsInOrderMember(correct, c.prompt);
    WithPromptMember(correct, c.prompt, c);
  }

  /** The pairs whose chosen sample has prompt `p`. */
  function ChosenPrompt(p: string): Pair -> bool
  {
    (q: Pair) => q.0.prompt == p
  }

  /** The block of key `k` holds only pairs whose chosen prompt is `k`. */
  lemma BlockFilter(correct: seq<Sample>, incorrect: seq<Sample>, k: string, p: string)
    ensures var block := Product(WithPrompt(correct, k), WithPrompt(incorrect, k));
            Filter(block, ChosenPrompt(p)) == if k == p then block else []
  {
    var block := Product(WithPrompt(correct, k), WithPrompt(incorrect, k));
    forall i | 0 <= i < |block|
      ensures block[i].0.prompt == k
    {
      ProductMember(WithPrompt(correct, k), WithPrompt(incorrect, k), block[i]);
      WithPromptMember(correct, k, block[i].0);
    }
    if k == p {
      FilterKeepsAll(block, ChosenPrompt(p));
    } else {
      FilterKeepsNone(block, ChosenPrompt(p));
    }
  }

  lemma {:induction false} PromptBlocksForPrompt(keys: seq<string>, correct: seq<Sample>, incorrect: seq<Sample>, p: string)
    requires Distinct(keys)
    ensures Filter(PromptBlocks(keys, correct, incorrect), ChosenPrompt(p))
         == if p in keys then Product(WithPrompt(correct, p), WithPrompt(incorrect, p)) else []
  {
    if keys != [] {
      var n := |keys| - 1;
      var prev, k := keys[..n], keys[n];
      assert keys == prev + [k];
      assert Distinct(prev);
      PromptBlocksForPrompt(prev, correct, incorrect, p);
      var block := Product(WithPrompt(correct, k), WithPrompt(incorrect, k));
      FilterAppend(PromptBlocks(prev, correct, incorrect), block, ChosenPrompt(p));
      BlockFilter(correct, incorrect, k, p);
      if k == p {
        forall j | 0 <= j < n
          ensures prev[j] != p
        {
          assert keys[j] != keys[n];
        }
      }
    }
  }

  /**
   * A prompt with `a` correct and `b` incorrect samples is the chosen prompt
   * of exactly its a * b pairs, in correct-major order; a prompt missing from
   * either side has none.
   */
  lemma SamePromptCount(samples: seq<Sample>, categorize: Categorizer, p: string)
    ensures var correct := Keep(samples, categorize, true);
            var incorrect := Keep(samples, categorize, false);
            && Filter(Pairs(samples, categorize, true), ChosenPrompt(p)) == Product(WithPrompt(correct, p), WithPrompt(incorrect, p))
            && |Filter(Pairs(samples, categorize, true), ChosenPrompt(p))| == |WithPrompt(correct, p)| * |WithPrompt(incorrect, p)|
  {
    var correct := Keep(samples, categorize, true);
    var incorrect := Keep(samples, categorize, false);
    PromptsInOrderDistinct(correct);
    PromptBlocksForPrompt(PromptsInOrder(correct), correct, incorrect, p);
    PromptsInOrderMember(correct, p);
    ProductLength(WithPrompt(correct, p), WithPrompt(incorrect, p));
  }

  /** The number of same-prompt pairs: the sum over the keys of (correct count) * (incorrect count). */
  function PromptCounts(keys: seq<string>, correct: seq<Sample>, incorrect: seq<Sample>): nat
  {
    if keys == [] then 0
    else
      var n := |keys| - 1;
      PromptCounts(keys[..n], correct, incorrect) + |WithPrompt(correct, keys[n])| * |WithPrompt(incorrect, keys[n])|
  }

  lemma {:induction false} PromptBlocksLength(keys: seq<string>, correct: seq<Sample>, incorrect: seq<Sample>)
    ensures |PromptBlocks(keys, correct, incorrect)| == PromptCounts(keys, correct, incorrect)
  {
    if keys != [] {
      var n := |keys| - 1;
      PromptBlocksLength(keys[..n], correct, incorrect);
      ProductLength(WithPrompt(correct, keys[n]), WithPrompt(incorrect, keys[n]));
    }
  }

  lemma SamePromptTotal(samples: seq<Sample>, categorize: Categorizer)
    ensures var correct := Keep(samples, categorize, true);
            |DpoTriples(samples, categorize, true, true)| == |DpoTriples(samples, categorize, false, true)|
              == PromptCounts(PromptsInOrder(correct), correct, Keep(samples, categorize, false))
  {
    var correct := Keep(samples, categorize, true);
    PromptBlocksLength(PromptsInOrder(correct), correct, Keep(samples, categorize, false));
  }

  // ---------------------------------------------------------------------------
  // Cross mode

  /** Cross mode pairs every correct input sample with every incorrect one. */
  lemma CrossPairsIff(samples: seq<Sample>, categorize: Categorizer, c: Sample, r: Sample)
    ensures (c, r) in Pairs(samples, categorize, false) <==>
      c in samples && IsCorrect(categorize(c)) && r in samples && !IsCorrect(categorize(r))
  {
    ProductMember(Keep(samples, categorize, true), Keep(samples, categorize, false), (c, r));
    KeepMember(samples, categorize, true, c);
    KeepMember(samples, categorize, false, r);
  }

  /**
   * Cross mode yields |correct| * |incorrect| triples in correct-major order;
   * each takes the correct sample's prompt and records whether the two
   * prompts differ.
   */
  lemma CrossTriples(samples: seq<Sample>, categorize: Categorizer, includeReasoning: bool, i: nat, j: nat)
    requires i < |Keep(samples, categorize, true)| && j < |Keep(samples, categorize, false)|
    ensures var correct := Keep(samples, categorize, true);
            var incorrect := Keep(samples, categorize, false);
            var ts := DpoTriples(samples, categorize, includeReasoning, false);
            && |ts| == |correct| * |incorrect|
            && i * |incorrect| + j < |ts|
            && ts[i * |incorrect| + j].prompt == correct[i].prompt
            && ts[i * |incorrect| + j].chosen == FormatResponse(correct[i], includeReasoning)
            && ts[i * |incorrect| + j].rejected == FormatResponse(incorrect[j], includeReasoning)
            && ts[i * |incorrect| + j].metadata.promptMismatch == Some(correct[i].prompt != incorrect[j].prompt)
  {
    var correct := Keep(samples, categorize, true);
    var incorrect := Keep(samples, categorize, false);
    ProductLength(correct, incorrect);
    ProductAt(correct, incorrect, i, j);
  }

  lemma CrossCount(samples: seq<Sample>, categorize: Categorizer, includeReasoning: bool)
    ensures |DpoTriples(samples, categorize, includeReasoning, false)|
         == |Keep(samples, categorize, true)| * |Keep(samples, categorize, false)|
  {
    ProductLength(Keep(samples, categorize, true), Keep(samples, categorize, false));
  }

  // ---------------------------------------------------------------------------
  // Both modes

  lemma {:induction false} ProductNoIncorrect(cs: seq<Sample>)
    ensures Product(cs, []) == []
  {
    if cs != [] {
      ProductNoIncorrect(cs[..|cs| - 1]);
      assert Row(cs[|cs| - 1], []) == [];
    }
  }

  lemma {:induction false} PromptBlocksNoIncorrect(keys: seq<string>, correct: seq<Sample>)
    ensures PromptBlocks(keys, correct, []) == []
  {
    if keys != [] {
      var n := |keys| - 1;
      PromptBlocksNoIncorrect(keys[..n], correct);
      assert WithPrompt([], keys[n]) == [];
      ProductNoIncorrect(WithPrompt(correct, keys[n]));
    }
  }

  /** The pairs of either mode, when one side is empty. */
  lemma NoPairsWithoutBothSides(correct: seq<Sample>, incorrect: seq<Sample>)
    requires correct == [] || incorrect == []
    ensures Product(correct, incorrect) == []
    ensures PromptBlocks(PromptsInOrder(correct), correct, incorrect) == []
  {
    if incorrect == [] {
      ProductNoIncorrect(correct);
      PromptBlocksNoIncorrect(PromptsInOrder(correct), correct);
    } else {
      assert PromptsInOrder(correct) == [];
    }
  }

  /** Without a correct or without an incorrect sample there are no triples, in either mode. */
  lemma NoTriplesWithoutBothSides(samples: seq<Sample>, categorize: Categorizer, includeReasoning: bool, requireSamePrompt: bool)
    requires Keep(samples, categorize, true) == [] || Keep(samples, categorize, false) == []
    ensures DpoTriples(samples, categorize, includeReasoning, requireSamePrompt) == []
  {
    NoPairsWithoutBothSides(Keep(samples, categorize, true), Keep(samples, categorize, false));
    assert Pairs(samples, categorize, requireSamePrompt) == [];
  }

  /**
   * Every triple comes from a correct and an incorrect input sample: its text
   * is theirs, its prompt and most of its metadata the chosen sample's, the
   * rejected id and generator the rejected sample's. In same-prompt mode the
   * two samples share the prompt and no mismatch flag is recorded; in cross
   * mode the flag says whether the prompts differ.
   */
  lemma TripleProvenance(samples: seq<Sample>, categorize: Categorizer, includeReasoning: bool, requireSamePrompt: bool, i: nat)
    requires i < |DpoTriples(samples, categorize, includeReasoning, requireSamePrompt)|
    ensures i < |Pairs(samples, categorize, requireSamePrompt)|
    ensures var t := DpoTriples(samples, categorize, includeReasoning, requireSamePrompt)[i];
            var c := Pairs(samples, categorize, requireSamePrompt)[i].0;
            var r := Pairs(samples, categorize, requireSamePrompt)[i].1;
            && c in samples && IsCorrect(categorize(c))
            && r in samples && !IsCorrect(categorize(r))
            && t.prompt == c.prompt
            && t.chosen == FormatResponse(c, includeReasoning)
            && t.rejected == FormatResponse(r, includeReasoning)
            && t.metadata.chosenSampleId == c.sampleId
            && t.metadata.rejectedSampleId == r.sampleId
            && t.metadata.chosenCategory in {TP, TN}
            && t.metadata.rejectedCategory in {FP, FN}
            && t.metadata.evaluatorModel == c.evaluatorModel
            && t.metadata.chosenGenerator == c.generatorModel
            && t.metadata.rejectedGenerator == r.generatorModel
            && t.metadata.dataset == c.dataset
            && t.metadata.experiment == c.experiment
            && (requireSamePrompt ==> r.prompt == t.prompt && t.metadata.promptMismatch == None)
            && (!requireSamePrompt ==> t.metadata.promptMismatch == Some(c.prompt != r.prompt))
  {
    var p := Pairs(samples, categorize, requireSamePrompt)[i];
    assert p in Pairs(samples, categorize, requireSamePrompt);
    if requireSamePrompt {
      SamePromptPairsIff(samples, categorize, p.0, p.1);
    } else {
      CrossPairsIff(samples, categorize, p.0, p.1);
    }
  }
}
