# Preference-triple generator, modelled in Dafny

This project models the triple-generation engine of SGTR-RL
(`sgtr_rl/data_processing/triple_generator.py`). The engine turns evaluation
samples into preference triples `(prompt, chosen, rejected, metadata)` for DPO
training. It has these parts:

- the **categorization loop**: splits the samples into correct (TP, TN) and
  incorrect (FP, FN) lists, keeping input order;
- **same-prompt mode**: groups both lists by exact prompt into
  insertion-ordered dictionaries, then pairs each correct sample with each
  incorrect sample of the same prompt;
- **cross mode**: pairs every correct sample with every incorrect sample and
  records `prompt_mismatch`;
- the **response formatter** `format_response`;
- the **splitter** `split_triples`: shuffles a copy, then cuts it at
  `int(n * train_ratio)`;
- the **record-building loop** of `save_triples_jsonl`.

Files, one module each:

- `samples.dfy`: samples, categories, metadata and triples.
- `format.dfy`: the response formatter.
- `seqs.dfy`: order-preserving filtering.
- `partition.dfy`: the categorization loop.
- `grouping.dfy`: the prompt dictionaries.
- `pairing.dfy`: the pairing loops and the triple assembler, with the lemmas
  about the triples they produce.
- `split.dfy`: the splitter.
- `serialize.dfy`: the JSON-lines writer and a reader for its round trip.
- `scenarios.dfy`: the worked four-triple and six-triple examples.

The loops of `create_dpo_triples` are methods. Each is proved equal to a
specification function: `Keep`, `PromptsInOrder` and `WithPrompt`, `Product`
and `PromptBlocks`, `Pairs`, `Assemble`, and `DpoTriples`. The lemmas state
what the source promises about those functions.

The categorizer `categorize_sample` lives in a module that is not part of this
model. Every operation takes it as a parameter `categorize: Sample -> Category`:
a pure, total function. The random generator is also a parameter,
`shuffle(seed, n)`. It gives the order of original positions that
`random.shuffle` produces after `random.seed(seed)`, and it must be a
permutation of `0 .. n-1`. It depends only on the seed and the length.
`train_ratio` is an exact fraction `num / den`.

## Model

| member | source | states |
|---|---|---|
| `Format.FormatResponse` | sgtr_rl/data_processing/triple_generator.py:45-48 | The answer always ends the text. When reasoning is requested and non-empty, the text has three parts: the reasoning, then `"\n\nAnswer: "`, then the answer. Otherwise the text is the answer unchanged. |
| `Format.ReasoningChangesResponse` | sgtr_rl/data_processing/triple_generator.py:45-48 | Requesting reasoning changes the text exactly when the sample's reasoning is non-empty. |
| `Format.FormatExamples` | sgtr_rl/data_processing/triple_generator.py:41-48 | Empty reasoning with answer "42" gives "42". Reasoning "R" gives "R\n\nAnswer: 42". |
| `Partition.PartitionSamples` | sgtr_rl/data_processing/triple_generator.py:77-85 | The loop builds `correct_samples` = the TP/TN samples and `incorrect_samples` = the FP/FN samples, both in input order (`Keep`). |
| `Partition.KeepMember` | sgtr_rl/data_processing/triple_generator.py:80-85 | A sample is in the correct (incorrect) list iff it is an input whose category is (is not) TP or TN. |
| `Partition.PartitionComplete` | sgtr_rl/data_processing/triple_generator.py:77-85 | The two lists together hold each input sample exactly as often as the input does (multiset union). Their lengths sum to `len(samples)`. |
| `Partition.KeepAppend` | sgtr_rl/data_processing/triple_generator.py:80-85 | Partitioning commutes with concatenation, so input order is kept within each list. |
| `Grouping.GroupByPrompt` | sgtr_rl/data_processing/triple_generator.py:91-98 | The defaultdict loop gives keys = the distinct prompts in first-seen order. Each key maps to exactly the samples with that prompt, in input order. The dictionary holds no other keys. |
| `Grouping.PromptsInOrderMember` | sgtr_rl/data_processing/triple_generator.py:94-98 | A prompt is a key iff some sample has it, that is, iff its group is non-empty. |
| `Grouping.PromptsInOrderDistinct` | sgtr_rl/data_processing/triple_generator.py:94-98 | No key occurs twice. |
| `Grouping.WithPromptMember` | sgtr_rl/data_processing/triple_generator.py:94-98 | A sample is in the group of `p` iff it is an input sample whose prompt is `p`. |
| `Grouping.WithPromptPrompt` | sgtr_rl/data_processing/triple_generator.py:94-98 | Every sample of a group carries the group's prompt. |
| `Pairing.CreateDpoTriples` | sgtr_rl/data_processing/triple_generator.py:51-150 | `create_dpo_triples` returns exactly `DpoTriples`: the assembled triples of the same-prompt or the cross pairs, in loop order. |
| `Pairing.PairSamePrompt` | sgtr_rl/data_processing/triple_generator.py:89-124 | The same-prompt loops run over the correct dictionary's keys in order. They skip a key with no incorrect group and produce the blocks `PromptBlocks`. |
| `Pairing.AppendPromptTriples` | sgtr_rl/data_processing/triple_generator.py:105-124 | For one prompt, the two inner loops append the assembled triples of the correct-major product of its two groups, with the prompt as key. |
| `Pairing.PairCross` | sgtr_rl/data_processing/triple_generator.py:126-148 | The cross loops append the assembled triples of the correct-major product of the two lists, with `prompt_mismatch` recorded. |
| `Pairing.ProductLength` | sgtr_rl/data_processing/triple_generator.py:129-130 | The nested loops over lists of lengths a and b yield a * b pairs. |
| `Pairing.ProductAt` | sgtr_rl/data_processing/triple_generator.py:129-130 | Correct-major order: pair (i, j) is at position i * b + j. |
| `Pairing.ProductMember` | sgtr_rl/data_processing/triple_generator.py:106-107 | A pair is in the product iff its first element is from the first list and its second from the second. |
| `Pairing.PromptBlocksMember` | sgtr_rl/data_processing/triple_generator.py:101-107 | A pair is in the same-prompt blocks iff its chosen prompt is a key, it is (correct, incorrect) and both prompts are equal. |
| `Pairing.SamePromptPairsIff` | sgtr_rl/data_processing/triple_generator.py:89-124 | Same-prompt mode pairs (c, r) iff c is a correct input, r is an incorrect input and the two prompts are equal. Nothing crosses a prompt boundary, and no such pair is missed. |
| `Pairing.PromptBlocksForPrompt` | sgtr_rl/data_processing/triple_generator.py:101-107 | With distinct keys, the pairs whose chosen prompt is `p` are exactly the product of `p`'s two groups, or none if `p` is not a key. |
| `Pairing.SamePromptCount` | sgtr_rl/data_processing/triple_generator.py:101-107 | A prompt with `a` correct and `b` incorrect samples has exactly its a * b product pairs, in correct-major order. A prompt missing from either side has none. |
| `Pairing.PromptBlocksLength` | sgtr_rl/data_processing/triple_generator.py:101-107 | The blocks have as many pairs as the sum over the keys of a * b. |
| `Pairing.SamePromptTotal` | sgtr_rl/data_processing/triple_generator.py:101-107 | The number of same-prompt triples is the sum over the prompts of (correct count) * (incorrect count), whether or not reasoning is included. |
| `Pairing.CrossPairsIff` | sgtr_rl/data_processing/triple_generator.py:129-130 | Cross mode pairs (c, r) iff c is a correct input and r is an incorrect input. |
| `Pairing.CrossTriples` | sgtr_rl/data_processing/triple_generator.py:129-148 | There are \|correct\| * \|incorrect\| cross triples. The triple at i * \|incorrect\| + j has the prompt of correct[i], the texts of correct[i] and incorrect[j], and `prompt_mismatch` = (the two prompts differ). |
| `Pairing.CrossCount` | sgtr_rl/data_processing/triple_generator.py:129-130 | Cross mode yields exactly \|correct\| * \|incorrect\| triples. |
| `Pairing.PromptBlocksNoIncorrect` | sgtr_rl/data_processing/triple_generator.py:101-103 | With no incorrect samples, every key is skipped and no pair is produced. |
| `Pairing.NoPairsWithoutBothSides` | sgtr_rl/data_processing/triple_generator.py:89-130 | With an empty correct or incorrect list, both the same-prompt blocks and the cross product are empty. |
| `Pairing.NoTriplesWithoutBothSides` | sgtr_rl/data_processing/triple_generator.py:89-150 | With no correct or no incorrect sample, both modes return the empty list. |
| `Pairing.TripleProvenance` | sgtr_rl/data_processing/triple_generator.py:108-147 | Every triple comes from a (correct, incorrect) input pair. Its prompt, chosen text, `chosen_sample_id`, `evaluator_model`, `chosen_generator`, `dataset` and `experiment` come from the correct sample. `rejected_sample_id`, `rejected_generator` and the rejected text come from the incorrect sample. The categories are in {TP, TN} and {FP, FN}. In same-prompt mode both prompts are equal and there is no `prompt_mismatch` key. In cross mode `prompt_mismatch` = (the prompts differ). |
| `Scenarios.PartitionOf` | sgtr_rl/data_processing/triple_generator.py:80-85 | When every sample of the first list is correct and every sample of the second is incorrect, partitioning their concatenation gives back the two lists. |
| `Scenarios.SamePromptScenarioPairs` | sgtr_rl/data_processing/triple_generator.py:89-124 | Two correct and two incorrect samples on one prompt are paired as (c1,r1), (c1,r2), (c2,r1), (c2,r2). |
| `Scenarios.SamePromptScenario` | sgtr_rl/data_processing/triple_generator.py:89-124 | Two correct and two incorrect samples on one prompt give 4 same-prompt triples. All have that prompt and none has a `prompt_mismatch` key. |
| `Scenarios.CrossScenarioPairs` | sgtr_rl/data_processing/triple_generator.py:126-130 | Three correct and two incorrect samples are paired in cross mode in correct-major order: 6 pairs. |
| `Scenarios.CrossScenario` | sgtr_rl/data_processing/triple_generator.py:126-148 | Add a correct sample on another prompt: cross mode gives 6 triples. The 4 from same-prompt samples have `prompt_mismatch` false. The 2 from the other sample carry its prompt and have `prompt_mismatch` true. |
| `Split.TruncDiv` | sgtr_rl/data_processing/triple_generator.py:180 | `int()` of a quotient rounds toward zero: q * d is within one d of a, on a's side of zero. |
| `Split.SliceBound` | sgtr_rl/data_processing/triple_generator.py:182-183 | The normalised slice bound lies in [0, n]. |
| `Split.SliceBoundSelects` | sgtr_rl/data_processing/triple_generator.py:182-183 | Cutting at the normalised bound follows Python's slice rule for any integer k. `shuffled[:k]` is exactly the elements whose index is below k, and `shuffled[k:]` exactly those whose index is at least k, in order. A negative k is first read relative to the end (k + n). |
| `Split.SplitTriples` | sgtr_rl/data_processing/triple_generator.py:172-185 | `train` is the first `SliceBound(int(n * train_ratio), n)` elements of the permuted copy and `val` is the rest. Element i of `train` is `triples[order[i]]`, and element j of `val` is `triples[order[\|train\| + j]]`, where `order = shuffle(seed, n)`. |
| `Split.PermuteMultiset` | sgtr_rl/data_processing/triple_generator.py:176-177 | Reordering by two orders that hold the same positions gives the same multiset of elements. |
| `Split.SplitIsPermutation` | sgtr_rl/data_processing/triple_generator.py:176-183 | `train ++ val` is a permutation of the input. |
| `Split.TrainSizeWithin` | sgtr_rl/data_processing/triple_generator.py:180 | For 0 <= ratio <= 1, the train size is floor(n * ratio) and lies in [0, n]. |
| `Split.TrainSizeAtLeast` | sgtr_rl/data_processing/triple_generator.py:180 | For ratio >= 1, the train size is at least n. |
| `Split.SplitSizeLaw` | sgtr_rl/data_processing/triple_generator.py:180-183 | For 0 <= train_ratio <= 1: \|train\| = floor(n * train_ratio) and \|train\| + \|val\| = n. |
| `Split.SplitEdgeCases` | sgtr_rl/data_processing/triple_generator.py:180-183 | A ratio of 0 gives an empty train set. A ratio >= 1 gives an empty val set. Empty input gives two empty sets. |
| `Split.SplitIgnoresValRatio` | sgtr_rl/data_processing/triple_generator.py:153-185 | `val_ratio` has no effect on the split. |
| `Serialize.SaveTriplesJsonl` | sgtr_rl/data_processing/triple_generator.py:207-215 | Opening the file truncates it. Afterwards it holds exactly one record per triple, in input order: `TripleRecords`. |
| `Serialize.JsonlFile.Truncate` | sgtr_rl/data_processing/triple_generator.py:207 | Opening with mode "w" empties the file. |
| `Serialize.JsonlFile.WriteLine` | sgtr_rl/data_processing/triple_generator.py:215 | Writing a line appends one record at the end. |
| `Serialize.CategoryFromName` | sgtr_rl/data_processing/triple_generator.py:115-116 | This is the reader half of the round trip, standing for the `json.loads` side. The source only writes category names, at the cited lines, and never parses one. The contract states that parsing a name gives back a category with that name. |
| `Serialize.MetadataRoundTrip` | sgtr_rl/data_processing/triple_generator.py:112-121 | Reading back the written metadata object gives back the metadata, including whether `prompt_mismatch` is present. |
| `Serialize.RecordRoundTrip` | sgtr_rl/data_processing/triple_generator.py:209-214 | Reading a written record gives back prompt, chosen, rejected and metadata exactly. |
| `Serialize.LinesRoundTrip` | sgtr_rl/data_processing/triple_generator.py:207-215 | Reading back all written lines gives back the whole triple list, in order. |

## Left out

- `categorize_sample` and the evaluation loader are not part of this model. The categorizer is a parameter. The sample fields `target` and `is_correct` matter only to the categorizer, so `Sample` omits them.
- The categorizer returns a string in the source, and any value other than "TP" or "TN" counts as incorrect. The model's `Category` is the closed set {TP, TN, FP, FN}, so that fall-through case does not arise.
- `random.seed` and `random.shuffle` are modelled by the `shuffle(seed, n)` parameter. The model does not cover `seed=None`, which skips reseeding and uses whatever state the process-wide generator has. It also does not cover the lasting effect of reseeding that global generator.
- Split.SplitTriples: `train_ratio` is an exact fraction. Floating-point rounding of `len * train_ratio` is not modelled; for example, the float product 100 * 0.29 truncates to 28. Non-finite ratios, which make `int()` raise, are not modelled either: `nan` raises ValueError, `inf` raises ValueError on an empty list (0 * inf is nan), and `inf` raises OverflowError on a non-empty list.
- Default argument values (`include_reasoning=True`, `require_same_prompt=True`, `train_ratio=0.8`, `val_ratio=0.2`, `seed=42`) are not modelled. Dafny callers pass every argument.
- Serialize.SaveTriplesJsonl: the file is the sequence of JSON values written to it. Several things are not modelled: the text produced by `json.dumps`, the trailing newline, `mkdir` of the parent directory, closing the file, I/O errors, and the final `print` of the count.
- The metadata `dict` is a datatype with the fixed key set, and `prompt_mismatch` is an `Option`. Its key order appears only in the serializer's `MetadataJson`.
- The defaultdicts are modelled as a key sequence (insertion order) plus a map. Recomputing `categorize_sample` for the metadata gives the same category, because the categorizer is pure.
- `sgtr_rl/config/paths.py`, the two scripts and the `__init__` re-exports are not part of this model. They are path lookup, console output and re-exports.
