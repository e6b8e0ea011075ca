/**
 * The prompt grouping of same-prompt mode: `correct_by_prompt` and
 * `incorrect_by_prompt`, insertion-ordered dictionaries from a prompt to the
 * list of samples with that prompt.
 */
module Grouping {
  import opened Samples
  import opened Seqs

  function HasPrompt(p: string): Sample -> bool
  {
    (s: Sample) => s.prompt == p
  }

  /** The samples whose prompt is exactly `p`, in input order. */
  function WithPrompt(samples: seq<Sample>, p: string): seq<Sample>
  {
    Filter(samples, HasPrompt(p))
  }

  /** The distinct prompts of `samples` in order of first appearance: the dictionary's key order. */
  function PromptsInOrder(samples: seq<Sample>): seq<string>
  {
    if samples == [] then []
    else
      var n := |samples| - 1;
      var keys := PromptsInOrder(samples[..n]);
      if samples[n].prompt in keys then keys else keys + [samples[n].prompt]
  }

  lemma WithPromptMember(samples: seq<Sample>, p: string, x: Sample)
    ensures x in WithPrompt(samples, p) <==> x in samples && x.prompt == p
  {
    FilterMember(samples, HasPrompt(p), x);
  }

  /** Every sample of a group carries the group's prompt. */
  lemma WithPromptPrompt(samples: seq<Sample>, p: string)
    ensures forall i :: 0 <= i < |WithPrompt(samples, p)| ==> WithPrompt(samples, p)[i].prompt == p
  {
    forall i | 0 <= i < |WithPrompt(samples, p)|
      ensures WithPrompt(samples, p)[i].prompt == p
    {
      WithPromptMember(samples, p, WithPrompt(samples, p)[i]);
    }
  }

  /** A prompt is a key exactly when some sample has it, i.e. when its group is not empty. */
  lemma {:induction false} PromptsInOrderMember(samples: seq<Sample>, p: string)
    ensures p in PromptsInOrder(samples) <==> WithPrompt(samples, p) != []
  {
    if samples != [] {
      var n := |samples| - 1;
      PromptsInOrderMember(samples[..n], p);
      if samples[n].prompt == p {
        assert samples[n] in WithPrompt(samples, p);
      }
    }
  }

  /** No key occurs twice. */
  lemma {:induction false} PromptsInOrderDistinct(samples: seq<Sample>)
    ensures Distinct(PromptsInOrder(samples))
  {
    if samples != [] {
      PromptsInOrderDistinct(samples[..|samples| - 1]);
    }
  }

  /**
   * The grouping loop. `keys` is the dictionary's key order and `groups` its
   * contents: the keys are the distinct prompts in first-seen order and each
   * key maps to the samples with that prompt, in input order.
   */
  method GroupByPrompt(samples: seq<Sample>) returns (keys: seq<string>, groups: map<string, seq<Sample>>)
    ensures keys == PromptsInOrder(samples)
    ensures forall k :: k in groups <==> k in keys
    ensures forall k :: k in groups ==> groups[k] == WithPrompt(samples, k)
  {
    keys, groups := [], map[];
    for i := 0 to |samples|
      invariant keys == PromptsInOrder(samples[..i])
      invariant forall k :: k in groups <==> k in keys
      invariant forall k :: k in groups ==> groups[k] == WithPrompt(samples[..i], k)
    {
      var s := samples[i];
      assert samples[..i + 1][..i] == samples[..i];
      // a missing key starts out as an empty list, as in a defaultdict
      if s.prompt !in groups {
        PromptsInOrderMember(samples[..i], s.prompt);
        keys := keys + [s.prompt];
      }
      var group := if s.prompt in groups then groups[s.prompt] else [];
      groups := groups[s.prompt := group + [s]];
    }
    assert samples[..|samples|] == samples;
  }
}
