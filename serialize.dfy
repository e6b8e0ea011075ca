/**
 * `save_triples_jsonl`: one JSON object per triple, one per line, in the
 * order of the triples, written over whatever the file held before.
 *
 * The file is modelled as the sequence of JSON values on its lines; the
 * text encoding of each value is not modelled.
 */
module Serialize {
  import opened Samples

  /** The JSON values a record is made of; an object keeps its members in insertion order. */
  datatype Json = JString(s: string) | JBool(b: bool) | JObject(members: seq<(string, Json)>)

  function CategoryName(c: Category): string
  {
    match c
    case TP => "TP"
    case TN => "TN"
    case FP => "FP"
    case FN => "FN"
  }

  function CategoryFromName(s: string): (c: Option<Category>)
    ensures c.Some? ==> CategoryName(c.value) == s
  {
    if s == "TP" then Some(TP)
    else if s == "TN" then Some(TN)
    else if s == "FP" then Some(FP)
    else if s == "FN" then Some(FN)
    else None
  }

  /** The metadata dictionary, keys in the order the assembler inserts them. */
  function MetadataJson(m: Metadata): Json
  {
    JObject(
      [ ("chosen_sample_id", JString(m.chosenSampleId)),
        ("rejected_sample_id", JString(m.rejectedSampleId)),
        ("chosen_category", JString(CategoryName(m.chosenCategory))),
        ("rejected_category", JString(CategoryName(m.rejectedCategory))),
        ("evaluator_model", JString(m.evaluatorModel)),
        ("chosen_generator", JString(m.chosenGenerator)),
        ("rejected_generator", JString(m.rejectedGenerator)),
        ("dataset", JString(m.dataset)),
        ("experiment", JString(m.experiment)) ]
      + match m.promptMismatch
        case None => []
        case Some(b) => [("prompt_mismatch", JBool(b))])
  }

  // ---------------------------------------------------------------------------
  // Reading a record back

  /** The value of the first member named `key`. */
  function Lookup(members: seq<(string, Json)>, key: string): Option<Json>
  {
    if members == [] then None
    else if members[0].0 == key then Some(members[0].1)
    else Lookup(members[1..], key)
  }

  function GetString(members: seq<(string, Json)>, key: string): Option<string>
  {
    match Lookup(members, key)
    case Some(JString(s)) => Some(s)
    case _ => None
  }

  function GetCategory(members: seq<(string, Json)>, key: string): Option<Category>
  {
    match GetString(members, key)
    case Some(s) => CategoryFromName(s)
    case None => None
  }

  /** `prompt_mismatch` is optional; present, it must be a boolean. */
  function GetMismatch(members: seq<(string, Json)>): Option<Option<bool>>
  {
    match Lookup(members, "prompt_mismatch")
    case None => Some(None)
    case Some(JBool(b)) => Some(Some(b))
    case Some(_) => None
  }

  function ReadMetadata(j: Json): Option<Metadata>
  {
    if !j.JObject? then None
    else
      var ms := j.members;
      var chosenId :- GetString(ms, "chosen_sample_id");
      var rejectedId :- GetString(ms, "rejected_sample_id");
      var chosenCategory :- GetCategory(ms, "chosen_category");
      var rejectedCategory :- GetCategory(ms, "rejected_category");
      var evaluator :- GetString(ms, "evaluator_model");
      var chosenGenerator :- GetString(ms, "chosen_generator");
      var rejectedGenerator :- GetString(ms, "rejected_generator");
      var dataset :- GetString(ms, "dataset");
      var experiment :- GetString(ms, "experiment");
      var mismatch :- GetMismatch(ms);
      Some(Metadata(chosenId, rejectedId, chosenCategory, rejectedCategory, evaluator,
                    chosenGenerator, rejectedGenerator, dataset, experiment, mismatch))
  }

  function ReadRecord(j: Json): Option<Triple>
  {
    if !j.JObject? then None
    else
      var ms := j.members;
      var prompt :- GetString(ms, "prompt");
      var chosen :- GetString(ms, "chosen");
      var rejected :- GetString(ms, "rejected");
      var metadata :- Lookup(ms, "metadata");
      var m :- ReadMetadata(metadata);
      Some(Triple(prompt, chosen, rejected, m))
  }

  /** Reads every line back, failing if any line is not a triple record. */
  function ReadLines(lines: seq<Json>): Option<seq<Triple>>
  {
    if lines == [] then Some([])
    else
      match (ReadRecord(lines[0]), ReadLines(lines[1..]))
      case (Some(t), Some(ts)) => Some([t] + ts)
      case _ => None
  }

  // ---------------------------------------------------------------------------
  // Writing

  /** The record written for one triple: its four fields, in this order. */
  function TripleRecord(t: Triple): Json
  {
    JObject(
      [ ("prompt", JString(t.prompt)),
        ("chosen", JString(t.chosen)),
        ("rejected", JString(t.rejected)),
        ("metadata", MetadataJson(t.metadata)) ])
  }

  function TripleRecords(triples: seq<Triple>): seq<Json>
  {
    seq(|triples|, i requires 0 <= i < |triples| => TripleRecord(triples[i]))
  }

  /** An output file opened for writing: the values on its lines, in order. */
  class JsonlFile {
    var lines: seq<Json>

    constructor ()
      ensures lines == []
    {
      lines := [];
    }

    /** Opening with mode "w" discards the previous content. */
    method Truncate()
      modifies this
      ensures lines == []
    {
      lines := [];
    }

    method WriteLine(j: Json)
      modifies this
      ensures lines == old(lines) + [j]
    {
      lines := lines + [j];
    }
  }

  /** The record-building loop of `save_triples_jsonl`. */
  method SaveTriplesJsonl(triples: seq<Triple>, file: JsonlFile)
    modifies file
    ensures file.lines == TripleRecords(triples)
  {
    file.Truncate();
    for i := 0 to |triples|
      invariant file.lines == TripleRecords(triples[..i])
    {
      var triple := triples[i];
      var record := JObject(
        [ ("prompt", JString(triple.prompt)),
          ("chosen", JString(triple.chosen)),
          ("rejected", JString(triple.rejected)),
          ("metadata", MetadataJson(triple.metadata)) ]);
      file.WriteLine(record);
      assert TripleRecords(triples[..i + 1]) == TripleRecords(triples[..i]) + [TripleRecord(triple)];
    }
    assert triples[..|triples|] == triples;
  }

  // ---------------------------------------------------------------------------
  // Round trip

  lemma CategoryRoundTrip(c: Category)
    ensures CategoryFromName(CategoryName(c)) == Some(c)
  {
  }

  predicate DistinctKeys(members: seq<(string, Json)>)
  {
    forall i, j :: 0 <= i < j < |members| ==> members[i].0 != members[j].0
  }

  /** In an object without repeated keys, looking a key up finds its own member. */
  lemma {:induction false} LookupDistinct(members: seq<(string, Json)>, i: nat)
    requires DistinctKeys(members) && i < |members|
    ensures Lookup(members, members[i].0) == Some(members[i].1)
  {
    if i > 0 {
      assert members[0].0 != members[i].0;
      LookupDistinct(members[1..], i - 1);
    }
  }

  lemma {:induction false} LookupAbsent(members: seq<(string, Json)>, key: string)
    requires forall j :: 0 <= j < |members| ==> members[j].0 != key
    ensures Lookup(members, key) == None
  {
    if members != [] {
      LookupAbsent(members[1..], key);
    }
  }

  lemma MetadataKeysDistinct(m: Metadata)
    ensures DistinctKeys(MetadataJson(m).members)
  {
  }

  lemma MetadataStrings(m: Metadata)
    ensures var ms := MetadataJson(m).members;
            && GetString(ms, "chosen_sample_id") == Some(m.chosenSampleId)
            && GetString(ms, "rejected_sample_id") == Some(m.rejectedSampleId)
            && GetString(ms, "evaluator_model") == Some(m.evaluatorModel)
            && GetString(ms, "chosen_generator") == Some(m.chosenGenerator)
            && GetString(ms, "rejected_generator") == Some(m.rejectedGenerator)
            && GetString(ms, "dataset") == Some(m.dataset)
            && GetString(ms, "experiment") == Some(m.experiment)
  {
    var ms := MetadataJson(m).members;
    MetadataKeysDistinct(m);
    LookupDistinct(ms, 0);
    LookupDistinct(ms, 1);
    LookupDistinct(ms, 4);
    LookupDistinct(ms, 5);
    LookupDistinct(ms, 6);
    LookupDistinct(ms, 7);
    LookupDistinct(ms, 8);
  }

  lemma MetadataCategories(m: Metadata)
    ensures var ms := MetadataJson(m).members;
            && GetCategory(ms, "chosen_category") == Some(m.chosenCategory)
            && GetCategory(ms, "rejected_category") == Some(m.rejectedCategory)
  {
    var ms := MetadataJson(m).members;
    MetadataKeysDistinct(m);
    CategoryRoundTrip(m.chosenCategory);
    CategoryRoundTrip(m.rejectedCategory);
    LookupDistinct(ms, 2);
    LookupDistinct(ms, 3);
  }

  lemma MetadataMismatch(m: Metadata)
    ensures GetMismatch(MetadataJson(m).members) == Some(m.promptMismatch)
  {
    var ms := MetadataJson(m).members;
    if m.promptMismatch.Some? {
      MetadataKeysDistinct(m);
      LookupDistinct(ms, 9);
    } else {
      LookupAbsent(ms, "prompt_mismatch");
    }
  }

  lemma MetadataRoundTrip(m: Metadata)
    ensures ReadMetadata(MetadataJson(m)) == Some(m)
  {
    MetadataStrings(m);
    MetadataCategories(m);
    MetadataMismatch(m);
  }

  /** Reading a written record gives back the triple: prompt, texts and metadata. */
  lemma RecordRoundTrip(t: Triple)
    ensures ReadRecord(TripleRecord(t)) == Some(t)
  {
    var ms := TripleRecord(t).members;
    assert DistinctKeys(ms);
    LookupDistinct(ms, 0);
    LookupDistinct(ms, 1);
    LookupDistinct(ms, 2);
    LookupDistinct(ms, 3);
    MetadataRoundTrip(t.metadata);
  }

  /** Reading the written lines gives back the triples, in order. */
  lemma {:induction false} LinesRoundTrip(triples: seq<Triple>)
    ensures ReadLines(TripleRecords(triples)) == Some(triples)
  {
    if triples != [] {
      RecordRoundTrip(triples[0]);
      assert TripleRecords(triples)[1..] == TripleRecords(triples[1..]);
      LinesRoundTrip(triples[1..]);
      assert [triples[0]] + triples[1..] == triples;
    }
  }
}
