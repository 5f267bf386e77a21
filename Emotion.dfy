/**
 * The mood detector: the emotion classifier (a foreign model, passed in as a function
 * from text to a class label) followed by a lookup in the fixed label table.
 */
module Emotion {
  import opened Wrappers

  /** The dictionary lookup fails with the missing key. */
  datatype LookupError = KeyError(key: string)

  /** The label table built next to the classifier. */
  const Emotions: map<string, string> := map[
    "LABEL_0" := "Joy",
    "LABEL_1" := "Desire",
    "LABEL_2" := "Admiration",
    "LABEL_3" := "Approval",
    "LABEL_4" := "Curiosity",
    "LABEL_5" := "Fear",
    "LABEL_6" := "Sadness",
    "LABEL_7" := "Anger",
    "LABEL_8" := "Neutral"
  ]

  /** The number of classes the classifier is loaded with. */
  const LabelCount: nat := 9

  /** The label the classifier emits for class `k`. */
  function LabelCode(k: nat): string
    requires k < 10
  {
    "LABEL_" + [('0' as int + k) as char]
  }

  /** The mood names in the classifier's class order. */
  const MoodNames: seq<string> :=
    ["Joy", "Desire", "Admiration", "Approval", "Curiosity", "Fear", "Sadness", "Anger", "Neutral"]

  /** `predict_emotion`: the classifier's label looked up in the table; a label the table
      lacks raises rather than defaulting to some mood. */
  function PredictEmotion(classify: string -> string, sentence: string): (r: Result<string, LookupError>)
    ensures r.Ok? <==> classify(sentence) in Emotions.Keys
    ensures r.Err? ==> r.error == KeyError(classify(sentence))
    ensures r.Ok? ==> r.value == Emotions[classify(sentence)] && r.value in MoodNames
  {
    var code := classify(sentence);
    if code in Emotions then
      TableNames();
      Ok(Emotions[code])
    else
      Err(KeyError(code))
  }

  /** The table maps class `k`'s label to the `k`-th mood name, for each of the nine classes,
      and holds no other label. */
  lemma TableIsTotal()
    ensures forall k :: 0 <= k < LabelCount ==> LabelCode(k) in Emotions && Emotions[LabelCode(k)] == MoodNames[k]
    ensures Emotions.Keys == set k | 0 <= k < LabelCount :: LabelCode(k)
  {
    LabelCodes();
    var codes := set k | 0 <= k < LabelCount :: LabelCode(k);
    forall code | code in Emotions ensures code in codes {
      if code == LabelCode(0) { assert 0 < LabelCount; }
      else if code == LabelCode(1) { assert 1 < LabelCount; }
      else if code == LabelCode(2) { assert 2 < LabelCount; }
      else if code == LabelCode(3) { assert 3 < LabelCount; }
      else if code == LabelCode(4) { assert 4 < LabelCount; }
      else if code == LabelCode(5) { assert 5 < LabelCount; }
      else if code == LabelCode(6) { assert 6 < LabelCount; }
      else if code == LabelCode(7) { assert 7 < LabelCount; }
      else { assert code == LabelCode(8); }
    }
  }

  /** The nine labels spelled out. */
  lemma LabelCodes()
    ensures LabelCode(0) == "LABEL_0" && LabelCode(1) == "LABEL_1" && LabelCode(2) == "LABEL_2"
    ensures LabelCode(3) == "LABEL_3" && LabelCode(4) == "LABEL_4" && LabelCode(5) == "LABEL_5"
    ensures LabelCode(6) == "LABEL_6" && LabelCode(7) == "LABEL_7" && LabelCode(8) == "LABEL_8"
  {
  }

  /** Every name in the table is one of the nine moods, and the nine are distinct. */
  lemma TableNames()
    ensures forall code :: code in Emotions ==> Emotions[code] in MoodNames
    ensures |MoodNames| == LabelCount
    ensures forall i, j :: 0 <= i < j < |MoodNames| ==> MoodNames[i] != MoodNames[j]
  {
  }

  /** Whenever the classifier emits class `k`'s label, the prediction is the `k`-th mood. */
  lemma PredictByClass(classify: string -> string, sentence: string, k: nat)
    requires k < LabelCount && classify(sentence) == LabelCode(k)
    ensures PredictEmotion(classify, sentence) == Ok(MoodNames[k])
  {
    TableIsTotal();
  }

  /** Lookups of the end-to-end examples: class 6 is read as Sadness, class 8 as Neutral,
      and a label outside the nine (a tenth class) raises with that label. */
  lemma PredictExamples(classify: string -> string, sentence: string)
    ensures classify(sentence) == LabelCode(6) ==> PredictEmotion(classify, sentence) == Ok("Sadness")
    ensures classify(sentence) == LabelCode(8) ==> PredictEmotion(classify, sentence) == Ok("Neutral")
    ensures classify(sentence) == LabelCode(9) ==> PredictEmotion(classify, sentence) == Err(KeyError(LabelCode(9)))
  {
    TableIsTotal();
    assert LabelCode(9) == "LABEL_9";
  }
}
