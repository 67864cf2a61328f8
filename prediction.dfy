/**
 * POST /predict of the classification service: take the three classes the
 * classifier is most confident about, name them through the label map, and
 * answer `confident` with the catalog's nutrition facts when the best one
 * reaches the threshold, `uncertain` with all three otherwise.
 *
 * The classifier is a function from the uploaded image to one confidence
 * per class index. The sort that ranks the classes is not stable, so the
 * selection below promises nothing about the order of equal confidences.
 */
module Prediction {
  import opened Common
  import Decimal

  const ConfidenceThreshold: real := 0.7
  const NoImage := HttpError(400, "No image uploaded")

  /** One ranked option: a class's name and the classifier's confidence in it. */
  datatype Candidate = Candidate(name: string, confidence: real)

  datatype PredictResponse =
    | Uncertain(options: seq<Candidate>)
    | Confident(predictedLabel: string, confidence: real, nutrition: Json)

  /**
   * `top` is what `preds.argsort()[-3:][::-1]` may return: the indices of
   * min(3, n) distinct classes, in non-increasing order of confidence, none
   * less confident than any class left out.
   */
  ghost predicate IsTopK(preds: seq<real>, top: seq<nat>) {
    && |top| == (if |preds| < 3 then |preds| else 3)
    && (forall k :: 0 <= k < |top| ==> top[k] < |preds|)
    && (forall k, l :: 0 <= k < l < |top| ==> top[k] != top[l])
    && (forall k, l :: 0 <= k < l < |top| ==> preds[top[k]] >= preds[top[l]])
    && (forall k, j :: 0 <= k < |top| && 0 <= j < |preds| && j !in top ==> preds[top[k]] >= preds[j])
  }

  /** Selects the most confident classes, most confident first. */
  method TopIndices(preds: seq<real>) returns (top: seq<nat>)
    ensures IsTopK(preds, top)
  {
    var n := |preds|;
    var k := if n < 3 then n else 3;
    var rest: seq<nat> := seq(n, i requires 0 <= i < n => i);
    top := [];
    forall j | 0 <= j < n
      ensures j in rest
    {
      assert rest[j] == j;
    }
    while |top| < k
      invariant |top| + |rest| == n && |top| <= k
      invariant forall a :: 0 <= a < |rest| ==> rest[a] < n
      invariant forall a, b :: 0 <= a < b < |rest| ==> rest[a] != rest[b]
      invariant forall j :: 0 <= j < n ==> (j in top <==> j !in rest)
      invariant forall a :: 0 <= a < |top| ==> top[a] < n
      invariant forall a, b :: 0 <= a < b < |top| ==> top[a] != top[b]
      invariant forall a, b :: 0 <= a < b < |top| ==> preds[top[a]] >= preds[top[b]]
      invariant forall a, b :: 0 <= a < |top| && 0 <= b < |rest| ==> preds[top[a]] >= preds[rest[b]]
    {
      var m := 0;
      for i := 1 to |rest|
        invariant m < |rest|
        invariant forall b :: 0 <= b < i ==> preds[rest[m]] >= preds[rest[b]]
      {
        if preds[rest[i]] > preds[rest[m]] {
          m := i;
        }
      }
      var best := rest[m];
      assert best in rest && best !in top;
      top := top + [best];
      rest := rest[..m] + rest[m + 1..];
      assert best !in rest;
    }
  }

  /**
   * `[{"label": label_map[str(i)], "confidence": preds[i]} for i in top]`:
   * an index whose key is missing from the label map raises `KeyError`.
   */
  function Options(preds: seq<real>, top: seq<nat>, labelMap: map<string, string>): (r: Result<seq<Candidate>>)
    requires forall k :: 0 <= k < |top| ==> top[k] < |preds|
    ensures r.Ok? <==> forall k :: 0 <= k < |top| ==> Decimal.IntToString(top[k]) in labelMap
    ensures r.Ok? ==> |r.value| == |top|
    ensures r.Ok? ==> forall k :: 0 <= k < |top| ==>
      r.value[k] == Candidate(labelMap[Decimal.IntToString(top[k])], preds[top[k]])
    ensures r.Err? ==> r.error == Uncaught("KeyError")
    decreases |top|
  {
    if top == [] then Ok([])
    else
      var key := Decimal.IntToString(top[0]);
      if key !in labelMap then Err(Uncaught("KeyError"))
      else
        match Options(preds, top[1..], labelMap)
        case Err(e) => Err(e)
        case Ok(rest) => Ok([Candidate(labelMap[key], preds[top[0]])] + rest)
  }

  /** `nutrition_data.get(label, {})`. */
  function NutritionOf(nutritionDb: map<string, Json>, foodName: string): (facts: Json)
    ensures foodName in nutritionDb ==> facts == nutritionDb[foodName]
    ensures foodName !in nutritionDb ==> facts == JObject(map[])
  {
    if foodName in nutritionDb then nutritionDb[foodName] else JObject(map[])
  }

  /**
   * The threshold gate on the ranked options. No options at all means
   * `top_predictions[0]` raises `IndexError`.
   */
  function Gate(options: seq<Candidate>, nutritionDb: map<string, Json>): (r: Result<PredictResponse>)
    ensures options == [] <==> r == Err(Uncaught("IndexError"))
    ensures options != [] ==> r.Ok?
    ensures r.Ok? && r.value.Confident? <==> options != [] && options[0].confidence >= ConfidenceThreshold
    ensures r.Ok? && r.value.Uncertain? <==> options != [] && options[0].confidence < ConfidenceThreshold
    ensures r.Ok? && r.value.Uncertain? ==> r.value.options == options
    ensures r.Ok? && r.value.Confident? ==>
      && r.value.predictedLabel == options[0].name
      && r.value.confidence == options[0].confidence >= ConfidenceThreshold
      && r.value.nutrition == NutritionOf(nutritionDb, options[0].name)
  {
    if options == [] then Err(Uncaught("IndexError"))
    else if options[0].confidence < ConfidenceThreshold then Ok(Uncertain(options))
    else Ok(Confident(options[0].name, options[0].confidence, NutritionOf(nutritionDb, options[0].name)))
  }

  /**
   * The answer for a classifier output and a choice of top indices: every
   * index is looked up before the best one is compared with the threshold.
   */
  function Respond(preds: seq<real>, top: seq<nat>, labelMap: map<string, string>, nutritionDb: map<string, Json>)
    : (r: Result<PredictResponse>)
    requires forall k :: 0 <= k < |top| ==> top[k] < |preds|
    ensures (exists k :: 0 <= k < |top| && Decimal.IntToString(top[k]) !in labelMap) ==> r == Err(Uncaught("KeyError"))
    ensures (forall k :: 0 <= k < |top| ==> Decimal.IntToString(top[k]) in labelMap) ==>
      (top == [] <==> r == Err(Uncaught("IndexError")))
    ensures top != [] && (forall k :: 0 <= k < |top| ==> Decimal.IntToString(top[k]) in labelMap) ==> r.Ok?
    ensures r.Ok? ==> (r.value.Confident? <==> preds[top[0]] >= ConfidenceThreshold)
    ensures r.Ok? ==> top != [] && (r.value.Uncertain? <==> preds[top[0]] < ConfidenceThreshold)
    ensures r.Ok? && r.value.Confident? ==>
      && r.value.predictedLabel == labelMap[Decimal.IntToString(top[0])]
      && r.value.confidence == preds[top[0]]
      && r.value.nutrition == NutritionOf(nutritionDb, r.value.predictedLabel)
  {
    match Options(preds, top, labelMap)
    case Err(e) => Err(e)
    case Ok(options) => Gate(options, nutritionDb)
  }

  /**
   * The POST branch of `/predict`. The request's image is `None` when the
   * form has no `image` field. Also returns the ranking it chose, which is
   * any ranking the unstable sort could produce.
   */
  method Predict(
    image: Option<UploadFile>,
    classify: UploadFile -> seq<real>,
    labelMap: map<string, string>,
    nutritionDb: map<string, Json>)
    returns (r: Result<PredictResponse>, top: seq<nat>)
    ensures image.None? ==> r == Err(NoImage) && top == []
    ensures image.Some? ==> IsTopK(classify(image.value), top)
    ensures image.Some? ==> r == Respond(classify(image.value), top, labelMap, nutritionDb)
  {
    if image.None? {
      return Err(NoImage), [];
    }
    var preds := classify(image.value);
    top := TopIndices(preds);
    r := Respond(preds, top, labelMap, nutritionDb);
  }

  /** The first of the top indices is a class of maximal confidence. */
  lemma TopIsMaximal(preds: seq<real>, top: seq<nat>)
    requires IsTopK(preds, top) && top != []
    ensures forall j :: 0 <= j < |preds| ==> preds[top[0]] >= preds[j]
  {
    forall j | 0 <= j < |preds|
      ensures preds[top[0]] >= preds[j]
    {
      if j in top {
        var l :| 0 <= l < |top| && top[l] == j;
        if l != 0 {
          assert preds[top[0]] >= preds[top[l]];
        }
      }
    }
  }

  /**
   * An `uncertain` answer means no class reaches the threshold; a
   * `confident` answer names a class of maximal confidence, which reaches it.
   */
  lemma GateMatchesMaximum(preds: seq<real>, top: seq<nat>, labelMap: map<string, string>, nutritionDb: map<string, Json>)
    requires IsTopK(preds, top)
    ensures var r := Respond(preds, top, labelMap, nutritionDb);
      && (r.Ok? && r.value.Uncertain? ==> forall j :: 0 <= j < |preds| ==> preds[j] < ConfidenceThreshold)
      && (r.Ok? && r.value.Confident? ==>
            && r.value.confidence >= ConfidenceThreshold
            && exists i :: 0 <= i < |preds| && Decimal.IntToString(i) in labelMap
                 && r.value.predictedLabel == labelMap[Decimal.IntToString(i)]
                 && r.value.confidence == preds[i]
                 && (forall j :: 0 <= j < |preds| ==> preds[i] >= preds[j]))
  {
    if top != [] {
      TopIsMaximal(preds, top);
      var o := Options(preds, top, labelMap);
      if o.Ok? {
        assert o.value[0] == Candidate(labelMap[Decimal.IntToString(top[0])], preds[top[0]]);
      }
    }
  }

  /**
   * Whichever ranking the sort produces among equal confidences, a
   * successful answer has the same status and the same confidence.
   */
  lemma OutcomeIgnoresTies(
    preds: seq<real>, top1: seq<nat>, top2: seq<nat>,
    labelMap: map<string, string>, nutritionDb: map<string, Json>)
    requires IsTopK(preds, top1) && IsTopK(preds, top2)
    requires Respond(preds, top1, labelMap, nutritionDb).Ok? && Respond(preds, top2, labelMap, nutritionDb).Ok?
    ensures var r1, r2 := Respond(preds, top1, labelMap, nutritionDb).value, Respond(preds, top2, labelMap, nutritionDb).value;
      && r1.Uncertain? == r2.Uncertain?
      && (r1.Confident? ==> r1.confidence == r2.confidence)
  {
    if top1 != [] {
      TopIsMaximal(preds, top1);
      TopIsMaximal(preds, top2);
      assert preds[top1[0]] == preds[top2[0]];
      var o1 := Options(preds, top1, labelMap);
      var o2 := Options(preds, top2, labelMap);
      assert o1.value[0].confidence == preds[top1[0]];
      assert o2.value[0].confidence == preds[top2[0]];
    }
  }

  /** Every option of the answer names its class through the label map and carries that class's confidence. */
  lemma OptionsAreLabelled(preds: seq<real>, top: seq<nat>, labelMap: map<string, string>, nutritionDb: map<string, Json>)
    requires IsTopK(preds, top)
    ensures var r := Respond(preds, top, labelMap, nutritionDb);
      r.Ok? && r.value.Uncertain? ==>
        && |r.value.options| == |top| == (if |preds| < 3 then |preds| else 3)
        && (forall k :: 0 <= k < |top| ==>
              && r.value.options[k].name == labelMap[Decimal.IntToString(top[k])]
              && r.value.options[k].confidence == preds[top[k]])
        && (forall k, l :: 0 <= k < l < |top| ==> r.value.options[k].confidence >= r.value.options[l].confidence)
  {
  }

  /** A label index missing from the label map is an error, never a default, whatever the confidences. */
  lemma MissingLabelFails(preds: seq<real>, top: seq<nat>, labelMap: map<string, string>, nutritionDb: map<string, Json>, k: nat)
    requires IsTopK(preds, top)
    requires k < |top| && Decimal.IntToString(top[k]) !in labelMap
    ensures Respond(preds, top, labelMap, nutritionDb) == Err(Uncaught("KeyError"))
  {
  }
}
