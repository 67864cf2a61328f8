/**
 * POST /feedback of the classification service: a required-field check on
 * the JSON body, then one append to the feedback log. The log file's
 * read-modify-write is modelled as a sequence field the append reassigns.
 */
module Feedback {
  import opened Common

  /** One logged correction; each field is copied from the request as given. */
  datatype FeedbackRecord = FeedbackRecord(imageName: Json, correctLabel: Json, predictedLabel: Json, confidence: Json)

  const RequiredFields: seq<string> := ["image_name", "correct_label", "predicted_label", "confidence"]
  const MissingFields := HttpError(400, "Missing required fields.")

  /** `all(field in data for field in required_fields)`. */
  predicate HasRequiredFields(data: map<string, Json>): (b: bool)
    ensures b <==> "image_name" in data && "correct_label" in data && "predicted_label" in data && "confidence" in data
  {
    assert RequiredFields[0] == "image_name" && RequiredFields[1] == "correct_label";
    assert RequiredFields[2] == "predicted_label" && RequiredFields[3] == "confidence";
    forall k :: 0 <= k < |RequiredFields| ==> RequiredFields[k] in data
  }

  /** The check and the record `log_user_feedback` builds from the body. */
  function ParseFeedback(data: map<string, Json>): (r: Result<FeedbackRecord>)
    ensures r.Ok? <==> "image_name" in data && "correct_label" in data && "predicted_label" in data && "confidence" in data
    ensures r.Ok? ==> r.value == FeedbackRecord(data["image_name"], data["correct_label"], data["predicted_label"], data["confidence"])
    ensures r.Err? ==> r.error == MissingFields
  {
    if !HasRequiredFields(data) then Err(MissingFields)
    else Ok(FeedbackRecord(data["image_name"], data["correct_label"], data["predicted_label"], data["confidence"]))
  }

  /** The log after a series of requests, each handled in turn. */
  function LogAfter(log: seq<FeedbackRecord>, requests: seq<map<string, Json>>): seq<FeedbackRecord>
    decreases |requests|
  {
    if requests == [] then log
    else
      var last := requests[|requests| - 1];
      var before := LogAfter(log, requests[..|requests| - 1]);
      match ParseFeedback(last)
      case Err(_) => before
      case Ok(record) => before + [record]
  }

  /** The number of requests that pass the required-field check. */
  function ValidCount(requests: seq<map<string, Json>>): (c: nat)
    ensures c <= |requests|
    decreases |requests|
  {
    if requests == [] then 0
    else ValidCount(requests[..|requests| - 1]) + (if HasRequiredFields(requests[|requests| - 1]) then 1 else 0)
  }

  /**
   * Any series of requests only appends: earlier entries stay in place and
   * in order, and the log grows by exactly one per valid request, duplicate
   * content included.
   */
  lemma {:induction false} LogOnlyGrows(log: seq<FeedbackRecord>, requests: seq<map<string, Json>>)
    ensures |LogAfter(log, requests)| == |log| + ValidCount(requests)
    ensures LogAfter(log, requests)[..|log|] == log
    decreases |requests|
  {
    if requests != [] {
      LogOnlyGrows(log, requests[..|requests| - 1]);
    }
  }

  /** The same valid body sent twice is logged twice. */
  lemma DuplicatesAreKept(log: seq<FeedbackRecord>, data: map<string, Json>)
    requires HasRequiredFields(data)
    ensures var record := ParseFeedback(data).value;
      LogAfter(log, [data, data]) == log + [record, record]
  {
    var record := ParseFeedback(data).value;
    assert [data, data][..1] == [data];
    assert [data][..0] == [];
    assert LogAfter(log, [data]) == log + [record];
  }

  /** The feedback log file: a JSON array of records. */
  class FeedbackLog {
    var entries: seq<FeedbackRecord>

    constructor ()
      ensures entries == []
    {
      entries := [];
    }

    /** `log_user_feedback`: load the list, append one record, store the list. */
    method LogUserFeedback(imageName: Json, correctLabel: Json, predictedLabel: Json, confidence: Json)
      modifies this
      ensures entries == old(entries) + [FeedbackRecord(imageName, correctLabel, predictedLabel, confidence)]
    {
      var feedback := entries;
      feedback := feedback + [FeedbackRecord(imageName, correctLabel, predictedLabel, confidence)];
      entries := feedback;
    }

    /** The POST branch of `/feedback`: a body missing a field is refused before the log is touched. */
    method SubmitFeedback(data: map<string, Json>) returns (r: Result<string>)
      modifies this
      ensures !HasRequiredFields(data) ==> r == Err(MissingFields) && entries == old(entries)
      ensures HasRequiredFields(data) ==> r == Ok("Feedback recorded.") && entries == old(entries) + [ParseFeedback(data).value]
      ensures entries == LogAfter(old(entries), [data])
    {
      if !HasRequiredFields(data) {
        return Err(MissingFields);
      }
      LogUserFeedback(data["image_name"], data["correct_label"], data["predicted_label"], data["confidence"]);
      r := Ok("Feedback recorded.");
    }
  }
}
