/**
 * `n8n_transcript_summary`: an automation posts a call summary, and the bot
 * republishes it, under a fixed header, in the channel the payload names.
 */
module Webhook {
  import opened Wrappers
  import opened Actions

  /**
   * The request body as the handler sees it: no JSON at all, or a JSON
   * object whose fields are strings.
   */
  datatype Payload = NoJson | Object(fields: map<string, string>)

  /** The line put in front of every republished summary. */
  const SummaryHeader := "\U{1F4C4} Here's a summary of the recent client call:\n\n"

  const InvalidPayloadMessage := "Invalid payload. 'summary' and 'channel' are required."

  /** Python truthiness of the body: `not data` holds for a missing body and for an empty object. */
  predicate Truthy(p: Payload) {
    p.Object? && |p.fields| > 0
  }

  /**
   * The guard the handler applies before posting. The emptiness test is
   * subsumed by the key tests: a body passes exactly when it is a JSON object
   * holding both keys.
   */
  predicate WellFormed(p: Payload)
    ensures WellFormed(p) <==> p.Object? && "summary" in p.fields && "channel" in p.fields
  {
    Truthy(p) && "summary" in p.fields && "channel" in p.fields
  }

  /** The message posted for a summary: the header, then the summary unchanged. */
  function SummaryText(summary: string): (s: string)
    ensures |s| == |SummaryHeader| + |summary|
    ensures s[..|SummaryHeader|] == SummaryHeader
    ensures s[|SummaryHeader|..] == summary
  {
    SummaryHeader + summary
  }

  /** Reads a summary back out of a posted message; the inverse of `SummaryText`. */
  function SummaryOf(text: string): (r: Option<string>)
    ensures r.Some? <==> |text| >= |SummaryHeader| && text[..|SummaryHeader|] == SummaryHeader
    ensures r.Some? ==> SummaryText(r.value) == text
  {
    if |text| >= |SummaryHeader| && text[..|SummaryHeader|] == SummaryHeader then
      assert text == text[..|SummaryHeader|] + text[|SummaryHeader|..];
      Some(text[|SummaryHeader|..])
    else None
  }

  /** Decoding the posted text gives back exactly the summary that was sent. */
  lemma SummaryRoundTrip(summary: string)
    ensures SummaryOf(SummaryText(summary)) == Some(summary)
  {
    assert SummaryText(summary)[..|SummaryHeader|] == SummaryHeader;
  }

  /**
   * The handler as written: `jsonify` is given the error object and 400 as
   * two positional values, so it serializes both into one JSON array and the
   * response keeps the framework's default status, 200.
   */
  function TranscriptSummaryAsWritten(p: Payload): (r: Action)
    ensures r.Reject? || r.Post?
    ensures r.Reject? <==> !WellFormed(p)
    ensures r.Reject? ==> r == Reject(200, "error", InvalidPayloadMessage, Some(400))
    ensures r.Post? ==> p.Object? && r.channel == p.fields["channel"]
                        && SummaryOf(r.text) == Some(p.fields["summary"])
  {
    if !WellFormed(p) then Reject(200, "error", InvalidPayloadMessage, Some(400))
    else
      SummaryRoundTrip(p.fields["summary"]);
      Post(p.fields["channel"], SummaryText(p.fields["summary"]))
  }

  /**
   * The handler as intended: a malformed payload is answered with status 400
   * and the error object alone; a well-formed one yields exactly one post, to
   * the payload's channel, carrying the header and the summary unchanged.
   */
  function TranscriptSummary(p: Payload): (r: Action)
    ensures r.Reject? || r.Post?
    ensures r.Reject? <==> !WellFormed(p)
    ensures r.Reject? ==> r == Reject(400, "error", InvalidPayloadMessage, None)
    ensures r.Post? ==> p.Object? && r.channel == p.fields["channel"]
                        && SummaryOf(r.text) == Some(p.fields["summary"])
  {
    if !WellFormed(p) then Reject(400, "error", InvalidPayloadMessage, None)
    else
      SummaryRoundTrip(p.fields["summary"]);
      Post(p.fields["channel"], SummaryText(p.fields["summary"]))
  }

  /** The two versions agree on accepted bodies; a refusal differs in its status and in the trailing 400. */
  lemma {:induction false} AsWrittenDiffersOnlyInRejection(p: Payload)
    ensures WellFormed(p) ==> TranscriptSummaryAsWritten(p) == TranscriptSummary(p)
    ensures !WellFormed(p) ==> (TranscriptSummaryAsWritten(p).httpStatus == 200
                                && TranscriptSummary(p).httpStatus == 400)
    ensures !WellFormed(p) ==> TranscriptSummary(p).Reject?
                               && TranscriptSummaryAsWritten(p)
                                  == TranscriptSummary(p).(httpStatus := 200, trailing := Some(400))
  {
  }

  /** A body without a summary is refused with the 400 buried in the body and status 200 on the wire. */
  lemma MissingSummaryAnsweredWith200()
    ensures TranscriptSummaryAsWritten(Object(map["channel" := "general"]))
         == Reject(200, "error", InvalidPayloadMessage, Some(400))
    ensures TranscriptSummary(Object(map["channel" := "general"])).httpStatus == 400
  {
  }

  /** A complete body is republished to the named channel. */
  lemma CompletePayloadIsPosted()
    ensures TranscriptSummary(Object(map["summary" := "call notes", "channel" := "general"]))
         == Post("general", SummaryHeader + "call notes")
  {
  }
}
