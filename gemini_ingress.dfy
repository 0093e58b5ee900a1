/** The Gemini ingress glue (`src/api/ingress/gemini/spec.rs`): the model
    and the streaming flag come from the URL's `{model}:{action}` segment,
    are stored on the wire request, and decoding refuses a wire request
    that never received them. */
module GeminiIngress {
  import opened Wrappers
  import opened Bytes
  import opened Errors
  import opened JsonValue
  import opened Canonical
  import G = GeminiDecoder

  /** The `{model}:{action}` path segment, parsed. */
  datatype GeminiAction = GeminiAction(model: bytes, isStream: bool)

  const STREAM_ACTION: bytes := "streamGenerateContent"

  const GENERATE_ACTION: bytes := "generateContent"

  const MISSING_MODEL: bytes := "Gemini requested model context is missing"

  /** The position of the last `:` (what `rsplit_once(':')` splits at). */
  function LastColon(s: bytes): (r: Option<nat>)
    ensures r.Some? ==> r.value < |s| && s[r.value] == ':' && forall k | r.value < k < |s| :: s[k] != ':'
    ensures r.None? ==> !HasByte(s, ':')
    decreases |s|
  {
    if |s| == 0 then None
    else if s[|s| - 1] == ':' then Some(|s| - 1)
    else LastColon(s[..|s| - 1])
  }

  /** `parse_model_action`: split at the last `:`; the action
      `streamGenerateContent` means streaming, any other action does not,
      and without a `:` the whole segment is the model. */
  function ParseModelAction(modelAction: bytes): (r: GeminiAction)
    ensures StartsWith(modelAction, r.model)
    ensures r.isStream <==> modelAction == r.model + ":" + STREAM_ACTION
    ensures !HasByte(modelAction, ':') ==> r == GeminiAction(modelAction, false)
  {
    match LastColon(modelAction)
    case None => GeminiAction(modelAction, false)
    case Some(i) =>
      var r := GeminiAction(modelAction[..i], modelAction[i + 1..] == STREAM_ACTION);
      assert modelAction == modelAction[..i] + ":" + modelAction[i + 1..];
      r
  }

  /** A segment `model:action` whose action has no `:` splits back into
      its model, whatever colons the model holds, and streams exactly
      when the action is `streamGenerateContent`. */
  lemma ParseSplitsAtAction(model: bytes, action: bytes)
    requires !HasByte(action, ':')
    ensures ParseModelAction(model + ":" + action) == GeminiAction(model, action == STREAM_ACTION)
  {
    var s := model + ":" + action;
    var last := LastColon(s);
    assert s[|model|] == ':';
    assert forall k | |model| < k < |s| :: s[k] == action[k - |model| - 1];
    assert last.value == |model|;
    assert s[..|model|] == model && s[|model| + 1..] == action;
  }

  /** `gemini-pro:streamGenerateContent` streams for model `gemini-pro`,
      and `gemini-pro:generateContent` does not. */
  lemma StreamingFollowsTheAction(model: bytes)
    ensures ParseModelAction(model + ":" + STREAM_ACTION) == GeminiAction(model, true)
    ensures ParseModelAction(model + ":" + GENERATE_ACTION) == GeminiAction(model, false)
  {
    ParseSplitsAtAction(model, STREAM_ACTION);
    assert |GENERATE_ACTION| != |STREAM_ACTION|;
    ParseSplitsAtAction(model, GENERATE_ACTION);
  }

  /** A wire request with its model context (`GeminiWireRequest`). */
  class GeminiWireRequest {
    var request: G.GeminiRequest
    var requestedModel: bytes
    var streamRequested: bool

    /** `parse_wire_request`: no model context yet, not streaming. */
    constructor (request: G.GeminiRequest)
      ensures this.request == request && requestedModel == [] && !streamRequested
    {
      this.request := request;
      requestedModel := [];
      streamRequested := false;
    }

    /** `wire_stream_requested`. */
    function WireStreamRequested(): bool
      reads this
    {
      streamRequested
    }

    /** `set_request_context`: replaces the model and the streaming flag,
        leaving the request body alone. */
    method SetRequestContext(model: bytes, stream: bool)
      modifies this
      ensures requestedModel == model && WireStreamRequested() == stream
      ensures request == old(request)
    {
      requestedModel := model;
      streamRequested := stream;
    }

    /** `decode_wire_ref`: fails with an internal error exactly when no
        model context was set; otherwise the decoded request carries the
        stored model and the stored streaming flag. */
    function DecodeWire(toJson: Json -> bytes): (r: Result<Request, CanonicalError>)
      reads this
      ensures r.Err? <==> requestedModel == []
      ensures r.Err? ==> r.error == Internal(MISSING_MODEL)
      ensures r.Ok? ==> r.value.model == requestedModel && r.value.stream == WireStreamRequested()
                        && r.value.ingress == Gemini
                        && r.value.messages == G.DecodedRequest(request, requestedModel, toJson).messages
    {
      if requestedModel == [] then Err(Internal(MISSING_MODEL))
      else Ok(G.DecodedRequest(request, requestedModel, toJson).(stream := streamRequested))
    }
  }

  /** The path `:streamGenerateContent` carries an empty model, which the
      decoding guard then refuses. */
  lemma EmptyModelSegment()
    ensures ParseModelAction(":" + STREAM_ACTION) == GeminiAction([], true)
  {
    ParseSplitsAtAction([], STREAM_ACTION);
    assert [] + ":" + STREAM_ACTION == ":" + STREAM_ACTION;
  }
}
