/** The request and response handling around the image-editing model:
    stripping data-URL prefixes, assembling the request's parts, and turning
    the model's reply into an image data URL or one of a fixed set of error
    messages. The network call itself is foreign; its reply is an input here. */
module GeminiService {
  import opened Common

  const Separator: string := ";base64,"
  const PngHead: string := "data:image/png"
  /** Every returned image is labelled PNG, whatever the model sent. */
  const ImageUrlPrefix: string := PngHead + Separator
  const ModelName: string := "gemini-2.5-flash-image"

  const MissingKeyMessage: string := "API Key is missing. Please connect your account or provide a key."
  const SafetyMessage: string := "Generation blocked by Safety Filters. Try a different image (avoid people/faces) or prompt."
  const RecitationMessage: string := "Generation blocked due to copyright/recitation concerns."
  const BlockedPrefix: string := "Request blocked: "
  const NoImageMessage: string := "No image data returned. The model may have refused the request."
  const FallbackMessage: string := "Failed to generate image."

  // ---------------------------------------------------------------------
  // Substring search (the semantics of `includes` and `split`)
  // ---------------------------------------------------------------------

  predicate OccursAt(s: string, pat: string, i: nat)
  {
    i + |pat| <= |s| && s[i..i + |pat|] == pat
  }

  ghost predicate Includes(s: string, pat: string)
  {
    exists i: nat :: OccursAt(s, pat, i)
  }

  /** The first position at or after `from` where `pat` occurs in `s`. */
  function FindFrom(s: string, pat: string, from: nat): (r: Option<nat>)
    ensures r.Some? ==> from <= r.value && OccursAt(s, pat, r.value)
    ensures r.Some? ==> forall k: nat :: from <= k < r.value ==> !OccursAt(s, pat, k)
    ensures r.None? ==> forall k: nat :: from <= k ==> !OccursAt(s, pat, k)
    decreases |s| - from
  {
    if from + |pat| > |s| then None
    else if OccursAt(s, pat, from) then Some(from)
    else FindFrom(s, pat, from + 1)
  }

  /** A search from `from` stops at the first occurrence after it. */
  lemma FindFromFirst(s: string, pat: string, from: nat, i: nat)
    requires from <= i && OccursAt(s, pat, i)
    requires forall k: nat :: from <= k < i ==> !OccursAt(s, pat, k)
    ensures FindFrom(s, pat, from) == Some(i)
  {
  }

  /** A prefix of `s` that ends before the first occurrence of `pat` contains
      no occurrence of `pat`. */
  lemma PrefixBeforeFirst(s: string, pat: string, j: nat)
    requires |pat| > 0 && j <= |s|
    requires forall k: nat :: k < j ==> !OccursAt(s, pat, k)
    ensures !Includes(s[..j], pat)
  {
    forall k: nat | OccursAt(s[..j], pat, k)
      ensures false
    {
      assert s[..j][k..k + |pat|] == s[k..k + |pat|];
      assert OccursAt(s, pat, k);
    }
  }

  // ---------------------------------------------------------------------
  // cleanBase64
  // ---------------------------------------------------------------------

  /** `b64.split(';base64,')[1]` when the separator occurs, else `b64`:
      the text between the first occurrence of the separator and the next
      one, or the end of the string. */
  function CleanBase64(b64: string): (r: string)
    ensures !Includes(b64, Separator) ==> r == b64
    ensures Includes(b64, Separator) ==>
      var i := FindFrom(b64, Separator, 0).value;
      var rest := b64[i + |Separator|..];
      && r <= rest
      && !Includes(r, Separator)
      && (r == rest || OccursAt(rest, Separator, |r|))
  {
    match FindFrom(b64, Separator, 0)
    case None => b64
    case Some(i) =>
      var rest := b64[i + |Separator|..];
      match FindFrom(rest, Separator, 0)
      case None => rest
      case Some(j) =>
        PrefixBeforeFirst(rest, Separator, j);
        rest[..j]
  }

  /** Stripping the prefix this service puts on the images it returns gives
      back the payload, as long as the payload has no separator of its own. */
  lemma CleanImageUrl(d: string)
    requires !Includes(d, Separator)
    ensures CleanBase64(ImageUrlPrefix + d) == d
  {
    var s := ImageUrlPrefix + d;
    var i := |PngHead|;
    assert s == PngHead + Separator + d;
    assert s[i..i + |Separator|] == Separator;
    assert ';' !in PngHead && Separator[0] == ';';
    forall k: nat | k < i
      ensures !OccursAt(s, Separator, k)
    {
      assert s[k] == PngHead[k] && PngHead[k] in PngHead;
    }
    FindFromFirst(s, Separator, 0, i);
    assert s[i + |Separator|..] == d;
  }

  // ---------------------------------------------------------------------
  // Request assembly
  // ---------------------------------------------------------------------

  datatype ImageRef = ImageRef(base64: string, mimeType: string)

  datatype Part = InlinePart(data: string, mimeType: string) | TextPart(text: string)

  datatype Request = Request(model: string, apiKey: string, parts: seq<Part>)

  /** The base image is sent only when both its data and its MIME type are
      truthy (present and not empty). */
  predicate SendsBaseImage(base64: Option<string>, mimeType: Option<string>): (sent: bool)
    ensures !sent <==> base64 in {None, Some("")} || mimeType in {None, Some("")}
  {
    Truthy(base64) && Truthy(mimeType)
  }

  /** The layout of a request: the base image if sent, then every reference
      in order, then the prompt; image payloads are cleaned of any data-URL
      prefix. */
  ghost predicate PartsLaidOut(parts: seq<Part>, base64: Option<string>, mimeType: Option<string>,
                               refs: seq<ImageRef>, prompt: string)
  {
    var b := if SendsBaseImage(base64, mimeType) then 1 else 0;
    && |parts| == b + |refs| + 1
    && (b == 1 ==> parts[0] == InlinePart(CleanBase64(base64.value), mimeType.value))
    && (forall k :: 0 <= k < |refs| ==>
          parts[b + k] == InlinePart(CleanBase64(refs[k].base64), refs[k].mimeType))
    && parts[|parts| - 1] == TextPart(prompt)
  }

  method BuildParts(base64: Option<string>, mimeType: Option<string>, refs: seq<ImageRef>, prompt: string)
    returns (parts: seq<Part>)
    ensures PartsLaidOut(parts, base64, mimeType, refs, prompt)
  {
    parts := [];
    if SendsBaseImage(base64, mimeType) {
      parts := parts + [InlinePart(CleanBase64(base64.value), mimeType.value)];
    }
    var b := |parts|;
    var n := 0;
    while n < |refs|
      invariant 0 <= n <= |refs|
      invariant b == (if SendsBaseImage(base64, mimeType) then 1 else 0)
      invariant |parts| == b + n
      invariant b == 1 ==> parts[0] == InlinePart(CleanBase64(base64.value), mimeType.value)
      invariant forall k :: 0 <= k < n ==>
                  parts[b + k] == InlinePart(CleanBase64(refs[k].base64), refs[k].mimeType)
    {
      parts := parts + [InlinePart(CleanBase64(refs[n].base64), refs[n].mimeType)];
      n := n + 1;
    }
    parts := parts + [TextPart(prompt)];
  }

  /** `apiKey || process.env.API_KEY`: an empty argument falls back to the
      environment's value. */
  function ResolveKey(apiKey: Option<string>, envKey: Option<string>): (r: Option<string>)
    ensures Truthy(r) <==> Truthy(apiKey) || Truthy(envKey)
    ensures Truthy(apiKey) ==> r == apiKey
    ensures !Truthy(apiKey) ==> r == envKey
  {
    if Truthy(apiKey) then apiKey else envKey
  }

  // ---------------------------------------------------------------------
  // Response classification
  // ---------------------------------------------------------------------

  datatype InlineData = InlineData(data: string, mimeType: string)

  datatype ResponsePart = ResponsePart(inlineData: Option<InlineData>)

  datatype Candidate = Candidate(finishReason: Option<string>, parts: seq<ResponsePart>)

  /** The reply: its candidates (possibly absent) and the prompt feedback's
      block reason (absent when there is no feedback). */
  datatype Response = Response(candidates: Option<seq<Candidate>>, blockReason: Option<string>)

  /** What the network call produced: a reply, or a thrown error's message. */
  datatype Transport = Delivered(response: Response) | NetworkFailure(message: string)

  /** `parts.find(p => p.inlineData)`: the index of the first part that
      carries inline data. */
  function FirstInline(parts: seq<ResponsePart>): (r: Option<nat>)
    ensures r.Some? ==> r.value < |parts| && parts[r.value].inlineData.Some?
    ensures r.Some? ==> forall j :: 0 <= j < r.value ==> parts[j].inlineData.None?
    ensures r.None? ==> forall j :: 0 <= j < |parts| ==> parts[j].inlineData.None?
  {
    if |parts| == 0 then None
    else if parts[0].inlineData.Some? then Some(0)
    else match FirstInline(parts[1..])
         case None => None
         case Some(i) => Some(i + 1)
  }

  /** The errors the service throws. Each carries the message the source
      throws with it (see `Message`); `Failed` is an error from the network
      call itself, whose message is passed through. */
  datatype ServiceError =
    | MissingKey
    | SafetyBlock
    | RecitationBlock
    | PromptBlocked(reason: string)
    | NoImage
    | Failed(message: string)
  {
    /** The thrown error's message; a network error's goes through the
        catch's rethrow. */
    function Message(): (m: string)
      ensures m != ""
    {
      match this
      case MissingKey => MissingKeyMessage
      case SafetyBlock => SafetyMessage
      case RecitationBlock => RecitationMessage
      case PromptBlocked(reason) => BlockedPrefix + reason
      case NoImage => NoImageMessage
      case Failed(message) => Rethrown(message)
    }
  }

  /** The catch's `error.message || "Failed to generate image."`: the message
      an error is rethrown with. */
  function Rethrown(message: string): (m: string)
    ensures m != ""
    ensures message != "" ==> m == message
    ensures message == "" ==> m == FallbackMessage
  {
    if message != "" then message else FallbackMessage
  }

  /** The catch passes every error's message through: rethrowing any error
      the service raises leaves its message as it was, and a network error
      is reported with its own message, or the fallback when it has none. */
  lemma RethrowPassesThrough(e: ServiceError)
    ensures Rethrown(e.Message()) == e.Message()
    ensures e.Failed? ==> e.Message() == Rethrown(e.message)
    ensures e.Failed? && e.message == "" ==> e.Message() == FallbackMessage
  {
  }

  /** The error a candidate's finish reason raises, if any: only `SAFETY` and
      `RECITATION` stop the search for an image; `STOP`, an absent reason and
      every other reason fall through. */
  function FinishReasonError(reason: Option<string>): (r: Option<ServiceError>)
    ensures r == Some(SafetyBlock) <==> reason == Some("SAFETY")
    ensures r == Some(RecitationBlock) <==> reason == Some("RECITATION")
    ensures r.None? <==> reason != Some("SAFETY") && reason != Some("RECITATION")
  {
    if reason.Some? && reason.value != "STOP" && reason.value != "" then
      if reason.value == "SAFETY" then Some(SafetyBlock)
      else if reason.value == "RECITATION" then Some(RecitationBlock)
      else None
    else None
  }

  /** The outcome decided by the first candidate, if it decides one. */
  function CandidateOutcome(c: Candidate): (r: Option<Result<string, ServiceError>>)
    ensures r.None? <==>
      FinishReasonError(c.finishReason).None? && forall j :: 0 <= j < |c.parts| ==> c.parts[j].inlineData.None?
    ensures r.Some? && r.value.Err? ==> r.value.error == SafetyBlock || r.value.error == RecitationBlock
    ensures r.Some? && r.value.Ok? ==>
      exists j :: 0 <= j < |c.parts| && c.parts[j].inlineData.Some?
        && (forall k :: 0 <= k < j ==> c.parts[k].inlineData.None?)
        && r.value.value == ImageUrlPrefix + c.parts[j].inlineData.value.data
  {
    match FinishReasonError(c.finishReason)
    case Some(e) => Some(Err(e))
    case None =>
      match FirstInline(c.parts)
      case Some(i) => Some(Ok(ImageUrlPrefix + c.parts[i].inlineData.value.data))
      case None => None
  }

  /** Turns the model's reply into an image data URL or an error. */
  function ClassifyResponse(resp: Response): (r: Result<string, ServiceError>)
    ensures r.Ok? ==> HasCandidate(resp) && ImageUrlPrefix <= r.value
    ensures r.Err? ==> r.error != MissingKey && !r.error.Failed?
  {
    var decided :=
      if resp.candidates.Some? && |resp.candidates.value| > 0
      then CandidateOutcome(resp.candidates.value[0])
      else None;
    if decided.Some? then decided.value
    else if Truthy(resp.blockReason) then Err(PromptBlocked(resp.blockReason.value))
    else Err(NoImage)
  }

  /** True when the reply has a first candidate. */
  predicate HasCandidate(resp: Response)
  {
    resp.candidates.Some? && |resp.candidates.value| > 0
  }

  /** An image comes back exactly when there is a first candidate, its finish
      reason is not SAFETY or RECITATION, and one of its parts has inline
      data; the URL then carries the first such part's data. */
  lemma ImageReturnedIff(resp: Response)
    ensures ClassifyResponse(resp).Ok? <==>
      && HasCandidate(resp)
      && resp.candidates.value[0].finishReason != Some("SAFETY")
      && resp.candidates.value[0].finishReason != Some("RECITATION")
      && exists j :: 0 <= j < |resp.candidates.value[0].parts|
                      && resp.candidates.value[0].parts[j].inlineData.Some?
    ensures ClassifyResponse(resp).Ok? ==>
      exists j :: 0 <= j < |resp.candidates.value[0].parts|
        && resp.candidates.value[0].parts[j].inlineData.Some?
        && (forall k :: 0 <= k < j ==> resp.candidates.value[0].parts[k].inlineData.None?)
        && ClassifyResponse(resp).value
           == ImageUrlPrefix + resp.candidates.value[0].parts[j].inlineData.value.data
  {
  }

  /** Which error comes back when no image does: the finish reason of the
      first candidate first, then the prompt feedback's block reason, and
      otherwise "no image data". */
  lemma ClassifiedErrors(resp: Response)
    ensures ClassifyResponse(resp) == Err(SafetyBlock) <==>
      HasCandidate(resp) && resp.candidates.value[0].finishReason == Some("SAFETY")
    ensures ClassifyResponse(resp) == Err(RecitationBlock) <==>
      HasCandidate(resp) && resp.candidates.value[0].finishReason == Some("RECITATION")
    ensures ClassifyResponse(resp).Err? && ClassifyResponse(resp).error.PromptBlocked? ==>
      Truthy(resp.blockReason) && ClassifyResponse(resp).error.reason == resp.blockReason.value
    ensures ClassifyResponse(resp).Err? ==>
      ClassifyResponse(resp).error in {SafetyBlock, RecitationBlock, NoImage}
      || ClassifyResponse(resp).error.PromptBlocked?
    ensures ClassifyResponse(resp) == Err(NoImage) <==>
      ClassifyResponse(resp).Err? && !Truthy(resp.blockReason)
      && !(HasCandidate(resp) && FinishReasonError(resp.candidates.value[0].finishReason).Some?)
  {
  }

  /** A returned image URL, cleaned the way this service cleans its inputs,
      gives back the model's payload, so a result can be sent back in. */
  lemma ResultFeedsBack(resp: Response)
    requires ClassifyResponse(resp).Ok?
    requires forall c :: c in resp.candidates.value ==>
               forall p :: p in c.parts && p.inlineData.Some? ==> !Includes(p.inlineData.value.data, Separator)
    ensures exists d :: ClassifyResponse(resp).value == ImageUrlPrefix + d
                        && CleanBase64(ClassifyResponse(resp).value) == d
  {
    ImageReturnedIff(resp);
    var c := resp.candidates.value[0];
    var i := FirstInline(c.parts).value;
    var d := c.parts[i].inlineData.value.data;
    assert c in resp.candidates.value && c.parts[i] in c.parts;
    CleanImageUrl(d);
  }

  // ---------------------------------------------------------------------
  // generateImageEdit
  // ---------------------------------------------------------------------

  /** What one call of the service returns or throws, given the key passed
      in, the environment's key and what the network call produced: a
      missing key is reported before anything is sent; a network error's
      message is passed through; a reply is classified. Errors from the
      classification are rethrown by the source's catch with their own
      (never empty) message, so they pass through unchanged. */
  function ServiceOutcome(apiKey: Option<string>, envKey: Option<string>, reply: Transport)
    : (r: Result<string, ServiceError>)
    ensures r == Err(MissingKey) <==> !Truthy(apiKey) && !Truthy(envKey)
    ensures r.Ok? <==>
      (Truthy(apiKey) || Truthy(envKey)) && reply.Delivered? && ClassifyResponse(reply.response).Ok?
    ensures (Truthy(apiKey) || Truthy(envKey)) && reply.Delivered? ==> r == ClassifyResponse(reply.response)
    ensures (Truthy(apiKey) || Truthy(envKey)) && reply.NetworkFailure? ==>
      r == Err(Failed(reply.message)) && r.error.Message() == Rethrown(reply.message)
  {
    if !Truthy(ResolveKey(apiKey, envKey)) then Err(MissingKey)
    else match reply
         case NetworkFailure(m) => Err(Failed(m))
         case Delivered(resp) => ClassifyResponse(resp)
  }

  /** One call of the service: the key check comes first, and only with a
      key is a request assembled and sent (`sent`). */
  method GenerateImageEdit(modelName: string, prompt: string,
                           base64: Option<string>, mimeType: Option<string>,
                           refs: seq<ImageRef>, apiKey: Option<string>,
                           envKey: Option<string>, reply: Transport)
    returns (r: Result<string, ServiceError>, sent: Option<Request>)
    ensures r == ServiceOutcome(apiKey, envKey, reply)
    ensures sent.None? <==> !Truthy(ResolveKey(apiKey, envKey))
    ensures sent.Some? ==>
      && sent.value.model == modelName
      && sent.value.apiKey == ResolveKey(apiKey, envKey).value
      && PartsLaidOut(sent.value.parts, base64, mimeType, refs, prompt)
  {
    var finalKey := ResolveKey(apiKey, envKey);
    if !Truthy(finalKey) {
      return Err(MissingKey), None;
    }
    var parts := BuildParts(base64, mimeType, refs, prompt);
    sent := Some(Request(modelName, finalKey.value, parts));
    match reply {
      case NetworkFailure(m) =>
        r := Err(Failed(m));
      case Delivered(resp) =>
        r := ClassifyResponse(resp);
    }
  }
}
