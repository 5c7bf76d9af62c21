/** The application shell: the current mode, the active result and the image
    it was made from, the session's edit history with undo and redo, and the
    library of images sent to the companion apps. */
module App {
  import opened Common
  import GeminiService
  import GeneralPanel

  /** One accepted edit: its result and the base image it was made from. */
  datatype HistoryItem = HistoryItem(result: GenerationResult, original: UploadedImage)

  /** A result sent to a companion app, tagged with the mode it came from. */
  datatype SavedImage = SavedImage(
    imageUrl: string,
    timestamp: int,
    prompt: string,
    id: string,
    originalUrl: string,
    mode: AppMode)

  const GenericErrorMessage: string := "An unexpected error occurred during generation."

  /** The companion app a mode's results are sent to. */
  function TargetAppName(mode: AppMode): (name: string)
    ensures name == "My Library" <==> mode != Renovation && mode != Marketplace
    ensures mode == Renovation ==> name == "Renovision Pro"
    ensures mode == Marketplace ==> name == "CDI Marketplace"
  {
    match mode
    case Renovation => "Renovision Pro"
    case Marketplace => "CDI Marketplace"
    case _ => "My Library"
  }

  const NoticeHead: string := "Image successfully sent to "

  /** The message shown after a result was sent: the companion app's name
      between a fixed head and a closing `!`. */
  function SentNotice(mode: AppMode): (notice: string)
    ensures |notice| == |NoticeHead| + |TargetAppName(mode)| + 1
    ensures notice[..|NoticeHead|] == NoticeHead && notice[|notice| - 1] == '!'
    ensures notice[|NoticeHead|..|notice| - 1] == TargetAppName(mode)
  {
    NoticeHead + TargetAppName(mode) + "!"
  }

  /** Two notices are the same exactly when they name the same app, so the
      notice tells which app received the result. */
  lemma SentNoticeNamesApp(m1: AppMode, m2: AppMode)
    ensures SentNotice(m1) == SentNotice(m2) <==> TargetAppName(m1) == TargetAppName(m2)
  {
  }

  /** The references as the service receives them. */
  function ToImageRefs(images: seq<UploadedImage>): (refs: seq<GeminiService.ImageRef>)
    ensures |refs| == |images|
    ensures forall i :: 0 <= i < |images| ==>
      refs[i] == GeminiService.ImageRef(images[i].base64, images[i].mimeType)
  {
    seq(|images|, i requires 0 <= i < |images| => GeminiService.ImageRef(images[i].base64, images[i].mimeType))
  }

  class Shell {
    var mode: AppMode
    var error: Option<string>
    var notification: Option<string>
    var originalImage: Option<UploadedImage>
    var generationResult: Option<GenerationResult>
    var sessionHistory: seq<HistoryItem>
    var historyIndex: int
    var savedImages: seq<SavedImage>

    /** The history invariant: the index points into the history, or is -1
        exactly when the history is empty (undo never goes below 0); the
        active result is the indexed entry's result, or none at -1. */
    ghost predicate Valid(): (ok: bool)
      reads this
      ensures ok ==> (generationResult.Some? <==> sessionHistory != [])
    {
      && -1 <= historyIndex < |sessionHistory|
      && (historyIndex == -1 <==> sessionHistory == [])
      && (historyIndex == -1 ==> generationResult == None)
      && (historyIndex >= 0 ==> generationResult == Some(sessionHistory[historyIndex].result))
    }

    /** The undo button's state: enabled only when there is an earlier
        entry to step back to, never at the first entry. */
    function CanUndo(): (r: bool)
      reads this
      requires Valid()
      ensures r ==> 0 <= historyIndex - 1 < |sessionHistory|
      ensures !r ==> historyIndex <= 0
    {
      historyIndex > 0
    }

    /** The redo button's state: enabled only when a later entry exists. */
    function CanRedo(): (r: bool)
      reads this
      requires Valid()
      ensures r ==> 0 <= historyIndex + 1 < |sessionHistory|
      ensures !r ==> historyIndex == |sessionHistory| - 1
    {
      historyIndex < |sessionHistory| - 1
    }

    constructor ()
      ensures Valid()
      ensures mode == Renovation && error == None && notification == None
      ensures originalImage == None && generationResult == None
      ensures sessionHistory == [] && historyIndex == -1 && savedImages == []
    {
      mode := Renovation;
      error := None;
      notification := None;
      originalImage := None;
      generationResult := None;
      sessionHistory := [];
      historyIndex := -1;
      savedImages := [];
    }

    /** Switching mode starts over: no result, no original, no history, no
        messages. The library is kept. */
    method HandleModeChange(newMode: AppMode)
      modifies this
      ensures Valid()
      ensures mode == newMode
      ensures generationResult == None && originalImage == None
      ensures sessionHistory == [] && historyIndex == -1
      ensures error == None && notification == None
      ensures savedImages == old(savedImages)
    {
      mode := newMode;
      generationResult := None;
      originalImage := None;
      sessionHistory := [];
      historyIndex := -1;
      error := None;
      notification := None;
    }

    /** One generation request. The original is replaced before the call. On
        success the result becomes active, every entry after the current one
        is discarded, the new entry is appended and becomes current. On
        failure history, index and active result stay and the error is
        shown. With a key, the request `sent` carries the base image, every
        reference in order and the prompt. `envKey` is the environment's
        key, `reply` what the network call produced and `now` the clock's
        reading. */
    method HandleGeneration(prompt: string, baseImage: UploadedImage, refImages: seq<UploadedImage>,
                            envKey: Option<string>, reply: GeminiService.Transport, now: int)
      returns (outcome: Result<string, GeminiService.ServiceError>, sent: Option<GeminiService.Request>)
      requires Valid()
      modifies this
      ensures Valid()
      ensures outcome == GeminiService.ServiceOutcome(None, envKey, reply)
      ensures sent.Some? <==> Truthy(envKey)
      ensures sent.Some? ==>
        && sent.value.model == GeminiService.ModelName
        && sent.value.apiKey == envKey.value
        && GeminiService.PartsLaidOut(sent.value.parts, Some(baseImage.base64), Some(baseImage.mimeType),
                                      ToImageRefs(refImages), prompt)
      ensures originalImage == Some(baseImage) && notification == None
      ensures mode == old(mode) && savedImages == old(savedImages)
      ensures outcome.Ok? ==>
        && generationResult == Some(GenerationResult(outcome.value, now, prompt))
        && sessionHistory == old(sessionHistory)[..old(historyIndex) + 1]
                             + [HistoryItem(GenerationResult(outcome.value, now, prompt), baseImage)]
        && historyIndex == |sessionHistory| - 1
        && error == None
        && !CanRedo()
      ensures outcome.Err? ==>
        && sessionHistory == old(sessionHistory) && historyIndex == old(historyIndex)
        && generationResult == old(generationResult)
        && error == Some(outcome.error.Message())
    {
      error := None;
      notification := None;
      originalImage := Some(baseImage);

      outcome, sent := GeminiService.GenerateImageEdit(
        GeminiService.ModelName, prompt, Some(baseImage.base64), Some(baseImage.mimeType),
        ToImageRefs(refImages), None, envKey, reply);

      if outcome.Ok? {
        var newResult := GenerationResult(outcome.value, now, prompt);
        generationResult := Some(newResult);
        var newItem := HistoryItem(newResult, baseImage);
        var newHistory := sessionHistory[..historyIndex + 1];
        newHistory := newHistory + [newItem];
        sessionHistory := newHistory;
        historyIndex := |newHistory| - 1;
      } else {
        var message := outcome.error.Message();
        error := Some(if message != "" then message else GenericErrorMessage);
      }
    }

    /** Undo steps back one entry and makes it active; it does nothing at the
        first entry or with no history. */
    method HandleUndo()
      requires Valid()
      modifies this
      ensures Valid()
      ensures !old(CanUndo()) ==> unchanged(this)
      ensures old(CanUndo()) ==>
        && historyIndex == old(historyIndex) - 1
        && generationResult == Some(sessionHistory[historyIndex].result)
        && originalImage == Some(sessionHistory[historyIndex].original)
        && CanRedo()
      ensures sessionHistory == old(sessionHistory) && mode == old(mode)
      ensures error == old(error) && notification == old(notification)
      ensures savedImages == old(savedImages)
    {
      if historyIndex > 0 {
        var newIndex := historyIndex - 1;
        var prevItem := sessionHistory[newIndex];
        historyIndex := newIndex;
        generationResult := Some(prevItem.result);
        originalImage := Some(prevItem.original);
      }
    }

    /** Redo steps forward one entry and makes it active; it does nothing at
        the last entry. */
    method HandleRedo()
      requires Valid()
      modifies this
      ensures Valid()
      ensures !old(CanRedo()) ==> unchanged(this)
      ensures old(CanRedo()) ==>
        && historyIndex == old(historyIndex) + 1
        && generationResult == Some(sessionHistory[historyIndex].result)
        && originalImage == Some(sessionHistory[historyIndex].original)
        && CanUndo() == (old(historyIndex) >= 0)
      ensures sessionHistory == old(sessionHistory) && mode == old(mode)
      ensures error == old(error) && notification == old(notification)
      ensures savedImages == old(savedImages)
    {
      if historyIndex < |sessionHistory| - 1 {
        var newIndex := historyIndex + 1;
        var nextItem := sessionHistory[newIndex];
        historyIndex := newIndex;
        generationResult := Some(nextItem.result);
        originalImage := Some(nextItem.original);
      }
    }

    /** Sending needs both an active result and its original; the result is
        then put at the front of the library, tagged with the mode, and the
        notice names the companion app. `id` is the random id it is given. */
    method HandleSendToApp(id: string)
      requires Valid()
      modifies this
      ensures Valid()
      ensures old(generationResult.None? || originalImage.None?) ==> unchanged(this)
      ensures old(generationResult.Some? && originalImage.Some?) ==>
        && savedImages == [SavedImage(old(generationResult).value.imageUrl,
                                      old(generationResult).value.timestamp,
                                      old(generationResult).value.prompt,
                                      id, old(originalImage).value.previewUrl, mode)]
                          + old(savedImages)
        && notification == Some(SentNotice(mode))
      ensures mode == old(mode) && error == old(error)
      ensures generationResult == old(generationResult) && originalImage == old(originalImage)
      ensures sessionHistory == old(sessionHistory) && historyIndex == old(historyIndex)
    {
      if generationResult.None? || originalImage.None? {
        return;
      }
      var result := generationResult.value;
      var newSavedImage := SavedImage(result.imageUrl, result.timestamp, result.prompt,
                                      id, originalImage.value.previewUrl, mode);
      savedImages := [newSavedImage] + savedImages;
      notification := Some(SentNotice(mode));
    }
  }

  /** A reply that carries one image with payload `data`. */
  function ImageReply(data: string): GeminiService.Transport
  {
    GeminiService.Delivered(GeminiService.Response(
      Some([GeminiService.Candidate(Some("STOP"),
              [GeminiService.ResponsePart(Some(GeminiService.InlineData(data, "image/png")))])]),
      None))
  }

  /** Two edits, an undo, and a third edit: the third replaces the second,
      and there is nothing left to redo. */
  method UndoThenEditDiscardsFuture(base: UploadedImage, key: string) returns (app: Shell)
    requires key != ""
    ensures app.Valid()
    ensures |app.sessionHistory| == 2 && app.historyIndex == 1
    ensures app.sessionHistory[0].result.imageUrl == GeminiService.ImageUrlPrefix + "A"
    ensures app.sessionHistory[1].result.imageUrl == GeminiService.ImageUrlPrefix + "C"
    ensures app.CanUndo() && !app.CanRedo()
  {
    app := new Shell();
    var r, sent := app.HandleGeneration("a", base, [], Some(key), ImageReply("A"), 1);
    r, sent := app.HandleGeneration("b", base, [], Some(key), ImageReply("B"), 2);
    assert |app.sessionHistory| == 2 && app.historyIndex == 1;
    app.HandleUndo();
    assert app.historyIndex == 0;
    app.HandleUndo();
    assert app.historyIndex == 0;
    r, sent := app.HandleGeneration("c", base, [], Some(key), ImageReply("C"), 3);
  }

  // ---------------------------------------------------------------------
  // The general panel's wiring into the shell
  // ---------------------------------------------------------------------

  /** The number of request parts the base image takes: one when it is sent. */
  function BaseParts(img: UploadedImage): nat
  {
    if GeminiService.SendsBaseImage(Some(img.base64), Some(img.mimeType)) then 1 else 0
  }

  /** A submit in the general panel as the shell mounts it: the callback
      `(prompt, img) => handleGeneration(prompt, img)` passes two of the
      panel's three arguments, so the references fall back to the default
      empty list. With references and a key, the prompt announces their
      number while the request carries the base image and the prompt only. */
  method GeneralSubmitAsWritten(panel: GeneralPanel.Panel, shell: Shell,
                                envKey: Option<string>, reply: GeminiService.Transport, now: int)
    returns (sub: Option<GeneralPanel.Submission>, sent: Option<GeminiService.Request>)
    requires shell.Valid()
    modifies shell
    ensures shell.Valid()
    ensures sub.Some? && Truthy(envKey) && panel.referenceImages != [] ==>
      && |GeneralPanel.Preamble| + |panel.prompt| + |GeneralPanel.Closing| <= |sub.value.prompt|
      && GeneralPanel.StatedCount(GeneralPanel.MiddleOf(sub.value.prompt, panel.prompt))
         == Some(|panel.referenceImages|)
      && sent.Some?
      && |sent.value.parts| == BaseParts(sub.value.baseImage) + 1
      && |sent.value.parts| < BaseParts(sub.value.baseImage) + |panel.referenceImages| + 1
  {
    sub := panel.HandleSubmit();
    sent := None;
    if sub.Some? {
      var outcome;
      outcome, sent := shell.HandleGeneration(sub.value.prompt, sub.value.baseImage, [], envKey, reply, now);
    }
  }

  /** The wiring the panel's callback type declares: all three arguments are
      passed. With a key, the request carries exactly as many reference
      images as the prompt announces, each one the panel's reference in
      order. */
  method GeneralSubmit(panel: GeneralPanel.Panel, shell: Shell,
                       envKey: Option<string>, reply: GeminiService.Transport, now: int)
    returns (sub: Option<GeneralPanel.Submission>, sent: Option<GeminiService.Request>)
    requires shell.Valid()
    modifies shell
    ensures shell.Valid()
    ensures sub.Some? && Truthy(envKey) && panel.referenceImages != [] ==>
      && |GeneralPanel.Preamble| + |panel.prompt| + |GeneralPanel.Closing| <= |sub.value.prompt|
      && GeneralPanel.StatedCount(GeneralPanel.MiddleOf(sub.value.prompt, panel.prompt))
         == Some(|panel.referenceImages|)
    ensures sub.Some? && Truthy(envKey) ==>
      var b := BaseParts(sub.value.baseImage);
      var refs := panel.referenceImages;
      && sent.Some?
      && |sent.value.parts| == b + |refs| + 1
      && forall k :: 0 <= k < |refs| ==>
           sent.value.parts[b + k]
           == GeminiService.InlinePart(GeminiService.CleanBase64(refs[k].base64), refs[k].mimeType)
  {
    sub := panel.HandleSubmit();
    sent := None;
    if sub.Some? {
      var outcome;
      outcome, sent := shell.HandleGeneration(sub.value.prompt, sub.value.baseImage, sub.value.refs,
                                              envKey, reply, now);
    }
  }
}
