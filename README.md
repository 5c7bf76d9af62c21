# Image editor core: a Dafny model

This project models the core of a browser-based AI image editor. A user uploads an image, positions and zooms it under a square crop mask, and exports the crop. The image, with optional reference images and written instructions, then goes to an image-editing model. Each accepted result joins a per-mode edit history with undo and redo. Four parts are modelled:

- **The history stack of the application shell** (`app.dfy`, class `App.Shell`). The state is the history list, its index (-1 when empty), the active result, the image it came from, and the library of results sent to the companion apps. A successful generation drops every entry after the current one, appends the new entry and makes it current. Undo and redo move the index and load that entry. A mode change starts over. `Valid()` is the invariant every handler keeps: the index lies in `[-1, length-1]`; it is -1 exactly when the history is empty; the active result is the current entry's result.
- **The crop dialog** (`image_cropper.dfy`). The mouse handlers update a `Cropper` object's position, drag anchor, dragging flag and scale. Pure functions give the mask and its four dimming rectangles on the 600 x 500 canvas. Other pure functions give where an image point lands on the canvas and in the 1024 x 1024 export. All coordinates are exact `real`s.
- **The model service** (`gemini_service.dfy`). This part covers stripping a data-URL prefix, the key check, the request's parts in their fixed order (a method with a loop, as the source pushes in a `forEach`), and the classification of the model's reply into an image URL or a typed error. The network call is foreign. Its outcome (`Transport`: a reply or a network error) is a parameter.
- **The free-form editing panel** (`general_panel.dfy`). It adds and removes references by id, feeds a new active input in as the base image, and builds the prompt. The prompt is built step by step, as in the source. It carries the ADDITIONAL ASSETS paragraph, with the reference count written in decimal, exactly when references exist.

`common.dfy` holds the shared records (`UploadedImage`, `GenerationResult`, the modes) and the `Option`/`Result` wrappers.

Facts about the code that a reader might not expect:

- Undo stops at index 0 (`canUndo` is `historyIndex > 0`). It never returns to -1, so -1 means "empty history".
- The zoom value is taken as the slider gives it. There is no minimum-scale computation and no clamp. Loading an image resets the position but not the scale.
- The drag uses raw client coordinates. There is no CSS-to-backing-resolution remap and there is no touch handling.
- A failed generation does not leave the shell untouched. The original image has already been replaced, and the old error and notification have been cleared.
- `handleModeChange` itself resets only the shell's state. Each panel is rendered only in its own mode (`App.tsx:165-181`), so a mode change also unmounts the previous panel: the General panel's base image, references and instructions, and the marketplace panel's open crop dialog, are discarded by React, not by the handler.

The general panel is mounted with `(prompt, img) => handleGeneration(prompt, img)` (`App.tsx:180`), so the references it collects never reach the service; this is recorded under "## Findings", with the wiring as written and as its callback type declares it. The panel is also given no `activeInputImage`, so its cumulative-input effect never fires from the shell. The model keeps both operations as the panel and the shell define them: `HandleGeneration` takes the reference list, and `ActiveInputChanged` takes the active input.

## Model

| member | source | states |
|---|---|---|
| `GeminiService.FindFrom` | services/geminiService.ts:5-6 | The first occurrence of a pattern at or after a position: it occurs there, nowhere between, and `None` means nowhere after |
| `GeminiService.FindFromFirst` | services/geminiService.ts:5-6 | A search returns any occurrence that has no earlier one after its starting point |
| `GeminiService.CleanBase64` | services/geminiService.ts:4-9 | Without `;base64,` the input is returned unchanged. Otherwise the result is the text after the first separator up to the next separator or the end, and it contains no separator |
| `GeminiService.CleanImageUrl` | services/geminiService.ts:4-9 | Round trip: cleaning `data:image/png;base64,` + d gives d back when d has no separator |
| `GeminiService.BuildParts` | services/geminiService.ts:27-50 | Parts are the base image (only when its data and MIME type are both truthy), then every reference in order, then the prompt last. The count is b + refs + 1, and image payloads are cleaned |
| `GeminiService.ResolveKey` | services/geminiService.ts:19 | The key is truthy iff the argument or the environment value is. A truthy argument wins; a falsy one yields the environment's value |
| `GeminiService.FirstInline` | services/geminiService.ts:99 | The index of the first response part with inline data. `None` iff no part has any |
| `GeminiService.FinishReasonError` | services/geminiService.ts:88-96 | `SAFETY` gives the safety error and `RECITATION` the recitation error. `STOP`, an absent reason or any other reason falls through |
| `GeminiService.SendsBaseImage` | services/geminiService.ts:30 | The base image is left out exactly when its data or its MIME type is falsy: absent or the empty string |
| `GeminiService.ServiceError.Message` | services/geminiService.ts:88-115 | Every thrown error carries a non-empty message |
| `GeminiService.Rethrown` | services/geminiService.ts:115 | The catch rethrows a non-empty message as it is and an empty one as "Failed to generate image." |
| `GeminiService.RethrowPassesThrough` | services/geminiService.ts:112-115 | Rethrowing any error the service raises keeps its message. A network error is reported with its own message, or the fallback when that is empty |
| `GeminiService.CandidateOutcome` | services/geminiService.ts:85-103 | The first candidate decides nothing iff its finish reason raises no error and no part has inline data. It decides only a safety or recitation error, or the PNG URL of its first inline part |
| `GeminiService.ClassifyResponse` | services/geminiService.ts:81-111 | An image needs a first candidate and is a PNG data URL. Classification never raises the missing-key error or a network error |
| `GeminiService.ImageReturnedIff` | services/geminiService.ts:81-104 | An image comes back iff there is a first candidate, its reason is neither SAFETY nor RECITATION, and some part has inline data. The URL is the PNG prefix plus the first such part's data |
| `GeminiService.ClassifiedErrors` | services/geminiService.ts:88-111 | Safety and recitation errors occur iff the first candidate has that reason. A block error names the truthy block reason. Otherwise the error is "no image data" |
| `GeminiService.ResultFeedsBack` | services/geminiService.ts:98-103 | A returned image URL, cleaned, gives back the model's payload, so a result can be sent in again |
| `GeminiService.ServiceOutcome` | services/geminiService.ts:19-115 | A missing key is the error iff neither key is truthy. With a key, a delivered reply gives its classification (image or error), and a network failure gives that error with the rethrown message. An image comes back iff there is a key, a reply, and the reply classifies as an image |
| `GeminiService.GenerateImageEdit` | services/geminiService.ts:11-117 | Returns the service outcome. A request is sent iff a key exists, with that key, the model name and the parts laid out as above |
| `ImageCropper.Mask` | components/ImageCropper.tsx:61-63 | The mask is a 300 x 300 square centred on the canvas |
| `ImageCropper.DimRects` | components/ImageCropper.tsx:65-70 | Four dimming rectangles, none of which overlaps the mask |
| `ImageCropper.MaskCentred` | components/ImageCropper.tsx:61-63 | The mask is centred on the canvas and starts at (150, 100) on the 600 x 500 canvas |
| `ImageCropper.MaskTilesCanvas` | components/ImageCropper.tsx:65-70 | The mask and the four dimming rectangles lie on the canvas, are pairwise disjoint, and cover every canvas point |
| `ImageCropper.DisplayPoint` | components/ImageCropper.tsx:42-54 | The image's centre is drawn at the canvas centre moved by the position |
| `ImageCropper.DisplayIsSimilarity` | components/ImageCropper.tsx:42-54 | On the canvas, distances between image points are multiplied by the scale, and a change of position moves every point by that change |
| `ImageCropper.ExportOf` | components/ImageCropper.tsx:115-128 | Every image point's output position is its display position magnified by 1024/300 about the canvas centre, moved to the output centre |
| `ImageCropper.MaskMapsOntoOutput` | components/ImageCropper.tsx:108-128 | The mask corners land on (0,0) and (1024,1024). A canvas point is inside the mask iff its output position is inside the output |
| `ImageCropper.Cropper.constructor` | components/ImageCropper.tsx:12-16 | Scale 1, position (0,0), not dragging, anchor (0,0), no image |
| `ImageCropper.Cropper.ImageLoaded` | components/ImageCropper.tsx:19-27 | Loading sets the image and resets the position to (0,0). Scale and drag state are kept |
| `ImageCropper.Cropper.SetScale` | components/ImageCropper.tsx:169 | The slider value becomes the scale unclamped, and nothing else changes |
| `ImageCropper.Cropper.MouseDown` | components/ImageCropper.tsx:79-82 | Dragging starts with anchor = client - position, and the position is unchanged |
| `ImageCropper.Cropper.MouseMove` | components/ImageCropper.tsx:84-91 | While dragging, position = client - anchor. Otherwise the position is unchanged |
| `ImageCropper.Cropper.MouseUp` | components/ImageCropper.tsx:93-95 | Dragging ends (mouse-up and mouse-leave), and nothing else changes |
| `ImageCropper.Cropper.Save` | components/ImageCropper.tsx:97-134 | No export without an image. Otherwise a 1024 export whose every point is the display point magnified about the canvas centre |
| `ImageCropper.Drag` | components/ImageCropper.tsx:79-91 | Mouse-down at c then a move to c' moves the image by exactly c' - c |
| `GeneralPanel.AddReference` | components/GeneralPanel.tsx:28-30 | The new reference is last and the earlier ones keep their order |
| `GeneralPanel.RemoveReference` | components/GeneralPanel.tsx:32-34 | The result holds exactly the entries whose id differs, and is no longer than the input |
| `GeneralPanel.RemoveSplits` | components/GeneralPanel.tsx:33 | Removal distributes over concatenation, so survivors keep their order |
| `GeneralPanel.RemoveAbsent` | components/GeneralPanel.tsx:33 | Removing an id not in the list changes nothing |
| `GeneralPanel.RemoveIdempotent` | components/GeneralPanel.tsx:33 | Removing an id twice is removing it once |
| `GeneralPanel.AddThenRemove` | components/GeneralPanel.tsx:28-34 | Removing a just-added reference's id undoes the addition when the id was fresh |
| `GeneralPanel.NatToDecimal` | components/GeneralPanel.tsx:48 | The count is rendered as non-empty decimal digits with no leading zero |
| `GeneralPanel.DecimalRoundTrip` | components/GeneralPanel.tsx:48 | The rendered count reads back as the count |
| `GeneralPanel.AssetsSection` | components/GeneralPanel.tsx:44-51 | The ADDITIONAL ASSETS paragraph, read back, states exactly the number of references |
| `GeneralPanel.Panel.constructor` | components/GeneralPanel.tsx:17-19 | No base image, no references, empty instructions |
| `GeneralPanel.Panel.HandleAddReference` | components/GeneralPanel.tsx:28-30 | The list becomes `AddReference` of the old list, and nothing else changes |
| `GeneralPanel.Panel.HandleRemoveReference` | components/GeneralPanel.tsx:32-34 | The list becomes `RemoveReference` of the old list, and nothing else changes |
| `GeneralPanel.Panel.ActiveInputChanged` | components/GeneralPanel.tsx:22-26 | A present active input replaces the base image. An absent one leaves it |
| `GeneralPanel.Panel.HandleSubmit` | components/GeneralPanel.tsx:36-56 | Nothing is submitted without a base image. The prompt starts with the preamble plus the instructions and ends with the closing sentence. Between them is text iff references exist, and that text states their count. The images go along unchanged |
| `GeneralPanel.Panel.SubmitEnabled` | components/GeneralPanel.tsx:141 | The button is enabled iff there is a base image, the instructions are non-empty and nothing is generating |
| `App.TargetAppName` | App.tsx:107-113 | Renovation goes to Renovision Pro and Marketplace to CDI Marketplace. Every other mode goes to My Library |
| `App.SentNotice` | App.tsx:132-133 | The notice is a fixed head, the target app's name and `!`, so the name can be read back from it |
| `App.SentNoticeNamesApp` | App.tsx:132-133 | Two notices are equal iff they name the same app |
| `App.Shell.Valid` | App.tsx:24-29 | The history invariant, from which a result is active iff the history is non-empty |
| `App.Shell.CanUndo` | App.tsx:193 | Undo is enabled only when an earlier entry exists, never at index 0 or -1 |
| `App.Shell.CanRedo` | App.tsx:194 | Redo is enabled only when a later entry exists. Disabled means the index is the last |
| `App.Shell.constructor` | App.tsx:18-32 | Renovation mode, empty history at index -1, no result, original, messages or library |
| `App.Shell.HandleModeChange` | App.tsx:36-44 | The history is empty at index -1, and the result, original, error and notification are cleared. The library is kept and `Valid()` holds |
| `App.Shell.HandleGeneration` | App.tsx:46-85 | The original is always replaced. A request is sent iff the environment has a key, carrying that key, the model name, the base image, every reference in order and the prompt. On success history = old prefix [0..index] + new item, the index is last, the result is active and redo is unavailable. On failure history, index and result are unchanged and the error is shown. `Valid()` is kept |
| `App.Shell.HandleUndo` | App.tsx:87-95 | A no-op unless canUndo. Otherwise the index is decremented, that entry's result and original become active, and redo becomes available. `Valid()` is kept |
| `App.Shell.HandleRedo` | App.tsx:97-105 | A no-op unless canRedo. Otherwise the index is incremented and that entry is loaded. `Valid()` is kept |
| `App.Shell.HandleSendToApp` | App.tsx:115-138 | A no-op without both a result and an original. Otherwise the result is prepended to the library with the mode, and the notice names the target app |
| `App.UndoThenEditDiscardsFuture` | App.tsx:74-78 | After edits A and B, two undos (the second a no-op at index 0) and edit C, the history is [A, C] at index 1 and redo is unavailable |
| `App.GeneralSubmitAsWritten` | App.tsx:179-181 | With references and a key, the submitted prompt states their number while the request carries no reference image |
| `App.GeneralSubmit` | components/GeneralPanel.tsx:7 | With a key, the request carries every reference in order, as many as the prompt states |

## Left out

- The network call to the model, `process.env`, `console.error` and the safety-settings configuration are foreign. The call's outcome and the environment's key are parameters.
- A reply whose first candidate has no `content` makes the source throw a `TypeError` inside its `try`. The model assumes every candidate carries its parts.
- Async behaviour is not modelled: the `await` points, the `isGenerating`/`isSending` flags, the one-second send delay and the three-second notification clearing. Each handler runs to completion on the state it starts from, so the stale-closure reads of history across an `await` do not arise.
- `Math.random` ids, `Date.now` timestamps and the `File` object are opaque parameters or absent. `FileReader` upload handling is I/O.
- Canvas drawing is not modelled: `fillRect`, `drawImage`, `strokeRect`, colours, `toDataURL`, and the early returns when the canvas or its 2-D context is missing. Only the geometry is.
- `ImageCropper.Cropper.SetScale`: IEEE floating point and `parseFloat` are not modelled, and neither is the slider's step of 0.1; its range of 0.5 to 3 is not imposed. Coordinates are exact reals.
- The marketplace panel's callback at `App.tsx:174` passes on both arguments that panel gives (prompt and image); the marketplace panel is not part of this model.
- `App.Shell.HandleModeChange`: unmounting the previous mode's panel is not modelled; the model's `GeneralPanel.Panel` and `ImageCropper.Cropper` objects outlive a mode change with their state intact.
- Presentational components (the marketplace, merchant-coin and headshot panels, the sidebar, the mode list and the result viewer) are not part of this model. Neither are their prompt templates.

## Findings

| source | as written | input that shows it | evidently intended | confidence | as-written member | corrected member |
|---|---|---|---|---|---|---|
| App.tsx:180 | The general panel's callback `(prompt, img) => handleGeneration(prompt, img)` drops the third argument, so `refImages` is always `[]` | A submit in General mode with one reference image, a base image and a key: the prompt says "I have provided 1 additional image(s)" and the request holds only the base image and the prompt | Pass the references through, as the panel's `onGenerate` type at `components/GeneralPanel.tsx:7` declares | high; not executed | `App.GeneralSubmitAsWritten` | `App.GeneralSubmit` |
