# Savvy Bee chat widget — Dafny model

Savvy Bee is a React chatbot widget for financial-wellness guidance. This project models its
four pieces of client-side logic and proves properties of them:

- **The conversation** (`ChatInterface`). The message list starts with one bot greeting. Each
  send appends the user's text, then a canned reply sequence. A case-insensitive keyword test on
  the text chooses the sequence, and the money test is tried first:
  - "budget" / "spend" gives an analyse reply followed by a heal reply;
  - otherwise "stress" / "worry" / "anxious" gives one heal reply;
  - otherwise one default reply.
- **The chat input** (`ChatInput`). Typing overwrites the field. Submitting sends the untrimmed
  text only when it holds a non-whitespace character, and then clears the field.
- **The Bee Counselor** (`BeeCounselor`). A panel with three exercises and two counters,
  `currentStep` (0..2) and `breathCount` (0..3). The main button counts breaths on the first
  exercise and advances on the others. On the last exercise it asks the parent to close.
- **The receipt camera panel** (`CameraCapturePanel`). The state is the stream flag, the
  captured image, the flash flag and the attached stream. The transitions are start, stop,
  capture, retake and confirm. The device is abstracted: a camera request is granted (with a
  stream of tracks) or denied, and a snapshot is an opaque data-URL string.

Module layout: `wrappers.dfy` (Option), `jsstring.dfy` (the JavaScript `toLowerCase`,
`includes` and `trim` the components use), then one module per component file.

Modelling choices:

- The reply timers (1000 ms twice) are immediate. A send is one atomic step.
- The 500 ms flash delay of a capture splits it into two sequential steps. `CaptureImage` is the
  synchronous part and `CaptureTimeout` is the deferred callback.
- The React semantics assumed are those of React 18 rendering through `createRoot`:
  - State updates made in a timer callback are batched and applied after the callback. So in
    `CaptureTimeout` the camera is stopped while the `<video>` element is still rendered, and only
    then is the image stored.
  - On unmount, React detaches refs before it runs effect cleanups. So the cleanup's `stopCamera`
    finds `videoRef.current` null (see "## Findings").
- The `<video>` element is rendered only while no image is shown
  (src/components/CameraCapturePanel.tsx:100-107), and only while the component is mounted.
- `capturedImage` is tested for JavaScript truthiness, so the empty string counts as no image.
- `onClose`, `onCapture` and `onSendMessage` are callbacks into the parent. Each handler returns
  what it passed to its callback: a `closeRequested` flag, or an `Option` of the delivered text.

## Model

| member | source | states |
|---|---|---|
| JsString.Lower | src/components/ChatInterface.tsx:33 | `toLowerCase` keeps the length and lower-cases each character in place |
| JsString.LowerIdempotent | src/components/ChatInterface.tsx:33 | lower-casing twice is the same as lower-casing once |
| JsString.LowerIsLowerCase | src/components/ChatInterface.tsx:33 | the lower-cased text holds no upper-case letter |
| JsString.LowerOfLowerCase | src/components/ChatInterface.tsx:33-53 | the lower-case keywords are their own lower-case form |
| JsString.LowerConcat | src/components/ChatInterface.tsx:33 | lower-casing distributes over concatenation |
| JsString.Includes | src/components/ChatInterface.tsx:33 | `includes` finds nothing longer than the text and always finds the empty string; IncludesIff proves it equal to OccursIn |
| JsString.IncludesIff | src/components/ChatInterface.tsx:33 | `includes` is true exactly when some position of the text holds the keyword (both directions) |
| JsString.IncludesInside | src/components/ChatInterface.tsx:33 | a keyword anywhere in a text is found by `includes` |
| JsString.IncludesOnlyPresentChars | src/components/ChatInterface.tsx:33 | every character of a text `includes` finds occurs in the text searched, so a keyword with a letter missing from the text is not found |
| JsString.IsWhitespace | src/components/ChatInput.tsx:16 | the ECMAScript WhiteSpace and LineTerminator set `trim` removes; no printable ASCII character is in it |
| JsString.LeadingWhitespace | src/components/ChatInput.tsx:16 | the prefix `trim` drops is all whitespace and is followed by a non-whitespace character or the end |
| JsString.TrailingWhitespace | src/components/ChatInput.tsx:16 | the suffix `trim` drops is all whitespace and is preceded by a non-whitespace character or the start |
| JsString.Trim | src/components/ChatInput.tsx:16 | the trimmed text is a slice of the input with only whitespace before and after it, and it neither starts nor ends with whitespace |
| JsString.TrimNonEmptyIff | src/components/ChatInput.tsx:16 | `trim()` is non-empty exactly when the text holds a non-whitespace character |
| ChatInput.IsBlank | src/components/ChatInput.tsx:16 | the submit guard `message.trim()` fails exactly when every character of the field is whitespace |
| ChatInput.ChatInputField.constructor | src/components/ChatInput.tsx:12 | the field starts empty |
| ChatInput.ChatInputField.OnChange | src/components/ChatInput.tsx:26 | typing replaces the field with the new value, whatever it held |
| ChatInput.ChatInputField.HandleSubmit | src/components/ChatInput.tsx:14-20 | a blank field sends nothing and stays as it was; otherwise the untrimmed text is sent once and the field becomes empty |
| ChatInput.SubmitAfterTyping | src/components/ChatInput.tsx:14-26 | after typing a value, submit sends it exactly when it has a non-whitespace character, untrimmed, and clears the field only then |
| ChatInterface.InitialMessages | src/components/ChatInterface.tsx:6-15 | the conversation opens with exactly one bot message of type default |
| ChatInterface.MentionsMoney | src/components/ChatInterface.tsx:33 | true exactly when "budget" or "spend" occurs somewhere in the lower-cased text |
| ChatInterface.MentionsWorry | src/components/ChatInterface.tsx:53 | true exactly when "stress", "worry" or "anxious" occurs somewhere in the lower-cased text |
| ChatInterface.SelectReply | src/components/ChatInterface.tsx:33-71 | analyse-then-heal exactly when money is mentioned; heal-only exactly when worry but no money is mentioned; fallback exactly when neither is |
| ChatInterface.Replies | src/components/ChatInterface.tsx:33-70 | analyse-then-heal appends two bot messages typed analyse then heal; heal-only one heal message; fallback one default message |
| ChatInterface.AfterSend | src/components/ChatInterface.tsx:26-73 | a send keeps the old list as a prefix, appends the user's text unchanged as a non-bot default message, then 2 bot replies (analyse, heal) exactly when money is mentioned, else one heal reply on a worry keyword, else one default reply |
| ChatInterface.Chat.constructor | src/components/ChatInterface.tsx:15 | a new chat holds the initial messages |
| ChatInterface.Chat.HandleSendMessage | src/components/ChatInterface.tsx:26-73 | the message list after a send is AfterSend of the list before it |
| ChatInterface.Chat.SubmitInput | src/components/ChatInterface.tsx:96 | a blank submit leaves the conversation and the field as they were; any other submit performs one send of the untrimmed text and clears the field |
| ChatInterface.MoneyKeywordAnywhere | src/components/ChatInterface.tsx:33-52 | "budget" or "spend" in any letter case anywhere in the text selects analyse-then-heal |
| ChatInterface.WorryKeywordAnywhere | src/components/ChatInterface.tsx:53-61 | "stress", "worry" or "anxious" in any letter case in a text without money keywords selects heal-only |
| ChatInterface.MoneyTakesPrecedence | src/components/ChatInterface.tsx:33-53 | a text with both money and worry keywords gets the pair, never the heal-only reply |
| ChatInterface.SelectReplyIgnoresCase | src/components/ChatInterface.tsx:33-53 | the dispatch of a text and of its lower-cased form agree |
| ChatInterface.ShoutedSpendingIsMoney | src/components/ChatInterface.tsx:33 | "SPENDING" matches "spend" |
| ChatInterface.CapitalisedStressIsWorry | src/components/ChatInterface.tsx:53 | "Stressed" matches "stress" and no money keyword |
| ChatInterface.BudgetPromptIsMoney | src/components/ChatInterface.tsx:33-52 | the quick prompt "Help me create a budget" gets the analyse-then-heal pair |
| ChatInterface.UserTextsAfterSend | src/components/ChatInterface.tsx:28 | one send adds exactly the sent text to the user's messages |
| ChatInterface.ConversationRecordsSends | src/components/ChatInterface.tsx:26-73 | after any sequence of sends, the user messages are exactly the sent texts, unchanged and in order |
| ChatInterface.ConversationShape | src/components/ChatInterface.tsx:6-73 | the greeting stays first and each send grows the list by 2 or 3 messages |
| BeeCounselor.NextStep | src/components/BeeCounselor.tsx:30-36 | below the last step Next advances by one and does not close; on the last step it calls `onClose` and changes nothing |
| BeeCounselor.Breathe | src/components/BeeCounselor.tsx:38-44 | below 3 breaths a tap counts one more; at 3 it runs Next and leaves the count unchanged |
| BeeCounselor.PressMain | src/components/BeeCounselor.tsx:92 | the main button runs the breathing tap on step 0 and Next on any other step |
| BeeCounselor.ButtonLabel | src/components/BeeCounselor.tsx:96 | the label is "Finish" exactly on the last step, "Next" otherwise |
| BeeCounselor.BreathLabel | src/components/BeeCounselor.tsx:84 | "Inhale..." for an even count, "Exhale..." for an odd one |
| BeeCounselor.Handle | src/components/BeeCounselor.tsx:61-92 | the X button closes without a state change; a bee tap off the first exercise has nothing to land on; the main button is PressMain; every action keeps the state well-formed |
| BeeCounselor.FreshIsValid | src/components/BeeCounselor.tsx:12-13 | the panel opens at step 0 with no breaths, a reachable state |
| BeeCounselor.RunPreservesValid | src/components/BeeCounselor.tsx:67-68 | after any actions `exercises[currentStep]` is in range and `breathCount` is at most 3 |
| BeeCounselor.BreathsStayBelowPrompt | src/components/BeeCounselor.tsx:86 | the breath count never reaches the 6 the prompt announces |
| BeeCounselor.PressesCloseExactly | src/components/BeeCounselor.tsx:30-44 | from any reachable state, n main-button presses close the panel exactly when n reaches the presses left (no step is skipped) |
| BeeCounselor.SixPressesFinish | src/components/BeeCounselor.tsx:30-44 | from a fresh panel the sixth press closes it and the fifth does not |
| BeeCounselor.FourthTapAdvances | src/components/BeeCounselor.tsx:38-43 | from a fresh panel three taps count three breaths and the fourth moves to step 1 |
| BeeCounselor.BeeCounselorPanel.constructor | src/components/BeeCounselor.tsx:12-13 | the panel starts at step 0 with breath count 0 |
| BeeCounselor.BeeCounselorPanel.HandleNextStep | src/components/BeeCounselor.tsx:30-36 | the new counters and the close request are those of NextStep |
| BeeCounselor.BeeCounselorPanel.HandleBreathingAnimation | src/components/BeeCounselor.tsx:38-44 | the new counters and the close request are those of Breathe |
| BeeCounselor.BeeCounselorPanel.OnMainButton | src/components/BeeCounselor.tsx:92 | the new counters and the close request are those of PressMain |
| BeeCounselor.BeeCounselorPanel.OnCloseButton | src/components/BeeCounselor.tsx:61 | the header X button calls `onClose` |
| BeeCounselor.BeeCounselorPanel.MainButtonLabel | src/components/BeeCounselor.tsx:96 | the button reads "Finish" exactly on the last exercise and "Next" otherwise |
| BeeCounselor.BeeCounselorPanel.CurrentExercise | src/components/BeeCounselor.tsx:67-68 | the exercise shown is one of the three, so the index is in range |
| CameraCapturePanel.MediaTrack.Stop | src/components/CameraCapturePanel.tsx:46 | a stopped track is ended |
| CameraCapturePanel.Panel.VideoRefAttached | src/components/CameraCapturePanel.tsx:100-107 | the video ref is set only while mounted with a video element, and never while an image is shown |
| CameraCapturePanel.Panel.CanCapture | src/components/CameraCapturePanel.tsx:147-151 | capture is offered only with the stream active, no flash running and no image shown; then a stream is attached to the rendered video |
| CameraCapturePanel.Panel.constructor | src/components/CameraCapturePanel.tsx:13-17 | no stream, not active, no image, not capturing |
| CameraCapturePanel.Panel.StartCamera | src/components/CameraCapturePanel.tsx:19-41 | a denial changes nothing and does not throw; a grant attaches the stream and sets the flag only when the video element is rendered |
| CameraCapturePanel.Panel.StopCamera | src/components/CameraCapturePanel.tsx:43-50 | with the video ref set and a stream attached, every one of its tracks ends, the stream is detached and the flag cleared; otherwise nothing changes, so a second call is a no-op |
| CameraCapturePanel.Panel.CaptureImage | src/components/CameraCapturePanel.tsx:52-54 | with both video and canvas elements present the flash flag is raised; otherwise nothing changes; the stream flag is not consulted |
| CameraCapturePanel.Panel.CaptureTimeout | src/components/CameraCapturePanel.tsx:56-71 | a completed capture stores the frame, stops the camera (every track ended) and clears the flash flag; with the video element or canvas gone (for instance after unmount) the timer touches nothing, and every track keeps running |
| CameraCapturePanel.Panel.ResetCapture | src/components/CameraCapturePanel.tsx:75-78 | Retake clears the image and restarts the camera |
| CameraCapturePanel.Panel.ConfirmCapture | src/components/CameraCapturePanel.tsx:80-85 | with an image shown, exactly that image goes to `onCapture` once and is cleared; with none, nothing happens |
| CameraCapturePanel.Panel.Unmount | src/components/CameraCapturePanel.tsx:87-95 | as written: the cleanup runs after the ref is detached, so the stream stays attached and active and no track is stopped |
| CameraCapturePanel.Panel.UnmountReleasingCamera | src/components/CameraCapturePanel.tsx:87-95 | as intended: unmounting detaches the stream, clears the flag and ends every track |
| CameraCapturePanel.UnmountWhileStreamingLeavesCameraOn | src/components/CameraCapturePanel.tsx:87-95 | unmounting a streaming panel leaves its track running and the flag set |
| CameraCapturePanel.UnmountDuringFlashLeavesCameraOn | src/components/CameraCapturePanel.tsx:52-71 | closing the panel during the flash: the late timer neither stores the frame nor stops the camera, so the track keeps running |
| CameraCapturePanel.UnmountReleasingCameraStopsTrack | src/components/CameraCapturePanel.tsx:87-95 | with the intended cleanup, unmounting a streaming panel ends its track |
| CameraCapturePanel.CaptureThenConfirm | src/components/CameraCapturePanel.tsx:19-95 | after a granted mount capture is offered; capture and confirm deliver the frame once and end the track; a second confirm delivers nothing and capture is no longer offered |
| CameraCapturePanel.DeniedCameraOffersNoCapture | src/components/CameraCapturePanel.tsx:147-151 | a denied camera leaves the stream inactive and the capture button disabled |
| CameraCapturePanel.CaptureIgnoresStreamFlag | src/components/CameraCapturePanel.tsx:52-71 | driven directly, a capture stores the frame even though the camera was denied; the guard is only in the button |
| CameraCapturePanel.CaptureNeedsCanvas | src/components/CameraCapturePanel.tsx:53 | without a canvas a capture does nothing: no flash, no image, the stream stays active |
| CameraCapturePanel.RetakeOffersCaptureAgain | src/components/CameraCapturePanel.tsx:75-78 | Retake after a capture drops the image and offers capture again on the new stream; the old track stays ended |

## Findings

| source | as written | input that shows it | evidently intended | confidence | as-written member | corrected member |
|---|---|---|---|---|---|---|
| src/components/CameraCapturePanel.tsx:91-94 | the unmount cleanup calls `stopCamera`, which needs `videoRef.current`; React detaches that ref before the cleanup runs, so nothing is stopped | mount with the camera granted, then unmount while streaming: the camera track keeps running | the cleanup ("Clean up on unmount") releases the camera | medium, not executed | CameraCapturePanel.UnmountWhileStreamingLeavesCameraOn | CameraCapturePanel.UnmountReleasingCameraStopsTrack |

## Left out

- Timers: the 1000 ms reply delays and the 500 ms flash delay are immediate steps. Overlapping sends, whose replies could interleave, are not modelled. Each handler is an atomic step over the latest state, so React's stale closures are not modelled either.
- JsString.Lower: lower-cases only ASCII A-Z, while `toLowerCase` is Unicode-wide. For the five ASCII keywords the dispatch agrees. Only two non-ASCII characters lower-case to ASCII: U+212A becomes "k", which no keyword contains, and U+0130 becomes "i" followed by U+0307, which cannot be followed by a keyword letter.
- Device calls: `getUserMedia`, `drawImage` and `toDataURL` become a granted/denied outcome and an opaque frame string. The requested resolution and facing mode are not modelled.
- The camera error toast and `console.error` are not modelled, nor the scroll-to-bottom effect, animations, timestamps or CSS.
- The mount effect is the constructor followed by `StartCamera`. Unmounting is `Unmount` (the code as written) or `UnmountReleasingCamera` (the intended cleanup).
- A granted stream that arrives with no video element is never stopped. The model shows that its tracks stay untouched; it does not model the camera staying on.
- The gallery `<input type="file">` (src/components/CameraCapturePanel.tsx:188-192) has no handler and is not modelled.
- BeeCounselor: what the parent does on `onClose` is not part of this model. `Run` stops at the first close request.
- backend/app.py, src/api/chatService.ts and src/lib/api.ts are network wrappers around a remote language model and HTTP endpoints. They are not part of this model.
- src/components/ChatMessage.tsx, src/components/FinancialInsights.tsx, src/components/QuickPrompts.tsx and src/pages/Index.tsx are rendering and static data. They are not part of this model.
- Image binarization, audio recording and connectivity polling do not appear in the component code and are not modelled.
