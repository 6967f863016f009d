# Trinetra core logic in Dafny

Trinetra is a community CCTV network. Citizens register home cameras and
decide whether to share them. Authorities watch shared feeds on a map,
request access to private cameras and run AI analysis on captured frames.
This project models the decision logic behind that interface, component by
component:

- `registry.dfy` (`Registry`): the single camera list held by the
  application and its six transitions: toggle sharing, reject a request,
  set privacy, request access under the auto-approve policy, mark the
  location verified, and toggle auto-approve.
  - The transitions are functions on the list.
  - `CameraRegistry` is the object that holds the list and applies them.
- `analysis.dfy` (`Analysis`) and `plates.dfy` (`Plates`): the analysis
  service.
  - `analyzeFrame` covers the empty-input guard, the mode-to-request choice,
    the JSON branch for PRIVACY and SEARCH, and the list and vocabulary
    extraction for the other modes. It also covers lower-case
    de-duplication, the keyword safety score and the licence-plate scan.
  - `verifyLocationContext` covers the reply clean-up and its two fallback
    verdicts. `analyzePrivacy` is the adapter over `analyzeFrame`.
  - The plate regular expression is matched by a backtracking matcher. It
    is proved sound and complete against a declarative `Matches` relation.
- `citizen.dfy` (`Citizen`): the citizen portal.
  - The derived list of pending requests.
  - The three-step OTP dialog (REVIEW, OTP, SUCCESS) with its reset
    effect and its input filter.
  - The grant loop that runs after the right code.
  - The location-check results map.
  - The `CitizenPortal` class holds the component's state fields, and each
    handler is a method.
- `scanner.dfy` (`Scanner`): the video analyzer's scan controller.
  - The guards, and the three-frame capture loop with its progress schedule.
  - The two outcomes, the scan-button rule, the tab-switch reset and the
    blur action.
  - The `VideoAnalyzer` class runs the loop.
- `dashboard.dfy` (`Dashboard`): the authority dashboard.
  - The status churn at one index, and the status filter.
  - The critical-alert choice and its dismissal.
  - The private/pending/shared marker classification, the request dialog,
    and the verify callback rule.
- `notifications.dfy` (`Notifications`): the navigation bar's notification
  list, with the unread badge, mark-as-read and clear-all.
- `js_text.dfy` (`JsText`) and `js_json.dfy` (`JsJson`): the JavaScript
  built-ins the core relies on.
  - `JsText`: `trim`, `toLowerCase`, `includes`, `split` on a character
    class, `replace` with the global flag, `Set` de-duplication and
    `slice`.
  - `JsJson`: parsed JSON values with JavaScript truthiness, and property
    reads that distinguish a missing key from a read on `null`.

The model's conventions:

- The AI model and Maps calls are function parameters
  (`model: Request -> Reply`, `ask: LocationQuery -> Reply`). So is
  `JSON.parse` (`parse: string -> Option<Json>`).
- Timers become explicit methods that the timer's callback would run
  (`OtpTimerFired`, `GrantTimerFired`, `RequestTimerFired`).
- `Math.random` becomes a `real` in [0, 1) passed to `ChurnTick`.
- Each component's state is also a datatype (`PortalState`,
  `ScannerState`, `DashboardState`) with pure step functions. Each class
  method is proved to perform its step, and the lemmas about the steps are
  stated on the datatype.

Behaviour of the code worth knowing:

- `analyzeFrame` hands the reply to `JSON.parse` as it comes. Markdown
  fences are stripped only in `verifyLocationContext`
  (`FencedReplyIsNotCleaned`).
- The JSON parse-error path of `analyzeFrame` scores 95, because the text
  "Error parsing AI report." contains no danger keyword
  (`ParseErrorTextIsSafe`). Only the empty-input and outer-failure results
  score 0.
- The blank-query check for SEARCH is made by the scan handler
  (components/VideoAnalyzer.tsx:60). `analyzeFrame` sends the SEARCH prompt
  with whatever target it gets.
- "Cancel & Go Back" only sets the step back to REVIEW. The typed code is
  kept (`Cancelled`).
- Requesting access to a shared camera whose auto-approve is off sets its
  pending flag. That yields a camera that is shared and pending at once
  (`RequestOnSharedCameraBreaksExclusion`).
- With an empty camera list and nothing pending, the grant callback reads
  `cameras[0].id` and throws before closing the dialog (`NoCamera`).
- The plate pattern matches between 9 and 13 characters
  (`PlatePatternBounds`).
- The citizen's emergency banner button shows only while the dialog is open
  or nothing is pending (components/CitizenPortal.tsx:190).
- The dashboard's churned statuses live in a local copy that the next
  change of the `cameras` prop overwrites (`SyncCameras`).
- The notification archive renders the seed notifications, whatever the
  current list holds (`ArchiveEntries`).

## Model

| member | source | states |
|---|---|---|
| Registry.Ids | App.tsx:24-25 | the id list has one entry per camera, in list order |
| Registry.UpdateWhere | App.tsx:24-25 | the shared `prev.map(cam => cam.id === id ? … : cam)` shape: same length, matching cameras updated, every other camera unchanged |
| Registry.SharingToggled | App.tsx:23-26 | the matching camera has `isShared` flipped and `pendingAccessRequest` false; every other camera is unchanged |
| Registry.RequestRejected | App.tsx:33-37 | the matching camera has its pending flag cleared; every other field and camera is unchanged |
| Registry.PrivacyUpdated | App.tsx:39-43 | only `privacySetting` of the matching camera changes |
| Registry.AccessRequested | App.tsx:45-57 | with auto-approve the camera becomes shared with nothing pending; without it only the pending flag is set; other cameras are unchanged |
| Registry.CameraVerified | App.tsx:59-63 | only `locationVerified` of the matching camera becomes true |
| Registry.AutoApproveToggled | App.tsx:65-69 | only `autoApprove` of the matching camera flips |
| Registry.ToggleSharingTwice | App.tsx:24-26 | toggling twice restores `isShared` and equals a reject, so the pending flag ends false |
| Registry.RejectKeepsGrant | App.tsx:33-37 | a reject never changes `isShared`, so an auto-approved grant survives a later reject |
| Registry.RequestAccessIdempotent | App.tsx:45-56 | requesting access twice equals requesting once |
| Registry.VerifyIdempotent | App.tsx:59-63 | marking verified twice equals marking once |
| Registry.AutoApproveNotRetroactive | App.tsx:65-69 | toggling auto-approve leaves `isShared` and the pending flag alone; toggling twice restores the list |
| Registry.TransitionsKeepIds | App.tsx:24-67 | all six transitions keep the list's ids and their order |
| Registry.UnknownIdIsNoOp | App.tsx:24-67 | for an id not in the list every transition returns the list unchanged |
| Registry.TransitionsKeepExclusion | App.tsx:23-69 | "shared" and "pending" never hold together after any transition that starts from such a list; a request on an unshared camera keeps this too |
| Registry.RequestOnSharedCameraBreaksExclusion | App.tsx:45-54 | a request on a shared camera without auto-approve makes it shared and pending at once |
| Registry.CameraRegistry.constructor | App.tsx:12 | the registry starts with the seed list |
| Registry.CameraRegistry.ToggleSharing | App.tsx:23-31 | the list becomes `SharingToggled`; the duration argument has no effect on state |
| Registry.CameraRegistry.RejectRequest | App.tsx:33-37 | the list becomes `RequestRejected` |
| Registry.CameraRegistry.UpdatePrivacy | App.tsx:39-43 | the list becomes `PrivacyUpdated` |
| Registry.CameraRegistry.RequestAccess | App.tsx:45-57 | the list becomes `AccessRequested` |
| Registry.CameraRegistry.VerifyCamera | App.tsx:59-63 | the list becomes `CameraVerified` |
| Registry.CameraRegistry.ToggleAutoApprove | App.tsx:65-69 | the list becomes `AutoApproveToggled` |
| Registry.FindCamera | components/CitizenPortal.tsx:30 | `find` by id: a camera with that id, or none exactly when no camera has it |
| Registry.FindCameraIsFirst | components/CitizenPortal.tsx:30 | `find` returns the camera at the first index that carries the id |
| JsJson.Get | services/geminiService.ts:147-155 | a property read on `null` is flagged (it throws); a key present in an object is defined with its value; anything else is undefined |
| JsText.LeadingSpaces | components/CitizenPortal.tsx:59 | the count of leading whitespace: every unit before it is a space and the one at it is not |
| JsText.TrailingSpaces | services/geminiService.ts:23 | the count of trailing whitespace: every unit after the cut is a space and the one before it is not |
| JsText.TrimStart | components/CitizenPortal.tsx:59 | `parseInt` skips exactly the leading whitespace: the rest is a suffix that does not start with a space |
| JsText.TrimEnd | services/geminiService.ts:23 | the result is a prefix; what it drops is whitespace; it does not end with a space |
| JsText.Trim | services/geminiService.ts:163 | the result is empty exactly when the text is blank, has no space at either end, and keeps only characters of the text |
| JsText.TrimKeepsMiddle | services/geminiService.ts:163 | the trimmed text is the middle slice of the text, and what lies on either side of it is whitespace |
| JsText.Lower | services/geminiService.ts:178 | same length, each character lower-cased |
| JsText.LowerAll | services/geminiService.ts:178 | the element-wise lower-casing of a list |
| JsText.LowerIsLower | services/geminiService.ts:178 | a lower-cased text is lower case |
| JsText.Includes | services/geminiService.ts:173 | `includes` holds exactly when the keyword occurs at some position |
| JsText.SplitWhere | services/geminiService.ts:163 | splitting gives one more piece than there are separators, and no piece holds a separator |
| JsText.SplitRoundTrip | services/geminiService.ts:163 | joining the pieces back with their separators gives the original text |
| JsText.RemoveAll | services/geminiService.ts:23 | removing a pattern never lengthens the text and keeps only its characters; a text without an occurrence is returned unchanged |
| JsText.RemoveAllKeepsPieces | services/geminiService.ts:23 | the result of `replace(/pat/g, '')` is the concatenation of the pieces between the removed occurrences |
| JsText.RemoveAllRoundTrip | services/geminiService.ts:23 | putting the pattern back between those pieces gives the original text |
| JsText.RemoveFenceLeavesNoFence | services/geminiService.ts:23 | after removing all three-backtick fences no fence is left |
| JsText.Dedup | services/geminiService.ts:178 | `Array.from(new Set(xs))`: pairwise distinct, the same members as the input |
| JsText.DedupAppend | services/geminiService.ts:178 | de-duplication keeps first occurrences: appending a seen value changes nothing, and a new one goes last |
| JsText.Take | services/geminiService.ts:164 | `slice(0, n)`: the first `min(n, length)` items |
| Plates.RunLength | services/geminiService.ts:180 | a greedy run of a character class: within the bound, and maximal unless the bound stops it |
| Plates.RunLengthIsLongest | services/geminiService.ts:180 | every run of the class is at most the greedy one |
| Plates.MatchPieces | services/geminiService.ts:180 | the backtracking matcher ends within the text |
| Plates.TryCounts | services/geminiService.ts:180 | trying repetition counts from the greedy one down ends within the text |
| Plates.MatchPiecesSound | services/geminiService.ts:180 | a match the matcher reports is a match of the pattern |
| Plates.TryCountsSound | services/geminiService.ts:180 | a match found at one repetition count is a match of the pattern |
| Plates.MatchPiecesComplete | services/geminiService.ts:180 | whenever the pattern matches at a position, the matcher finds a match there |
| Plates.TryCountsComplete | services/geminiService.ts:180 | a match at any count up to the greedy one is found |
| Plates.MatchSpans | services/geminiService.ts:180 | the global `match` spans lie in the text, in order and not overlapping |
| Plates.MatchSpansSound | services/geminiService.ts:180 | each reported span is a match of the pattern |
| Plates.MatchSpansComplete | services/geminiService.ts:180 | a match anywhere at or after the scan start makes the global match non-empty, starting no later than it |
| Plates.MatchShape | services/geminiService.ts:180 | a match's length lies between the pattern's minimum and maximum, and holds only capital letters, digits, spaces and hyphens |
| Plates.PlatePatternBounds | services/geminiService.ts:180 | a plate is between 9 and 13 characters long |
| Plates.PlateMatchShaped | services/geminiService.ts:180 | every match is 9 to 13 plate characters, starting with two capital letters and ending with four digits |
| Plates.Candidates | services/geminiService.ts:180 | the plate candidates are the matched slices, one per span |
| Plates.CandidatesArePlates | services/geminiService.ts:180 | every candidate has the plate shape |
| Plates.PlateIsFound | services/geminiService.ts:180 | any plate in the text yields at least one candidate |
| Plates.NoDigitNoCandidate | services/geminiService.ts:180 | a text without digits has no candidates |
| Analysis.BuildRequest | services/geminiService.ts:69-134 | frames as JPEG parts in order, then the prompt; PRIVACY and SEARCH go to the larger model and ask for JSON, every other mode the default model with free text |
| Analysis.TrimAll | services/geminiService.ts:163 | each list item trimmed, in order |
| Analysis.KeepLong | services/geminiService.ts:163 | keeps exactly the items longer than two UTF-16 code units |
| Analysis.KeepLongAppend | services/geminiService.ts:163 | the `filter` keeps list order: filtering a concatenation concatenates the filtered parts |
| Analysis.ObjectLabels | services/geminiService.ts:163-164 | the labels are the first ten trimmed list items longer than two code units, in list order, or all of them when fewer qualify |
| Analysis.WordAt | services/geminiService.ts:166 | the first vocabulary alternative matching case-insensitively at a position and ending on a word boundary, or none at all |
| Analysis.VocabScan | services/geminiService.ts:166 | every word the vocabulary scan returns is, lower-cased, in the vocabulary |
| Analysis.VocabularyWordIsFound | services/geminiService.ts:166 | a vocabulary word standing on its own in the text makes the scan non-empty |
| Analysis.JStrs | services/geminiService.ts:155 | strings lifted to JSON strings, in order |
| Analysis.Strings | services/geminiService.ts:178 | a list of JSON strings read back as strings |
| Analysis.Finish | services/geminiService.ts:171-192 | labels distinct and lower case and exactly the lowered string labels; score from the final text; plate candidates of the final text; a non-string text or label (no `toLowerCase`) gives the offline result |
| Analysis.AnalyzeFrame | services/geminiService.ts:53-193 | empty input gives the empty-data result with no call; a failed call gives the offline result; score is 0, 30 or 95, and 0 exactly on the two failure results; labels distinct and lower case |
| Analysis.EmptyFramesSkipModel | services/geminiService.ts:59-66 | with no frames the result is the same whatever the model and parser do, with score 0 |
| Analysis.SafetyScoreMeaning | services/geminiService.ts:171-174 | the score is 30 exactly when some danger keyword occurs in the lower-cased text, and 95 otherwise; case does not matter |
| Analysis.JsonDraftShape | services/geminiService.ts:143-160 | in PRIVACY and SEARCH a reply that does not parse, or parses to `null`, gives the parse-error draft; PRIVACY never matches; SEARCH never recommends blurring and labels "Target Match" exactly when the flag is truthy |
| Analysis.TextDraftShape | services/geminiService.ts:161-170 | in the free-text modes the text is the reply, both flags are false, the labels are strings, and OBJECTS gives at most ten |
| Analysis.FreeTextReport | services/geminiService.ts:161-183 | in the free-text modes the report is the reply, scored 30 with a danger keyword and 95 without, both flags false, plates scanned |
| Analysis.TextDraftLabels | services/geminiService.ts:161-178 | in the free-text modes every label is the lowered form of a listed or scanned word, and there are no more labels than words |
| Analysis.ObjectModeLabels | services/geminiService.ts:162-164 | OBJECTS yields at most ten labels, each a lowered list item longer than two |
| Analysis.VocabularyModeLabels | services/geminiService.ts:165-166 | ANOMALY, FACE and ANPR labels are all vocabulary words |
| Analysis.SearchReport | services/geminiService.ts:152-156 | the flag is `matchFound` or false; the label list is "target match" exactly when the flag is truthy; a truthy string `description` is the text; a falsy one gives the stock text matching the flag; a non-string description gives the offline result |
| Analysis.PrivacyReport | services/geminiService.ts:146-151 | text is the summary or the stock text; the recommendation is truthy exactly when `recommendBlur` is; the labels are the lowered string risks only when `risks` is an array |
| Analysis.ParseFailureReport | services/geminiService.ts:157-160 | a reply that does not parse, or parses to `null`, gives the parse-error text with score 95 |
| Analysis.SafeWithoutKeywordLetters | services/geminiService.ts:171-173 | a text lacking all of the letters f, c, w, b, u and k, in either case, contains no danger keyword |
| Analysis.ParseErrorTextIsSafe | services/geminiService.ts:159-173 | the parse-error text contains no danger keyword |
| Analysis.FencedReplyIsNotCleaned | services/geminiService.ts:143-145 | a fenced JSON reply reaches `JSON.parse` as is and gives the parse-error report |
| Analysis.AnalyzePrivacy | services/geminiService.ts:45-51 | the reason is the PRIVACY analysis text of the one frame |
| Analysis.PrivacyAdviceFromAudit | services/geminiService.ts:45-51 | a truthy recommendation needs a parsed object reply with truthy `recommendBlur`; otherwise the recommendation is `false` |
| Analysis.FirstIndexOf | services/geminiService.ts:26 | the first position of a character, or none |
| Analysis.LastIndexOf | services/geminiService.ts:26 | the last position of a character, or none |
| Analysis.BraceSpan | services/geminiService.ts:26-29 | the span from the first `{` to the last `}`, when a `{` precedes a `}`; none otherwise |
| Analysis.CutToBraces | services/geminiService.ts:26-29 | the cut never lengthens the text |
| Analysis.CutToBracesShape | services/geminiService.ts:26-29 | with a `{` before a `}` the text is cut to the brace span; otherwise it is kept whole |
| Analysis.VerifyLocationContext | services/geminiService.ts:6-41 | a failed call gives the connectivity verdict; a cleaned reply that does not parse gives the parse-failure verdict; a cleaned reply that parses gives the parsed value |
| Analysis.IncludesSlice | services/geminiService.ts:26-29 | cutting the text to a slice creates no new fence |
| Analysis.StrippedReplyShape | services/geminiService.ts:23 | after the fence removal and `trim` no fence is left, and a non-empty result has no space at either end |
| Analysis.CleanedReplyHasNoFence | services/geminiService.ts:20-29 | the text handed to `JSON.parse` never holds a three-backtick fence |
| Analysis.MissingReplyIsEmptyObject | services/geminiService.ts:20 | a reply without text is parsed as `{}` |
| Analysis.LocationVerdictSources | services/geminiService.ts:20-40 | any other verdict is what `JSON.parse` gave for the fence-free cleaned reply of a call that succeeded |
| Citizen.PendingRequests | components/CitizenPortal.tsx:33 | exactly the cameras with a pending request that are not shared |
| Citizen.PendingRequestsAppend | components/CitizenPortal.tsx:33 | the filter keeps list order |
| Citizen.PendingRequestsUnique | components/CitizenPortal.tsx:33 | distinct camera ids stay distinct among the pending requests |
| Citizen.LeadingDigits | components/CitizenPortal.tsx:59 | the longest prefix of decimal digits |
| Citizen.ParseInt | components/CitizenPortal.tsx:59 | `parseInt` is NaN exactly when no digit follows the leading whitespace and optional sign |
| Citizen.DefaultDurationValue | components/CitizenPortal.tsx:22 | the duration field's value reads as 120 |
| Citizen.GrantFor | components/CitizenPortal.tsx:55-63 | the grant is the pending ids in order when any are pending; otherwise the first camera; an empty list has no camera |
| Citizen.ToggleEachEffect | components/CitizenPortal.tsx:59 | toggling distinct ids one after the other toggles exactly the cameras with those ids |
| Citizen.BatchGrantSharesPending | components/CitizenPortal.tsx:33-59 | every camera awaiting a decision ends shared with nothing pending, and every other camera is unchanged |
| Citizen.FallbackFlipsFirst | components/CitizenPortal.tsx:60-62 | with nothing pending the first camera's sharing is flipped, so a shared first camera becomes private; the rest are unchanged |
| Citizen.Opened | components/CitizenPortal.tsx:202 | the banner button opens the dialog and changes nothing else |
| Citizen.Closed | components/CitizenPortal.tsx:35-42 | closing an open dialog resets the step to REVIEW, the code and error to empty, and the duration to "120"; grants and verdicts are untouched |
| Citizen.OtpRequested | components/CitizenPortal.tsx:44-45 | sending the code makes the button busy and changes nothing else |
| Citizen.OtpSent | components/CitizenPortal.tsx:46-49 | the 800 ms timer clears the busy flag and moves to the code step; nothing else changes |
| Citizen.Cancelled | components/CitizenPortal.tsx:375 | cancelling moves back to REVIEW and keeps the typed code; nothing else changes |
| Citizen.OtpEdited | components/CitizenPortal.tsx:369 | a value is taken only when it is all digits and at most four long; every attempt clears the error |
| Citizen.OtpChecked | components/CitizenPortal.tsx:52-70 | "1234" moves to SUCCESS and schedules the grant; any other code sets the error and clears the field |
| Citizen.GrantFired | components/CitizenPortal.tsx:55-65 | the 1500 ms timer consumes the oldest scheduled grant; a grant with no camera leaves everything else as it was, any other closes the dialog; verdicts and the selected camera are kept |
| Citizen.LocationChecked | components/CitizenPortal.tsx:72-84 | the verdict is stored under the camera's id and no check is busy; nothing else changes |
| Citizen.DialogStepsKeepWellFormed | components/CitizenPortal.tsx:35-50 | opening, closing, sending and cancelling keep the code at four digits at most and the duration at its default |
| Citizen.CodeStepsKeepWellFormed | components/CitizenPortal.tsx:52-70 | typing and checking a code keep the code at four digits at most and the duration at its default |
| Citizen.CallbacksKeepWellFormed | components/CitizenPortal.tsx:55-84 | the grant callback and a location check keep the code at four digits at most and the duration at its default |
| Citizen.SuccessNeedsCode | components/CitizenPortal.tsx:52-55 | SUCCESS and a scheduled grant come only from the right code |
| Citizen.WrongCodeChangesNoCamera | components/CitizenPortal.tsx:66-69 | a wrong code keeps the step, shows the error, clears the field and schedules nothing |
| Citizen.CloseResets | components/CitizenPortal.tsx:35-42 | closing is idempotent and resets an open dialog |
| Citizen.SendThenCancel | components/CitizenPortal.tsx:44-50 | sending the code moves REVIEW to OTP, and cancelling returns to the starting state |
| Citizen.LocationCheckIsLocal | components/CitizenPortal.tsx:72-84 | the verdict goes under the camera's id only; no check is busy afterwards; the camera shows verified exactly when the verdict or the camera says so |
| Citizen.CitizenPortal.constructor | components/CitizenPortal.tsx:16-28 | the portal starts closed, at REVIEW, with an empty code and the default duration |
| Citizen.CitizenPortal.OpenEmergencyModal | components/CitizenPortal.tsx:190-202 | opening is offered while the banner shows and sets the dialog open |
| Citizen.CitizenPortal.CloseEmergencyModal | components/CitizenPortal.tsx:35-42 | the state becomes `Closed` |
| Citizen.CitizenPortal.SendOtp | components/CitizenPortal.tsx:44-45 | the button is busy while sending |
| Citizen.CitizenPortal.OtpTimerFired | components/CitizenPortal.tsx:46-49 | the timer clears the busy flag and moves to OTP |
| Citizen.CitizenPortal.CancelOtp | components/CitizenPortal.tsx:375 | the step goes back to REVIEW |
| Citizen.CitizenPortal.EditOtp | components/CitizenPortal.tsx:369 | the state becomes `OtpEdited` |
| Citizen.CitizenPortal.VerifyOtp | components/CitizenPortal.tsx:52-70 | the state becomes `OtpChecked`; the camera list is not written |
| Citizen.CitizenPortal.GrantTimerFired | components/CitizenPortal.tsx:55-65 | `toggleSharing` runs for each scheduled id in turn, so the list becomes `Granted`; the dialog then closes unless no camera existed |
| Citizen.CitizenPortal.VerifyLocation | components/CitizenPortal.tsx:72-84 | the location verdict is stored under the camera's id and the busy marker cleared |
| Citizen.CitizenPortal.RecordVerdict | components/CitizenPortal.tsx:76-83 | the state becomes `LocationChecked` |
| Citizen.CitizenPortal.SelectCamera | components/CitizenPortal.tsx:235 | only the selected camera changes |
| Scanner.Progress | components/VideoAnalyzer.tsx:89 | `Math.round((i + 1) / 3 * 40)`: the nearest integer to 40(i + 1)/3 |
| Scanner.ProgressSchedule | components/VideoAnalyzer.tsx:89 | the three capture steps report 13, 27 and 40 |
| Scanner.Captured | components/VideoAnalyzer.tsx:72-94 | the frames pushed by the first n captures number at most n |
| Scanner.CapturedMeaning | components/VideoAnalyzer.tsx:72-94 | the loop fails exactly when some capture throws; otherwise every frame is one a capture drew |
| Scanner.CapturedPayloads | components/VideoAnalyzer.tsx:76-94 | when no capture throws, the frames are exactly the payloads of the drawn captures, in capture order |
| Scanner.Completed | components/VideoAnalyzer.tsx:76 | the number of iterations finished is at most three |
| Scanner.IterTrailShape | components/VideoAnalyzer.tsx:76-94 | after k iterations the progress values are the first k of the schedule, with a pause after each but the last |
| Scanner.PrefixTrailShape | components/VideoAnalyzer.tsx:68-94 | the trail of a scan stopped after k iterations starts at 0 and then follows the schedule |
| Scanner.FullTrailShape | components/VideoAnalyzer.tsx:68-100 | a completed scan reports 0, 13, 27, 40, 50, 100 and pauses twice |
| Scanner.PrefixTrailRises | components/VideoAnalyzer.tsx:68-94 | the progress of an interrupted scan never goes down and stays at most 40 |
| Scanner.FullTrailRises | components/VideoAnalyzer.tsx:68-100 | the progress of a completed scan never goes down and ends at 100 |
| Scanner.ScannedTrail | components/VideoAnalyzer.tsx:67-112 | a completed scan ends at 100 with the full trail; a failed scan keeps the progress of its last finished iteration |
| Scanner.ScanProgress | components/VideoAnalyzer.tsx:89-100 | progress never decreases and never exceeds 100; a completed scan pauses exactly twice and ends at 100 |
| Scanner.Scanned | components/VideoAnalyzer.tsx:58-113 | a failed guard leaves the state as it is; a started scan ends not analyzing, with a result and a trail starting at 0; tab, query and video error are kept |
| Scanner.ScanButtonDisabled | components/VideoAnalyzer.tsx:436 | the button is disabled exactly while analyzing, on a video error, or on the SEARCH tab with a blank query |
| Scanner.TabSwitched | components/VideoAnalyzer.tsx:402 | the tab becomes the chosen one and the result is cleared; nothing else changes |
| Scanner.BlurOffered | components/VideoAnalyzer.tsx:299 | the blur button shows only with a truthy recommendation, a camera with no privacy filter and an update handler |
| Scanner.GuardedScanIsNoOp | components/VideoAnalyzer.tsx:59-65 | with no video, a video error, a blank SEARCH query or an unready video, the scan changes nothing |
| Scanner.ButtonMatchesGuards | components/VideoAnalyzer.tsx:59-65 | an enabled button on a ready video starts a scan; a scan that would start has the button enabled unless one is running |
| Scanner.ScanOutcome | components/VideoAnalyzer.tsx:96-112 | a started scan ends not analyzing, with the analysis of at most three frames or the capture-failure result (no labels, score 0) |
| Scanner.NoFramesNoCall | components/VideoAnalyzer.tsx:82-98 | when no capture draws a frame the model is not called and the empty-data result is shown |
| Scanner.TabSwitchClears | components/VideoAnalyzer.tsx:402 | switching tab clears the result, so no blur is offered |
| Scanner.CompletedAtThrow | components/VideoAnalyzer.tsx:76-94 | the first throwing capture is where the loop stops |
| Scanner.NoneStaysNone | components/VideoAnalyzer.tsx:104 | once a capture throws, the whole loop has failed |
| Scanner.ScannedWhenCaptured | components/VideoAnalyzer.tsx:96-102 | a started scan whose captures all returned ends at 100 with the full trail and the analysis of the captured frames |
| Scanner.ScannedWhenFailed | components/VideoAnalyzer.tsx:104-112 | a started scan whose capture threw ends with the capture failure and the trail of the iterations finished |
| Scanner.VideoAnalyzer.constructor | components/VideoAnalyzer.tsx:13-19 | nothing analyzed yet, OBJECTS tab, empty query |
| Scanner.VideoAnalyzer.CaptureFrameSequence | components/VideoAnalyzer.tsx:58-113 | the state becomes `Scanned`: unchanged when a guard fails, otherwise as `Scan` leaves it |
| Scanner.VideoAnalyzer.Scan | components/VideoAnalyzer.tsx:67-113 | a scan whose guards passed leaves the state `Scanned`: the analysis after three captures, or the capture failure |
| Scanner.VideoAnalyzer.CaptureLoop | components/VideoAnalyzer.tsx:67-94 | started in the state the scan handler sets (analyzing, result cleared, progress 0), the frames are `Captured`; the trail and progress are those of the iterations finished |
| Scanner.VideoAnalyzer.RecordCapture | components/VideoAnalyzer.tsx:88-93 | after capture i the progress is its scheduled value and the trail is that of i + 1 iterations; nothing else changes |
| Scanner.VideoAnalyzer.Complete | components/VideoAnalyzer.tsx:96-102 | progress 50 then 100 joins the trail, the analysis of the frames for the current tab and query is stored, analyzing off |
| Scanner.VideoAnalyzer.SwitchTab | components/VideoAnalyzer.tsx:402 | the tab changes and the result is cleared |
| Scanner.VideoAnalyzer.EditSearchQuery | components/VideoAnalyzer.tsx:427 | only the query changes |
| Scanner.VideoAnalyzer.SetVideoError | components/VideoAnalyzer.tsx:134 | only the video-error flag changes |
| Scanner.VideoAnalyzer.ApplyPrivacyRecommendation | components/VideoAnalyzer.tsx:140-144 | with a handler the camera's privacy becomes BLUR_FACES; without one nothing changes |
| Dashboard.NextStatus | components/AuthorityDashboard.tsx:40-43 | the churn always changes the status |
| Dashboard.StatusCycle | components/AuthorityDashboard.tsx:40-43 | three churns restore a status and two do not |
| Dashboard.ChurnIndex | components/AuthorityDashboard.tsx:36 | `Math.floor(Math.random() * n)` is an index of a non-empty list |
| Dashboard.StatusChurned | components/AuthorityDashboard.tsx:35-47 | one camera's status advances and every other camera is unchanged; an empty list is kept |
| Dashboard.Churned | components/AuthorityDashboard.tsx:35-47 | the tick changes only the local camera list: its length is kept and every camera but the chosen one is unchanged |
| Dashboard.ChurnThriceRestores | components/AuthorityDashboard.tsx:40-45 | churning the same index three times restores the list |
| Dashboard.ChurnKeepsAllButStatus | components/AuthorityDashboard.tsx:45 | the churn keeps ids and changes nothing but a status |
| Dashboard.Visible | components/AuthorityDashboard.tsx:108-111 | the filter never lengthens the list |
| Dashboard.VisibleMembers | components/AuthorityDashboard.tsx:108-111 | a camera is shown exactly when it is in the list and passes the status filter |
| Dashboard.AllShowsEverything | components/AuthorityDashboard.tsx:109 | 'ALL' keeps the whole list |
| Dashboard.VisibleAppend | components/AuthorityDashboard.tsx:108-111 | the filter keeps list order |
| Dashboard.FiltersPartition | components/AuthorityDashboard.tsx:110 | the three status filters together show every camera exactly once |
| Dashboard.CriticalIncidents | components/AuthorityDashboard.tsx:56-58 | exactly the HIGH and CRITICAL incidents not dismissed |
| Dashboard.CurrentAlert | components/AuthorityDashboard.tsx:60 | an alert exists exactly when some undismissed critical incident does, and it is one |
| Dashboard.AlertIsFirst | components/AuthorityDashboard.tsx:56-60 | the alert is the first undismissed critical incident in list order |
| Dashboard.DismissedNeverAlerts | components/AuthorityDashboard.tsx:62-66 | a dismissed id never comes back as the alert, and dismissing more never adds critical incidents |
| Dashboard.DismissAdvances | components/AuthorityDashboard.tsx:62-66 | dismissing the alert removes exactly that id from the critical list |
| Dashboard.CriticalRemove | components/AuthorityDashboard.tsx:56-64 | adding an id to the dismissed set removes that id's incidents from the critical list and keeps the rest in order |
| Dashboard.PulseMarksActiveFeeds | components/AuthorityDashboard.tsx:137-145 | the pulse ring is drawn exactly under markers filled in the active colour, and those are shared cameras whose button opens the feed |
| Dashboard.StatusLabel | components/AuthorityDashboard.tsx:164 | the label is "PRIVATE" exactly for unshared cameras, the status otherwise |
| Dashboard.MarkerFill | components/AuthorityDashboard.tsx:114-135 | indigo exactly for private cameras; shared ones are coloured by status |
| Dashboard.ActionFor | components/AuthorityDashboard.tsx:156-164 | "View Feed" exactly for shared cameras; "Request Pending" exactly for private cameras with a pending request |
| Dashboard.ActionClick | components/AuthorityDashboard.tsx:180-197 | a disabled button does nothing; a shared camera opens the feed; a private one without a request opens the request dialog |
| Dashboard.ActionButtonAgrees | components/AuthorityDashboard.tsx:159-197 | the button text, its `disabled` attribute and its click handler agree: "Request Pending" is the disabled button that does nothing, "View Feed" opens the feed, "Request Access" opens the request dialog |
| Dashboard.VerifyButtonDisappears | components/AuthorityDashboard.tsx:181 | the verify button is offered only for unverified cameras: once a camera is marked verified it has none, and every other camera keeps its own |
| Dashboard.VerifyOutcomeOf | components/AuthorityDashboard.tsx:207-217 | success exactly when `verified` is truthy and a handler exists; an error exactly when the verdict is `null` |
| Dashboard.IncidentAnchor | components/AuthorityDashboard.tsx:224 | an incident is drawn at its camera, or at the first camera when its camera is unknown |
| Dashboard.MarkerClicked | components/AuthorityDashboard.tsx:192-197 | a shared camera opens its feed, a private one without a request opens the request dialog, a private one with a pending request changes nothing |
| Dashboard.RequestSubmitted | components/AuthorityDashboard.tsx:68-72 | submitting marks the request sent and changes nothing else |
| Dashboard.RequestDialogClosed | components/AuthorityDashboard.tsx:73-76 | the 2000 ms timer clears the sent flag and the chosen camera; nothing else changes |
| Dashboard.DismissedOnlyGrows | components/AuthorityDashboard.tsx:62-66 | dismissing adds the id; no other step changes the dismissed set |
| Dashboard.RequestDialogOnlyForPrivate | components/AuthorityDashboard.tsx:192-197 | a click opens the request dialog only for a private camera without a request; a disabled button changes nothing |
| Dashboard.AuthorityDashboard.constructor | components/AuthorityDashboard.tsx:16-25 | the dashboard starts from the cameras prop, nothing dismissed, filter 'ALL' |
| Dashboard.AuthorityDashboard.SyncCameras | components/AuthorityDashboard.tsx:28-30 | the local list is replaced by the prop |
| Dashboard.AuthorityDashboard.ChurnTick | components/AuthorityDashboard.tsx:32-51 | one tick churns the camera at `floor(random * length)` |
| Dashboard.AuthorityDashboard.SetFilter | components/AuthorityDashboard.tsx:312-315 | only the filter changes |
| Dashboard.AuthorityDashboard.DismissAlert | components/AuthorityDashboard.tsx:62-66 | the id joins the dismissed set, and the new alert is another incident |
| Dashboard.AuthorityDashboard.ClickMarkerAction | components/AuthorityDashboard.tsx:189-198 | the state becomes `MarkerClicked` |
| Dashboard.AuthorityDashboard.SubmitRequest | components/AuthorityDashboard.tsx:68-72 | the request is marked sent and, with a camera chosen, access is requested for it |
| Dashboard.AuthorityDashboard.RequestTimerFired | components/AuthorityDashboard.tsx:73-76 | the dialog closes and the sent flag is cleared |
| Dashboard.AuthorityDashboard.CloseOverlays | components/AuthorityDashboard.tsx:405 | closing the feed or cancelling the dialog clears only that overlay |
| Dashboard.AuthorityDashboard.VerifyLocationClicked | components/AuthorityDashboard.tsx:181-220 | the button exists only for an unverified camera (`VerifyOffered`); the camera is marked verified exactly when the verdict's `verified` is truthy |
| Notifications.Unread | components/Navbar.tsx:17 | the filter never lengthens the list |
| Notifications.UnreadMembers | components/Navbar.tsx:17 | an entry is kept exactly when it is in the list and unread |
| Notifications.UnreadAppend | components/Navbar.tsx:17 | the filter keeps list order and multiplicity: filtering a concatenation concatenates the filtered parts |
| Notifications.UnreadCount | components/Navbar.tsx:17 | the badge is at most the list's length, and 0 exactly when every notification is read |
| Notifications.UnreadCountAdds | components/Navbar.tsx:17 | the badge counts unread entries: one entry counts 1 exactly when unread, and the counts of two lists add up |
| Notifications.MarkedAsRead | components/Navbar.tsx:23-25 | entries with that id become read; length, order and all else are kept |
| Notifications.MarkAsReadCount | components/Navbar.tsx:17-25 | marking lowers the badge by exactly the unread entries with that id, and never raises it |
| Notifications.UnreadWithIdBound | components/Navbar.tsx:17 | the unread entries with one id are at most the badge |
| Notifications.MarkAsReadIdempotent | components/Navbar.tsx:24 | marking twice is marking once, and the ids keep their order |
| Notifications.MarkAsReadClearsId | components/Navbar.tsx:24 | after marking, no entry with that id is unread |
| Notifications.UnreadOfFour | components/Navbar.tsx:17 | of four entries whose first two are unread and last two read, the unread ones are the first two |
| Notifications.SeedBadge | constants.ts:189-222 | the seed notifications show a badge of 2 |
| Notifications.ArchiveEntries | components/Navbar.tsx:160-182 | the open archive lists the four seed notifications, two of them unread, starting with NOT-001; a closed archive lists nothing |
| Notifications.Navbar.constructor | components/Navbar.tsx:13-15 | the list starts as the seed, closed, without history |
| Notifications.Navbar.MarkAsRead | components/Navbar.tsx:23-25 | the list becomes `MarkedAsRead` |
| Notifications.Navbar.ClearAll | components/Navbar.tsx:19-21 | the list is emptied and the badge is 0; what the archive lists is unchanged |
| Notifications.Navbar.ToggleOpen | components/Navbar.tsx:61 | only the open flag flips |
| Notifications.Navbar.OpenArchive | components/Navbar.tsx:128-131 | the menu closes, the archive opens and lists the seed notifications, and the list is kept |
| Notifications.Navbar.CloseArchive | components/Navbar.tsx:174 | the archive's close buttons (here and at line 224) hide it, so it lists nothing; the list and the menu are kept |

## Left out

- The AI model and the Maps service are not modelled. Each is a function parameter, so the model covers every possible reply.
- The prompt texts are kept only as which prompt was sent. The SEARCH prompt keeps its target.
- `JSON.parse` is a parameter returning a parsed value or failure. The JSON grammar is not modelled.
- The video URLs and thumbnails are not kept.
- Lower-casing covers ASCII letters only. This matches the `/i` regular-expression flag used for the vocabulary. `toLowerCase` on non-ASCII text is not modelled.
- Citizen.ParseInt: decimal only. A `0x` prefix, which JavaScript's `parseInt` reads as hexadecimal, is not modelled. The only value the field can hold is "120", and the parsed duration is only logged.
- Canvas drawing, JPEG encoding and the floating-point frame scaling are not modelled. Each capture is drawn (a base64 payload), has no 2D context, or throws.
- The 400 ms waits between captures appear only as `Wait` events in the trail. Wall-clock time is not modelled.
- The modelled timers (800 ms, 1500 ms, 2000 ms) become explicit methods.
  - The model does not capture other handlers interleaving while an `await` or a timer is pending. Examples: a tab switch during a scan, two overlapping location checks, or the OTP timer firing after the dialog closed.
  - The grant uses the pending list and duration read when the code was checked, as the timer's closure does.
- The 3.5 s interval of the status churn is not modelled. `ChurnTick` is one firing of it.
- `Math.random` is not modelled. It becomes a `real` argument in [0, 1).
- Map rendering is not modelled: Leaflet set-up, marker drawing, popups, incident icons and the pulse circle's geometry. The classification that drives them is modelled.
- The verify button's DOM text changes ("Verifying...", "Verification Failed", "Error") become the `VerifyOutcome` values.
- Playback speed, the OSD clock and settings, and retry/reload of the video element are left out. Only `SetVideoError` is kept.
- Console logging, class names and styling are left out.
- components/AuthPage.tsx (a stub login) and components/Logo.tsx (an SVG) are not part of this model.
- constants.ts: only the seed notifications are transcribed. The seed cameras and incidents are not; they are arguments here.
- types.ts is not part of this model. Its enumerations are datatypes whose string values are taken to be their names.
- Analysis.VerifyLocationContext: when the cleaned reply parses, the value is returned as is, whatever its shape; the model does not check it against the verdict's declared fields.
