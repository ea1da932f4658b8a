# ai-interview-coach session logic in Dafny

A model of the logic behind the four screens of the ai-interview-coach mobile app:

- **Setup.** The chat-style setup screen collects a role description and a question count, validates them, and builds the payload for the next screen.
- **Practice.** The forward-only practice screen:
  - builds the question-generation prompt;
  - classifies the server's reply and parses a plain-text question list;
  - counts down each question;
  - takes speech-to-text hypotheses as the draft answer;
  - keeps an append-only ledger of answers that is sent for grading after the last question.
- **Interview.** The back-navigable interview screen is a separate state machine. It has start/pause/reset/next/prev, a per-answer timer, audio capture, and typed answers keyed by question index. It assembles the transcript handed to the results screen.
- **Results.** The results screen clamps and colours the overall score, fills in defaults for missing fields, and averages the rubric scores with half-up rounding.

Each screen is a module of pure functions. The two session machines are kept apart: `Practice` models the forward-only flow of app/questions.js and `Interview` models app/interview.js.

Asynchronous work is not performed. It is represented by data:

- **Timers, haptics, narration, microphone capture and navigation.** Every `Interview` transition returns the next state together with a list of `Effect`s. A completion comes back as a later event, for example `CaptureEnded(at, result)`.
- **Network calls.** The answers of `/healthz` and `/generate-questions` are parameters of `Fetch.FetchQuestions`: a health flag and a `Result<Reply, string>`. A request or body read that throws arrives as `Err(message)`; an answer arrives as a `Reply` record (status, content type, raw body and its JSON decoding). The request to `/grade` is the `graded` field of a `Practice.Finished` value.
- **JSON decoding.** Decoding is a parameter. A missing or non-array field arrives as `None`.

Modules:

- `Common`: the option and result types, JavaScript's `a || b` on strings, `clamp`, and the `timerSec || 90` default.
- `Text`: the JavaScript string primitives the core uses (whitespace, `trim`, `split`/`join`, decimal numerals, ASCII lower-casing, substring search), built on index-based character runs.
- `Prompt`: `buildPrompt`.
- `Fetch`: the numbering-stripping line parser and the error rules of `fetchQuestions`.
- `Practice`: the countdown, the speech handlers, `finishQuestion` and `gradeNow`.
- `Interview`: the back-navigable machine and its transcript.
- `Setup`: `sendDraft`, `validate`, and `onGenerate` without its navigation.
- `Results`: the results screen's arithmetic and defaults.
- `Flow`: how a generated setup payload is read by the practice screen.

## Model

| member | source | states |
|---|---|---|
| Common.Clamp | app/results.js:63 | the result lies in [a, b] whenever a <= b; it is n itself when n is already in range, a below the range and b above it |
| Common.DurationOr90 | app/interview.js:62 | a missing timer setting and a zero setting both mean 90 seconds; any other setting is used as given; the result is never zero |
| Common.OrElse | app/questions.js:116 | a non-empty string is kept and the empty string is replaced by the fallback, as JavaScript's `\|\|` does on strings |
| Text.Trim | app/questions.js:293 | the result has no leading or trailing whitespace, and it is empty exactly when the input is all whitespace |
| Text.TrimOfPadded | app/setup.js:196 | trimming a trimmed string padded with whitespace on both sides gives back exactly that string |
| Text.TrimIdempotent | app/setup.js:196 | trimming twice is the same as trimming once |
| Text.TrimChars | app/questions.js:293 | trimming never introduces a character that was not in the input |
| Text.Split | app/questions.js:292 | splitting yields at least one part and no part contains the separator |
| Text.SplitJoin | app/questions.js:292 | splitting a separator-joined list of separator-free strings gives the list back |
| Text.Join | app/questions.js:117 | joining no strings gives the empty string and joining one string gives it unchanged |
| Text.JoinEnds | app/questions.js:117 | a join of two or more strings opens with the first one followed by the separator and closes with the separator followed by the last one |
| Text.JoinSplit | app/questions.js:292 | joining the parts of a split with the separator rebuilds the original string |
| Text.DecimalRoundTrip | app/questions.js:109 | reading back the decimal numeral of a number gives that number |
| Text.DecimalInjective | app/questions.js:109 | distinct numbers have distinct numerals |
| Text.Decimal | app/questions.js:108 | a numeral is a non-empty string of digits without a leading zero, except for 0 itself |
| Text.Lower | app/questions.js:275 | lower-casing keeps the length and maps each ASCII capital to its lower-case letter, leaving every other character alone |
| Text.Contains | app/questions.js:286 | the search answers true exactly when the needle occurs at some position of the haystack |
| Prompt.RequestedCount | app/questions.js:97 | the requested count is always between 1 and 20; a missing or zero count asks for 7, an in-range count is kept, and out-of-range counts saturate at 1 or 20 |
| Prompt.ContextLines | app/questions.js:98-105 | the context keeps only non-empty lines, one per present field, in source order: Role (or Major when there is no role), then `Company: ` with the company, then the mode/level line, which is always present, then `Focus: ` with the topics joined by `, ` |
| Prompt.ContextFallbackUnreachable | app/questions.js:116 | because the mode/level line is always present, the "General interview." fallback is never chosen |
| Prompt.FormatEnumerates | app/questions.js:109 | the FORMAT line has n entries, and entry i is numbered i + 1 |
| Prompt.PromptLines | app/questions.js:107-117 | the prompt has nine lines. The first asks for exactly the clamped count. The second is `FORMAT: ` followed by the numbered placeholders joined by two spaces. The third numbers the lines `1..n` with the same count. The last is the joined context block |
| Prompt.PromptOpensWithCount | app/questions.js:108 | the prompt's first line asks for exactly the clamped count of questions |
| Prompt.BuildPrompt | app/questions.js:96-118 | the prompt ends with a newline followed by the non-empty context lines joined by newlines |
| Prompt.JoinPrompt | app/questions.js:107-117 | the nine lines joined by newlines end with a newline and the ninth line |
| Fetch.NumberingLengthMaximal | app/questions.js:293 | the stripped prefix is maximal: when something was stripped and text remains, the next character cannot extend the numbering |
| Fetch.StripNumberingOf | app/questions.js:293 | leading whitespace, a run of digits and a run of `)`, `.`, `-` or whitespace are removed together, leaving exactly the rest of the line |
| Fetch.StripNumberingOfUnnumbered | app/questions.js:293 | a line whose first non-blank character is not a digit is left untouched |
| Fetch.StripNumbering | app/questions.js:293 | the cleaned line is a suffix of the original line |
| Fetch.CleanLine | app/questions.js:293 | a cleaned line is trimmed |
| Fetch.CleanLineChars | app/questions.js:293 | cleaning only removes characters and never adds one |
| Fetch.SplitLines | app/questions.js:292 | the reply is cut into one piece per newline-separated part, and no piece contains a newline. Every part but the last loses its trailing `\r` exactly when it has one and is otherwise kept as is; the last part is kept as is |
| Fetch.NonEmpty | app/questions.js:294 | the filter keeps exactly the non-empty strings; a single string is kept exactly when it is non-empty |
| Fetch.NonEmptyAppend | app/questions.js:294 | filtering a concatenation is the concatenation of the filtered halves |
| Fetch.ParseQuestionList | app/questions.js:291-294 | every parsed question is a non-empty single line without surrounding whitespace, and the questions are exactly the non-empty cleaned lines of the reply, in reply order and with duplicates kept |
| Fetch.ParseNumberedReply | app/questions.js:291-294 | a reply that numbers plain questions `1. q1` to `n. qn`, one per line, parses back to exactly those questions in order |
| Fetch.ParseNumberedReplyCrlf | app/questions.js:292 | the same holds when the reply uses CRLF line ends |
| Fetch.SplitLinesCrlf | app/questions.js:292 | splitting on `\r?\n` gives back the lines that were joined with CRLF |
| Fetch.ErrorMessage | app/questions.js:262-300 | every failure shows a non-empty message: the server-unreachable text, `HTTP <status> – ` and the 300-character excerpt, the non-JSON label with the 120-character excerpt and `…`, the no-questions text, or the thrown message unless it is empty, in which case the fallback text |
| Fetch.Prefix | app/questions.js:279 | the excerpt is the first k characters, or the whole text when it is shorter |
| Fetch.IsJsonType | app/questions.js:275-282 | the reply counts as JSON exactly when the lower-cased content type contains `application/json` somewhere |
| Fetch.StartsWithTag | app/questions.js:286 | true exactly when the first non-whitespace character of the body is `<` |
| Fetch.LeadingSpace | app/questions.js:286 | the leading-whitespace run is all whitespace, and it is the only such prefix followed by a non-whitespace character |
| Fetch.MentionsNotFound | app/questions.js:286 | true exactly when the lower-cased body contains `not found` somewhere |
| Fetch.ReadReply | app/questions.js:275-296 | a non-OK status fails with a 300-character excerpt. A JSON body yields its non-empty question array, a parse error, or "no questions". A non-JSON body that starts with `<` or mentions "not found" is rejected with a 120-character excerpt; otherwise it is parsed as text, and an empty list is "no questions". Success always carries at least one question |
| Fetch.FetchQuestions | app/questions.js:254-296 | the rules are checked in source order: an empty API base, then an unhealthy server; a thrown request or body read fails with its message, and an answered request is read by the reply rules |
| Fetch.RequestFailureShown | app/questions.js:269-300 | when the request itself throws, the screen shows the thrown message, or the fallback text when that message is empty |
| Fetch.HtmlReplyRejected | app/questions.js:286-289 | an HTML page served without a JSON content type is rejected as non-JSON |
| Fetch.NumberedTextReplyLoads | app/questions.js:286-296 | a numbered plain-text reply from a healthy server loads exactly the questions it numbers |
| Practice.Countdown | app/questions.js:316 | one second of countdown goes down by one while positive and never below zero |
| Practice.CountdownByClosedForm | app/questions.js:314-316 | after k seconds the display shows the starting value minus k, or 0 once time has run out |
| Practice.FirstHypothesis | app/questions.js:208 | the text is the first hypothesis, or empty when there are none |
| Practice.OnSpeechResult | app/questions.js:206-214 | a non-empty hypothesis replaces the draft and an empty one leaves it alone |
| Practice.SpeechLastWriteWins | app/questions.js:206-214 | after any run of recognition results, the draft is the last non-empty hypothesis, or unchanged if there was none |
| Practice.SpeechResultsSplit | app/questions.js:206-214 | processing a run of results then one more is the same as processing the longer run |
| Practice.Begin | app/questions.js:138-142 | a loaded session starts on question 0 with an empty ledger, an empty draft and the timer default |
| Practice.QuestionAt | app/questions.js:369 | the current question, or "" past the end |
| Practice.AnswerText | app/questions.js:372 | the recorded answer is never empty: the trimmed draft, or "(no answer)" when the draft is blank |
| Practice.GradeItems | app/questions.js:397-400 | the graded items keep their order and questions, and an empty answer is sent as "(no answer)" |
| Practice.GradeItemsKeepsAnswered | app/questions.js:397-400 | grading sends a ledger of answered items unchanged |
| Practice.GradeNow | app/questions.js:388-400 | with no API base only the error line changes and nothing is sent; otherwise the given items are sent |
| Practice.Finish | app/questions.js:364-386 | finishing a question appends exactly one item for it and clears the draft and the microphone; it then moves to the next question with a fresh countdown or, on the last question, sends the extended ledger for grading |
| Practice.FinishTwiceOverfills | app/questions.js:364-386 | as written, pressing Grade again after a failed grade sends one item more than there are questions, the extra one an unanswered copy of the last question |
| Practice.FinishRetrySafe | app/questions.js:364-386 | the corrected flow finishes as written until the ledger is full, and afterwards re-sends the full ledger without appending |
| Practice.FinishRetrySafeTwice | app/questions.js:364-386 | with the correction, the retry sends exactly the same items as the first attempt |
| Practice.Step | app/questions.js:206-320 | only Next/Grade touches the ledger, the index or grading; a tick counts down by one second. Next/Grade follows the corrected finish (`FinishRetrySafe`, see Findings) |
| Practice.FinishKeepsLedger | app/questions.js:364-386 | finishing keeps the ledger invariant (one answered item per finished question, in order), and what it sends for grading is one answered item per question |
| Practice.RegradeKeepsLedger | app/questions.js:388-400 | with the corrected finish (`FinishRetrySafe`), re-grading a full ledger keeps the invariant and again sends one answered item per question |
| Practice.StepKeepsLedger | app/questions.js:364-400 | with the corrected finish (`FinishRetrySafe`), every event keeps the ledger invariant, and whatever is sent for grading is one answered item per question, in question order |
| Interview.Current | app/interview.js:61 | the current question text |
| Interview.Narration | app/interview.js:65-69 | a question is read out exactly when it is non-empty and differs from the previous one |
| Interview.Load | app/interview.js:40-49 | a missing payload, a missing question list and an empty one are all rejected with "Missing data". An accepted payload starts on question 0: stopped, with no answers or recordings, the timer default applied, and the first question read out |
| Interview.Start | app/interview.js:72-91 | start does nothing while running; otherwise it refills the timer, sets running, and asks for a haptic, one interval and a capture |
| Interview.Tick | app/interview.js:79-88 | a tick counts down by one; at 1 or below it stops at zero, clears the interval, stops the capture of the current question and notifies once |
| Interview.Pause | app/interview.js:93-98 | pause does nothing when stopped; otherwise it stops running, clears the interval and stops the capture |
| Interview.Reset | app/interview.js:100-103 | reset always leaves the timer stopped at zero, with the same effects as pause |
| Interview.Next | app/interview.js:105-114 | next pauses and moves to the following question with the timer at zero, reading it out if it differs; on the last question it hands the transcript of the pre-pause state to the results screen |
| Interview.Prev | app/interview.js:116-122 | prev pauses and moves back one question with the timer at zero. On the first question it only pauses; the screen never reaches that case, because its Prev button is disabled on question 0 (app/interview.js:207) |
| Interview.EditAnswer | app/interview.js:203 | typing replaces the answer of the current question only and changes nothing else |
| Interview.CaptureStopped | app/interview.js:138-147 | a finished recording is stored under the index its stop request names; a failed stop or no active capture changes nothing |
| Interview.AnswerAt | app/interview.js:158 | a transcript answer is the trimmed typed text, or "" for a question never typed into |
| Interview.AudioAt | app/interview.js:159 | the audio reference is present exactly when a non-empty recording was stored for that question |
| Interview.Duration | app/interview.js:160 | the duration is the elapsed time when positive, otherwise the full time per answer |
| Interview.MakeTranscript | app/interview.js:149-162 | the transcript has one item per question, in order, and carries the setup fields and the time per answer |
| Interview.StepInv | app/interview.js:72-122 | every event keeps the index in range, the time per answer non-zero, the remaining seconds within their bounds, and the answer keys within the question list |
| Interview.ReplayInv | app/interview.js:72-122 | the invariant holds after any sequence of events |
| Interview.StepTimerDiscipline | app/interview.js:72-98 | an interval is armed exactly when the machine goes from stopped to running, and cleared exactly when it goes from running to stopped, so at most one interval is live |
| Interview.StepStopsAtCurrent | app/interview.js:79-98 | for countdowns armed by pressing Start on the question on screen, which are the only ones the model has, every capture stop names the question that is current when it is issued. The app's automatic start after Next is not covered (see Left out, Interview.Next) |
| Interview.EditAnswerFrame | app/interview.js:203 | editing one answer leaves the presence and text of every other answer unchanged |
| Interview.CaptureStoppedFrame | app/interview.js:145 | storing one recording leaves every other question's recording unchanged |
| Interview.TranscriptAfterEdit | app/interview.js:149-162 | after an edit the transcript differs only in the current item's answer, which becomes the trimmed new text |
| Interview.ItemAfterEdit | app/interview.js:155-161 | an edit changes only the answer of the item for the current question |
| Interview.FinishHandsOver | app/interview.js:105-114 | next on the last question stays on it and hands over one item per question, in order, all with the same duration |
| Interview.TranscriptShape | app/interview.js:153-161 | each transcript item carries its own question and the shared duration |
| Interview.Step | app/interview.js:72-203 | no event changes the question list, the setup fields or the timer setting |
| Interview.Replay | app/interview.js:72-203 | a run of events keeps the question list, the setup fields and the timer setting; an empty run changes nothing and has no effects |
| Setup.SomeUser | app/setup.js:203 | true exactly when some message is from the user |
| Setup.SendDraft | app/setup.js:195-200 | a blank draft changes nothing; otherwise the trimmed, non-empty draft becomes a new user message and the draft is cleared |
| Setup.Validate | app/setup.js:202-208 | the result is empty exactly when there is a user message and the count is within 3..15; without a user message the role error comes first, otherwise the count error |
| Setup.OfferedCountsValid | app/setup.js:350 | every count chip on offer passes validation |
| Setup.Merged | app/setup.js:217-219 | a non-blank draft is treated as one more user message, and a blank draft adds nothing |
| Setup.UserTexts | app/setup.js:228-231 | there are user texts exactly when there is a user message, never more texts than messages, and a single message gives its text exactly when it is from the user |
| Setup.UserTextsAppend | app/setup.js:228-231 | collecting user texts distributes over concatenation |
| Setup.PayloadLevel | app/setup.js:237 | "Auto" is sent as "Junior" and any other level is sent as chosen, so "Auto" is never sent |
| Setup.Generate | app/setup.js:210-240 | a non-subscriber goes to the paywall unchanged. Invalid input shows and keeps the validation error. Valid input clears error and draft and sends the user texts joined by blank lines as the role, with the chosen count, the mapped level, mode "Auto" and empty major, company and topics |
| Setup.Apply | app/setup.js:195-200 | typing, sending and picking chips only ever append at most one message, and only by sending; the count stays as it was or becomes an offered chip |
| Setup.ApplyPreserves | app/setup.js:195-200 | typing, sending and picking chips keep every message a trimmed, non-empty user message and the count within 3..15 |
| Setup.GeneratedRoleNonEmpty | app/setup.js:228-235 | a generated payload always carries a non-empty role |
| Setup.RunPreserves | app/setup.js:158-200 | any run of inputs from a well-formed screen keeps it well formed with a count within 3..15 |
| Setup.ReachableWellFormed | app/setup.js:158-160 | every screen reachable from the mounted one (no messages, empty draft, count 7, level "Auto") is well formed with a count within 3..15 |
| Setup.ReachableGeneratesRole | app/setup.js:228-235 | from any reachable screen, a generate that goes ahead sends a non-empty role |
| Results.ColorFor | app/results.js:64-65 | the four colour bands are 85 and up, 70 to 84, 55 to 69, and below 55 |
| Results.ColorForMonotone | app/results.js:64-65 | a higher score never gets a worse colour |
| Results.RoundHalfUp | app/results.js:171-175 | the result is the integer nearest p/q, with halves rounded up |
| Results.RoundHalfUpUnique | app/results.js:171-175 | that nearest integer is unique |
| Results.ScoreOf | app/results.js:172 | an item without scores counts as 0, an item with scores counts the criterion's score, and a missing criterion counts as 0 |
| Results.RubricBar | app/results.js:170-176 | every rubric bar is within 0..100, and an empty item list gives 0 |
| Results.SumScoresBounds | app/results.js:172 | with scores in 0..10, the sum is between 0 and 10 per item |
| Results.RubricBarUnclamped | app/results.js:170-176 | with scores in 0..10 the clamp never acts: the bar is ten times the mean score, rounded half up |
| Results.RubricBarOfEqualScores | app/results.js:170-176 | when every item scores c, the bar is exactly 10c |
| Results.OverallScore | app/results.js:107 | the overall score is within 0..100, is the given score when that is in range, and is 0 when missing |
| Results.Summary | app/results.js:108 | the summary is the given one when it is present and non-empty, and "Summary not available." otherwise |
| Results.Items | app/results.js:109 | the item list is the given array, or empty when missing |
| Results.Render | app/results.js:88-109 | no decoded data gives the "no results" view. A report shows the clamped overall score, the defaulted summary and items, and the three rubric bars of those items; its colour matches its score |
| Results.RenderShowsSentResults | app/results.js:106-109 | a complete payload with an in-range score is shown as sent, with the matching colour |
| Results.RenderOfMissingResults | app/results.js:106-109 | a payload without results shows score 0 in the lowest band, the fallback summary, no items and empty bars |
| Flow.GeneratedRequestHonoursCount | app/questions.js:97 | a validated setup payload asks the server for exactly the chosen number of questions, and each question gets 90 seconds |
| Flow.GeneratedRoleLeadsContext | app/questions.js:99 | the generated role is the first line of the prompt's context |

## Left out

- Rendering, styling, animations, theming, the screen-size scale and the share sheet on the results screen: presentation only.
- The network calls: `/healthz`, `/generate-questions`, `/grade`, and resolving the API base from configuration. Their answers are inputs, or their requests are outputs.
- JSON, URI encoding and decoding: a decoded value arrives as an `Option`, and a parse failure arrives as its message.
- Native speech recognition, audio recording, haptics and text-to-speech, including the 150 ms narration delay and the speak toggle: only the effects and completion events are modelled.
- Interview.Next: the automatic `start()` that `next` schedules 300 ms after moving on (app/interview.js:110) is left out. That callback is the `start` of the render in which Next was pressed, so it reads that render's `running`: it arms a countdown exactly when Next was pressed while stopped. Its interval calls that render's `stopRecording`, whose `idx` is still the previous question. When the countdown runs out (app/interview.js:79-83), the recording made for question i+1 is stored as `recs[i]` (app/interview.js:145). This replaces question i's recording and leaves question i+1 without one. Every countdown in the model is armed by `StartPressed` on the question on screen, so Interview.StepStopsAtCurrent and Interview.CaptureStopped say nothing about this path.
- Interview.Start: the haptic awaited before the state update (app/interview.js:74) is folded into the same step. A second press during that await is not modelled.
- A second stop of the same recording racing the first on the shared recorder reference: the model keeps one capture flag.
- Interview.Inv: allows a negative remaining time when the timer setting itself is negative, as the code does; the timer setting is not required to be positive.
- Non-numeric timer settings, `NaN`, and the floating-point division in the rubric average: numbers are integers, and the average is computed exactly before rounding half up.
- Text.Lower: lower-cases ASCII letters only.
- Fetch.Prefix: a Dafny `char` is a Unicode scalar value, so the `slice(0, 300)` and `slice(0, 120)` excerpts count code points where the app counts UTF-16 code units; a reply with characters outside the Basic Multilingual Plane gets a longer excerpt in the model.
- The paywall, RevenueCat, the index route and the layout: outside the session logic.
- Setup.Generate: the "Couldn't proceed" error raised when navigation itself throws (app/setup.js:249-251) is not modelled; navigation is the returned outcome.
- Practice.GradeNow: the HTTP call, its status check and JSON parse are left out, and so is the move to the results screen. A failed grade arrives as the `GradeFailed(message)` event, which sets the error line.
- Fetch.ErrorMessage: the console logging is left out.
- Practice.Finish: `finishQuestion` is one atomic step. In the app it awaits a haptic and `stopSTT` (app/questions.js:365-369) before appending, and the Next button is not disabled meanwhile, so a double tap can append one item while the index advances twice (app/questions.js:382), skipping a question, or send `/grade` twice on the last question. Practice.StepKeepsLedger relies on that atomicity.
- Practice.Step: Next/Grade is modelled by the corrected `FinishRetrySafe`, not by the as-written `Finish`. The as-written retry behaviour is stated by Practice.FinishTwiceOverfills (see Findings).

## Findings

| source | as written | input that shows it | evidently intended | confidence | as-written member | corrected member |
|---|---|---|---|---|---|---|
| app/questions.js:364-386 | On the last question, `finishQuestion` appends an item to the ledger before calling `gradeNow`. If grading fails, the screen stays on that question and pressing Grade again appends a second item for it. That item's answer is "(no answer)", because the draft was cleared. | A one-question session with the draft "A" and an API base set, whose first grade call fails. The second press sends `[{Q, "A"}, {Q, "(no answer)"}]`. | Retrying re-sends the same ledger, one item per question, without re-collecting answers. | not executed | Practice.FinishTwiceOverfills | Practice.FinishRetrySafe |
