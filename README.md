# Review-sentiment chat: a verified model

The repository is a small chat page, plus the endpoint it calls. The page sends a
delivery-app review to the endpoint and shows the verdict as a chat message. This
project models the two parts of it that have rules:

- **The page's conversation state** (`handleSend` in `frontend/src/App.js`). The
  state is the message log (seeded with one greeting), the draft `input` and the
  `isLoading` flag. A submit with a blank draft does nothing. Any other submit
  appends the raw draft as a user message, dispatches it, clears the draft and sets
  the flag. When the request settles, exactly one assistant message is appended:
  the formatted result, or a fixed failure notice. The flag is then cleared.
- **The result template and the renderer.** A result reads
  `분석 결과 : **{sentiment}** 리뷰일 확률이 {pct}%입니다.`. The renderer splits any
  message holding `**` into three pieces and colours the middle one: green if the
  message contains `긍정`, red otherwise.
- **The endpoint's label mapping** (`analyze_review` in `backend/fast.py`). It maps
  the classifier's label to `긍정` or `부정`, returns the score, echoes the review and
  logs a row when the database allows it.

Modules, one per file:

- `Text` (`text.dfy`): JavaScript's `trim()`, `includes()` with a two-character
  argument, and `split('**')`.
- `Numerals` (`numerals.dfy`): `toFixed(2)` on a value in hundredths.
- `Render` (`render.dfy`): the template and the renderer.
- `Session` (`session.dfy`): the state machine. It has pure transitions on a
  `Snapshot` value, and a class `ChatPage` whose methods update its fields step by
  step. Each method is proved equal to the matching transition.
- `Analyze` (`analyze.dfy`): the endpoint.
- `EndToEnd` (`end_to_end.dfy`): both sentiments the endpoint can return meet the
  template's precondition.
- `Wrappers` (`wrappers.dfy`): `Option` and `Result`.

The request itself is an abstract event. `HandleSend` returns the text it
dispatches. A request later settles with a response body (`Resolved`) or with a
failure (`Rejected`). The model records two ghost facts the page does not keep: how
many requests are in flight, and the texts sent so far.

**The flag does not guard `handleSend`.** One might expect a submission while a
request is pending to be ignored. The code does not do that. Only the send button is disabled while loading
(`frontend/src/App.js:132`). Enter calls `handleSend` unguarded
(`frontend/src/App.js:129`). So two requests can be in flight at once, and the first
settlement clears the flag while the second is still pending
(`Session.EnterOverlapsRequests`). The single-flight property holds only while the
page is driven by the button alone (`Session.ButtonOnlyIsSingleFlight`).

**The split round trip needs more than "no `**` in the label".** The label must
also not end in `*`. For example, the label `a*` gives `**a***`, and the split reads
the label as `a` (`Render.StarEndingLabelIsCut`). Both labels the endpoint returns
are safe (`EndToEnd.RepliesRenderIntact`).

**A body without `sentiment` is not a failure.** The template writes `undefined`,
shown in red (`Session.MissingSentimentShowsUndefined`). Only the `catch` block
(`frontend/src/App.js:48-52`) yields the failure notice.

## Model

| member | source | states |
|---|---|---|
| `Text.TrimStart` | frontend/src/App.js:26 | the result is a suffix of the input not starting with white space, and all that is cut off is white space |
| `Text.TrimEnd` | frontend/src/App.js:26 | the result is a prefix of the input not ending with white space, and all that is cut off is white space |
| `Text.Trim` | frontend/src/App.js:26 | `trim()` is the slice of the input from the end of its leading white space, with no white space at either end; everything cut off before and after it is white space |
| `Text.IsBlank` | frontend/src/App.js:26 | `!input.trim()` holds exactly when every character of the draft is JavaScript white space |
| `Text.IncludesPair` | frontend/src/App.js:93-99 | `includes` with a two-character argument; no contract of its own: `Text.IncludesPairAt` equates it with a positional occurrence |
| `Text.IncludesPairAt` | frontend/src/App.js:93 | `includes` with a two-character argument holds exactly when the pair occurs at some position |
| `Text.IncludesPairConcat` | frontend/src/App.js:93 | a pair occurs in `a + b` exactly when it occurs in `a`, in `b`, or across the seam |
| `Text.NoFirstNoPair` | frontend/src/App.js:93 | a string without the pair's first character does not include the pair |
| `Text.SplitMarker` | frontend/src/App.js:96-104 | `split('**')` yields at least one piece, the first is a prefix of the input, and no piece contains `**` |
| `Text.JoinSplit` | frontend/src/App.js:96-104 | joining the pieces of `split('**')` with `**` gives back the input |
| `Text.SplitWithoutMarker` | frontend/src/App.js:106-107 | a string without `**` splits into itself alone |
| `Text.SplitAfterPiece` | frontend/src/App.js:96 | a piece without `**` that does not end in `*`, followed by `**`, comes off as the first piece |
| `Text.SplitThree` | frontend/src/App.js:96-104 | `a**b**c` splits into exactly `[a, b, c]` when `a` and `b` hold no `**` and do not end in `*`, and `c` holds no `**` |
| `Text.IncludesMarker` | frontend/src/App.js:93 | a string with `**` in it includes `**` |
| `Text.PairOnlyInMiddle` | frontend/src/App.js:99 | when `a` and `c` lack its first character, `긍정` occurs in `a**b**c` exactly when it occurs in `b` |
| `Numerals.DigitChar` | frontend/src/App.js:40 | a digit value maps to a decimal digit character |
| `Numerals.DigitValue` | frontend/src/App.js:40 | a digit character has a value below ten |
| `Numerals.DecimalText` | frontend/src/App.js:40 | the integer part is a non-empty string of digits without a leading zero |
| `Numerals.DecimalRoundTrip` | frontend/src/App.js:40 | reading the integer part back gives the number |
| `Numerals.UnsignedFixed` | frontend/src/App.js:40 | `toFixed(2)` of a non-negative value has digits, then a point, then exactly two digits |
| `Numerals.FixedTwo` | frontend/src/App.js:40 | the percentage consists of digits, `.` and `-` only |
| `Numerals.UnsignedRoundTrip` | frontend/src/App.js:40 | the unsigned numeral reads back as the number of hundredths |
| `Numerals.FixedTwoRoundTrip` | frontend/src/App.js:40 | the percentage is well formed with two decimals and reads back as exactly the value in hundredths |
| `Render.PercentText` | frontend/src/App.js:40 | the percentage is digits, a point and two digits, after an optional `-`; it reads back as the confidence in hundredths of a percent, and a missing confidence as 0 |
| `Render.FormatResult` | frontend/src/App.js:42-46 | a result message always contains `**`, so it is never drawn verbatim; `Render.FormatSplits` proves it splits back into lead-in, label and trail |
| `Render.Piece` | frontend/src/App.js:96-104 | a piece past the end of the split is `undefined`, drawn as nothing; no contract of its own: `Render.RenderContent` states how the pieces are drawn |
| `Render.RenderContent` | frontend/src/App.js:93-108 | content without `**` is shown verbatim; with `**` it is split, green exactly when it contains `긍정`; three pieces rejoin to the content |
| `Render.PercentChars` | frontend/src/App.js:40 | the percentage holds neither `*` nor `긍` |
| `Render.TrailIsPlain` | frontend/src/App.js:45 | the trailing text holds neither `**` nor `긍정` |
| `Render.LeadIsPlain` | frontend/src/App.js:45 | the lead-in holds neither `*` nor `긍`, and ends in a blank |
| `Render.FormatSplits` | frontend/src/App.js:45 | for a safe label, the result message splits into exactly the lead-in, the label and the trailing text |
| `Render.RenderPieces` | frontend/src/App.js:93-104 | three safe pieces joined by `**` are drawn as those pieces, green exactly when the middle holds `긍정` |
| `Render.RenderResult` | frontend/src/App.js:93-104 | a result with a safe label is drawn as lead-in, coloured label and trailing text; green exactly when the label holds `긍정` |
| `Render.StarEndingLabelIsCut` | frontend/src/App.js:45 | a label that holds no `**` but ends in `*` is read back without that `*` |
| `Render.MissingConfidenceIsZero` | frontend/src/App.js:40 | a missing or zero confidence shows as `0.00` |
| `Render.PercentOfEightySeven` | frontend/src/App.js:40 | confidence 0.87 shows as `87.00` |
| `Render.PercentOfNinetyFive` | frontend/src/App.js:40 | confidence 0.95 shows as `95.00` |
| `Render.EightySevenExample` | frontend/src/App.js:40-45 | `긍정` at 0.87 splits into the lead-in, `긍정` and a trailing text reading `87.00` |
| `Render.PositiveExample` | frontend/src/App.js:45 | `긍정` at 0.95 splits into `분석 결과 : `, `긍정` and ` 리뷰일 확률이 95.00%입니다.` |
| `Session.Initial` | frontend/src/App.js:6-13 | the opening state: the greeting alone, an empty draft, the flag clear; `Session.InitialConsistent` proves the invariant of it |
| `Session.EditStep` | frontend/src/App.js:128 | typing replaces the draft only; `Session.StepKeepsConsistent` proves it keeps the invariant |
| `Session.SendStep` | frontend/src/App.js:25-31 | `handleSend` up to its request; `Session.BlankDraftIsIgnored`, `Session.SendRecordsDraft` and `Session.SendKeepsConsistent` state what it does |
| `Session.KeyStep` | frontend/src/App.js:129 | Enter runs `handleSend` unguarded; `Session.EnterOverlapsRequests` shows two requests can then overlap |
| `Session.ClickStep` | frontend/src/App.js:132 | a click is ignored while the flag is set; `Session.ButtonOnlyIsSingleFlight` shows that this keeps one request in flight |
| `Session.Reply` | frontend/src/App.js:42-52 | the message a settlement appends: the formatted result or the failure notice; `Session.SettleAppendsOneReply` and `Session.MissingSentimentShowsUndefined` state it |
| `Session.SettleStep` | frontend/src/App.js:42-54 | the rest of `handleSend` once its request settles; `Session.SettleAppendsOneReply` states it appends one reply and clears the flag |
| `Session.Step` | frontend/src/App.js:128-132 | one event of the page: typing, a key, a click or a settlement; `Session.StepKeepsConsistent` proves it keeps the invariant |
| `Session.Run` | frontend/src/App.js:128-132 | a sequence of events; `Session.RunKeepsConsistent` and `Session.Reachable` state what holds after any of them |
| `Session.Consistent` | frontend/src/App.js:7-54 | the invariant of reachable states: greeting first, user messages equal to the texts sent, one reply per settled request |
| `Session.AppendMessage` | frontend/src/App.js:29 | appending a message extends the user texts by its content if it is a user message, and the reply count by one if not |
| `Session.InitialConsistent` | frontend/src/App.js:6-13 | the opening state (the greeting alone, empty draft, flag clear) satisfies the invariant |
| `Session.BlankDraftIsIgnored` | frontend/src/App.js:26 | with a blank draft, `handleSend`, Enter and a click leave the whole state unchanged and send nothing |
| `Session.SendRecordsDraft` | frontend/src/App.js:28-31 | otherwise the raw draft is appended after the unchanged log and is the text sent; the draft is cleared and the flag set |
| `Session.SendKeepsConsistent` | frontend/src/App.js:25-36 | `handleSend` keeps the invariant |
| `Session.SettleAppendsOneReply` | frontend/src/App.js:42-54 | a settlement appends exactly one assistant message (the result or the failure notice) and clears the flag |
| `Session.StepKeepsConsistent` | frontend/src/App.js:25-56 | every event keeps the invariant and only extends the log |
| `Session.RunKeepsConsistent` | frontend/src/App.js:29 | after any events the invariant holds, and the earlier log is a prefix of the later one |
| `Session.Reachable` | frontend/src/App.js:7-12 | every reachable state keeps the greeting first, has user messages equal to the texts sent, and one reply per settled request |
| `Session.ButtonOnlyIsSingleFlight` | frontend/src/App.js:132 | without the Enter key, at most one request is in flight, and the flag is set exactly when one is |
| `Session.EnterOverlapsRequests` | frontend/src/App.js:129 | two Enter presses put two requests in flight; the first settlement clears the flag while one is still pending |
| `Session.FixedMessagesAreVerbatim` | frontend/src/App.js:106-107 | the greeting and the failure notice, holding no `**`, are drawn verbatim |
| `Session.MissingSentimentShowsUndefined` | frontend/src/App.js:45 | a body without a sentiment yields a reply reading `undefined`, drawn in red |
| `Session.Scenarios` | frontend/src/App.js:25-56 | from the opening state, a review sent with the button gives two messages (the second is the review) with the flag set; any settlement then gives three messages with the flag clear, the third being the notice on failure |
| `Session.SuccessfulScenario` | frontend/src/App.js:40-47 | when the endpoint answers `긍정` at 0.87, the reply splits into the lead-in, `긍정` and a trailing text reading `87.00` |
| `Session.ChatPage.constructor` | frontend/src/App.js:6-13 | the page opens in the initial state |
| `Session.ChatPage.Type` | frontend/src/App.js:128 | editing replaces the draft and nothing else |
| `Session.ChatPage.HandleSend` | frontend/src/App.js:25-36 | the fields change as the send transition says; it returns the raw draft it dispatched, the same text as the new last message, or nothing for a blank draft |
| `Session.ChatPage.PressKey` | frontend/src/App.js:129 | Enter runs `handleSend` whatever the flag; other keys do nothing; it dispatches the raw draft exactly when the key is Enter and the draft is not blank |
| `Session.ChatPage.ClickSend` | frontend/src/App.js:132 | a click does nothing while the flag is set, otherwise runs `handleSend`; it dispatches the raw draft exactly when the flag is clear and the draft is not blank |
| `Session.ChatPage.Settle` | frontend/src/App.js:42-54 | the fields change as the settle transition says |
| `Analyze.UpperChar` | backend/fast.py:78 | `upper()` of one character, for the ASCII letters; no contract of its own: `Analyze.Upper` and `Analyze.UpperMatches` state what it does to a label |
| `Analyze.Upper` | backend/fast.py:78 | `upper()` keeps the length and upper-cases each ASCII letter |
| `Analyze.UpperMatches` | backend/fast.py:78 | the upper-cased label equals a word without lower-case letters exactly when the label spells that word in any case |
| `Analyze.SentimentOf` | backend/fast.py:78-83 | the sentiment is `긍정` or `부정`; it is `긍정` exactly when the label is `LABEL_1` or `POSITIVE` ignoring ASCII case |
| `Analyze.LabelExamples` | backend/fast.py:78-82 | `label_1` and `Positive` map to `긍정`; `LABEL_0`, `NEGATIVE` and `neutral` map to `부정` |
| `Analyze.AnalyzeReview` | backend/fast.py:73-104 | a classifier failure gives HTTP 500 with the message and logs nothing; otherwise the reply has one of the two sentiments, the score and the review; a row is logged only after a committed insert |
| `Analyze.DatabaseDoesNotChangeReply` | backend/fast.py:88-104 | an unreachable database or a failed insert leaves the reply as it is |
| `Analyze.ReplySentimentIsLabel` | backend/fast.py:100-104 | a successful reply carries the normalised label, the score and the review |
| `EndToEnd.SentimentsAreSafe` | backend/fast.py:79-82 | neither sentiment holds `**` or ends in `*`; only `긍정` contains `긍정` |
| `EndToEnd.RepliesRenderIntact` | backend/fast.py:78-83 | every successful reply, formatted, splits into lead-in, sentiment and trailing text; it is green exactly when positive |

## Left out

- The page's rendering is left out. That covers styles, auto-scroll, the example
  accordions and the "분석 중..." bubble, which only mirrors `isLoading`. None of it
  affects the state.
- The HTTP call and the `async`/`await` machinery are left out. A request is a
  dispatched text. Its settlement is a separate event that may come in any order
  relative to other events.
- No timeout or cancellation is modelled. The page has none, so a request that
  never settles leaves the flag set.
- Float arithmetic in `(confidence * 100).toFixed(2)` is not modelled. The
  confidence is an integer count of ten-thousandths.
- A non-numeric truthy confidence (which JavaScript shows as `NaN`) is not
  modelled.
- `Render.PercentText` models `result.confidence || 0` through `None`: `None` stands
  for every falsy confidence (missing, `null`, `0`, empty).
- Every failure of the request is the single `Rejected` outcome. The page does not
  tell them apart.
- The classifier (a Hugging Face pipeline) is an input. It yields its top label and
  score, or the message of the exception raised while classifying or reading the
  result.
- The endpoint's score is a `real`. The page's percentage is not derived from it,
  because that would need float formatting.
- `Analyze.Upper`: upper-cases the ASCII letters only. Python's `upper()` also maps
  other letters, which could in principle turn a non-ASCII label into `LABEL_1` or
  `POSITIVE`.
- The database appears only as its effect: a committed row, or none. Connection
  setup, environment variables, SQL text, the sequence and closing the cursor are
  left out.
- CORS configuration, the health endpoint and model loading are configuration or
  I/O, so they are left out.
- `Session.ChatPage`: the page keeps neither the count of requests in flight nor
  the list of texts sent. They are ghost fields of the model.
