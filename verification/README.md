# News verifier: text cleaning, request shaping and the verification panel

A Dafny model of the two pieces of logic in a small fake-news checker:

- the backend's request handling (`backend.py`): `clean_text`, which deletes URL runs
  and normalises whitespace, the truncation of the text handed to the news search
  (200 characters) and to the sentiment pipeline (512 characters), the `/predict`
  endpoint's validation order and response, and the `/feedback` endpoint's append to
  the feedback table;
- the verification panel (`frontend/src/App.jsx`): its four state cells (`inputText`,
  `loading`, `result`, `feedbackGiven`), the `analyzeNews` and `sendFeedback` handlers
  that change them, and the decisions the view makes when it renders them (verdict
  badge and meter colour, link fallback, the no-matches warning, which controls are
  enabled and which feedback widgets are shown).

Files:

- `wrappers.dfy`: `Option` and `Result`.
- `strings.dfy`: whitespace runs, `strip`/`trim`, the non-whitespace characters of a
  text, and subsequences. The whitespace class is a parameter because Python and
  JavaScript disagree on it.
- `clean_text.dfy`: `clean_text` as three passes (`StripUrls`, `CollapseSpaces`,
  `Strip`) and the proofs of its properties.
- `backend.dfy`: truncations, `predict_news`, and the feedback table as a class with a
  `SaveFeedback` method.
- `panel.dfy`: the panel as a class with `AnalyzeNews` and `SendFeedback` methods, and
  the render decisions as functions. `ExampleSession` is a client that walks through one
  session (analyze a headline, get a `LABEL_1` verdict with no sources, vote `Wrong`)
  using only the contracts.

Python's `\s` (the same set `str.strip()` removes) is not spelled out: it is the
parameter `sp`. The lemmas rely only on `PythonSpaceClass(sp)`: the space character is
whitespace, and the letters `h`, `t`, `p`, `s` and `w` are not. JavaScript's `trim`
set is fixed by ECMA-262 (sections 12.2 and 12.3), so the panel spells it out as
`IsJsWhitespace`.

The URL pattern `http\S+|www\S+|https\S+` is modelled branch by branch, in the
pattern's order, with greedy `\S+`. `HttpsBranchIsDead` shows that the third branch
never decides a match.

`sendFeedback` sets `feedbackGiven` only after a delivered post, so after a failed
post the vote buttons stay on screen (frontend/src/App.jsx lines 35-36).

## Model

| member | source | states |
|---|---|---|
| Strings.Strip | backend.py:58 | `str.strip()`/`trim()`: the result is the slice of the input after its leading whitespace, has no whitespace at either end, everything cut off is whitespace, and it is empty exactly when the input is all whitespace |
| Strings.StripKeepsNonSpace | backend.py:58 | stripping removes whitespace only: the non-whitespace characters are unchanged |
| CleanText.UrlMatch | backend.py:57 | the URL match at a position is non-empty exactly when one of `http\S+`, `www\S+`, `https\S+` applies; it is at least four characters and ends at whitespace or at the end of the text |
| CleanText.HttpsBranchIsDead | backend.py:57 | wherever `https\S+` could match, `http\S+` already matches, so the third alternative never fires |
| CleanText.UrlMatchIsWholeWord | backend.py:57 | a URL match removes the whole whitespace-free run it starts, even when the run starts mid-word |
| CleanText.StripUrls | backend.py:57 | removing URL runs never lengthens the text |
| CleanText.StripUrlsSplit | backend.py:57 | the URL pass works word by word: across any whitespace character, the text before it and the text after it are cleaned independently and the whitespace character is kept |
| CleanText.FirstUrl | backend.py:57 | the first position of a word where one of the pattern's alternatives matches, or the word's length when none does |
| CleanText.StripUrlsWord | backend.py:57 | inside one whitespace-free word, the URL pass keeps exactly the part before the first URL start and deletes the rest of the word |
| CleanText.CollapseSpaces | backend.py:58 | collapsing whitespace runs never lengthens the text, keeps a leading non-whitespace character, and leaves every whitespace character a single space with no two adjacent |
| CleanText.Clean | backend.py:56-58 | `clean_text` never lengthens its input; its output has no whitespace at either end, its only whitespace is single spaces, and no two whitespace characters are adjacent |
| CleanText.StripUrlsLeavesNoUrl | backend.py:57 | after the URL pass no `http` or `www` followed by a non-whitespace character is left, not even across a join a removal created |
| CleanText.CollapseKeepsNoUrl | backend.py:58 | collapsing whitespace creates no new URL match |
| CleanText.CleanRemovesUrls | backend.py:56-58 | no `http` or `www` immediately followed by a non-whitespace character survives `clean_text` |
| CleanText.StripUrlsKeepsOrder | backend.py:57 | the URL pass only deletes: its non-whitespace characters are a subsequence of the input's |
| CleanText.CollapseKeepsNonSpace | backend.py:58 | collapsing whitespace keeps every non-whitespace character, in order |
| CleanText.CleanKeepsOrder | backend.py:56-58 | the non-whitespace characters of the `clean_text` output are a subsequence of those of its input |
| CleanText.StripUrlsIdentity | backend.py:57 | the URL pass leaves a text with no URL match unchanged |
| CleanText.CollapseIdentity | backend.py:58 | collapsing leaves single-spaced text unchanged |
| CleanText.CleanIdempotent | backend.py:56-58 | `clean_text` is idempotent |
| CleanText.CleanMidWordUrl | backend.py:57 | `xhttpy` cleans to `x`: a match may start mid-word and runs to the end of the word |
| CleanText.StripUrlsBareHttp | backend.py:57 | for every text, a bare `http` with whitespace or the start or end of the text on both sides is kept by the URL pass, and the text around it is cleaned independently |
| CleanText.CleanWords | backend.py:56-58 | the words of a text in order, each cut at its first URL start, with empty cuts dropped; every word it yields is non-empty and has no whitespace |
| CleanText.CleanJoinsCleanWords | backend.py:56-58 | `clean_text` of any text is exactly its `CleanWords` joined by single spaces: words with no URL survive whole and in order, and a word is cut only from its first URL start onwards |
| Backend.Head | backend.py:85 | Python's `s[:n]` is the prefix of length min(len(s), n) |
| Backend.LiveSearch | backend.py:60-69 | the news search is called with the first 200 characters of the query and its hits are the sources; a search that raises yields no sources rather than an error |
| Backend.SearchQuery | backend.py:63 | the conditional truncation of the search query agrees with the prefix of length min(len, 200) |
| Backend.PredictNews | backend.py:73-100 | 503 when either model is missing, whatever the text; otherwise 400 when the cleaned text is empty; otherwise a 500 exactly when the classifier or the sentiment pipeline raises or answers nothing; on success `original_text` is the raw request text, the label and confidence come from the classifier on the cleaned text, the tone from the sentiment pipeline on its first 512 characters, the sources from the search on the cleaned text |
| Backend.PredictModelInputs | backend.py:77-89 | for an accepted request, the search query and the sentiment input are non-empty prefixes of the cleaned text, of at most 200 and 512 characters, with no URL in them |
| Backend.Appended | backend.py:105-115 | one save keeps the readable table's rows in order and appends exactly the new row; an absent or unreadable file becomes that one row |
| Backend.AppendedAllKeepsRows | backend.py:111-115 | any non-empty series of saves yields the previously readable rows followed by all saved rows, in order |
| Backend.FeedbackStore.SaveFeedback | backend.py:103-116 | answers `success`, and the file becomes `Appended` of the old file and a row with the clock's timestamp and the request's text, prediction, confidence and feedback |
| Panel.BlankIffAllWhitespace | frontend/src/App.jsx:14 | `!s.trim()` holds exactly when every character is JavaScript whitespace |
| Panel.VoteName | frontend/src/App.jsx:115-116 | the vote sent is only ever `Correct` or `Wrong`, one per button |
| Panel.VerdictOf | frontend/src/App.jsx:67-69 | the verdict is "real" exactly when the label is `LABEL_0`, "fake" for every other label |
| Panel.LinkOf | frontend/src/App.jsx:96-98 | a link's target is `href` when present and non-empty, otherwise `url`; its title is `title` |
| Panel.LinksOf | frontend/src/App.jsx:95-101 | one link per source, in input order |
| Panel.SourcesViewOf | frontend/src/App.jsx:93-108 | the no-matches warning appears exactly when `sources` is missing or empty; otherwise the links of `LinksOf` |
| Panel.VerificationPanel.constructor | frontend/src/App.jsx:8-11 | the initial state: empty input, not loading, no result, no feedback given |
| Panel.VerificationPanel.AnalyzeEnabled | frontend/src/App.jsx:54 | the analyze button is enabled exactly when nothing is loading and the input has a non-whitespace character |
| Panel.VerificationPanel.VoteButtonsShown | frontend/src/App.jsx:113-118 | the vote buttons are shown exactly when there is a result and feedback has not been given |
| Panel.VerificationPanel.Render | frontend/src/App.jsx:52-127 | textarea enabled iff not loading; analyze enabled iff not loading and input not blank; placeholder iff no result; otherwise the verdict from `LABEL_0` (badge and meter, lines 67-74), the confidence and tone as received, the no-matches warning iff sources missing or empty and otherwise the links of `SourcesViewOf`, vote buttons iff feedback not given |
| Panel.VerificationPanel.EditInput | frontend/src/App.jsx:52 | typing replaces `inputText` and nothing else |
| Panel.VerificationPanel.AnalyzeNews | frontend/src/App.jsx:13-26 | blank input changes no state and sends nothing, which is also the case whenever the button is disabled; otherwise the raw input is sent, afterwards neither `loading` nor `feedbackGiven` is set, a delivered response replaces `result` wholesale and a failure leaves it as it was |
| Panel.VerificationPanel.SendFeedback | frontend/src/App.jsx:28-37 | no result: nothing is sent and nothing changes; otherwise the payload copies `original_text`, `label` and `confidence` with the vote, `feedbackGiven` becomes true only after a delivered post, and then the vote buttons are hidden; the result and input never change |
| Panel.VerificationPanel.AnalyzeNewsKeepingVote | frontend/src/App.jsx:13-26 | `analyzeNews` with `feedbackGiven` cleared only when a result is delivered: a failed call leaves the result and the recorded vote as they were |
| Panel.RevoteAfterFailedReanalysis | frontend/src/App.jsx:16-24 | a vote hides the vote buttons; a failed re-analysis then shows them again with the same result still on screen, and the same vote is posted a second time |
| Panel.VoteSurvivesFailedReanalysis | frontend/src/App.jsx:113-118 | with `AnalyzeNewsKeepingVote`, the vote buttons stay hidden after a failed re-analysis of a result already voted on |

## Left out

- Loading and running the transformer models (backend.py lines 34-43, 81-86): the two pipelines are opaque function parameters of `PredictNews`. An absent pipeline stands for a model that failed to load, and a pipeline answering `None` for a call that raises or returns an empty list. The classifier's `top_k=1` is taken as the pipeline's promise to put its top label first.
- The DuckDuckGo call (backend.py lines 64-69): the search is a parameter `news` that answers `None` when the call raises. `max_results=3` is the library's promise and is not modelled.
- FastAPI routing, CORS, uvicorn and logging (backend.py lines 1-32, 118-119).
- CSV encoding and pandas' reading and writing: the feedback file is `Absent`, `Unreadable` or a `Table` of rows. The type inference of `read_csv` on old rows and failures of the write itself are not modelled.
- The clock: the timestamp is a parameter of `SaveFeedback`, and its format is not modelled.
- Backend.PredictNews: `score * 100` is exact `real` arithmetic, without IEEE-754 rounding.
- Panel.VerificationPanel.Render: confidence and tone are carried as received. The `toFixed(0)` rounding and the meter's width percentage are floating-point rendering and are not modelled.
- Panel.LinkOf: source fields are strings, so JSON `null` or non-string values of `href` and `url` are not modelled.
- axios transport, the `alert` and `console.error` calls, framer-motion animation, icons and markup (frontend/src/App.jsx lines 1-5, 39-132): a network outcome is the `Reply` parameter of each handler, and the request a handler issues is its result.
- Overlapping asynchronous requests: each handler is one atomic step. `loading` is true only inside `AnalyzeNews`, so between steps it is false (`Valid`).
- The 500 answer is the server's generic one: the exception's type and message are not modelled.
- Python's Unicode whitespace set: it is the parameter `sp`, constrained only by `PythonSpaceClass`. The regular-expression engine is replaced by a direct definition of what the two substitutions compute.

## Findings

| source | as written | input that shows it | evidently intended | confidence | as-written member | corrected member |
|---|---|---|---|---|---|---|
| frontend/src/App.jsx:16-24 | `analyzeNews` clears `feedbackGiven` before its request, but a failed request keeps the old result, so the vote buttons return for a result that was already voted on | type `a`, analyze (delivered), vote, analyze again with the backend down, vote again: the same feedback row is posted twice | clear `feedbackGiven` only when a new result arrives | medium, not executed | Panel.RevoteAfterFailedReanalysis | Panel.VoteSurvivesFailedReanalysis |
