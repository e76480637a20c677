/**
 * The backend's request handling (backend.py): the search-query and sentiment-input
 * truncations, the `/predict` endpoint's validation and response, and the `/feedback`
 * endpoint's append to the feedback table.
 *
 * The two transformer pipelines, the news search and the clock are parameters: the
 * model says what they are called with and how their answers are used, not what
 * they compute.
 */
module Backend {
  import opened Wrappers
  import opened CleanText

  /** perform_live_search never sends more than this many characters of the query. */
  const MaxQueryLength: nat := 200

  /** predict_news never gives the sentiment pipeline more than this many characters. */
  const MaxSentimentLength: nat := 512

  /** Python's slice `s[:n]`: the first `n` characters, or all of `s` when it is shorter. */
  function Head(s: string, n: nat): (r: string)
    ensures r <= s
    ensures |r| == if |s| < n then |s| else n
  {
    if |s| <= n then s else s[..n]
  }

  /** The query perform_live_search hands to the news search. The source writes a
      conditional, which always agrees with the plain slice `query[:200]`. */
  function SearchQuery(query: string): (q: string)
    ensures q == Head(query, MaxQueryLength)
  {
    if |query| > MaxQueryLength then query[..MaxQueryLength] else query
  }

  /** The top label and score of a text-classification pipeline call. */
  datatype Prediction = Prediction(labelText: string, score: real)

  /** A text-classification pipeline: the first entry of its answer, or None when the
      call raises or answers an empty list (so that indexing `[0]` raises). */
  type Pipeline = string -> Option<Prediction>

  /** The `tone` object of a prediction response. */
  datatype Tone = Tone(labelText: string, score: real)

  /** One news search hit: a JSON object of string fields (`title`, `url`, ...). */
  type NewsItem = map<string, string>

  /** The body of a successful `/predict` response. */
  datatype PredictResponse = PredictResponse(
    originalText: string,
    labelText: string,
    confidence: real,
    tone: Tone,
    sources: seq<NewsItem>)

  /** An `HTTPException`, or the error response of an exception nothing catches. */
  datatype HttpError = HttpError(status: nat, detail: string)

  const ModelsNotLoaded := HttpError(503, "Models not loaded")
  const EmptyInput := HttpError(400, "Empty input")
  /** What the server answers when the handler raises an exception it does not catch. */
  const InternalError := HttpError(500, "Internal Server Error")

  /** perform_live_search: the search runs on the truncated query; `news` answers
      None when the search raises, and then there are no sources. */
  function LiveSearch(news: string -> Option<seq<NewsItem>>, query: string): (items: seq<NewsItem>)
    // the search never sees more than the first 200 characters of the query
    ensures news(Head(query, MaxQueryLength)).Some? ==> items == news(Head(query, MaxQueryLength)).value
    // a failed search yields no sources instead of an error
    ensures news(Head(query, MaxQueryLength)).None? ==> items == []
  {
    match news(SearchQuery(query))
    case Some(items) => items
    case None => []
  }

  /** predict_news. `classifier` and `sentimentAnalyzer` are None when loading the
      models failed at start-up; `sp` is Python's whitespace class. */
  function PredictNews(
    sp: char -> bool,
    classifier: Option<Pipeline>,
    sentimentAnalyzer: Option<Pipeline>,
    news: string -> Option<seq<NewsItem>>,
    text: string): (r: Result<PredictResponse, HttpError>)
    // a missing model is reported first, whatever the text
    ensures classifier.None? || sentimentAnalyzer.None? ==> r == Failure(ModelsNotLoaded)
    // with both models loaded, a text that cleans to nothing is rejected before any model runs
    ensures classifier.Some? && sentimentAnalyzer.Some? && Clean(sp, text) == [] ==>
              r == Failure(EmptyInput)
    // otherwise the request fails exactly when one of the pipelines fails, with a 500
    ensures classifier.Some? && sentimentAnalyzer.Some? && Clean(sp, text) != [] ==>
              var cleaned := Clean(sp, text);
              (r.Failure? <==> classifier.value(cleaned).None? ||
                               sentimentAnalyzer.value(Head(cleaned, MaxSentimentLength)).None?) &&
              (r.Failure? ==> r.error == InternalError)
    // a response echoes the raw text and reports what the models said about the cleaned text
    ensures r.Success? ==>
              var cleaned := Clean(sp, text);
              classifier.Some? && sentimentAnalyzer.Some? && cleaned != [] &&
              var fake := classifier.value(cleaned);
              var tone := sentimentAnalyzer.value(Head(cleaned, MaxSentimentLength));
              fake.Some? && tone.Some? &&
              r.value == PredictResponse(text, fake.value.labelText, fake.value.score * 100.0,
                                         Tone(tone.value.labelText, tone.value.score * 100.0),
                                         LiveSearch(news, cleaned))
  {
    if classifier.None? || sentimentAnalyzer.None? then
      Failure(ModelsNotLoaded)
    else
      var cleaned := Clean(sp, text);
      if cleaned == [] then
        Failure(EmptyInput)
      else
        match classifier.value(cleaned)
        case None => Failure(InternalError)
        case Some(fake) =>
          match sentimentAnalyzer.value(Head(cleaned, MaxSentimentLength))
          case None => Failure(InternalError)
          case Some(tone) =>
            Success(PredictResponse(text, fake.labelText, fake.score * 100.0,
                                    Tone(tone.labelText, tone.score * 100.0),
                                    LiveSearch(news, cleaned)))
  }

  /** What the search and the sentiment pipeline see of an accepted request: non-empty
      prefixes of the cleaned text, of at most 200 and 512 characters, with no URL left
      in them. */
  lemma PredictModelInputs(sp: char -> bool, text: string)
    requires PythonSpaceClass(sp) && Clean(sp, text) != []
    ensures var cleaned := Clean(sp, text);
            var query := SearchQuery(cleaned);
            var toneInput := Head(cleaned, MaxSentimentLength);
            query != [] && query <= cleaned && |query| <= MaxQueryLength &&
            toneInput != [] && toneInput <= cleaned && |toneInput| <= MaxSentimentLength &&
            NoUrl(sp, query) && NoUrl(sp, toneInput)
  {
    var cleaned := Clean(sp, text);
    CleanRemovesUrls(sp, text);
    NoUrlSlice(sp, cleaned, 0, |SearchQuery(cleaned)|);
    NoUrlSlice(sp, cleaned, 0, |Head(cleaned, MaxSentimentLength)|);
  }

  /** A `/feedback` request body. */
  datatype FeedbackRequest = FeedbackRequest(text: string, prediction: string, confidence: real, userFeedback: string)

  /** One row of the feedback table. */
  datatype FeedbackRow = FeedbackRow(timestamp: string, text: string, prediction: string, confidence: real, userFeedback: string)

  /** The feedback file: missing, present but not readable as a table, or a table. */
  datatype FeedbackFile = Absent | Unreadable | Table(rows: seq<FeedbackRow>)

  /** The rows that survive into the next save. */
  function KeptRows(file: FeedbackFile): seq<FeedbackRow>
  {
    if file.Table? then file.rows else []
  }

  /** The file after one save of `row`: the old table with `row` at the end, or just
      `row` when there was no readable table. */
  function Appended(file: FeedbackFile, row: FeedbackRow): (after: FeedbackFile)
    ensures after.Table? && |after.rows| == |KeptRows(file)| + 1
    ensures after.rows[..|KeptRows(file)|] == KeptRows(file)
    ensures after.rows[|KeptRows(file)|] == row
  {
    match file
    case Table(rows) => Table(rows + [row])
    case _ => Table([row])
  }

  /** The file after saving each of `rows` in turn. */
  function AppendedAll(file: FeedbackFile, rows: seq<FeedbackRow>): FeedbackFile
    decreases |rows|
  {
    if rows == [] then file else AppendedAll(Appended(file, rows[0]), rows[1..])
  }

  /** Saves never lose or reorder rows: after any non-empty series of saves the file is
      the table that was readable before (if any) followed by the saved rows. */
  lemma {:induction false} AppendedAllKeepsRows(file: FeedbackFile, rows: seq<FeedbackRow>)
    requires rows != []
    ensures AppendedAll(file, rows) == Table(KeptRows(file) + rows)
    decreases |rows|
  {
    var next := Appended(file, rows[0]);
    assert next == Table(KeptRows(file) + [rows[0]]);
    if |rows| > 1 {
      AppendedAllKeepsRows(next, rows[1..]);
      assert KeptRows(next) + rows[1..] == KeptRows(file) + rows;
    } else {
      assert AppendedAll(next, rows[1..]) == next;
    }
  }

  /** The persisted feedback table. */
  class FeedbackStore {
    var file: FeedbackFile

    constructor (initial: FeedbackFile)
      ensures file == initial
    {
      file := initial;
    }

    /** save_feedback: append one row carrying the request's fields and the clock's
        `timestamp`, or start a new table when the old one is absent or unreadable. */
    method SaveFeedback(feedback: FeedbackRequest, timestamp: string) returns (status: string)
      modifies this
      ensures status == "success"
      ensures file == Appended(old(file), FeedbackRow(timestamp, feedback.text, feedback.prediction,
                                                      feedback.confidence, feedback.userFeedback))
    {
      var record := FeedbackRow(timestamp, feedback.text, feedback.prediction,
                                feedback.confidence, feedback.userFeedback);
      match file {
        case Table(rows) =>
          file := Table(rows + [record]);
        case Unreadable =>
          file := Table([record]);
        case Absent =>
          file := Table([record]);
      }
      status := "success";
    }
  }
}
