/**
 * The verification panel (frontend/src/App.jsx): four state cells, the two operations
 * that change them, and the decisions the view makes when it renders them.
 *
 * Each operation is modelled as one atomic step. The answer of the HTTP call it makes
 * is a parameter (`Reply`), and the request it issues is its result, so no network is
 * modelled.
 */
module Panel {
  import opened Wrappers
  import Strings

  /** The characters JavaScript's `String.prototype.trim` removes: the WhiteSpace and
      LineTerminator code points of sections 12.2 and 12.3 of ECMA-262. */
  predicate IsJsWhitespace(c: char)
  {
    c == '\t' || c == '\n' || c == '\U{000B}' || c == '\U{000C}' || c == '\r' ||
    c == ' ' || c == '\U{00A0}' || c == '\U{1680}' || ('\U{2000}' <= c <= '\U{200A}') ||
    c == '\U{2028}' || c == '\U{2029}' || c == '\U{202F}' || c == '\U{205F}' ||
    c == '\U{3000}' || c == '\U{FEFF}'
  }

  /** `!s.trim()`: nothing is left of `s` after trimming. */
  predicate IsBlank(s: string)
  {
    Strings.Strip(IsJsWhitespace, s) == []
  }

  lemma BlankIffAllWhitespace(s: string)
    ensures IsBlank(s) <==> forall i :: 0 <= i < |s| ==> IsJsWhitespace(s[i])
  {
  }

  /** The `tone` object of a prediction. */
  datatype Tone = Tone(labelText: string, score: real)

  /** One entry of `sources`: a JSON object of string fields. */
  type Source = map<string, string>

  /** The `/predict` response (`Backend.PredictResponse`) as the panel receives it: the
      same JSON object, read without checking, so `tone` and `sources` may be absent. */
  datatype AnalysisResult = AnalysisResult(
    originalText: string,
    labelText: string,
    confidence: real,
    tone: Option<Tone>,
    sources: Option<seq<Source>>)

  /** How an HTTP call ended: with a response body, or by throwing. */
  datatype Reply<T> = Delivered(body: T) | Failed

  /** The body of a `/predict` request. */
  datatype PredictRequest = PredictRequest(text: string)

  /** The two vote buttons. */
  datatype Vote = Correct | Wrong

  /** The body of a `/feedback` request. */
  datatype FeedbackPayload = FeedbackPayload(text: string, prediction: string, confidence: real, userFeedback: string)

  /** The `user_feedback` string each button sends. */
  function VoteName(vote: Vote): (name: string)
    ensures name == "Correct" || name == "Wrong"
    ensures name == "Correct" <==> vote == Correct
  {
    match vote
    case Correct => "Correct"
    case Wrong => "Wrong"
  }

  /** The verdict shown by the badge and by the colour of the confidence meter. */
  datatype Verdict = LooksReal | LikelyFake

  /** An outbound link of the live cross-check. */
  datatype Link = Link(title: Option<string>, href: Option<string>)

  datatype SourcesView = NoMatches | Links(links: seq<Link>)

  datatype FeedbackView = VoteButtons | Thanks

  /** The right-hand column: a placeholder, or the card of the current result. */
  datatype Card =
    | Placeholder
    | ResultCard(verdict: Verdict, confidence: real, tone: Option<Tone>, sources: SourcesView, feedback: FeedbackView)

  /** What the page shows and which controls accept input. */
  datatype Screen = Screen(inputEnabled: bool, analyzeEnabled: bool, card: Card)

  /** The badge and the meter both test `label === 'LABEL_0'`. */
  function VerdictOf(labelText: string): (v: Verdict)
    ensures v == LooksReal <==> labelText == "LABEL_0"
  {
    if labelText == "LABEL_0" then LooksReal else LikelyFake
  }

  function Field(source: Source, key: string): (v: Option<string>)
    ensures v.Some? <==> key in source
    ensures v.Some? ==> v.value == source[key]
  {
    if key in source then Some(source[key]) else None
  }

  /** `source.href || source.url`: an absent or empty `href` falls back to `url`. */
  function LinkOf(source: Source): (link: Link)
    ensures link.title == Field(source, "title")
    ensures "href" in source && source["href"] != "" ==> link.href == Some(source["href"])
    ensures !("href" in source && source["href"] != "") ==> link.href == Field(source, "url")
  {
    var href := Field(source, "href");
    Link(Field(source, "title"), if href.Some? && href.value != "" then href else Field(source, "url"))
  }

  /** `sources.map(...)`: one link per source, in order. */
  function LinksOf(sources: seq<Source>): (links: seq<Link>)
    ensures |links| == |sources|
    ensures forall i :: 0 <= i < |sources| ==> links[i] == LinkOf(sources[i])
  {
    if sources == [] then [] else [LinkOf(sources[0])] + LinksOf(sources[1..])
  }

  /** The live cross-check section: the warning when `sources` is missing or empty,
      otherwise the links. */
  function SourcesViewOf(sources: Option<seq<Source>>): (v: SourcesView)
    ensures v == NoMatches <==> sources.None? || sources.value == []
    ensures v.Links? ==> sources.Some? && |v.links| == |sources.value| &&
                         forall i :: 0 <= i < |v.links| ==> v.links[i] == LinkOf(sources.value[i])
  {
    if sources.Some? && |sources.value| > 0 then Links(LinksOf(sources.value)) else NoMatches
  }

  class VerificationPanel {
    var inputText: string
    var loading: bool
    var result: Option<AnalysisResult>
    var feedbackGiven: bool

    /** Between two operations nothing is loading, and feedback can only have been
        recorded for a result that is on screen. */
    ghost predicate Valid()
      reads this
    {
      !loading && (feedbackGiven ==> result.Some?)
    }

    constructor ()
      ensures Valid()
      ensures inputText == "" && !loading && result == None && !feedbackGiven
    {
      inputText := "";
      loading := false;
      result := None;
      feedbackGiven := false;
    }

    /** The analyze button is enabled (`disabled={loading || !inputText.trim()}`). */
    function AnalyzeEnabled(): (enabled: bool)
      reads this
      ensures enabled <==> !loading && exists i :: 0 <= i < |inputText| && !IsJsWhitespace(inputText[i])
    {
      BlankIffAllWhitespace(inputText);
      !(loading || IsBlank(inputText))
    }

    /** The two vote buttons are on screen. */
    function VoteButtonsShown(): (shown: bool)
      reads this
      ensures shown <==> result.Some? && !feedbackGiven
    {
      Render().card.ResultCard? && Render().card.feedback == VoteButtons
    }

    /** What the component renders for the current state. */
    function Render(): (screen: Screen)
      reads this
      ensures screen.inputEnabled <==> !loading
      ensures screen.analyzeEnabled <==> !loading && !IsBlank(inputText)
      ensures screen.card == Placeholder <==> result.None?
      ensures result.Some? ==>
                screen.card.ResultCard? &&
                (screen.card.verdict == LooksReal <==> result.value.labelText == "LABEL_0") &&
                screen.card.confidence == result.value.confidence &&
                screen.card.tone == result.value.tone &&
                (screen.card.sources == NoMatches <==> result.value.sources.None? || result.value.sources.value == []) &&
                screen.card.sources == SourcesViewOf(result.value.sources) &&
                (screen.card.feedback == VoteButtons <==> !feedbackGiven)
    {
      var card :=
        match result
        case None => Placeholder
        case Some(r) =>
          ResultCard(VerdictOf(r.labelText), r.confidence, r.tone, SourcesViewOf(r.sources),
                     if feedbackGiven then Thanks else VoteButtons);
      Screen(!loading, !(loading || IsBlank(inputText)), card)
    }

    /** The textarea's onChange handler. */
    method EditInput(text: string)
      requires Valid()
      modifies this
      ensures Valid()
      ensures inputText == text
      ensures loading == old(loading) && result == old(result) && feedbackGiven == old(feedbackGiven)
    {
      inputText := text;
    }

    /** analyzeNews, given how the `/predict` call ends. Blank input changes nothing
        and sends nothing; otherwise the raw input is sent, a delivered response
        replaces the result, a failure keeps the old one, and the panel ends neither
        loading nor showing feedback as given. */
    method AnalyzeNews(reply: Reply<AnalysisResult>) returns (request: Option<PredictRequest>)
      requires Valid()
      modifies this
      ensures Valid()
      ensures old(IsBlank(inputText)) ==> request == None && unchanged(this)
      ensures !old(IsBlank(inputText)) ==>
                request == Some(PredictRequest(old(inputText))) &&
                inputText == old(inputText) && !loading && !feedbackGiven &&
                result == (if reply.Delivered? then Some(reply.body) else old(result))
      // the button is disabled exactly when the handler would do nothing
      ensures !old(AnalyzeEnabled()) ==> request == None && unchanged(this)
    {
      if IsBlank(inputText) {
        return None;
      }
      loading := true;
      feedbackGiven := false;
      request := Some(PredictRequest(inputText));
      match reply {
        case Delivered(body) =>
          result := Some(body);
        case Failed =>
      }
      loading := false;
    }

    /** analyzeNews as it would behave if `feedbackGiven` were cleared only when a new
        result arrives: a failed call then leaves the vote on the old result recorded. */
    method AnalyzeNewsKeepingVote(reply: Reply<AnalysisResult>) returns (request: Option<PredictRequest>)
      requires Valid()
      modifies this
      ensures Valid()
      ensures old(IsBlank(inputText)) ==> request == None && unchanged(this)
      ensures !old(IsBlank(inputText)) ==>
                request == Some(PredictRequest(old(inputText))) &&
                inputText == old(inputText) && !loading &&
                result == (if reply.Delivered? then Some(reply.body) else old(result)) &&
                feedbackGiven == (reply.Failed? && old(feedbackGiven))
    {
      if IsBlank(inputText) {
        return None;
      }
      loading := true;
      request := Some(PredictRequest(inputText));
      match reply {
        case Delivered(body) =>
          result := Some(body);
          feedbackGiven := false;
        case Failed =>
      }
      loading := false;
    }

    /** sendFeedback, given how the `/feedback` call ends. Without a result nothing is
        sent; otherwise the result's text, label and confidence are sent with the vote,
        and only a delivered call marks feedback as given, which hides the buttons. */
    method SendFeedback(vote: Vote, reply: Reply<()>) returns (payload: Option<FeedbackPayload>)
      requires Valid()
      modifies this
      ensures Valid()
      ensures inputText == old(inputText) && loading == old(loading) && result == old(result)
      ensures result.None? ==> payload == None && feedbackGiven == old(feedbackGiven)
      ensures result.Some? ==>
                payload == Some(FeedbackPayload(result.value.originalText, result.value.labelText,
                                                result.value.confidence, VoteName(vote))) &&
                feedbackGiven == (old(feedbackGiven) || reply.Delivered?)
      ensures result.Some? && reply.Delivered? ==> !VoteButtonsShown()
    {
      if result.None? {
        return None;
      }
      var r := result.value;
      payload := Some(FeedbackPayload(r.originalText, r.labelText, r.confidence, VoteName(vote)));
      match reply {
        case Delivered(_) =>
          feedbackGiven := true;
        case Failed =>
      }
    }
  }

  /** The session of a user who checks a made-up headline and disagrees with the verdict. */
  method ExampleSession()
  {
    var panel := new VerificationPanel();
    assert panel.Render().card == Placeholder;
    var headline := "Moon is made of cheese";
    panel.EditInput(headline);
    assert headline[0] == 'M' && !IsJsWhitespace('M');
    var response := AnalysisResult(headline, "LABEL_1", 93.2, None, Some([]));
    var sent := panel.AnalyzeNews(Delivered(response));
    assert sent == Some(PredictRequest(headline));
    assert panel.Render().card.verdict == LikelyFake;
    assert panel.Render().card.sources == NoMatches;
    assert panel.VoteButtonsShown();
    var payload := panel.SendFeedback(Wrong, Delivered(()));
    assert payload == Some(FeedbackPayload(headline, "LABEL_1", 93.2, "Wrong"));
    assert panel.Render().card.feedback == Thanks;
  }

  /** The vote buttons come back for a result that was already voted on: `analyzeNews`
      clears `feedbackGiven` before its request, and a failed request keeps the old
      result, so the same vote is posted twice. */
  method RevoteAfterFailedReanalysis(r: AnalysisResult, vote: Vote)
    returns (shownAfterVote: bool, shownAfterFailure: bool, onScreen: Option<AnalysisResult>,
             first: Option<FeedbackPayload>, second: Option<FeedbackPayload>)
    // the vote hides the buttons, the failed re-analysis brings them back for the same result
    ensures !shownAfterVote && shownAfterFailure && onScreen == Some(r)
    // and the same vote is posted a second time
    ensures first.Some? && second == first
  {
    var panel := new VerificationPanel();
    panel.EditInput("a");
    assert !IsJsWhitespace('a');
    var _ := panel.AnalyzeNews(Delivered(r));
    first := panel.SendFeedback(vote, Delivered(()));
    shownAfterVote := panel.VoteButtonsShown();
    var _ := panel.AnalyzeNews(Failed);
    shownAfterFailure := panel.VoteButtonsShown();
    onScreen := panel.result;
    second := panel.SendFeedback(vote, Delivered(()));
  }

  /** With `feedbackGiven` cleared only on a new result, a failed re-analysis leaves the
      vote recorded and the buttons hidden, so the result cannot be voted on twice. */
  method VoteSurvivesFailedReanalysis(r: AnalysisResult, vote: Vote) returns (shown: bool)
    ensures !shown
  {
    var panel := new VerificationPanel();
    panel.EditInput("a");
    assert !IsJsWhitespace('a');
    var _ := panel.AnalyzeNewsKeepingVote(Delivered(r));
    var _ := panel.SendFeedback(vote, Delivered(()));
    var _ := panel.AnalyzeNewsKeepingVote(Failed);
    assert panel.result == Some(r);
    shown := panel.VoteButtonsShown();
  }
}
