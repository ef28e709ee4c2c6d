/** The backend's answer meets the front end's formatting contract: both sentiments
    the endpoint can return are safe for the `**` template, so every successful reply
    is drawn as lead-in, coloured sentiment and trailing text (backend/fast.py:78-83
    with frontend/src/App.js:45, 93-104). */
module EndToEnd {
  import opened Wrappers
  import opened Text
  import opened Render
  import opened Analyze

  /** Neither sentiment holds `*`; only the positive one holds `긍정`. */
  lemma SentimentsAreSafe()
    ensures SafeLabel(Positive) && SafeLabel(Negative)
    ensures IncludesPair(Positive, '긍', '정') && !IncludesPair(Negative, '긍', '정')
  {
    assert '*' !in Positive && '*' !in Negative && '긍' !in Negative;
    NoFirstNoPair(Positive, '*', '*');
    NoFirstNoPair(Negative, '*', '*');
    NoFirstNoPair(Negative, '긍', '정');
  }

  /** Whatever the review, the classifier's result and the database, a successful reply
      formatted with any confidence splits back into the lead-in, its sentiment and the
      trailing text, and is green exactly when the sentiment is positive. */
  lemma RepliesRenderIntact(content: string, classified: Result<Classification, string>, db: Database,
                            confidence: Option<int>)
    requires classified.Success?
    ensures var sentiment := AnalyzeReview(content, classified, db).reply.value.sentiment;
      SplitMarker(FormatResult(sentiment, confidence)) == [Lead, sentiment, Trail(PercentText(confidence))]
      && RenderContent(FormatResult(sentiment, confidence))
         == Emphasised(Lead, sentiment, Trail(PercentText(confidence)), if sentiment == Positive then Green else Red)
  {
    var sentiment := AnalyzeReview(content, classified, db).reply.value.sentiment;
    SentimentsAreSafe();
    FormatSplits(sentiment, confidence);
    RenderResult(sentiment, confidence);
  }
}
