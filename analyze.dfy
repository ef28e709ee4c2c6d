/** The backend's `/analyze` endpoint (backend/fast.py:72-104): the classifier's label
    is normalised to one of two Korean sentiments, the response carries the score and
    echoes the review, and a row is logged when the database allows it. The classifier
    and the database are foreign code: what they do is an input here. */
module Analyze {
  import opened Wrappers

  /** The two sentiments the endpoint answers with. */
  const Positive: string := "긍정"
  const Negative: string := "부정"

  /** `str.upper()` on one character, for the ASCII letters. */
  function UpperChar(c: char): char {
    if 'a' <= c <= 'z' then (c as int - 32) as char else c
  }

  /** `str.upper()`, for the ASCII letters. */
  function Upper(s: string): (r: string)
    ensures |r| == |s| && forall i :: 0 <= i < |s| ==> r[i] == UpperChar(s[i])
  {
    if s == [] then [] else [UpperChar(s[0])] + Upper(s[1..])
  }

  predicate HasNoLowerCase(word: string) {
    forall i :: 0 <= i < |word| ==> !('a' <= word[i] <= 'z')
  }

  /** `raw` spells `word` up to the case of its ASCII letters: it has the same length,
      and each character is that of `word` or, where `word` has an upper-case letter,
      the lower-case form of that letter. */
  predicate SpellsIgnoringCase(raw: string, word: string) {
    |raw| == |word|
    && forall i :: 0 <= i < |word| ==>
         raw[i] == word[i] || ('A' <= word[i] <= 'Z' && raw[i] as int == word[i] as int + 32)
  }

  /** Upper-casing a label gives a word without lower-case letters exactly when the label
      spells that word up to case. */
  lemma UpperMatches(raw: string, word: string)
    requires HasNoLowerCase(word)
    ensures Upper(raw) == word <==> SpellsIgnoringCase(raw, word)
  {
    var u := Upper(raw);
    if SpellsIgnoringCase(raw, word) {
      assert forall i :: 0 <= i < |word| ==> u[i] == word[i];
    }
    if u == word {
      forall i | 0 <= i < |word|
        ensures raw[i] == word[i] || ('A' <= word[i] <= 'Z' && raw[i] as int == word[i] as int + 32)
      {
        assert UpperChar(raw[i]) == word[i];
      }
    }
  }

  /** The sentiment for a classifier label: positive for `LABEL_1` and `POSITIVE` in any
      mix of ASCII case, negative for every other label. */
  function SentimentOf(raw: string): (s: string)
    ensures s == Positive || s == Negative
    ensures s == Positive <==> SpellsIgnoringCase(raw, "LABEL_1") || SpellsIgnoringCase(raw, "POSITIVE")
  {
    assert HasNoLowerCase("LABEL_1") && HasNoLowerCase("POSITIVE");
    UpperMatches(raw, "LABEL_1");
    UpperMatches(raw, "POSITIVE");
    if Upper(raw) in ["LABEL_1", "POSITIVE"] then Positive else Negative
  }

  /** Labels the model is known to produce, in other cases, and others. */
  lemma LabelExamples(raw: string)
    ensures raw == "label_1" || raw == "Positive" ==> SentimentOf(raw) == Positive
    ensures raw == "LABEL_0" || raw == "NEGATIVE" || raw == "neutral" ==> SentimentOf(raw) == Negative
  {
    if raw == "label_1" {
      assert SpellsIgnoringCase(raw, "LABEL_1");
    } else if raw == "Positive" {
      assert SpellsIgnoringCase(raw, "POSITIVE");
    } else if raw == "LABEL_0" {
      assert raw[6] != "LABEL_1"[6];
      assert |raw| != |"POSITIVE"|;
    } else if raw == "NEGATIVE" {
      assert raw[0] != "POSITIVE"[0] && raw[0] as int != "POSITIVE"[0] as int + 32;
      assert |raw| != |"LABEL_1"|;
    } else if raw == "neutral" {
      assert raw[0] != "LABEL_1"[0] && raw[0] as int != "LABEL_1"[0] as int + 32;
      assert |raw| != |"POSITIVE"|;
    }
  }

  /** The classifier's top result. */
  datatype Classification = Classification(labelText: string, score: real)

  /** The JSON body of a successful response. */
  datatype Response = Response(sentiment: string, confidence: real, content: string)

  /** An `HTTPException`. */
  datatype HttpError = HttpError(status: int, detail: string)

  /** What the database does with the insert: no connection (no port configured, or
      the connection failed), an insert or commit that raises, or a committed insert. */
  datatype Database = Unreachable | InsertFails | InsertSucceeds

  /** A row of `BOT_REVIEW_LOG`: the review and its sentiment. */
  datatype LogRow = LogRow(userQuery: string, classification: string)

  /** What one call of the endpoint produces: the reply and the row logged, if any. */
  datatype Handled = Handled(reply: Result<Response, HttpError>, logged: Option<LogRow>)

  /** `analyze_review`: `classified` is what the classifier did with the review, its
      top result or the message of the exception it (or reading its result) raised. */
  function AnalyzeReview(content: string, classified: Result<Classification, string>, db: Database): (h: Handled)
    ensures h.reply.Failure? <==> classified.Failure?
    ensures classified.Failure? ==> h.reply.error == HttpError(500, "모델 분석 오류: " + classified.error) && h.logged == None
    ensures h.reply.Success? ==>
      && (h.reply.value.sentiment == Positive || h.reply.value.sentiment == Negative)
      && h.reply.value.confidence == classified.value.score
      && h.reply.value.content == content
    ensures h.logged.Some? <==> classified.Success? && db == InsertSucceeds
    ensures h.logged.Some? ==> h.logged.value == LogRow(content, h.reply.value.sentiment)
  {
    match classified
    case Failure(message) => Handled(Failure(HttpError(500, "모델 분석 오류: " + message)), None)
    case Success(result) =>
      var sentiment := SentimentOf(result.labelText);
      var logged := if db == InsertSucceeds then Some(LogRow(content, sentiment)) else None;
      Handled(Success(Response(sentiment, result.score, content)), logged)
  }

  /** The database never changes the reply: an unreachable database or a failed insert
      gives the same response as a committed one. */
  lemma DatabaseDoesNotChangeReply(content: string, classified: Result<Classification, string>, db1: Database, db2: Database)
    ensures AnalyzeReview(content, classified, db1).reply == AnalyzeReview(content, classified, db2).reply
  {
  }

  /** The sentiment in a successful reply is the normalised label of the classifier. */
  lemma ReplySentimentIsLabel(content: string, classification: Classification, db: Database)
    ensures AnalyzeReview(content, Success(classification), db).reply
      == Success(Response(SentimentOf(classification.labelText), classification.score, content))
  {
  }
}
