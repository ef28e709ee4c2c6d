/** The success message of the chat front end and the way a message is drawn:
    the result template (frontend/src/App.js:40-45) and the renderer that splits a
    message on `**` and colours the middle piece (frontend/src/App.js:93-108). */
module Render {
  import opened Wrappers
  import opened Text
  import opened Numerals

  /** The fixed lead-in of a result message. */
  const Lead: string := "분석 결과 : "

  /** The percentage shown for a confidence, i.e.
      `(Number(result.confidence || 0) * 100).toFixed(2)`. The confidence is given in
      ten-thousandths (0.95 is 9500), so the percentage is that many hundredths; a
      missing (or falsy) confidence counts as 0. */
  function PercentText(confidence: Option<int>): (percent: string)
    ensures |percent| >= 4 && percent[|percent| - 3] == '.'
    ensures IsDigit(percent[|percent| - 2]) && IsDigit(percent[|percent| - 1])
    ensures if percent[0] == '-' then |percent| >= 5 && AllDigits(percent[1..|percent| - 3])
            else AllDigits(percent[..|percent| - 3])
    ensures ParseFixedTwo(percent) == confidence.GetOr(0)
  {
    FixedTwoRoundTrip(confidence.GetOr(0));
    FixedTwo(confidence.GetOr(0))
  }

  /** The text after the emphasised label. */
  function Trail(percent: string): string {
    " 리뷰일 확률이 " + percent + "%입니다."
  }

  /** The content of the assistant message for a successful analysis. */
  function FormatResult(sentiment: string, confidence: Option<int>): (content: string)
    ensures IncludesPair(content, '*', '*')
  {
    var rest := sentiment + "**" + Trail(PercentText(confidence));
    IncludesMarker(Lead, rest);
    assert Lead + "**" + rest == Lead + "**" + sentiment + "**" + Trail(PercentText(confidence));
    Lead + "**" + sentiment + "**" + Trail(PercentText(confidence))
  }

  /** A label the template can carry through the renderer's split intact: it holds no
      `**` and does not end in `*`. */
  predicate SafeLabel(sentiment: string) {
    !IncludesPair(sentiment, '*', '*') && (sentiment == [] || sentiment[|sentiment| - 1] != '*')
  }

  /** `#4caf50` and `#f44336`. */
  datatype Colour = Green | Red

  /** What a chat bubble shows: the content as is, or three spans with the middle
      one emphasised in a colour. */
  datatype View = Verbatim(text: string) | Emphasised(lead: string, marked: string, trail: string, colour: Colour)

  /** `parts[i]`, where an index past the end gives `undefined`, which React draws as nothing. */
  function Piece(parts: seq<string>, i: nat): string {
    if i < |parts| then parts[i] else ""
  }

  /** The bubble for a message's content. Content without `**` is shown verbatim;
      content with it is split, and when it splits into exactly three pieces nothing
      of it is lost. The colour tests the whole content for `긍정`. */
  function RenderContent(content: string): (v: View)
    ensures v.Verbatim? <==> !IncludesPair(content, '*', '*')
    ensures v.Verbatim? ==> v.text == content
    ensures v.Emphasised? ==> (v.colour == Green <==> IncludesPair(content, '긍', '정'))
    ensures v.Emphasised? && |SplitMarker(content)| == 3 ==> v.lead + "**" + v.marked + "**" + v.trail == content
  {
    if IncludesPair(content, '*', '*') then
      var parts := SplitMarker(content);
      JoinThree(content);
      Emphasised(Piece(parts, 0), Piece(parts, 1), Piece(parts, 2),
        if IncludesPair(content, '긍', '정') then Green else Red)
    else
      Verbatim(content)
  }

  /** The percentage holds only digits, `.` and `-`. */
  lemma PercentChars(confidence: Option<int>)
    ensures '*' !in PercentText(confidence) && '긍' !in PercentText(confidence)
  {
  }

  /** Neither `*` nor `긍` occurs in the trailing text, so neither `**` nor `긍정` does. */
  lemma TrailIsPlain(confidence: Option<int>)
    ensures '*' !in Trail(PercentText(confidence)) && '긍' !in Trail(PercentText(confidence))
    ensures !IncludesPair(Trail(PercentText(confidence)), '*', '*')
    ensures !IncludesPair(Trail(PercentText(confidence)), '긍', '정')
  {
    var t := Trail(PercentText(confidence));
    PercentChars(confidence);
    assert '*' !in " 리뷰일 확률이 " && '긍' !in " 리뷰일 확률이 ";
    assert '*' !in "%입니다." && '긍' !in "%입니다.";
    NoFirstNoPair(t, '*', '*');
    NoFirstNoPair(t, '긍', '정');
  }

  /** The lead-in holds no `*`, ends in a blank and holds no `긍`. */
  lemma LeadIsPlain()
    ensures '*' !in Lead && '긍' !in Lead && Lead[|Lead| - 1] == ' '
    ensures !IncludesPair(Lead, '*', '*') && !IncludesPair(Lead, '긍', '정')
  {
    NoFirstNoPair(Lead, '*', '*');
    NoFirstNoPair(Lead, '긍', '정');
  }

  /** Splitting a result message on `**` recovers the lead-in, the label and the
      trailing text, whenever the label is safe. */
  lemma FormatSplits(sentiment: string, confidence: Option<int>)
    requires SafeLabel(sentiment)
    ensures SplitMarker(FormatResult(sentiment, confidence)) == [Lead, sentiment, Trail(PercentText(confidence))]
  {
    TrailIsPlain(confidence);
    LeadIsPlain();
    SplitThree(Lead, sentiment, Trail(PercentText(confidence)));
  }

  /** Three pieces joined by `**`, the first two safe, the last without `**`, and
      `긍` in neither the first nor the last: they are drawn as those three pieces,
      green exactly when the middle one contains `긍정`. */
  lemma RenderPieces(a: string, b: string, c: string)
    requires SafeLabel(a) && SafeLabel(b) && !IncludesPair(c, '*', '*')
    requires '긍' !in a && '긍' !in c
    ensures RenderContent(a + "**" + b + "**" + c)
      == Emphasised(a, b, c, if IncludesPair(b, '긍', '정') then Green else Red)
  {
    var bc := b + "**" + c;
    var s := a + "**" + bc;
    assert a + "**" + b + "**" + c == s;
    SplitThree(a, b, c);
    IncludesMarker(a, bc);
    PairOnlyInMiddle(a, b, c, '긍', '정');
  }

  /** A result message with a safe label is drawn as the lead-in, the label in colour
      and the trailing text; it is green exactly when the label contains `긍정`. */
  lemma RenderResult(sentiment: string, confidence: Option<int>)
    requires SafeLabel(sentiment)
    ensures RenderContent(FormatResult(sentiment, confidence))
      == Emphasised(Lead, sentiment, Trail(PercentText(confidence)),
                    if IncludesPair(sentiment, '긍', '정') then Green else Red)
  {
    TrailIsPlain(confidence);
    LeadIsPlain();
    RenderPieces(Lead, sentiment, Trail(PercentText(confidence)));
  }

  /** The absence of `**` alone is not enough: a label ending in `*` gives that `*`
      to the marker, and the renderer shows the label without it. */
  lemma StarEndingLabelIsCut(stem: string, confidence: Option<int>)
    requires SafeLabel(stem)
    ensures !IncludesPair(stem + "*", '*', '*')
    ensures SplitMarker(FormatResult(stem + "*", confidence)) == [Lead, stem, "*" + Trail(PercentText(confidence))]
  {
    IncludesPairConcat(stem, "*", '*', '*');
    var starred := "*" + Trail(PercentText(confidence));
    assert !IncludesPair(starred, '*', '*') by {
      var t := Trail(PercentText(confidence));
      TrailIsPlain(confidence);
      assert t[0] == ' ';
      IncludesPairConcat("*", t, '*', '*');
    }
    LeadIsPlain();
    SplitThree(Lead, stem, starred);
    MoveStar(stem, confidence);
  }

  /** The `*` that ends a label reads as the start of the trailing text. */
  lemma MoveStar(stem: string, confidence: Option<int>)
    ensures FormatResult(stem + "*", confidence) == Lead + "**" + stem + "**" + ("*" + Trail(PercentText(confidence)))
  {
    var t := Trail(PercentText(confidence));
    var starred := "*" + t;
    var tagged := stem + "*";
    assert tagged + "**" + t == stem + "**" + starred by {
      assert "*" + "**" == "**" + "*";
    }
    assert FormatResult(tagged, confidence) == Lead + "**" + (tagged + "**" + t);
    assert Lead + "**" + stem + "**" + starred == Lead + "**" + (stem + "**" + starred);
  }

  /** A missing confidence, and a zero one, show as `0.00`. */
  lemma MissingConfidenceIsZero()
    ensures PercentText(None) == "0.00"
    ensures PercentText(Some(0)) == "0.00"
  {
  }

  /** Confidence 0.95 shows as `95.00`. */
  lemma PercentOfNinetyFive()
    ensures PercentText(Some(9500)) == "95.00"
  {
    assert DigitChar(9) == '9' && DigitChar(5) == '5' && DigitChar(0) == '0';
    assert DecimalText(9) == "9";
    assert DecimalText(95) == "95";
    assert UnsignedFixed(9500) == "95" + "." + ['0', '0'];
  }

  /** Confidence 0.87 shows as `87.00`. */
  lemma PercentOfEightySeven()
    ensures PercentText(Some(8700)) == "87.00"
  {
    assert DigitChar(8) == '8' && DigitChar(7) == '7' && DigitChar(0) == '0';
    assert DecimalText(8) == "8";
    assert DecimalText(87) == "87";
    assert UnsignedFixed(8700) == "87" + "." + ['0', '0'];
  }

  /** A positive label with confidence 0.95 splits into three pieces, the second is the
      label and the third reads `95.00`. */
  lemma PositiveExample(sentiment: string, confidence: Option<int>)
    requires sentiment == "긍정" && confidence == Some(9500)
    ensures SplitMarker(FormatResult(sentiment, confidence))
      == ["분석 결과 : ", "긍정", " 리뷰일 확률이 " + "95.00" + "%입니다."]
  {
    assert '*' !in sentiment;
    NoFirstNoPair(sentiment, '*', '*');
    FormatSplits(sentiment, confidence);
    PercentOfNinetyFive();
  }

  /** A positive label with confidence 0.87 splits into the lead-in, the label and a
      trailing text reading `87.00`. */
  lemma EightySevenExample(sentiment: string, confidence: Option<int>)
    requires sentiment == "긍정" && confidence == Some(8700)
    ensures SplitMarker(FormatResult(sentiment, confidence)) == [Lead, "긍정", Trail("87.00")]
  {
    assert '*' !in sentiment;
    NoFirstNoPair(sentiment, '*', '*');
    FormatSplits(sentiment, confidence);
    PercentOfEightySeven();
  }

}
