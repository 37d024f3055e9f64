/**
 * Worked examples of the tracking-page extractor on a triple of paragraphs
 * as the carrier's result page renders them.
 */
module TrackingPageExamples {
  import opened Wrappers
  import opened Text
  import opened Calendar
  import opened TrackingPage
  import LocationText

  /** "RIO DE JANEIRO / RJ", written as its first two words and the rest. */
  const SamplePlace := "RIO" + [' '] + "DE" + " JANEIRO / RJ"
  /** "RIO DE JANEIRO / RJ18/11/25\n16:35": the place, the date and the time. */
  const SampleLocation := SamplePlace + "18/11/25" + "\n16:35"
  const SampleStatus := "MERCADORIA ENTREGUE  (SSW WebAPI Parceiro)."

  lemma SampleUnit()
    ensures ExtractUnit("1234") == Some("1234")
  {
    assert FourDigitsAt("1234", 0);
    FirstMatchIs("1234", FourDigitsAt, 0, 0);
    assert "1234"[0..4] == "1234";
  }

  lemma Regroup(a: string, b: string, c: string, d: string, e: string, f: string)
    ensures (a + b + c + d) + e + f == [] + a + b + c + (d + e + f)
  {
  }

  /** main.py keeps only the first two words of the location. */
  lemma SampleLocationWords()
    ensures ExtractLocation(SampleLocation) == Some("RIO DE")
  {
    var rest := " JANEIRO / RJ" + "18/11/25" + "\n16:35";
    Regroup("RIO", [' '], "DE", " JANEIRO / RJ", "18/11/25", "\n16:35");
    assert IsWord("RIO") && IsWord("DE") && !IsWordChar(rest[0]);
    LocationIsFirstTwoWords([], "RIO", [' '], "DE", rest);
    assert "RIO" + " " + "DE" == "RIO DE";
  }

  /**
   * A separator of several characters: in the carrier's rendering of Brasília
   * the state and the day form one `\w+` token, so main.py's location is
   * "BRASILIA DF22".
   */
  lemma BrasiliaLocationWords(place: string, sep: string, state: string, rest: string)
    requires place == "BRASILIA" && sep == " / " && state == "DF22" && rest == "/11/25\n08:15"
    ensures ExtractLocation(place + sep + state + rest) == Some("BRASILIA DF22")
  {
    BrasiliaParts(place, sep, state, rest);
    assert place + sep + state + rest == [] + place + sep + state + rest;
    LocationIsFirstTwoWords([], place, sep, state, rest);
    assert place + " " + state == "BRASILIA DF22";
  }

  lemma BrasiliaParts(place: string, sep: string, state: string, rest: string)
    requires place == "BRASILIA" && sep == " / " && state == "DF22" && rest == "/11/25\n08:15"
    ensures IsWord(place) && IsWord(state) && !IsWordChar(rest[0])
    ensures sep != [] && forall i :: 0 <= i < |sep| ==> !IsWordChar(sep[i])
  {
  }

  lemma SamplePlaceText()
    ensures SamplePlace == "RIO DE JANEIRO / RJ"
  {
  }

  lemma SampleDate()
    ensures FirstMatch(SampleLocation, DateAt, 0) == Some(19)
  {
    assert forall i :: 0 <= i < 19 ==> !IsDigit(SampleLocation[i]);
    assert DateAt(SampleLocation, 19);
    FirstMatchIs(SampleLocation, DateAt, 0, 19);
  }

  lemma SampleTime()
    ensures FirstMatch(SampleLocation, TimeAt, 0) == Some(28)
  {
    assert forall i :: 0 <= i < 28 ==> SampleLocation[i] != ':' || !IsDigit(SampleLocation[i]);
    assert TimeAt(SampleLocation, 28);
    FirstMatchIs(SampleLocation, TimeAt, 0, 28);
  }

  lemma SampleStatusHead()
    ensures SampleStatus[..19] == "MERCADORIA ENTREGUE"
    ensures SampleStatus[21..] == SampleSuffix
  {
  }

  lemma SampleNoEarlierDoubleSpace()
    ensures forall j: nat :: j < 19 ==> !OccursAt(SampleStatus, "  ", j)
  {
    assert forall j :: 0 <= j < 19 ==> SampleStatus[j] != ' ' || SampleStatus[j + 1] != ' ';
    forall j: nat | j < 19
      ensures !OccursAt(SampleStatus, "  ", j)
    {
      OccursAtPair(SampleStatus, "  ", j);
    }
  }

  lemma SampleSplit()
    ensures Find(SampleStatus, "  ") == Some(19)
  {
    SampleNoEarlierDoubleSpace();
    OccursAtPair(SampleStatus, "  ", 19);
    FindIs(SampleStatus, "  ", 19);
  }

  const SampleSuffix := "(SSW WebAPI Parceiro)."

  lemma SampleSuffixSplit()
    ensures Find(SampleSuffix, "  ") == None
  {
    assert forall j :: 0 <= j < |SampleSuffix| - 1 ==> SampleSuffix[j] != ' ' || SampleSuffix[j + 1] != ' ';
    forall j: nat
      ensures !OccursAt(SampleSuffix, "  ", j)
    {
      OccursAtPair(SampleSuffix, "  ", j);
    }
    FindNone(SampleSuffix, "  ");
  }

  lemma SampleSuffixCode()
    ensures ExtractOccurrenceCode(SampleSuffix) == None
  {
    assert forall i :: 0 <= i < |SampleSuffix| ==> !IsDigit(SampleSuffix[i]);
    assert forall i: nat :: !CodeAt(SampleSuffix, i);
  }

  lemma SampleStatusText()
    ensures StatusOf(SampleStatus) == Strip("MERCADORIA ENTREGUE")
  {
    SampleStatusHead();
    SampleSplit();
    StatusFields(SampleStatus);
  }

  lemma SampleStatusStripped()
    ensures Strip("MERCADORIA ENTREGUE") == "MERCADORIA ENTREGUE"
  {
    StripUntrimmed("MERCADORIA ENTREGUE");
  }

  lemma SampleCode()
    ensures CodeOf(SampleStatus) == None
  {
    SampleStatusHead();
    SampleSplit();
    SampleSuffixSplit();
    SampleSuffixCode();
    StatusFields(SampleStatus);
  }

  lemma SampleDescription()
    ensures Strip(SampleStatus) == SampleStatus
  {
    StripUntrimmed(SampleStatus);
  }

  lemma SampleTimestampText()
    ensures SampleLocation[19..27] == "18/11/25" && SampleLocation[28..33] == "16:35"
  {
  }

  lemma SampleTimestampParse()
    ensures IsDateText("18/11/25") && IsTimeText("16:35")
    ensures ParseTimestamp("18/11/25", "16:35") == Some(DateTime(2025, 11, 18, 16, 35))
  {
  }

  lemma SampleTimestampIso()
    ensures IsoFormat(DateTime(2025, 11, 18, 16, 35)) == "2025-11-18T16:35:00"
  {
  }

  /**
   * One triple as the carrier renders it: the location keeps only the first
   * two words, the status stops at the double space, and the bracketed
   * suffix holds no two-digit code.
   */
  lemma SampleTriple()
    ensures ParseTriple("1234", SampleLocation, SampleStatus) == Event(TrackingEvent(
      None, "MERCADORIA ENTREGUE", SampleStatus, Some("RIO DE"), Some("1234"), "2025-11-18T16:35:00"))
  {
    SampleUnit();
    SampleLocationWords();
    SampleDate();
    SampleTime();
    SampleStatusText();
    SampleStatusStripped();
    SampleCode();
    SampleDescription();
    SampleTimestampText();
    SampleTimestampParse();
    SampleTimestampIso();
  }

  /**
   * The two location extractors of the repository disagree on the carrier's
   * own rendering: main.py keeps the first two words, the scraping tests keep
   * the whole place before the date.
   */
  lemma LocationExtractorsDisagree()
    ensures ExtractLocation(SampleLocation) == Some("RIO DE")
    ensures LocationText.LocationBeforeDate(SampleLocation) == Some("RIO DE JANEIRO / RJ")
  {
    SampleLocationWords();
    SamplePlaceBeforeDate();
  }

  lemma SamplePlaceBeforeDate()
    ensures LocationText.LocationBeforeDate(SampleLocation) == Some("RIO DE JANEIRO / RJ")
  {
    assert IsDateText("18/11/25");
    LocationText.PlaceBeforeDate(SamplePlace, "18/11/25", "\n16:35");
    SamplePlaceText();
  }
}
