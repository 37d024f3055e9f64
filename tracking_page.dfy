/**
 * The tracking-page extractor of `scrape_ssw_tracking` (main.py): the page is
 * given as the stripped texts of its `<p class="tdb">` paragraphs, read in
 * consecutive triples (unit, location and timestamp, status), each complete
 * triple turned into an event when it carries a date and a time, and the
 * events assembled into the shipment update sent to the tracking API.
 */
module TrackingPage {
  import opened Wrappers
  import opened Text
  import opened Calendar

  datatype TrackingEvent = TrackingEvent(
    occurrenceCode: Option<string>,
    status: string,
    description: string,
    location: Option<string>,
    unit: Option<string>,
    occurredAt: string)

  datatype ShipmentUpdate = ShipmentUpdate(
    trackingCode: Option<string>,
    invoiceNumber: string,
    document: string,
    carrier: string,
    currentStatus: string,
    events: seq<TrackingEvent>,
    lastUpdate: string)

  /**
   * What the carrier site answered for one query: the paragraphs of the
   * result page, or a failure (connection error, timeout, non-2xx status).
   */
  datatype PageFetch = Page(paragraphs: seq<string>) | FetchFailed

  /** What one triple of paragraphs yields. */
  datatype TripleOutcome =
    | NoTimestamp                  // no date or no time: the triple is skipped
    | InvalidDate                  // strptime raised: the whole scrape fails
    | Event(event: TrackingEvent)

  // ---------------------------------------------------------------------------
  // Field extractors

  /** The pattern `\d{4}` starts at position `i`. */
  predicate FourDigitsAt(s: string, i: nat) {
    i + 4 <= |s| && IsDigit(s[i]) && IsDigit(s[i + 1]) && IsDigit(s[i + 2]) && IsDigit(s[i + 3])
  }

  /** The pattern `\b\d{2}\b` starts at position `i`. */
  predicate CodeAt(s: string, i: nat) {
    && i + 2 <= |s| && IsDigit(s[i]) && IsDigit(s[i + 1])
    && (i == 0 || !IsWordChar(s[i - 1]))
    && (i + 2 == |s| || !IsWordChar(s[i + 2]))
  }

  ghost predicate HasDate(s: string) {
    exists i: nat :: DateAt(s, i)
  }

  ghost predicate HasTime(s: string) {
    exists i: nat :: TimeAt(s, i)
  }

  /** `re.search(r"(\d{4})", unit_text)`: the leftmost run of four digits. */
  function ExtractUnit(unitText: string): (r: Option<string>)
    ensures r.None? <==> forall i: nat :: !FourDigitsAt(unitText, i)
    ensures r.Some? ==> exists i: nat ::
      && FourDigitsAt(unitText, i) && r.value == unitText[i..i + 4]
      && forall j: nat :: j < i ==> !FourDigitsAt(unitText, j)
  {
    match FirstMatch(unitText, FourDigitsAt, 0)
    case None => None
    case Some(i) => Some(unitText[i..i + 4])
  }

  /** `re.search(r"\b(\d{2})\b", part)`: the leftmost standalone two-digit number. */
  function ExtractOccurrenceCode(part: string): (r: Option<string>)
    ensures r.None? <==> forall i: nat :: !CodeAt(part, i)
    ensures r.Some? ==> exists i: nat ::
      && CodeAt(part, i) && r.value == part[i..i + 2]
      && forall j: nat :: j < i ==> !CodeAt(part, j)
  {
    match FirstMatch(part, CodeAt, 0)
    case None => None
    case Some(i) => Some(part[i..i + 2])
  }

  /**
   * main.py's location: the first two `\w+` tokens joined by one space. There
   * is none with fewer than two tokens, and the words of a location are the
   * first two words of the paragraph.
   */
  function ExtractLocation(locationDatetime: string): (r: Option<string>)
    ensures r.None? <==> |WordTokens(locationDatetime)| < 2
    ensures r.Some? ==> WordTokens(r.value) == WordTokens(locationDatetime)[..2]
  {
    var tokens := WordTokens(locationDatetime);
    if |tokens| >= 2 then
      WordThenRest(tokens[0], tokens[1]);
      WordIsOneToken(tokens[1]);
      Some(tokens[0] + " " + tokens[1])
    else None
  }

  /**
   * Whatever surrounds them, the location is the first two words: a text that
   * starts with word-free filler, a word, a non-empty word-free separator and
   * a second word that ends at a non-word character or at the end, gives
   * exactly those two words, joined by one space whatever the separator was.
   */
  lemma {:induction false} LocationIsFirstTwoWords(lead: string, w1: string, sep: string, w2: string, rest: string)
    requires forall i :: 0 <= i < |lead| ==> !IsWordChar(lead[i])
    requires sep != [] && forall i :: 0 <= i < |sep| ==> !IsWordChar(sep[i])
    requires IsWord(w1) && IsWord(w2)
    requires rest == [] || !IsWordChar(rest[0])
    ensures ExtractLocation(lead + w1 + sep + w2 + rest) == Some(w1 + " " + w2)
  {
    LeadingWord(w2, rest);
    assert lead + w1 + sep + w2 + rest == lead + w1 + sep + (w2 + rest);
    WordAfterFiller(lead, w1, sep, w2 + rest);
  }

  /** A word followed by nothing or by a non-word character is the first token. */
  lemma LeadingWord(w: string, rest: string)
    requires IsWord(w) && (rest == [] || !IsWordChar(rest[0]))
    ensures |WordTokens(w + rest)| >= 1 && WordTokens(w + rest)[0] == w
  {
    WordIsOneToken(w);
    if rest == [] {
      assert w + rest == w;
    } else {
      assert w + rest == w + [rest[0]] + rest[1..];
      TokensSplitAt(w, rest[0], rest[1..]);
    }
  }

  /** Word-free filler, then a word and a word-free separator: the word is the first token. */
  lemma WordAfterFiller(lead: string, w: string, sep: string, rest: string)
    requires forall i :: 0 <= i < |lead| ==> !IsWordChar(lead[i])
    requires sep != [] && forall i :: 0 <= i < |sep| ==> !IsWordChar(sep[i])
    requires IsWord(w)
    ensures WordTokens(lead + w + sep + rest) == [w] + WordTokens(rest)
  {
    WordIsOneToken(w);
    TokensSplitAtFiller(w, sep, rest);
    FillerAddsNoTokens(lead, w + sep + rest);
    Regroup4(lead, w, sep, rest);
  }

  lemma Regroup4(a: string, b: string, c: string, d: string)
    ensures a + b + c + d == a + (b + c + d)
  {
  }

  /** `status_text.split("  ")`: the segments between double spaces. */
  function StatusSegments(statusText: string): (parts: seq<string>)
    ensures |parts| >= 1
  {
    Split(statusText, "  ")
  }

  /** `status_parts[0].strip()` */
  function StatusOf(statusText: string): string {
    Strip(StatusSegments(statusText)[0])
  }

  /** The occurrence code: a standalone two-digit number in the second segment. */
  function CodeOf(statusText: string): Option<string> {
    var parts := StatusSegments(statusText);
    if |parts| > 1 then ExtractOccurrenceCode(parts[1]) else None
  }

  /**
   * The status is the trimmed text before the first double space, and the
   * occurrence code is looked for in the text between the first double space
   * and the next one (or the end).
   */
  lemma StatusFields(statusText: string)
    ensures match Find(statusText, "  ")
      case None =>
        && StatusOf(statusText) == Strip(statusText)
        && CodeOf(statusText) == None
      case Some(i) =>
        && StatusOf(statusText) == Strip(statusText[..i])
        && !Contains(statusText[..i], "  ")
        && var rest := statusText[i + 2..];
           CodeOf(statusText) == ExtractOccurrenceCode(
             match Find(rest, "  ") case None => rest case Some(j) => rest[..j])
  {
    var parts := Split(statusText, "  ");
    match Find(statusText, "  ")
    case None =>
      assert parts == [statusText];
    case Some(i) =>
      var rest := statusText[i + 2..];
      var more := Split(rest, "  ");
      assert parts == [statusText[..i]] + more;
      SplitPartsAvoidSep(statusText, "  ");
      assert parts[0] == statusText[..i] && parts[1] == more[0];
      match Find(rest, "  ")
      case None =>
        assert more == [rest];
      case Some(j) =>
        assert more == [rest[..j]] + Split(rest[j + 2..], "  ");
  }

  // ---------------------------------------------------------------------------
  // One triple

  lemma DateSlice(s: string, i: nat)
    requires DateAt(s, i)
    ensures IsDateText(s[i..i + 8])
  {
  }

  lemma TimeSlice(s: string, i: nat)
    requires TimeAt(s, i)
    ensures IsTimeText(s[i..i + 5])
  {
  }

  /**
   * `re.search(r"(\d{2}/\d{2}/\d{2})", ...)` and `re.search(r"(\d{2}:\d{2})", ...)`
   * on the same paragraph: the leftmost date and the leftmost time, when both
   * are there.
   */
  function TimestampTexts(locationDatetime: string): (r: Option<(string, string)>)
    ensures r.None? <==> !HasDate(locationDatetime) || !HasTime(locationDatetime)
    ensures r.Some? ==> IsDateText(r.value.0) && IsTimeText(r.value.1)
    ensures r.Some? ==> exists d: nat ::
      && DateAt(locationDatetime, d) && r.value.0 == locationDatetime[d..d + 8]
      && forall j: nat :: j < d ==> !DateAt(locationDatetime, j)
    ensures r.Some? ==> exists t: nat ::
      && TimeAt(locationDatetime, t) && r.value.1 == locationDatetime[t..t + 5]
      && forall j: nat :: j < t ==> !TimeAt(locationDatetime, j)
  {
    var dateMatch := FirstMatch(locationDatetime, DateAt, 0);
    var timeMatch := FirstMatch(locationDatetime, TimeAt, 0);
    if dateMatch.None? || timeMatch.None? then
      assert dateMatch.None? ==> forall i: nat :: !DateAt(locationDatetime, i);
      assert timeMatch.None? ==> forall i: nat :: !TimeAt(locationDatetime, i);
      None
    else
      var d := dateMatch.value;
      var t := timeMatch.value;
      DateSlice(locationDatetime, d);
      TimeSlice(locationDatetime, t);
      Some((locationDatetime[d..d + 8], locationDatetime[t..t + 5]))
  }

  /**
   * One triple: skipped without a date and a time, an error when strptime
   * refuses the first date and time, and otherwise the event, stamped with
   * their ISO form.
   */
  function ParseTriple(unitText: string, locationDatetime: string, statusText: string): (r: TripleOutcome)
    ensures r.NoTimestamp? <==> !HasDate(locationDatetime) || !HasTime(locationDatetime)
    ensures r.InvalidDate? <==> var texts := TimestampTexts(locationDatetime);
      texts.Some? && ParseTimestamp(texts.value.0, texts.value.1).None?
    ensures r.Event? ==> && r.event.unit == ExtractUnit(unitText)
                         && r.event.location == ExtractLocation(locationDatetime)
                         && r.event.status == StatusOf(statusText)
                         && r.event.occurrenceCode == CodeOf(statusText)
                         && r.event.description == Strip(statusText)
                         && |r.event.occurredAt| == 19
    ensures r.Event? ==> var texts := TimestampTexts(locationDatetime);
      && texts.Some? && ParseTimestamp(texts.value.0, texts.value.1).Some?
      && r.event.occurredAt == IsoFormat(ParseTimestamp(texts.value.0, texts.value.1).value)
  {
    match TimestampTexts(locationDatetime)
    case None => NoTimestamp
    case Some((date, time)) =>
      match ParseTimestamp(date, time)
      case None => InvalidDate
      case Some(occurredAt) =>
        Event(TrackingEvent(CodeOf(statusText), StatusOf(statusText), Strip(statusText),
                            ExtractLocation(locationDatetime), ExtractUnit(unitText), IsoFormat(occurredAt)))
  }

  /**
   * A paragraph whose first date and first time are the carrier's rendering
   * of one moment gives an event stamped with that moment in ISO form.
   */
  lemma StampedTriple(unitText: string, locationDatetime: string, statusText: string,
                      dt: DateTime, d: nat, t: nat)
    requires Valid(dt) && 1969 <= dt.year <= 2068
    requires DateAt(locationDatetime, d) && forall j: nat :: j < d ==> !DateAt(locationDatetime, j)
    requires TimeAt(locationDatetime, t) && forall j: nat :: j < t ==> !TimeAt(locationDatetime, j)
    requires locationDatetime[d..d + 8] == DateText(dt) && locationDatetime[t..t + 5] == TimeText(dt)
    ensures ParseTriple(unitText, locationDatetime, statusText).Event?
    ensures ParseTriple(unitText, locationDatetime, statusText).event.occurredAt == IsoFormat(dt)
  {
    FirstMatchIs(locationDatetime, DateAt, 0, d);
    FirstMatchIs(locationDatetime, TimeAt, 0, t);
    ParseDateText(dt);
  }

  // ---------------------------------------------------------------------------
  // The walk over the paragraphs

  /**
   * The outcome of every complete triple: triple j is made of paragraphs
   * 3j, 3j+1 and 3j+2, and a trailing one or two paragraphs form none.
   */
  function Triples(paragraphs: seq<string>): (r: seq<TripleOutcome>)
    ensures |r| == |paragraphs| / 3
    ensures forall j :: 0 <= j < |r| ==>
      r[j] == ParseTriple(paragraphs[3 * j], paragraphs[3 * j + 1], paragraphs[3 * j + 2])
  {
    seq(|paragraphs| / 3, j requires 0 <= j < |paragraphs| / 3 =>
      ParseTriple(paragraphs[3 * j], paragraphs[3 * j + 1], paragraphs[3 * j + 2]))
  }

  /**
   * The events of the given triple outcomes, read in order, or None once one
   * of them raised.
   */
  function Collect(outcomes: seq<TripleOutcome>): (r: Option<seq<TrackingEvent>>)
    ensures r.Some? ==> |r.value| <= |outcomes|
  {
    if outcomes == [] then Some([])
    else
      match Collect(outcomes[..|outcomes| - 1])
      case None => None
      case Some(events) =>
        match outcomes[|outcomes| - 1]
        case NoTimestamp => Some(events)
        case InvalidDate => None
        case Event(e) => Some(events + [e])
  }

  /** The events of a page. */
  function TrackingEvents(paragraphs: seq<string>): (r: Option<seq<TrackingEvent>>)
    ensures r.Some? ==> |r.value| <= |paragraphs| / 3
  {
    Collect(Triples(paragraphs))
  }

  lemma {:induction false} CollectStaysFailed(outcomes: seq<TripleOutcome>, t: nat)
    requires t <= |outcomes|
    requires Collect(outcomes[..t]).None?
    ensures Collect(outcomes).None?
    decreases |outcomes| - t
  {
    if t < |outcomes| {
      assert outcomes[..t + 1][..t] == outcomes[..t];
      CollectStaysFailed(outcomes, t + 1);
    } else {
      assert outcomes[..t] == outcomes;
    }
  }

  /** An incomplete tail of one or two paragraphs changes nothing. */
  lemma IncompleteTailIgnored(paragraphs: seq<string>, tail: seq<string>)
    requires |paragraphs| % 3 == 0 && |tail| < 3
    ensures TrackingEvents(paragraphs + tail) == TrackingEvents(paragraphs)
  {
    var p := paragraphs + tail;
    assert |p| / 3 == |paragraphs| / 3;
    assert Triples(p) == Triples(paragraphs);
  }

  /** The positions of the outcomes that are events, in increasing order. */
  function EventPositions(outcomes: seq<TripleOutcome>): (idx: seq<nat>)
    ensures forall k :: 0 <= k < |idx| ==> idx[k] < |outcomes|
  {
    if outcomes == [] then []
    else if outcomes[|outcomes| - 1].Event? then EventPositions(outcomes[..|outcomes| - 1]) + [|outcomes| - 1]
    else EventPositions(outcomes[..|outcomes| - 1])
  }

  /**
   * Collecting fails exactly when some outcome is an invalid date; otherwise
   * event k is the one of outcome idx[k], the positions increase, and an
   * outcome is an event iff its position is listed: events keep the order
   * of the paragraphs and nothing else is dropped or added.
   */
  lemma {:induction false} CollectCharacterization(outcomes: seq<TripleOutcome>)
    ensures Collect(outcomes).None? <==> exists j :: 0 <= j < |outcomes| && outcomes[j].InvalidDate?
    ensures Collect(outcomes).Some? ==>
      var events := Collect(outcomes).value;
      var idx := EventPositions(outcomes);
      && |idx| == |events|
      && (forall k :: 0 <= k < |idx| ==> outcomes[idx[k]] == Event(events[k]))
      && (forall k, m :: 0 <= k < m < |idx| ==> idx[k] < idx[m])
      && (forall j :: 0 <= j < |outcomes| ==> (outcomes[j].Event? <==> j in idx))
  {
    if outcomes != [] {
      var init := outcomes[..|outcomes| - 1];
      CollectCharacterization(init);
      if Collect(init).None? {
        var j :| 0 <= j < |init| && init[j].InvalidDate?;
        assert outcomes[j].InvalidDate?;
      }
    }
  }

  // ---------------------------------------------------------------------------
  // The scrape

  /**
   * `scrape_ssw_tracking`: None when the page could not be fetched, when a
   * date was invalid or when no event was found; otherwise the update, whose
   * current status is the first (most recent) event's status.
   */
  function Scrape(page: PageFetch, document: string, invoiceNumber: string, now: string): Option<ShipmentUpdate> {
    match page
    case FetchFailed => None
    case Page(paragraphs) =>
      match TrackingEvents(paragraphs)
      case None => None
      case Some(events) =>
        if events == [] then None
        else Some(ShipmentUpdate(None, invoiceNumber, document, "SSW", events[0].status, events, now))
  }

  /** One more outcome extends the collected events, or fails, or is skipped. */
  lemma CollectStep(outcomes: seq<TripleOutcome>, t: nat, events: seq<TrackingEvent>)
    requires t < |outcomes| && Collect(outcomes[..t]) == Some(events)
    ensures outcomes[t].NoTimestamp? ==> Collect(outcomes[..t + 1]) == Some(events)
    ensures outcomes[t].InvalidDate? ==> Collect(outcomes[..t + 1]) == None
    ensures outcomes[t].Event? ==> Collect(outcomes[..t + 1]) == Some(events + [outcomes[t].event])
  {
    assert outcomes[..t + 1][..t] == outcomes[..t];
  }

  lemma TripleBounds(n: nat, t: nat)
    ensures (3 * t + 2 < n) <==> (t < n / 3)
    ensures 3 * t < n && n <= 3 * t + 2 ==> t == n / 3
  {
  }

  /** Paragraph i = 3t past the last complete triple is in the incomplete tail. */
  lemma TailAt(paragraphs: seq<string>, i: nat, t: nat)
    requires i == 3 * t && i < |paragraphs| <= i + 2
    ensures t == |Triples(paragraphs)|
  {
    TripleBounds(|paragraphs|, t);
  }

  /** The body of the loop: triple t, read from paragraphs i, i + 1 and i + 2. */
  method ReadTriple(paragraphs: seq<string>, i: nat, ghost t: nat) returns (outcome: TripleOutcome)
    requires i == 3 * t && i + 2 < |paragraphs|
    ensures t < |Triples(paragraphs)| && outcome == Triples(paragraphs)[t]
  {
    outcome := ParseTriple(paragraphs[i], paragraphs[i + 1], paragraphs[i + 2]);
    TripleIs(paragraphs, i, t);
  }

  lemma TripleIs(paragraphs: seq<string>, i: nat, t: nat)
    requires i == 3 * t && i + 2 < |paragraphs|
    ensures t < |Triples(paragraphs)|
    ensures Triples(paragraphs)[t] == ParseTriple(paragraphs[i], paragraphs[i + 1], paragraphs[i + 2])
  {
    TripleBounds(|paragraphs|, t);
    var u, l, st := paragraphs[3 * t], paragraphs[3 * t + 1], paragraphs[3 * t + 2];
    assert u == paragraphs[i] && l == paragraphs[i + 1] && st == paragraphs[i + 2];
    assert Triples(paragraphs)[t] == ParseTriple(u, l, st);
  }

  /** One triple's outcome added to the events collected so far. */
  method Absorb(ghost outcomes: seq<TripleOutcome>, ghost t: nat, events: seq<TrackingEvent>, outcome: TripleOutcome)
    returns (next: Option<seq<TrackingEvent>>)
    requires t < |outcomes| && outcome == outcomes[t] && Collect(outcomes[..t]) == Some(events)
    ensures next == Collect(outcomes[..t + 1])
  {
    CollectStep(outcomes, t, events);
    match outcome
    case NoTimestamp => next := Some(events);
    case InvalidDate => next := None;
    case Event(e) => next := Some(events + [e]);
  }

  /** The loop of `scrape_ssw_tracking`: `for i in range(0, len(paragraphs), 3)`. */
  method ExtractEvents(paragraphs: seq<string>) returns (result: Option<seq<TrackingEvent>>)
    ensures result == TrackingEvents(paragraphs)
  {
    ghost var outcomes := Triples(paragraphs);
    ghost var t := 0;
    var events: seq<TrackingEvent> := [];
    var i := 0;
    while i < |paragraphs|
      invariant i == 3 * t && t <= |outcomes| + 1
      invariant t <= |outcomes| ==> Collect(outcomes[..t]) == Some(events)
      invariant t > |outcomes| ==> Collect(outcomes) == Some(events)
    {
      if i + 2 < |paragraphs| {
        var outcome := ReadTriple(paragraphs, i, t);
        var next := Absorb(outcomes, t, events, outcome);
        if next.None? {
          CollectStaysFailed(outcomes, t + 1);
          return None;
        }
        events := next.value;
      } else {
        TailAt(paragraphs, i, t);
        assert outcomes[..t] == outcomes;
      }
      i := i + 3;
      t := t + 1;
    }
    if t <= |outcomes| {
      assert outcomes[..t] == outcomes;
    }
    result := Some(events);
  }

  method ScrapeSswTracking(page: PageFetch, document: string, invoiceNumber: string, now: string)
    returns (update: Option<ShipmentUpdate>)
    ensures update == Scrape(page, document, invoiceNumber, now)
    ensures update.Some? <==> page.Page? && TrackingEvents(page.paragraphs).Some? && TrackingEvents(page.paragraphs).value != []
    ensures update.Some? ==>
      && update.value.trackingCode == None
      && update.value.carrier == "SSW"
      && update.value.document == document
      && update.value.invoiceNumber == invoiceNumber
      && update.value.events == TrackingEvents(page.paragraphs).value
      && update.value.currentStatus == update.value.events[0].status
      && update.value.lastUpdate == now
  {
    if page.FetchFailed? {
      return None;
    }
    var events := ExtractEvents(page.paragraphs);
    if events.None? || events.value == [] {
      return None;
    }
    var e := events.value;
    update := Some(ShipmentUpdate(None, invoiceNumber, document, "SSW", e[0].status, e, now));
  }
}
