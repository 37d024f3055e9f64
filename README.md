# SSW tracking sync, modelled in Dafny

This project models the tracking core of a carrier-tracking scraper:

- **The SSW extractor.** `scrape_ssw_tracking` (main.py) reads the carrier's result page as triples of paragraphs: unit, location with timestamp, status. It pulls the fields out of each triple with fixed patterns, parses the timestamp and assembles the shipment update.
- **The batch run.** `sync_ssw_tracking` fetches the pending shipments (`get_pending_shipments`). It scrapes each shipment and submits the update (`update_tracking_via_api`), recording a soft failure when there is no data. It then summarises the results.
- **The classification helpers of the scraping tests** (test_scraping.py):
  - the occurrence-type mapper;
  - the first-substring catalog search;
  - the scored matcher written inline in `test_occurrence_code_matching`;
  - the regex location extractor;
  - the finalization filter.

The modules follow the program:

| module | what it holds |
|---|---|
| `Text` | the string operations the code relies on: `\d`, `\s` and `\w`, `str.upper`/`lower`, `strip`, `split`, `in`, `re.findall(r"\w+")` and `str(int)` |
| `Calendar` | the `DD/MM/YY` and `HH:MM` patterns, `strptime("%d/%m/%y %H:%M")` and `isoformat()` |
| `TrackingPage` | the extractor and the scrape; `ExtractEvents` keeps the source's loop over `range(0, n, 3)` |
| `TrackingApi` | the two API calls, with the HTTP exchange as an input |
| `SyncFlow` | the per-shipment loop and the summary |
| `StatusMapping` | the mapper, `find_occurrence_code` and the finalization codes |
| `CodeMatcher` | the scored matcher; it keeps the source's loop over the sorted catalog |
| `LocationText` | the location extractor of the tests |
| `StatusExamples`, `CodeMatcherExamples`, `TrackingPageExamples` | the test cases of test_scraping.py, stated as lemmas about the model |

The outside world enters as values:

- **The carrier page** is the sequence of stripped `<p class="tdb">` texts, or a fetch failure.
- **Each API call** answers either a transport failure or a response. A response carries its status code, its body and what `json()` made of the body.
- **The clock reading** for `last_update` is a parameter.
- **The run** takes the pending-shipments reply and, for the shipment at position k, the answers `world(k)`.

The code disagrees with itself in two places. Both sides are modelled as written:

- **Location.** main.py:57-60 takes the first two `\w+` tokens (`TrackingPage.ExtractLocation`). The test at test_scraping.py:451-456 takes the text before the date (`LocationText.LocationBeforeDate`). `TrackingPageExamples.LocationExtractorsDisagree` proves that on `"RIO DE JANEIRO / RJ18/11/25\n16:35"` they give `"RIO DE"` and `"RIO DE JANEIRO / RJ"`.
- **Current status.** main.py:99 takes `events[0]`, which its own comment calls the most recent event. test_scraping.py:266 takes the last processed event. The model of the scrape follows main.py. The test's simulation is not modelled, because it only chains the matcher and the mapper over fixed records.

The model follows the code in these places too, where a broader description of the system might suggest otherwise:

- **No classification in main.py.** main.py never calls the matcher or the mapper. An event's `status` is the raw text before the first double space, and `current_status` is that text for the first event.
- **Location.** There is no location regex before the date in main.py, only the two-token rule.
- **Failures.**
  - An invalid calendar date makes `strptime` raise, and then the whole scrape returns None, not just that event.
  - With no events, main.py returns None and never the "pending" status.
  - A submission error reads `HTTP <code>: <first 200 characters of the body>`.
- **The mapper has only the rules it has.**
  - `reentrega` counts only inside the `pendência` branch.
  - There are no rules for `agendamento` or for the `operacional`/`coleta`/`geral` processes.
  - The finalization filter compares `type` as written, without lower-casing.
- **What main.py does not have:**
  - no catalog fetch, so no fatal abort;
  - no retries;
  - no worker pool.
- **Containment versus overlap.** Containment outranks overlap only while 100 × the contained length exceeds the status text's length (`CodeMatcher.ScoreLevels`, `CodeMatcher.OverlapBound`). For very long texts it does not always win.
- **How soft failures are counted.** A hard failure whose error text happens to contain "No tracking data found" is counted as no-data, as the generator expression at main.py:259-263 does.

## Model

| member | source | states |
|---|---|---|
| TrackingPage.ExtractUnit | main.py:53-54 | the unit is the leftmost run of four digits of the unit paragraph, None exactly when there is none |
| TrackingPage.ExtractLocation | main.py:57-60 | the location is None exactly when the paragraph has fewer than two word tokens; otherwise its own words are the paragraph's first two |
| TrackingPage.LocationIsFirstTwoWords | main.py:57-60 | word-free filler, a word, any non-empty word-free separator, a second word and anything after give exactly the two words joined by one space |
| TrackingPage.LeadingWord | main.py:57 | a word followed by the end or a non-word character is the first `\w+` token |
| TrackingPage.WordAfterFiller | main.py:57 | word-free filler adds no token, and a word before a non-empty word-free separator is the first one |
| TrackingPage.ExtractOccurrenceCode | main.py:82-84 | the code is the leftmost standalone two-digit number (`\b\d{2}\b`), None exactly when there is none |
| TrackingPage.StatusSegments | main.py:75 | splitting on a double space always gives at least one segment |
| TrackingPage.StatusFields | main.py:75-84 | the status is the stripped text before the first double space; the code is searched only in the segment after it, and there is no code without a double space |
| TrackingPage.DateSlice | main.py:63 | a date match is an eight-character `DD/MM/YY` text |
| TrackingPage.TimeSlice | main.py:64 | a time match is a five-character `HH:MM` text |
| TrackingPage.TimestampTexts | main.py:63-64 | the leftmost date match and the leftmost time match of the paragraph, None exactly when either pattern matches nowhere |
| TrackingPage.ParseTriple | main.py:48-95 | a triple is skipped exactly when its second paragraph lacks a date or a time; it raises exactly when strptime refuses the first date and first time; an event carries the extracted unit, location, status, code and stripped description, and its timestamp is the ISO form of what strptime read from that first date and time |
| TrackingPage.StampedTriple | main.py:63-93 | a paragraph whose first date and first time are the carrier's rendering of a moment gives an event stamped with that moment's ISO form |
| TrackingPage.Triples | main.py:46-50 | outcome j is the triple of paragraphs 3j, 3j+1 and 3j+2, and there are ⌊n/3⌋ of them |
| TrackingPage.Collect | main.py:43-95 | the collected events are never more than the triples read |
| TrackingPage.TrackingEvents | main.py:43-95 | a page gives at most ⌊n/3⌋ events |
| TrackingPage.CollectStaysFailed | main.py:115-117 | once a triple raised, the scrape stays failed whatever follows |
| TrackingPage.IncompleteTailIgnored | main.py:46-47 | a trailing one or two paragraphs change nothing |
| TrackingPage.EventPositions | main.py:86-95 | the positions of the triples that became events lie within the page |
| TrackingPage.CollectCharacterization | main.py:43-95 | collecting fails exactly when some triple has an invalid date; otherwise event k comes from the k-th event triple, positions increase, and a triple yields an event iff it is listed |
| TrackingPage.TripleBounds | main.py:46-47 | triple t is complete exactly when t < ⌊n/3⌋, and an incomplete start is the last one |
| TrackingPage.TailAt | main.py:46-47 | a paragraph 3t with fewer than two paragraphs after it lies past the last complete triple |
| TrackingPage.ExtractEvents | main.py:43-95 | the loop over `range(0, n, 3)` returns exactly the page's events, or None when a date raised |
| TrackingPage.ScrapeSswTracking | main.py:41-117 | None on a failed fetch, an invalid date or no events; otherwise carrier "SSW", no tracking code, the given document and invoice, the events, the first event's status and the clock reading |
| Calendar.ParseTimestamp | main.py:70-72 | a successful parse is a valid calendar date and time with a year in 1969-2068 |
| Calendar.IsoFormat | main.py:93 | the ISO text has 19 characters |
| Calendar.IsoFormatFields | main.py:93 | the ISO text is `YYYY-MM-DDTHH:MM:00` and its digit groups read back as the fields |
| Calendar.ParseDateText | main.py:63-72 | every timestamp the carrier can print matches the patterns and parses back to itself |
| Calendar.ParsedTextIsDateText | main.py:63-72 | a successful parse read exactly the printed form of its result |
| Calendar.DateTextFields | main.py:63 | a printed date is a date match whose groups are the day, the month and the two-digit year |
| Calendar.TimeTextFields | main.py:64 | a printed time is a time match whose groups are the hour and the minute |
| Calendar.DateTextLayout | main.py:63 | where each character of a printed date comes from |
| Calendar.TimeTextLayout | main.py:64 | where each character of a printed time comes from |
| Calendar.Pad2Digits | main.py:93 | a two-digit rendering reads back as its number |
| Calendar.Pad2OfDigits | main.py:70-72 | two digits render back as themselves |
| Calendar.DateTextGroups | main.py:63 | a date text is its three groups around the slashes |
| Calendar.TimeTextGroups | main.py:64 | a time text is its two groups around the colon |
| Calendar.DateGroupsPrintBack | main.py:70-72 | the groups of a date text print back as the text |
| Calendar.TimeGroupsPrintBack | main.py:70-72 | the groups of a time text print back as the text |
| Calendar.ParseExample | test_scraping.py:244-246 | `20/11/25 10:30` is 20 November 2025, 10:30 |
| Calendar.IsoFormatExample | test_scraping.py:244-254 | that timestamp is written `2025-11-20T10:30:00` |
| Calendar.ParseRejectsMissingDates | main.py:70-72 | 31/02 and 29/02 of a common year raise, as does 24:00; 29/02/24 and 01/01/69 parse |
| TrackingApi.Truncate | main.py:154 | the kept body is a prefix of at most 200 characters, all of it when it fits |
| TrackingApi.HttpErrorReadsBack | main.py:154 | the error text reads back as "HTTP ", the status code, ": " and the first 200 characters of the body |
| TrackingApi.UpdateTrackingViaApi | main.py:120-162 | success exactly on a 2xx response with a decodable body, carrying the decoded answer; a status outside 2xx gives the HTTP error text; other failures give the exception's text; the invoice number is kept |
| TrackingApi.GetPendingShipments | main.py:165-204 | the reading loop returns exactly the reshaped shipments, or [] on any failure |
| TrackingApi.PendingKeepsOrder | main.py:186-196 | a readable 2xx list gives one shipment per element, in order, `document` becoming `cnpj`; only such a list gives any |
| TrackingApi.PendingFailuresAreEmpty | main.py:198-204 | a transport failure, a status outside 2xx, an undecodable body, a body that is not a list or one unreadable element gives [] |
| SyncFlow.ProcessShipment | main.py:228-255 | the result keeps the invoice number; a scrape with no data is the soft failure "No tracking data found"; success exactly when the scrape found data and the submission succeeded |
| SyncFlow.SyncShipment | main.py:231-255 | one shipment is processed as `ProcessShipment` states |
| SyncFlow.SyncSswTracking | main.py:207-264 | one result per pending shipment, in order, each from that shipment's answers, with the summary of those results; with no pending shipments (main.py:221-223) no results and an all-zero summary |
| SyncFlow.Successful | main.py:258 | the success count is at most the number of results |
| SyncFlow.NoData | main.py:259-263 | the no-data count is at most the number of results |
| SyncFlow.CountsPartition | main.py:258-264 | every result is counted exactly once as a success, a no-data or a hard failure |
| SyncFlow.SummaryPartition | main.py:258-264 | `failed` is never negative, equals the hard failures, and the three counts add up to the total |
| SyncFlow.ResultsFollowPending | main.py:228-255 | each result carries its shipment's invoice number, and a shipment without data is counted as no-data |
| StatusMapping.StatusRules | test_scraping.py:82-119 | each of the seven statuses and exactly the lower-cased process and type that lead to it, in priority order |
| StatusMapping.DeliveredByProcess | test_scraping.py:94-97 | a process `entrega` or `finalizadora` means delivered whatever the type |
| StatusMapping.MapperIgnoresLowering | test_scraping.py:90-91 | lower-casing the fields first changes nothing |
| StatusMapping.MapperIgnoresUppering | test_scraping.py:90-91 | upper-casing them first changes nothing either, unless they hold a micro sign |
| StatusMapping.FirstDescribing | test_scraping.py:126-129 | the first position whose upper-cased description occurs in the upper-cased text, none exactly when there is no such position |
| StatusMapping.FindOccurrenceCode | test_scraping.py:122-129 | the early-return loop returns the first describing entry in catalog order, None exactly when none describes the text |
| StatusMapping.FirstDescribingIs | test_scraping.py:126-128 | a describing entry with none before it is the one found |
| StatusMapping.FindIgnoresCase | test_scraping.py:127 | lower- or upper-casing the text does not change what is found |
| StatusMapping.FinalizationCodes | test_scraping.py:288-291 | the filter keeps at most one code per entry |
| StatusMapping.FinalizationMembership | test_scraping.py:285-291 | a code is listed exactly when an entry of type `entrega`, `baixa` or `préentrega` carries it |
| CodeMatcher.CleanStripsParenthetical | test_scraping.py:375 | a text, whitespace, a one-line parenthetical and a tail of whitespace and an optional full stop clean to the text |
| CodeMatcher.CleanWithoutParen | test_scraping.py:375 | without a removable parenthetical the text is only stripped |
| CodeMatcher.CommonWords | test_scraping.py:399-405 | the shared keywords, each once, none a stop word |
| CodeMatcher.OverlapCountsTheIntersection | test_scraping.py:379-405 | the shared words are exactly the intersection of the two keyword sets |
| CodeMatcher.OverlapBound | test_scraping.py:399-407 | an overlap score never exceeds the length of the cleaned status |
| CodeMatcher.ScoreLevels | test_scraping.py:393-407 | containment scores 100 × the contained length; otherwise the score is at most the status length |
| CodeMatcher.Insert | test_scraping.py:383-387 | inserting a position keeps every position and adds it |
| CodeMatcher.InsertSorted | test_scraping.py:383-387 | inserting keeps the stable descending-length order |
| CodeMatcher.SortByLength | test_scraping.py:383-387 | the visiting order holds each catalog position once |
| CodeMatcher.SortByLengthSorted | test_scraping.py:383-387 | the visiting order is the stable sort by description length, longest first |
| CodeMatcher.VisitingOrder | test_scraping.py:383-387 | the sorted positions, each catalog position exactly once |
| CodeMatcher.BestMatchUnique | test_scraping.py:409-411 | at most one entry is the best match |
| CodeMatcher.SearchCatalog | test_scraping.py:383-411 | no match exactly when every entry scores 0; otherwise the unique entry with the top positive score that comes first in the visiting order, with its score |
| CodeMatcher.MatchOccurrenceCode | test_scraping.py:371-411 | the same for the cleaned, upper-cased status text |
| CodeMatcher.SearchOutcome | test_scraping.py:409-411 | what the strict-improvement loop has found once every entry was visited |
| CodeMatcher.BestFromOrder | test_scraping.py:409-411 | the first entry in visiting order with the top positive score is the best match |
| CodeMatcher.NoneFromOrder | test_scraping.py:409-411 | when every visited entry scores 0, every entry does |
| LocationText.LocationBeforeDate | test_scraping.py:451-456 | a location exists exactly when a date starts after at least one character with no line break before it; it has no whitespace at its ends; it is the stripped text before the first such date, less a trailing slash and the whitespace before that slash |
| LocationText.StripSlashed | test_scraping.py:454 | on a stripped text the slash clean-up and the second strip keep the text, or remove exactly a final slash and the whitespace before it |
| LocationText.DateAfterPrefix | test_scraping.py:451-456 | a text without digits or line breaks, followed by a date, is the prefix the clean-up works on |
| LocationText.DropTrailingSlash | test_scraping.py:454 | a prefix of the text: all of it unless it ends, before trailing whitespace, with a slash; then only whitespace lies between the result and the slash, and the result does not end in whitespace |
| LocationText.PlaceBeforeDate | test_scraping.py:451-456 | a place without digits or line breaks, trimmed and not ending in a slash, comes back unchanged from place + date + anything |
| LocationText.SlashedPlaceBeforeDate | test_scraping.py:451-456 | such a place followed by a slash with line-break-free whitespace around it and then the date comes back without the slash and the whitespace |
| LocationText.CleanSlashedPlace | test_scraping.py:453-455 | stripping, dropping the slash and stripping again turn place + whitespace + "/" + whitespace into the place |
| LocationText.NewlineStaysBefore | test_scraping.py:451 | a line break before the first date is before every later date too |
| LocationText.LocationRio | test_scraping.py:439 | `"RIO DE JANEIRO / RJ18/11/25\n16:35"` gives `"RIO DE JANEIRO / RJ"` |
| LocationText.LocationSaoPaulo | test_scraping.py:440 | the São Paulo case |
| LocationText.LocationBeloHorizonte | test_scraping.py:441 | the Belo Horizonte case |
| LocationText.LocationBrasilia | test_scraping.py:442 | the Brasília case |
| LocationText.LocationPortoAlegre | test_scraping.py:443 | the Porto Alegre case |
| LocationText.LocationSlashed | test_scraping.py:454 | `"CURITIBA /18/11/25\n09:00"` gives `"CURITIBA"` |
| Text.Upper | test_scraping.py:127 | upper-casing keeps the length |
| Text.UpperIdempotent | test_scraping.py:127 | upper-casing twice is upper-casing once |
| Text.UpperForgetsLower | test_scraping.py:497-506 | the case of the input does not matter to upper-casing |
| Text.LowerIdempotent | test_scraping.py:90-91 | lower-casing twice is lower-casing once |
| Text.Strip | main.py:76 | the result is a slice of the text with only whitespace around it and none at its ends |
| Text.Find | main.py:75 | the leftmost occurrence of the separator, none exactly when it does not occur |
| Text.Split | main.py:75 | a split has at least one part |
| Text.SplitJoin | main.py:75 | joining the parts with the separator gives back the text |
| Text.SplitPartsAvoidSep | main.py:75 | no part contains the separator |
| Text.SplitAtFind | main.py:75 | the first part is the text before the leftmost separator, then the parts of the rest |
| Text.WordTokens | main.py:57 | every token is a run of word characters |
| Text.TokensSplitAt | main.py:57 | a non-word character splits the token list in two |
| Text.TokensSplitAtFiller | main.py:57 | so does any non-empty run of non-word characters |
| Text.TokensFitInText | test_scraping.py:405 | the tokens' lengths add up to at most the text's length |
| Text.FirstMatch | main.py:53 | the leftmost position where the pattern matches, none exactly when it matches nowhere |
| Text.DecimalRoundTrip | main.py:154 | the decimal rendering of the status code reads back as the code, with no leading zero |
| StatusExamples.MockStatusesFirst | test_scraping.py:12-79 | what the mapper makes of the entries of MOCK_OCCURRENCE_CODES with codes 1, 85, 84, 82, 80 and 11: delivered for code 11 (pending client, process delivery) |
| StatusExamples.MockStatusesRest | test_scraping.py:12-79 | entries 31, 99, 3, 2 and 37: failed delivery, cancelled, returned, and delivered for 2 and 37 |
| StatusExamples.EmptyOccurrenceInTransit | test_scraping.py:489-493 | an empty occurrence is `in_transit` |
| StatusExamples.UnknownTextNotFound | test_scraping.py:481-485 | "EVENTO DESCONHECIDO" finds no entry |
| StatusExamples.FindAnyCase | test_scraping.py:497-506 | a text starting with any casing of "mercadoria entregue" (the lower-, upper- and mixed-case texts of the test) finds code 1 |
| StatusExamples.FindWithSuffix | test_scraping.py:513-516 | the text with the site's suffix finds code 1 |
| StatusExamples.FindSaidaParaEntrega | test_scraping.py:140 | "saida para entrega" finds code 85, in transit |
| StatusExamples.FindLocalFechado | test_scraping.py:141 | "local de entrega fechado/ausente" finds code 11, delivered |
| StatusExamples.MockFinalizationCodes | test_scraping.py:285-291 | the finalization codes of the mock catalog are 1, 99, 3 and 2 |
| StatusExamples.MockFinalizationCases | test_scraping.py:297-305 | 1, 3, 2 and 99 finalize; 85, 80 and 11 do not |
| CodeMatcherExamples.RessalvaMatch | test_scraping.py:360 | the full text matches code 37 |
| CodeMatcherExamples.PartialMatch | test_scraping.py:361 | "ENTREGA REALIZADA" matches code 37, being contained in its description |
| CodeMatcherExamples.NormalMatch | test_scraping.py:362 | "ENTREGA REALIZADA NORMALMENTE" matches code 37 by an overlap of 16 over 7 |
| CodeMatcherExamples.MercadoriaMatch | test_scraping.py:363 | "MERCADORIA ENTREGUE" matches code 1 |
| CodeMatcherExamples.MatchTestCases | test_scraping.py:359-364 | the matcher gives 37, 37, 37 and 1 |
| CodeMatcherExamples.NormalScore1 | test_scraping.py:399-405 | the overlap with code 37 is 16 |
| CodeMatcherExamples.NormalScore2 | test_scraping.py:399-405 | the overlap with code 85 is 7 |
| TrackingPageExamples.SampleTriple | main.py:48-95 | a triple in the carrier's real format gives unit 1234, location "RIO DE", the status, no code and `2025-11-18T16:35:00` |
| TrackingPageExamples.BrasiliaLocationWords | main.py:57-60 | on the carrier's rendering `"BRASILIA / DF22/11/25\n08:15"` main.py's location is `"BRASILIA DF22"`: the state and the day form one word token |
| TrackingPageExamples.LocationExtractorsDisagree | main.py:57-60 | on the same paragraph main.py gives "RIO DE" and the test's extractor "RIO DE JANEIRO / RJ" |

## Left out

- HTTP traffic. The carrier query and both API calls are inputs: what came back, as a transport failure or a response. Request building, headers, timeouts and `raise_for_status` details other than "2xx or not" are not modelled.
- HTML parsing. BeautifulSoup is not modelled; a page is the sequence of stripped `<p class="tdb">` texts.
- Prefect, scheduling, environment loading and the module-level API-key check.
- `print` output and the tests' pass/fail counters.
- `datetime.now()`. It is the parameter `now` of the scrape.
- Character classes are restricted to Latin-1. `\d` is ASCII digits. `\s` and `\w` are their Latin-1 members.
- Upper and lower case. They are mapped per character over Latin-1. `ß` upper-cases to itself rather than to "SS", and `ÿ` and `µ` map to their non-Latin-1 partners.
- TrackingApi.GetPendingShipments: only string members of the pending objects are modelled. A present member with another JSON value is outside the model.
- TrackingApi.UpdateTrackingViaApi: the API's decoded answer is carried as opaque text.
- SyncFlow.SyncSswTracking: returns the summary beside the results. For an empty pending list that summary is all zeros, where the source returns `[]` and prints no summary.
- The scraping test's simulated flow (test_scraping.py:182-275) and the payload test (test_scraping.py:524-601). They only chain the modelled helpers over fixed records and check fields by hand.
- The general regex engine. Only the patterns used are modelled: `\d{4}`, `\w+`, `\d{2}/\d{2}/\d{2}`, `\d{2}:\d{2}`, `\b\d{2}\b`, the lazy location prefix and the trailing-parenthetical clean-up.
