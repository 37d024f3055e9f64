/**
 * The two calls to the internal tracking API (main.py): submitting one
 * shipment update (`update_tracking_via_api`) and fetching the shipments
 * still to be tracked (`get_pending_shipments`). The HTTP exchange itself is
 * a parameter: what came back, as a transport failure or a response.
 */
module TrackingApi {
  import opened Wrappers
  import opened Text
  import opened TrackingPage

  /**
   * The outcome of one HTTP call: a transport failure (connection error,
   * timeout) with the text of its exception, or a response with its status
   * code, its body text and what `response.json()` made of the body (the
   * decoded value, or the text of the decoding error).
   */
  datatype ApiReply<J> =
    | TransportFailed(message: string)
    | Reply(statusCode: nat, text: string, json: Result<J, string>)

  /** `raise_for_status()` raises for every status outside 2xx. */
  predicate IsSuccess(statusCode: nat) {
    200 <= statusCode < 300
  }

  /**
   * One entry of the run's results: whether the shipment was updated, its
   * invoice number, the API's decoded answer on success and the error text
   * otherwise.
   */
  datatype SyncResult = SyncResult(success: bool, invoiceNumber: string, result: Option<string>, error: Option<string>)

  // ---------------------------------------------------------------------------
  // Submitting an update

  /** How much of an error response's body the error text keeps. */
  const DetailLimit: nat := 200

  /** `s[:n]` */
  function Truncate(s: string, n: nat): (r: string)
    ensures |r| <= n && |r| <= |s| && r == s[..|r|]
    ensures |s| <= n ==> r == s
    ensures |s| > n ==> |r| == n
  {
    if |s| <= n then s else s[..n]
  }

  /** The error text of a response outside 2xx: `f"HTTP {status}: {text[:200]}"`. */
  function HttpError(statusCode: nat, text: string): string {
    "HTTP " + Decimal(statusCode) + ": " + Truncate(text, DetailLimit)
  }

  /**
   * Reads an error text of that shape back into the status code and the
   * kept part of the body: "HTTP ", the decimal digits of the code, ": ",
   * and the rest.
   */
  function ReadHttpError(e: string): Option<(nat, string)> {
    if |e| < 5 || e[..5] != "HTTP " then None
    else
      var rest := e[5..];
      match Find(rest, ": ")
      case None => None
      case Some(k) =>
        if k > 0 && forall i :: 0 <= i < k ==> IsDigit(rest[i]) then Some((DecimalValue(rest[..k]), rest[k + 2..]))
        else None
  }

  /** The error text carries the status code and at most 200 characters from the start of the body. */
  lemma HttpErrorReadsBack(statusCode: nat, text: string)
    ensures ReadHttpError(HttpError(statusCode, text)) == Some((statusCode, Truncate(text, DetailLimit)))
  {
    var d := Decimal(statusCode);
    var body := Truncate(text, DetailLimit);
    var e := HttpError(statusCode, text);
    var rest := d + ": " + body;
    assert e == "HTTP " + rest;
    assert e[..5] == "HTTP " && e[5..] == rest;
    forall j: nat | j < |d|
      ensures !OccursAt(rest, ": ", j)
    {
      OccursAtPair(rest, ": ", j);
      assert rest[j] == d[j];
    }
    OccursAtPair(rest, ": ", |d|);
    FindIs(rest, ": ", |d|);
    assert rest[..|d|] == d;
    assert rest[|d| + 2..] == body;
    DecimalRoundTrip(statusCode);
  }

  /**
   * `update_tracking_via_api`: a 2xx response with a decodable body is a
   * success carrying the decoded answer; a response outside 2xx fails with
   * the status and the start of the body; a transport failure or an
   * undecodable body fails with the exception's text.
   */
  function UpdateTrackingViaApi(update: ShipmentUpdate, reply: ApiReply<string>): (r: SyncResult)
    ensures r.invoiceNumber == update.invoiceNumber
    ensures r.success <==> reply.Reply? && IsSuccess(reply.statusCode) && reply.json.Ok?
    ensures r.success ==> r.result == Some(reply.json.value) && r.error == None
    ensures !r.success ==> r.result == None && r.error.Some?
    ensures reply.TransportFailed? ==> r.error == Some(reply.message)
    ensures reply.Reply? && !IsSuccess(reply.statusCode) ==>
      ReadHttpError(r.error.value) == Some((reply.statusCode, Truncate(reply.text, DetailLimit)))
    ensures reply.Reply? && IsSuccess(reply.statusCode) && reply.json.Err? ==> r.error == Some(reply.json.error)
  {
    match reply
    case TransportFailed(message) => SyncResult(false, update.invoiceNumber, None, Some(message))
    case Reply(statusCode, text, json) =>
      if !IsSuccess(statusCode) then
        HttpErrorReadsBack(statusCode, text);
        SyncResult(false, update.invoiceNumber, None, Some(HttpError(statusCode, text)))
      else
        match json
        case Ok(answer) => SyncResult(true, update.invoiceNumber, Some(answer), None)
        case Err(message) => SyncResult(false, update.invoiceNumber, None, Some(message))
  }

  // ---------------------------------------------------------------------------
  // Fetching the pending shipments

  /**
   * One element of the decoded list: an object with its string members, or
   * any other JSON value, which indexing by a member name rejects.
   */
  datatype JsonItem = JObject(fields: map<string, string>) | NotAnObject

  /** The decoded body: a list, or any other JSON value. */
  datatype PendingBody = JList(items: seq<JsonItem>) | NotAList

  /** `{"cnpj": ..., "invoice_number": ...}` */
  datatype PendingShipment = PendingShipment(cnpj: string, invoiceNumber: string)

  /** An element the loop can read: an object with both members. */
  predicate Readable(item: JsonItem) {
    item.JObject? && "document" in item.fields && "invoice_number" in item.fields
  }

  function Reshaped(item: JsonItem): PendingShipment
    requires Readable(item)
  {
    PendingShipment(item.fields["document"], item.fields["invoice_number"])
  }

  /**
   * `get_pending_shipments`: every element of a decoded 2xx list becomes a
   * pending shipment, its `document` renamed to `cnpj`; anything that raises
   * on the way (transport failure, status outside 2xx, undecodable body, a
   * body that is not a list, an element without both members) gives no
   * shipments at all. A body that is not a list raises as soon as an element
   * is indexed, and gives no elements when it is empty.
   */
  function PendingShipments(reply: ApiReply<PendingBody>): seq<PendingShipment> {
    match reply
    case TransportFailed(_) => []
    case Reply(statusCode, _, json) =>
      if !IsSuccess(statusCode) || json.Err? || json.value.NotAList? then []
      else
        var items := json.value.items;
        if forall k :: 0 <= k < |items| ==> Readable(items[k]) then
          seq(|items|, k requires 0 <= k < |items| => Reshaped(items[k]))
        else []
  }

  /** The reading loop, answering [] as soon as an element cannot be read. */
  method GetPendingShipments(reply: ApiReply<PendingBody>) returns (pending: seq<PendingShipment>)
    ensures pending == PendingShipments(reply)
  {
    if reply.TransportFailed? || !IsSuccess(reply.statusCode) || reply.json.Err? || reply.json.value.NotAList? {
      return [];
    }
    var items := reply.json.value.items;
    pending := [];
    for k := 0 to |items|
      invariant forall j :: 0 <= j < k ==> Readable(items[j])
      invariant |pending| == k
      invariant forall j :: 0 <= j < k ==> pending[j] == Reshaped(items[j])
    {
      if !Readable(items[k]) {
        return [];
      }
      pending := pending + [Reshaped(items[k])];
    }
    assert pending == seq(|items|, k requires 0 <= k < |items| => Reshaped(items[k]));
  }

  /**
   * A readable 2xx list gives one shipment per element, in order, with the
   * same document and invoice number; and only such a list gives any.
   */
  lemma PendingKeepsOrder(reply: ApiReply<PendingBody>)
    ensures reply.Reply? && IsSuccess(reply.statusCode) && reply.json.Ok? && reply.json.value.JList?
            && (forall k :: 0 <= k < |reply.json.value.items| ==> Readable(reply.json.value.items[k])) ==>
      var items := reply.json.value.items;
      var pending := PendingShipments(reply);
      && |pending| == |items|
      && forall k :: 0 <= k < |items| ==>
           && pending[k].cnpj == items[k].fields["document"]
           && pending[k].invoiceNumber == items[k].fields["invoice_number"]
    ensures PendingShipments(reply) != [] ==>
      && reply.Reply? && IsSuccess(reply.statusCode) && reply.json.Ok? && reply.json.value.JList?
      && |PendingShipments(reply)| == |reply.json.value.items|
  {
  }

  /** Any failure on the way, including one unreadable element among readable ones, gives no shipments. */
  lemma PendingFailuresAreEmpty(reply: ApiReply<PendingBody>)
    ensures reply.TransportFailed? ==> PendingShipments(reply) == []
    ensures reply.Reply? && !IsSuccess(reply.statusCode) ==> PendingShipments(reply) == []
    ensures reply.Reply? && reply.json.Err? ==> PendingShipments(reply) == []
    ensures reply.Reply? && reply.json.Ok? && reply.json.value.NotAList? ==> PendingShipments(reply) == []
    ensures reply.Reply? && reply.json.Ok? && reply.json.value.JList?
            && (exists k :: 0 <= k < |reply.json.value.items| && !Readable(reply.json.value.items[k])) ==>
      PendingShipments(reply) == []
  {
  }
}
