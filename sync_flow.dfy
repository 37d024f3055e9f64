/**
 * The run (main.py, `sync_ssw_tracking`): fetch the pending shipments, then
 * for each in turn scrape the carrier page and, when that found events,
 * submit the update; a shipment without tracking data gets a soft failure
 * and the run goes on. The results are summarised as successes, shipments
 * without data and other failures.
 */
module SyncFlow {
  import opened Wrappers
  import opened Text
  import opened TrackingPage
  import opened TrackingApi

  /**
   * What the outside world answers while one shipment is processed: the
   * carrier's page, the clock reading taken for `last_update`, and the API's
   * reply to the submitted update.
   */
  datatype ShipmentEnv = ShipmentEnv(page: PageFetch, now: string, reply: ApiReply<string>)

  const NoTrackingData := "No tracking data found"

  /** The result for one shipment. */
  function ProcessShipment(shipment: PendingShipment, env: ShipmentEnv): (r: SyncResult)
    ensures r.invoiceNumber == shipment.invoiceNumber
    ensures Scrape(env.page, shipment.cnpj, shipment.invoiceNumber, env.now).None? ==>
      r == SyncResult(false, shipment.invoiceNumber, None, Some(NoTrackingData))
    ensures r.success <==>
      && Scrape(env.page, shipment.cnpj, shipment.invoiceNumber, env.now).Some?
      && env.reply.Reply? && IsSuccess(env.reply.statusCode) && env.reply.json.Ok?
  {
    match Scrape(env.page, shipment.cnpj, shipment.invoiceNumber, env.now)
    case None => SyncResult(false, shipment.invoiceNumber, None, Some(NoTrackingData))
    case Some(update) => UpdateTrackingViaApi(update, env.reply)
  }

  // ---------------------------------------------------------------------------
  // The summary

  predicate IsNoData(r: SyncResult) {
    !r.success && Contains(r.error.GetOr(""), NoTrackingData)
  }

  /** `sum(1 for r in results if r["success"])` */
  function Successful(results: seq<SyncResult>): (n: nat)
    ensures n <= |results|
  {
    if results == [] then 0 else (if results[0].success then 1 else 0) + Successful(results[1..])
  }

  /** The soft failures: unsuccessful, with "No tracking data found" in the error text. */
  function NoData(results: seq<SyncResult>): (n: nat)
    ensures n <= |results|
  {
    if results == [] then 0 else (if IsNoData(results[0]) then 1 else 0) + NoData(results[1..])
  }

  /** The results that are neither: the hard failures. */
  function HardFailures(results: seq<SyncResult>): nat {
    if results == [] then 0
    else (if !results[0].success && !IsNoData(results[0]) then 1 else 0) + HardFailures(results[1..])
  }

  datatype Summary = Summary(successful: nat, noData: nat, failed: int, total: nat)

  /** The run's totals; `failed` is what the other two leave. */
  function Summarize(results: seq<SyncResult>): Summary {
    var s := Successful(results);
    var n := NoData(results);
    Summary(s, n, |results| - s - n, |results|)
  }

  /** Every result is counted exactly once, so the remainder counts exactly the hard failures. */
  lemma {:induction false} CountsPartition(results: seq<SyncResult>)
    ensures Successful(results) + NoData(results) + HardFailures(results) == |results|
  {
    if results != [] {
      CountsPartition(results[1..]);
    }
  }

  lemma SummaryPartition(results: seq<SyncResult>)
    ensures var summary := Summarize(results);
      && summary.failed >= 0
      && summary.failed == HardFailures(results)
      && summary.successful + summary.noData + summary.failed == summary.total == |results|
  {
    CountsPartition(results);
  }

  // ---------------------------------------------------------------------------
  // The run

  /**
   * `sync_ssw_tracking`: one result per pending shipment, in order. The
   * shipment at position k is processed with the answers `world(k)`. The
   * summary, which the source prints, is returned beside the results.
   */
  method SyncSswTracking(pendingReply: ApiReply<PendingBody>, world: nat -> ShipmentEnv)
    returns (results: seq<SyncResult>, summary: Summary)
    ensures var pending := PendingShipments(pendingReply);
      && |results| == |pending|
      && (forall k :: 0 <= k < |results| ==> results[k] == ProcessShipment(pending[k], world(k)))
      && summary == Summarize(results)
    // No pending shipments: the run returns at once, with nothing processed.
    ensures PendingShipments(pendingReply) == [] ==> results == [] && summary == Summary(0, 0, 0, 0)
  {
    var pending := GetPendingShipments(pendingReply);
    if pending == [] {
      return [], Summarize([]);
    }
    results := [];
    for k := 0 to |pending|
      invariant |results| == k
      invariant forall j :: 0 <= j < k ==> results[j] == ProcessShipment(pending[j], world(j))
    {
      var result := SyncShipment(pending[k], world(k));
      results := results + [result];
    }
    summary := Summarize(results);
  }

  /** The body of the loop for one shipment: scrape, then submit what was found. */
  method SyncShipment(shipment: PendingShipment, env: ShipmentEnv) returns (result: SyncResult)
    ensures result == ProcessShipment(shipment, env)
  {
    var update := ScrapeSswTracking(env.page, shipment.cnpj, shipment.invoiceNumber, env.now);
    if update.Some? {
      result := UpdateTrackingViaApi(update.value, env.reply);
    } else {
      result := SyncResult(false, shipment.invoiceNumber, None, Some(NoTrackingData));
    }
  }

  /**
   * Each result belongs to the pending shipment at its position, and a
   * shipment without tracking data is a soft failure that the summary
   * counts as such.
   */
  lemma ResultsFollowPending(pending: seq<PendingShipment>, world: nat -> ShipmentEnv, results: seq<SyncResult>)
    requires |results| == |pending|
    requires forall k :: 0 <= k < |results| ==> results[k] == ProcessShipment(pending[k], world(k))
    ensures forall k :: 0 <= k < |results| ==> results[k].invoiceNumber == pending[k].invoiceNumber
    ensures forall k :: 0 <= k < |results| ==>
      Scrape(world(k).page, pending[k].cnpj, pending[k].invoiceNumber, world(k).now).None? ==> IsNoData(results[k])
  {
    assert OccursAt(NoTrackingData, NoTrackingData, 0);
  }
}
