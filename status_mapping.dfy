/**
 * The occurrence catalog helpers of the scraping tests (test_scraping.py):
 * mapping an occurrence code's process and type to a shipment status,
 * finding the first catalog entry whose description occurs in a status
 * text, and the codes that finalize a shipment.
 */
module StatusMapping {
  import opened Wrappers
  import opened Text

  /**
   * One entry of the carrier's occurrence catalog. A key missing from the
   * dictionary reads as the empty string, as `dict.get(key, "")` does.
   */
  datatype OccurrenceCode = OccurrenceCode(code: string, description: string, occType: string, process: string)

  datatype ShipmentStatus =
    | InTransit | Delivered | Returned | Cancelled | OutForDelivery | FailedDelivery | Held
  {
    /** The status string sent to the tracking API. */
    function Name(): string {
      match this
      case InTransit => "in_transit"
      case Delivered => "delivered"
      case Returned => "returned"
      case Cancelled => "cancelled"
      case OutForDelivery => "out_for_delivery"
      case FailedDelivery => "failed_delivery"
      case Held => "held"
    }
  }

  const Entrega := "entrega"
  const Finalizadora := "finalizadora"
  const Devolucao := "devolu\U{E7}\U{E3}o"
  const Baixa := "baixa"
  const PreEntrega := "pr\U{E9}entrega"
  const Pendencia := "pend\U{EA}ncia"
  const Reentrega := "reentrega"
  const Informativa := "informativa"

  // ---------------------------------------------------------------------------
  // map_occurrence_type_to_status

  /**
   * The status of an occurrence: `None` stands for an empty (falsy)
   * dictionary. Process decides first, then type, then pending conditions.
   */
  function MapOccurrenceTypeToStatus(occurrence: Option<OccurrenceCode>): ShipmentStatus {
    match occurrence
    case None => InTransit
    case Some(o) =>
      var occType := Lower(o.occType);
      var process := Lower(o.process);
      if process == Entrega then Delivered
      else if process == Finalizadora then Delivered
      else if process == Devolucao then Returned
      else if occType == Baixa then Cancelled
      else if occType == PreEntrega then OutForDelivery
      else if Contains(occType, Pendencia) then
        if process == Reentrega then FailedDelivery else Held
      else InTransit
  }

  /** A finalizing process means delivered, whatever the type says. */
  lemma DeliveredByProcess(o: OccurrenceCode)
    requires Lower(o.process) == Entrega || Lower(o.process) == Finalizadora
    ensures forall t :: MapOccurrenceTypeToStatus(Some(o.(occType := t))) == Delivered
  {
  }

  /**
   * Every outcome and exactly when it happens: each status is reached by one
   * rule of the priority order, and a missing occurrence is in transit.
   */
  lemma StatusRules(occurrence: Option<OccurrenceCode>)
    ensures var s := MapOccurrenceTypeToStatus(occurrence);
      match occurrence
      case None => s == InTransit
      case Some(o) =>
        var t := Lower(o.occType);
        var p := Lower(o.process);
        && (s == Delivered <==> p == Entrega || p == Finalizadora)
        && (s == Returned <==> p == Devolucao)
        && (s == Cancelled <==> p != Entrega && p != Finalizadora && p != Devolucao && t == Baixa)
        && (s == OutForDelivery <==> p != Entrega && p != Finalizadora && p != Devolucao && t != Baixa && t == PreEntrega)
        && (s == FailedDelivery <==> p != Entrega && p != Finalizadora && p != Devolucao && t != Baixa && t != PreEntrega
                                     && Contains(t, Pendencia) && p == Reentrega)
        && (s == Held <==> p != Entrega && p != Finalizadora && p != Devolucao && t != Baixa && t != PreEntrega
                           && Contains(t, Pendencia) && p != Reentrega)
        && (s == InTransit <==> p != Entrega && p != Finalizadora && p != Devolucao && t != Baixa && t != PreEntrega
                                && !Contains(t, Pendencia))
  {
  }

  /** The mapper compares lower-cased fields, so lower-casing them first changes nothing. */
  lemma MapperIgnoresLowering(o: OccurrenceCode)
    ensures MapOccurrenceTypeToStatus(Some(o.(occType := Lower(o.occType), process := Lower(o.process))))
         == MapOccurrenceTypeToStatus(Some(o))
  {
    LowerIdempotent(o.occType);
    LowerIdempotent(o.process);
  }

  /** Upper-casing the fields changes nothing either, unless they hold a micro sign. */
  lemma MapperIgnoresUppering(o: OccurrenceCode)
    requires forall i :: 0 <= i < |o.occType| ==> o.occType[i] != '\U{B5}'
    requires forall i :: 0 <= i < |o.process| ==> o.process[i] != '\U{B5}'
    ensures MapOccurrenceTypeToStatus(Some(o.(occType := Upper(o.occType), process := Upper(o.process))))
         == MapOccurrenceTypeToStatus(Some(o))
  {
    LowerForgetsUpper(o.occType);
    LowerForgetsUpper(o.process);
  }

  // ---------------------------------------------------------------------------
  // find_occurrence_code

  /** `code["description"].upper() in status_text.upper()` */
  predicate Describes(entry: OccurrenceCode, statusText: string) {
    Contains(Upper(statusText), Upper(entry.description))
  }

  /** The position of the first entry at or after `from` that describes the text. */
  function FirstDescribing(statusText: string, catalog: seq<OccurrenceCode>, from: nat): (r: Option<nat>)
    decreases |catalog| - from
    ensures r.Some? ==> from <= r.value < |catalog| && Describes(catalog[r.value], statusText)
    ensures r.Some? ==> forall k :: from <= k < r.value ==> !Describes(catalog[k], statusText)
    ensures r.None? <==> forall k :: from <= k < |catalog| ==> !Describes(catalog[k], statusText)
  {
    if from >= |catalog| then None
    else if Describes(catalog[from], statusText) then Some(from)
    else FirstDescribing(statusText, catalog, from + 1)
  }

  /** What `find_occurrence_code` returns. */
  function FoundCode(statusText: string, catalog: seq<OccurrenceCode>): Option<OccurrenceCode> {
    match FirstDescribing(statusText, catalog, 0)
    case None => None
    case Some(j) => Some(catalog[j])
  }

  /** The catalog walk with early return. */
  method FindOccurrenceCode(statusText: string, catalog: seq<OccurrenceCode>) returns (found: Option<OccurrenceCode>)
    ensures found == FoundCode(statusText, catalog)
    ensures found.None? <==> forall k :: 0 <= k < |catalog| ==> !Describes(catalog[k], statusText)
    ensures found.Some? ==> exists j ::
      && 0 <= j < |catalog| && found.value == catalog[j] && Describes(catalog[j], statusText)
      && forall k :: 0 <= k < j ==> !Describes(catalog[k], statusText)
  {
    var upperText := Upper(statusText);
    for j := 0 to |catalog|
      invariant forall k :: 0 <= k < j ==> !Describes(catalog[k], statusText)
    {
      if Contains(upperText, Upper(catalog[j].description)) {
        FirstDescribingIs(statusText, catalog, j);
        return Some(catalog[j]);
      }
    }
    return None;
  }

  lemma FirstDescribingIs(statusText: string, catalog: seq<OccurrenceCode>, j: nat)
    requires j < |catalog| && Describes(catalog[j], statusText)
    requires forall k :: 0 <= k < j ==> !Describes(catalog[k], statusText)
    ensures FirstDescribing(statusText, catalog, 0) == Some(j)
  {
  }

  /** The search looks at the upper-cased text only: case does not matter. */
  lemma FindIgnoresCase(statusText: string, catalog: seq<OccurrenceCode>)
    ensures FoundCode(Lower(statusText), catalog) == FoundCode(statusText, catalog)
    ensures FoundCode(Upper(statusText), catalog) == FoundCode(statusText, catalog)
  {
    UpperForgetsLower(statusText);
    UpperIdempotent(statusText);
    SameUpperSameSearch(Lower(statusText), statusText, catalog, 0);
    SameUpperSameSearch(Upper(statusText), statusText, catalog, 0);
  }

  lemma {:induction false} SameUpperSameSearch(a: string, b: string, catalog: seq<OccurrenceCode>, from: nat)
    requires Upper(a) == Upper(b)
    ensures FirstDescribing(a, catalog, from) == FirstDescribing(b, catalog, from)
    decreases |catalog| - from
  {
    if from < |catalog| {
      SameUpperSameSearch(a, b, catalog, from + 1);
    }
  }

  // ---------------------------------------------------------------------------
  // Finalization

  /** The types whose codes finalize a shipment (compared as written, not lower-cased). */
  predicate Finalizes(entry: OccurrenceCode) {
    entry.occType == Entrega || entry.occType == Baixa || entry.occType == PreEntrega
  }

  /** `[code["code"] for code in catalog if code["type"] in finalization_types]` */
  function FinalizationCodes(catalog: seq<OccurrenceCode>): (r: seq<string>)
    ensures |r| <= |catalog|
  {
    if catalog == [] then []
    else
      var init := FinalizationCodes(catalog[..|catalog| - 1]);
      var last := catalog[|catalog| - 1];
      if Finalizes(last) then init + [last.code] else init
  }

  /** A code is listed exactly when some entry of a finalizing type carries it. */
  lemma {:induction false} FinalizationMembership(catalog: seq<OccurrenceCode>, x: string)
    ensures x in FinalizationCodes(catalog) <==>
      exists j :: 0 <= j < |catalog| && catalog[j].code == x && Finalizes(catalog[j])
  {
    if catalog != [] {
      var init := catalog[..|catalog| - 1];
      FinalizationMembership(init, x);
      if exists j :: 0 <= j < |catalog| && catalog[j].code == x && Finalizes(catalog[j]) {
        var j :| 0 <= j < |catalog| && catalog[j].code == x && Finalizes(catalog[j]);
        if j < |init| {
          assert init[j] == catalog[j];
        }
      }
      if exists j :: 0 <= j < |init| && init[j].code == x && Finalizes(init[j]) {
        var j :| 0 <= j < |init| && init[j].code == x && Finalizes(init[j]);
        assert catalog[j] == init[j];
      }
    }
  }

  /** One more entry adds its code exactly when its type finalizes. */
  lemma FinalizationStep(catalog: seq<OccurrenceCode>, k: nat)
    requires k < |catalog|
    ensures FinalizationCodes(catalog[..k + 1])
         == FinalizationCodes(catalog[..k]) + (if Finalizes(catalog[k]) then [catalog[k].code] else [])
  {
    assert catalog[..k + 1][..k] == catalog[..k];
  }
}
