/**
 * The occurrence catalog of the scraping tests and what the catalog helpers
 * make of it.
 */
module StatusExamples {
  import opened Wrappers
  import opened Text
  import opened StatusMapping

  const MockCatalog := [
    OccurrenceCode("1", "mercadoria entregue", "entrega", "entrega"),
    OccurrenceCode("85", "saida para entrega", "informativa", "operacional"),
    OccurrenceCode("84", "chegada na unidade", "informativa", "operacional"),
    OccurrenceCode("82", "saida de unidade", "informativa", "operacional"),
    OccurrenceCode("80", "mercadoria recebida para transporte", "informativa", "operacional"),
    OccurrenceCode("11", "local de entrega fechado/ausente", "pend\U{EA}ncia cliente", "entrega"),
    OccurrenceCode("31", "primeira tentativa de entrega", "pend\U{EA}ncia cliente", "reentrega"),
    OccurrenceCode("99", "ctrc baixado/cancelado", "baixa", "geral"),
    OccurrenceCode("3", "mercadoria devolvida ao remetente", "entrega", "devolu\U{E7}\U{E3}o"),
    OccurrenceCode("2", "mercadoria pre-entregue (mobile)", "pr\U{E9}entrega", "entrega"),
    OccurrenceCode("37", "entrega realizada com ressalva", "pend\U{EA}ncia transportadora", "entrega")
  ]

  /** Codes 1, 99, 3 and 2 finalize; 3 does although its process is a return. */
  lemma MockFinalizationCodes()
    ensures FinalizationCodes(MockCatalog) == ["1", "99", "3", "2"]
  {
    var c := MockCatalog;
    assert c[..0] == [];
    for k := 0 to |c|
      invariant FinalizationCodes(c[..k]) == MockFinalizationPrefix(k)
    {
      FinalizationStep(c, k);
      MockFinalizationGrows(k);
    }
    assert c[..|c|] == c;
  }

  /** Entry k adds its code to the prefix exactly when it finalizes. */
  lemma MockFinalizationGrows(k: nat)
    requires k < |MockCatalog|
    ensures MockFinalizationPrefix(k + 1)
         == MockFinalizationPrefix(k) + (if Finalizes(MockCatalog[k]) then [MockCatalog[k].code] else [])
  {
  }

  /** How the finalization codes grow, entry by entry, over the mock catalog. */
  function MockFinalizationPrefix(k: nat): seq<string> {
    if k < 1 then [] else if k < 8 then ["1"] else if k < 9 then ["1", "99"]
    else if k < 10 then ["1", "99", "3"] else ["1", "99", "3", "2"]
  }

  lemma MockFinalizationCases()
    ensures "1" in FinalizationCodes(MockCatalog) && "3" in FinalizationCodes(MockCatalog)
    ensures "2" in FinalizationCodes(MockCatalog) && "99" in FinalizationCodes(MockCatalog)
    ensures "85" !in FinalizationCodes(MockCatalog) && "80" !in FinalizationCodes(MockCatalog)
    ensures "11" !in FinalizationCodes(MockCatalog)
  {
    MockFinalizationCodes();
  }

  /** The catalog's informative type holds no pending marker. */
  lemma InformativeIsNotPending()
    ensures !Contains(Lower("informativa"), Pendencia)
  {
    assert Lower("informativa") == "informativa";
    assert 'p' in Pendencia;
    MissingCharBlocks("informativa", Pendencia, 'p');
  }

  lemma PendingClientIsPending()
    ensures Lower("pend\U{EA}ncia cliente") == "pend\U{EA}ncia cliente"
    ensures Contains("pend\U{EA}ncia cliente", Pendencia)
  {
    assert OccursAt("pend\U{EA}ncia cliente", Pendencia, 0);
  }

  /** What the mapper makes of every entry of the mock catalog. */
  lemma MockStatusesFirst()
    ensures MapOccurrenceTypeToStatus(Some(MockCatalog[0])) == Delivered
    ensures MapOccurrenceTypeToStatus(Some(MockCatalog[1])) == InTransit
    ensures MapOccurrenceTypeToStatus(Some(MockCatalog[2])) == InTransit
    ensures MapOccurrenceTypeToStatus(Some(MockCatalog[3])) == InTransit
    ensures MapOccurrenceTypeToStatus(Some(MockCatalog[4])) == InTransit
    ensures MapOccurrenceTypeToStatus(Some(MockCatalog[5])) == Delivered
  {
    InformativeIsNotPending();
    PendingClientIsPending();
  }

  lemma MockStatusesRest()
    ensures MapOccurrenceTypeToStatus(Some(MockCatalog[6])) == FailedDelivery
    ensures MapOccurrenceTypeToStatus(Some(MockCatalog[7])) == Cancelled
    ensures MapOccurrenceTypeToStatus(Some(MockCatalog[8])) == Returned
    ensures MapOccurrenceTypeToStatus(Some(MockCatalog[9])) == Delivered
    ensures MapOccurrenceTypeToStatus(Some(MockCatalog[10])) == Delivered
  {
    PendingClientIsPending();
    assert Lower("reentrega") == Reentrega;
    assert MockCatalog[6].occType == "pend\U{EA}ncia cliente";
  }

  /** An empty occurrence dictionary defaults to in transit. */
  lemma EmptyOccurrenceInTransit()
    ensures MapOccurrenceTypeToStatus(None) == InTransit
    ensures MapOccurrenceTypeToStatus(None).Name() == "in_transit"
  {
  }

  /** A lower-case a in a description upper-cases to an A. */
  lemma HoldsA(d: string, i: nat)
    requires i < |d| && d[i] == 'a'
    ensures 'A' in Upper(d)
  {
    assert Upper(d)[i] == 'A';
  }

  /** Where each description has an a. */
  const APositions: seq<nat> := [4, 1, 4, 1, 4, 3, 7, 6, 4, 4, 6]

  lemma APositionHoldsA(k: nat)
    requires k < 11
    ensures APositions[k] < |MockCatalog[k].description| && MockCatalog[k].description[APositions[k]] == 'a'
  {
    if k < 6 {
      APositionHoldsAFirst(k);
    } else {
      APositionHoldsARest(k);
    }
  }

  lemma APositionHoldsAFirst(k: nat)
    requires k < 6
    ensures APositions[k] < |MockCatalog[k].description| && MockCatalog[k].description[APositions[k]] == 'a'
  {
  }

  lemma APositionHoldsARest(k: nat)
    requires 6 <= k < 11
    ensures APositions[k] < |MockCatalog[k].description| && MockCatalog[k].description[APositions[k]] == 'a'
  {
  }

  /** Every description of the mock catalog holds an A. */
  lemma MockDescriptionsHoldA()
    ensures forall k :: 0 <= k < |MockCatalog| ==> 'A' in Upper(MockCatalog[k].description)
  {
    forall k | 0 <= k < |MockCatalog|
      ensures 'A' in Upper(MockCatalog[k].description)
    {
      APositionHoldsA(k);
      HoldsA(MockCatalog[k].description, APositions[k]);
    }
  }

  /** Text without an A matches no entry: "EVENTO DESCONHECIDO" finds nothing. */
  lemma UnknownTextNotFound()
    ensures FoundCode("EVENTO DESCONHECIDO", MockCatalog) == None
  {
    var upper := Upper("EVENTO DESCONHECIDO");
    assert upper == "EVENTO DESCONHECIDO";
    assert 'A' !in upper;
    MockDescriptionsHoldA();
    forall k | 0 <= k < |MockCatalog|
      ensures !Describes(MockCatalog[k], "EVENTO DESCONHECIDO")
    {
      MissingCharBlocks(upper, Upper(MockCatalog[k].description), 'A');
    }
  }

  lemma DeliveredDescriptionUpper()
    ensures Upper(MockCatalog[0].description) == "MERCADORIA ENTREGUE"
  {
  }

  /** A text whose upper-casing starts with the first entry's description finds that entry. */
  lemma FirstEntryFound(statusText: string)
    requires |statusText| >= 19 && Upper(statusText)[..19] == "MERCADORIA ENTREGUE"
    ensures FoundCode(statusText, MockCatalog) == Some(MockCatalog[0])
  {
    DeliveredDescriptionUpper();
    assert OccursAt(Upper(statusText), Upper(MockCatalog[0].description), 0);
    FirstDescribingIs(statusText, MockCatalog, 0);
  }

  /** The upper-casing of a text starts with `p` when its first characters upper-case to those of `p`. */
  lemma UpperStartsWith(t: string, p: string)
    requires |p| <= |t| && forall i :: 0 <= i < |p| ==> UpperChar(t[i]) == p[i]
    ensures Upper(t)[..|p|] == p
  {
  }

  /**
   * Any casing of "mercadoria entregue" at the start of the text finds code
   * 1: the lower-case, upper-case and mixed-case texts of the tests alike.
   */
  lemma FindAnyCase(t: string, d: string)
    requires d == "MERCADORIA ENTREGUE"
    requires |d| <= |t| && forall i :: 0 <= i < |d| ==> UpperChar(t[i]) == d[i]
    ensures FoundCode(t, MockCatalog) == Some(MockCatalog[0])
  {
    UpperStartsWith(t, d);
    FirstEntryFound(t);
  }

  /** The text with the site's suffix finds code 1 as well. */
  lemma FindWithSuffix(t: string)
    requires t == "MERCADORIA ENTREGUE (SSW WebAPI Parceiro)."
    ensures FoundCode(t, MockCatalog) == Some(MockCatalog[0])
    ensures MockCatalog[0].code == "1"
  {
    UpperStartsWith(t, "MERCADORIA ENTREGUE");
    FirstEntryFound(t);
  }

  /** An entry whose upper-cased description holds a letter the upper-cased text lacks does not describe it. */
  lemma SkippedEntry(statusText: string, upper: string, k: nat, i: nat, c: char)
    requires k < |MockCatalog| && Upper(statusText) == upper
    requires i < |MockCatalog[k].description| && Upper(MockCatalog[k].description)[i] == c && c !in upper
    ensures !Describes(MockCatalog[k], statusText)
  {
    MissingCharBlocks(upper, Upper(MockCatalog[k].description), c);
  }

  lemma UpperSaidaParaEntrega()
    ensures Upper("saida para entrega") == "SAIDA PARA ENTREGA"
  {
  }

  lemma SkipsSaidaParaEntrega()
    ensures forall k :: 0 <= k < 1 ==> !Describes(MockCatalog[k], "saida para entrega")
  {
    UpperSaidaParaEntrega();
    SkippedEntry("saida para entrega", "SAIDA PARA ENTREGA", 0, 0, 'M');
  }

  /** "saida para entrega" finds entry 1, the informative departure. */
  lemma FindSaidaParaEntrega()
    ensures FoundCode("saida para entrega", MockCatalog) == Some(MockCatalog[1])
    ensures MapOccurrenceTypeToStatus(FoundCode("saida para entrega", MockCatalog)) == InTransit
  {
    UpperSaidaParaEntrega();
    SkipsSaidaParaEntrega();
    assert Upper(MockCatalog[1].description) == Upper("saida para entrega");
    assert OccursAt(Upper("saida para entrega"), Upper(MockCatalog[1].description), 0);
    FirstDescribingIs("saida para entrega", MockCatalog, 1);
    MockStatusesFirst();
  }

  lemma UpperLocalFechado()
    ensures Upper("local de entrega fechado/ausente") == "LOCAL DE ENTREGA FECHADO/AUSENTE"
  {
    UpperIs("local de entrega fechado/ausente", "LOCAL DE ENTREGA FECHADO/AUSENTE");
  }

  lemma SkipsLocalFechadoFirst()
    ensures !Describes(MockCatalog[0], "local de entrega fechado/ausente")
  {
    UpperLocalFechado();
    SkippedEntry("local de entrega fechado/ausente", "LOCAL DE ENTREGA FECHADO/AUSENTE", 0, 0, 'M');
  }

  lemma SkipsLocalFechadoSecond()
    ensures !Describes(MockCatalog[1], "local de entrega fechado/ausente")
  {
    UpperLocalFechado();
    SkippedEntry("local de entrega fechado/ausente", "LOCAL DE ENTREGA FECHADO/AUSENTE", 1, 2, 'I');
  }

  lemma SkipsLocalFechadoMiddle()
    ensures !Describes(MockCatalog[2], "local de entrega fechado/ausente")
    ensures !Describes(MockCatalog[3], "local de entrega fechado/ausente")
  {
    UpperLocalFechado();
    SkippedEntry("local de entrega fechado/ausente", "LOCAL DE ENTREGA FECHADO/AUSENTE", 2, 13, 'I');
    SkippedEntry("local de entrega fechado/ausente", "LOCAL DE ENTREGA FECHADO/AUSENTE", 3, 2, 'I');
  }

  lemma SkipsLocalFechadoTail()
    ensures !Describes(MockCatalog[4], "local de entrega fechado/ausente")
  {
    UpperLocalFechado();
    SkippedEntry("local de entrega fechado/ausente", "LOCAL DE ENTREGA FECHADO/AUSENTE", 4, 0, 'M');
  }

  /** "local de entrega fechado/ausente" finds entry 5, a pending-client type whose process is a delivery. */
  lemma FindLocalFechado()
    ensures FoundCode("local de entrega fechado/ausente", MockCatalog) == Some(MockCatalog[5])
    ensures MapOccurrenceTypeToStatus(FoundCode("local de entrega fechado/ausente", MockCatalog)) == Delivered
  {
    UpperLocalFechado();
    SkipsLocalFechadoFirst();
    SkipsLocalFechadoSecond();
    SkipsLocalFechadoMiddle();
    SkipsLocalFechadoTail();
    assert Upper(MockCatalog[5].description) == Upper("local de entrega fechado/ausente");
    assert OccursAt(Upper("local de entrega fechado/ausente"), Upper(MockCatalog[5].description), 0);
    FirstDescribingIs("local de entrega fechado/ausente", MockCatalog, 5);
    MockStatusesFirst();
  }
}
