/**
 * The four cases of the scored matcher's test (test_scraping.py,
 * test_occurrence_code_matching) over its three-entry catalog: each status
 * text, cleaned and upper-cased, has the expected entry as its unique best
 * match, and the matcher returns that entry's code.
 */
module CodeMatcherExamples {
  import opened Wrappers
  import opened Text
  import opened StatusMapping
  import opened CodeMatcher

  const TestCatalog: seq<OccurrenceCode> := [
    OccurrenceCode("1", "mercadoria entregue", "entrega", "entrega"),
    OccurrenceCode("37", "entrega realizada com ressalva", "pend\U{EA}ncia transportadora", "entrega"),
    OccurrenceCode("85", "saida para entrega", "informativa", "operacional")
  ]

  const Suffix := "SSW WebAPI"

  // The cleaned, upper-cased status texts and the upper-cased descriptions.
  const Ressalva := "ENTREGA REALIZADA COM RESSALVA"
  const Partial := "ENTREGA REALIZADA"
  const Normal := "ENTREGA REALIZADA NORMALMENTE"
  const Mercadoria := "MERCADORIA ENTREGUE"
  const Saida := "SAIDA PARA ENTREGA"
  lemma Upper0(d: string)
    requires d == TestCatalog[0].description
    ensures Upper(d) == Mercadoria
  {
    UpperIs(d, Mercadoria);
  }

  lemma Upper1(d: string)
    requires d == TestCatalog[1].description
    ensures Upper(d) == Ressalva
  {
    UpperIs(d, Ressalva);
  }

  lemma Upper2(d: string)
    requires d == TestCatalog[2].description
    ensures Upper(d) == Saida
  {
    UpperIs(d, Saida);
  }

  /** A text followed by " (SSW WebAPI)" cleans to the text. */
  lemma CleanSuffixed(c: string, t: string)
    requires c != [] && !IsSpace(c[0]) && !IsSpace(c[|c| - 1])
    requires forall i :: 0 <= i < |c| ==> c[i] != '('
    requires t == c + " (" + Suffix + ")"
    ensures Clean(t) == c
  {
    assert t == c + " " + "(" + Suffix + ")" + "";
    CleanStripsParenthetical(c, " ", Suffix, "");
  }

  lemma CleanRessalva(t: string)
    requires t == Ressalva + " (" + Suffix + ")"
    ensures Clean(t) == Ressalva
  {
    CleanSuffixed(Ressalva, t);
  }

  lemma CleanPartial(t: string)
    requires t == Partial + " (" + Suffix + ")"
    ensures Clean(t) == Partial
  {
    CleanSuffixed(Partial, t);
  }

  lemma CleanNormal(t: string)
    requires t == Normal + " (" + Suffix + ")"
    ensures Clean(t) == Normal
  {
    CleanSuffixed(Normal, t);
  }

  lemma CleanMercadoria(t: string)
    requires t == Mercadoria + " (" + Suffix + ")"
    ensures Clean(t) == Mercadoria
  {
    CleanSuffixed(Mercadoria, t);
  }

  lemma UpperRessalva() ensures Upper(Ressalva) == Ressalva {}
  lemma UpperPartial() ensures Upper(Partial) == Partial {}
  lemma UpperNormal() ensures Upper(Normal) == Normal {}
  lemma UpperMercadoria() ensures Upper(Mercadoria) == Mercadoria {}

  /** A needle longer than the haystack is not in it. */
  lemma TooLong(hay: string, needle: string)
    requires |needle| > |hay|
    ensures !Contains(hay, needle)
  {
  }

  lemma OverlapOnly(statusUpper: string, description: string, du: string)
    requires Upper(description) == du
    requires !Contains(statusUpper, du) && !Contains(du, statusUpper)
    ensures Score(statusUpper, description) <= |statusUpper|
  {
    ScoreLevels(statusUpper, description);
  }

  lemma HoldsAll(statusUpper: string, description: string, du: string)
    requires Upper(description) == du && OccursAt(statusUpper, du, 0)
    ensures Score(statusUpper, description) == 100 * |du|
  {
    ScoreLevels(statusUpper, description);
  }

  /** In a three-entry catalog, an entry scoring above zero and above both others is the match. */
  lemma BestOfThree(catalog: seq<OccurrenceCode>, statusUpper: string, w: nat, s0: nat, s1: nat, s2: nat)
    requires |catalog| == 3 && w < 3
    requires Score(statusUpper, catalog[0].description) == s0
    requires Score(statusUpper, catalog[1].description) == s1
    requires Score(statusUpper, catalog[2].description) == s2
    requires w == 0 ==> 0 < s0 && s1 < s0 && s2 < s0
    requires w == 1 ==> 0 < s1 && s0 < s1 && s2 < s1
    requires w == 2 ==> 0 < s2 && s0 < s2 && s1 < s2
    ensures IsBestMatch(catalog, statusUpper, w)
  {
    var scores := [s0, s1, s2];
    assert Score(statusUpper, catalog[w].description) == scores[w] > 0;
    forall i | 0 <= i < |catalog|
      ensures Score(statusUpper, catalog[i].description) == scores[i]
      ensures i != w ==> scores[i] < scores[w]
    {
    }
  }

  // ---------------------------------------------------------------------------
  // "ENTREGA REALIZADA COM RESSALVA (SSW WebAPI)": the text is the description.

  lemma RessalvaScore1(su: string, d: string)
    requires su == Ressalva && d == TestCatalog[1].description
    ensures Score(su, d) == 3000
  {
    Upper1(d);
    assert OccursAt(su, Ressalva, 0);
    HoldsAll(su, d, Ressalva);
  }

  lemma RessalvaScore0(su: string, d: string)
    requires su == Ressalva && d == TestCatalog[0].description
    ensures Score(su, d) <= 30
  {
    Upper0(d);
    MissingCharAt(su, Mercadoria, 17);
    TooLong(Mercadoria, su);
    OverlapOnly(su, d, Mercadoria);
  }

  lemma RessalvaScore2(su: string, d: string)
    requires su == Ressalva && d == TestCatalog[2].description
    ensures Score(su, d) <= 30
  {
    Upper2(d);
    MissingCharAt(su, Saida, 6);
    TooLong(Saida, su);
    OverlapOnly(su, d, Saida);
  }

  lemma RessalvaBest(catalog: seq<OccurrenceCode>, su: string)
    requires catalog == TestCatalog && su == Ressalva
    ensures IsBestMatch(catalog, su, 1)
  {
    RessalvaScore0(su, catalog[0].description);
    RessalvaScore1(su, catalog[1].description);
    RessalvaScore2(su, catalog[2].description);
    BestOfThree(catalog, su, 1, Score(su, catalog[0].description), Score(su, catalog[1].description),
      Score(su, catalog[2].description));
  }

  lemma RessalvaMatch(t: string)
    requires t == Ressalva + " (" + Suffix + ")"
    ensures IsBestMatch(TestCatalog, Upper(Clean(t)), 1)
  {
    CleanRessalva(t);
    UpperRessalva();
    RessalvaBest(TestCatalog, Upper(Clean(t)));
  }

  // ---------------------------------------------------------------------------
  // "ENTREGA REALIZADA (SSW WebAPI)": the text is part of the description.

  lemma PartialScore1(su: string, d: string)
    requires su == Partial && d == TestCatalog[1].description
    ensures Score(su, d) == 1700
  {
    Upper1(d);
    assert OccursAt(Ressalva, su, 0);
    TooLong(su, Ressalva);
    ScoreLevels(su, d);
  }

  lemma PartialScore0(su: string, d: string)
    requires su == Partial && d == TestCatalog[0].description
    ensures Score(su, d) <= 17
  {
    Upper0(d);
    MissingCharAt(su, Mercadoria, 0);
    MissingCharAt(Mercadoria, su, 11);
    OverlapOnly(su, d, Mercadoria);
  }

  lemma PartialScore2(su: string, d: string)
    requires su == Partial && d == TestCatalog[2].description
    ensures Score(su, d) <= 17
  {
    Upper2(d);
    MissingCharAt(su, Saida, 6);
    MissingCharAt(Saida, su, 11);
    OverlapOnly(su, d, Saida);
  }

  lemma PartialBest(catalog: seq<OccurrenceCode>, su: string)
    requires catalog == TestCatalog && su == Partial
    ensures IsBestMatch(catalog, su, 1)
  {
    PartialScore0(su, catalog[0].description);
    PartialScore1(su, catalog[1].description);
    PartialScore2(su, catalog[2].description);
    BestOfThree(catalog, su, 1, Score(su, catalog[0].description), Score(su, catalog[1].description),
      Score(su, catalog[2].description));
  }

  lemma PartialMatch(t: string)
    requires t == Partial + " (" + Suffix + ")"
    ensures IsBestMatch(TestCatalog, Upper(Clean(t)), 1)
  {
    CleanPartial(t);
    UpperPartial();
    PartialBest(TestCatalog, Upper(Clean(t)));
  }

  // ---------------------------------------------------------------------------
  // "ENTREGA REALIZADA NORMALMENTE (SSW WebAPI)": shared keywords, 16 against 0 and 7.

  lemma TwoWords(a: string, b: string, s: string)
    requires IsWord(a) && IsWord(b) && s == a + " " + b
    ensures WordTokens(s) == [a, b]
  {
    WordThenRest(a, b);
    WordIsOneToken(b);
  }

  lemma ThreeWords(a: string, b: string, c: string, s: string)
    requires IsWord(a) && IsWord(b) && IsWord(c) && s == a + " " + b + " " + c
    ensures WordTokens(s) == [a, b, c]
  {
    assert s == a + " " + (b + " " + c);
    WordThenRest(a, b + " " + c);
    TwoWords(b, c, b + " " + c);
  }

  lemma FourWords(a: string, b: string, c: string, d: string, s: string)
    requires IsWord(a) && IsWord(b) && IsWord(c) && IsWord(d) && s == a + " " + b + " " + c + " " + d
    ensures WordTokens(s) == [a, b, c, d]
  {
    assert s == a + " " + (b + " " + c + " " + d);
    WordThenRest(a, b + " " + c + " " + d);
    ThreeWords(b, c, d, b + " " + c + " " + d);
  }

  lemma NormalTokens(s: string)
    requires s == Normal
    ensures WordTokens(s) == ["ENTREGA", "REALIZADA", "NORMALMENTE"]
  {
    NormalSpelled(s);
    NormalWords();
    ThreeWords("ENTREGA", "REALIZADA", "NORMALMENTE", s);
  }

  lemma NormalSpelled(s: string)
    requires s == Normal
    ensures s == "ENTREGA" + " " + "REALIZADA" + " " + "NORMALMENTE"
  {
  }

  lemma NormalWords()
    ensures IsWord("ENTREGA") && IsWord("REALIZADA") && IsWord("NORMALMENTE")
  {
  }

  lemma RessalvaTokens(s: string)
    requires s == Ressalva
    ensures WordTokens(s) == ["ENTREGA", "REALIZADA", "COM", "RESSALVA"]
  {
    RessalvaSpelled(s);
    RessalvaWords();
    FourWords("ENTREGA", "REALIZADA", "COM", "RESSALVA", s);
  }

  lemma RessalvaSpelled(s: string)
    requires s == Ressalva
    ensures s == "ENTREGA" + " " + "REALIZADA" + " " + "COM" + " " + "RESSALVA"
  {
  }

  lemma RessalvaWords()
    ensures IsWord("ENTREGA") && IsWord("REALIZADA") && IsWord("COM") && IsWord("RESSALVA")
  {
  }

  lemma MercadoriaTokens(s: string)
    requires s == Mercadoria
    ensures WordTokens(s) == ["MERCADORIA", "ENTREGUE"]
  {
    TwoWords("MERCADORIA", "ENTREGUE", s);
  }

  lemma SaidaTokens(s: string)
    requires s == Saida
    ensures WordTokens(s) == ["SAIDA", "PARA", "ENTREGA"]
  {
    ThreeWords("SAIDA", "PARA", "ENTREGA", s);
  }

  /** One step of collecting the common keywords. */
  lemma CommonStep(tokens: seq<string>, keys: set<string>, seen: set<string>)
    requires tokens != []
    ensures var w := tokens[0];
      CommonWords(tokens, keys, seen) ==
        if w !in StopWords && w in keys && w !in seen then [w] + CommonWords(tokens[1..], keys, seen + {w})
        else CommonWords(tokens[1..], keys, seen)
  {
  }

  /** Of three tokens, the first two are distinct keywords of the description and the third is not one. */
  lemma FirstTwoShared(tokens: seq<string>, keys: set<string>)
    requires |tokens| == 3 && tokens[0] != tokens[1]
    requires tokens[0] !in StopWords && tokens[0] in keys
    requires tokens[1] !in StopWords && tokens[1] in keys
    requires tokens[2] !in keys
    ensures CommonWords(tokens, keys, {}) == [tokens[0], tokens[1]]
  {
    CommonStep(tokens, keys, {});
    CommonStep(tokens[1..], keys, {tokens[0]});
    CommonStep(tokens[2..], keys, {tokens[0]} + {tokens[1]});
    assert tokens[1..][1..] == tokens[2..] && tokens[2..][1..] == [];
    assert {} + {tokens[0]} == {tokens[0]};
  }

  /** Of three tokens, only the first is a keyword of the description. */
  lemma FirstShared(tokens: seq<string>, keys: set<string>)
    requires |tokens| == 3
    requires tokens[0] !in StopWords && tokens[0] in keys
    requires tokens[1] !in keys && tokens[2] !in keys
    ensures CommonWords(tokens, keys, {}) == [tokens[0]]
  {
    CommonStep(tokens, keys, {});
    CommonStep(tokens[1..], keys, {tokens[0]});
    CommonStep(tokens[2..], keys, {tokens[0]});
    assert tokens[1..][1..] == tokens[2..] && tokens[2..][1..] == [];
    assert {} + {tokens[0]} == {tokens[0]};
  }

  /** None of three tokens is a keyword of the description. */
  lemma NoneShared(tokens: seq<string>, keys: set<string>)
    requires |tokens| == 3
    requires tokens[0] !in keys && tokens[1] !in keys && tokens[2] !in keys
    ensures CommonWords(tokens, keys, {}) == []
  {
    CommonStep(tokens, keys, {});
    CommonStep(tokens[1..], keys, {});
    CommonStep(tokens[2..], keys, {});
    assert tokens[1..][1..] == tokens[2..] && tokens[2..][1..] == [];
  }

  lemma KeysOfRessalva(du: string)
    requires WordTokens(du) == ["ENTREGA", "REALIZADA", "COM", "RESSALVA"]
    ensures "ENTREGA" in Keywords(du) && "REALIZADA" in Keywords(du) && "NORMALMENTE" !in Keywords(du)
  {
  }

  lemma KeysOfMercadoria(du: string)
    requires WordTokens(du) == ["MERCADORIA", "ENTREGUE"]
    ensures "ENTREGA" !in Keywords(du) && "REALIZADA" !in Keywords(du) && "NORMALMENTE" !in Keywords(du)
  {
  }

  lemma KeysOfSaida(du: string)
    requires WordTokens(du) == ["SAIDA", "PARA", "ENTREGA"]
    ensures "ENTREGA" in Keywords(du) && "REALIZADA" !in Keywords(du) && "NORMALMENTE" !in Keywords(du)
  {
  }

  lemma OverlapRessalva(su: string, du: string)
    requires WordTokens(su) == ["ENTREGA", "REALIZADA", "NORMALMENTE"]
    requires WordTokens(du) == ["ENTREGA", "REALIZADA", "COM", "RESSALVA"]
    ensures Overlap(su, du) == 16
  {
    KeysOfRessalva(du);
    FirstTwoShared(WordTokens(su), Keywords(du));
    assert SumLengths(["ENTREGA", "REALIZADA"]) == 16;
  }

  lemma OverlapMercadoria(su: string, du: string)
    requires WordTokens(su) == ["ENTREGA", "REALIZADA", "NORMALMENTE"]
    requires WordTokens(du) == ["MERCADORIA", "ENTREGUE"]
    ensures Overlap(su, du) == 0
  {
    KeysOfMercadoria(du);
    NoneShared(WordTokens(su), Keywords(du));
  }

  lemma OverlapSaida(su: string, du: string)
    requires WordTokens(su) == ["ENTREGA", "REALIZADA", "NORMALMENTE"]
    requires WordTokens(du) == ["SAIDA", "PARA", "ENTREGA"]
    ensures Overlap(su, du) == 7
  {
    KeysOfSaida(du);
    FirstShared(WordTokens(su), Keywords(du));
    assert SumLengths(["ENTREGA"]) == 7;
  }

  /** "NO" of NORMALMENTE is nowhere in the description with code 37. */
  lemma NormalNotInRessalva(su: string, du: string)
    requires su == Normal && du == Ressalva
    ensures !Contains(du, su)
  {
    forall j: nat
      ensures !OccursAt(du, "NO", j)
    {
      OccursAtPair(du, "NO", j);
    }
    assert OccursAt(su, "NO", 18);
    MissingPartBlocks(du, su, "NO");
  }

  lemma NormalScore1(su: string, d: string)
    requires su == Normal && d == TestCatalog[1].description
    ensures Score(su, d) == 16
  {
    Upper1(d);
    MissingCharAt(su, Ressalva, 24);
    NormalNotInRessalva(su, Ressalva);
    NormalTokens(su);
    RessalvaTokens(Ressalva);
    OverlapRessalva(su, Ressalva);
  }

  lemma NormalScore0(su: string, d: string)
    requires su == Normal && d == TestCatalog[0].description
    ensures Score(su, d) == 0
  {
    Upper0(d);
    MissingCharAt(su, Mercadoria, 17);
    TooLong(Mercadoria, su);
    NormalTokens(su);
    MercadoriaTokens(Mercadoria);
    OverlapMercadoria(su, Mercadoria);
  }

  lemma NormalScore2(su: string, d: string)
    requires su == Normal && d == TestCatalog[2].description
    ensures Score(su, d) == 7
  {
    Upper2(d);
    MissingCharAt(su, Saida, 0);
    TooLong(Saida, su);
    NormalTokens(su);
    SaidaTokens(Saida);
    OverlapSaida(su, Saida);
  }

  lemma NormalBest(catalog: seq<OccurrenceCode>, su: string)
    requires catalog == TestCatalog && su == Normal
    ensures IsBestMatch(catalog, su, 1)
  {
    NormalScore0(su, catalog[0].description);
    NormalScore1(su, catalog[1].description);
    NormalScore2(su, catalog[2].description);
    BestOfThree(catalog, su, 1, Score(su, catalog[0].description), Score(su, catalog[1].description),
      Score(su, catalog[2].description));
  }

  lemma NormalMatch(t: string)
    requires t == Normal + " (" + Suffix + ")"
    ensures IsBestMatch(TestCatalog, Upper(Clean(t)), 1)
  {
    CleanNormal(t);
    UpperNormal();
    NormalBest(TestCatalog, Upper(Clean(t)));
  }

  // ---------------------------------------------------------------------------
  // "MERCADORIA ENTREGUE (SSW WebAPI)": the text is the description with code 1.

  lemma MercadoriaScore0(su: string, d: string)
    requires su == Mercadoria && d == TestCatalog[0].description
    ensures Score(su, d) == 1900
  {
    Upper0(d);
    assert OccursAt(su, Mercadoria, 0);
    HoldsAll(su, d, Mercadoria);
  }

  lemma MercadoriaScore1(su: string, d: string)
    requires su == Mercadoria && d == TestCatalog[1].description
    ensures Score(su, d) <= 19
  {
    Upper1(d);
    TooLong(su, Ressalva);
    MissingCharAt(Ressalva, su, 17);
    OverlapOnly(su, d, Ressalva);
  }

  lemma MercadoriaScore2(su: string, d: string)
    requires su == Mercadoria && d == TestCatalog[2].description
    ensures Score(su, d) <= 19
  {
    Upper2(d);
    MissingCharAt(su, Saida, 0);
    TooLong(Saida, su);
    OverlapOnly(su, d, Saida);
  }

  lemma MercadoriaBest(catalog: seq<OccurrenceCode>, su: string)
    requires catalog == TestCatalog && su == Mercadoria
    ensures IsBestMatch(catalog, su, 0)
  {
    MercadoriaScore0(su, catalog[0].description);
    MercadoriaScore1(su, catalog[1].description);
    MercadoriaScore2(su, catalog[2].description);
    BestOfThree(catalog, su, 0, Score(su, catalog[0].description), Score(su, catalog[1].description),
      Score(su, catalog[2].description));
  }

  lemma MercadoriaMatch(t: string)
    requires t == Mercadoria + " (" + Suffix + ")"
    ensures IsBestMatch(TestCatalog, Upper(Clean(t)), 0)
  {
    CleanMercadoria(t);
    UpperMercadoria();
    MercadoriaBest(TestCatalog, Upper(Clean(t)));
  }
  // ---------------------------------------------------------------------------
  // The matcher on the four cases

  /** The code the matcher assigns when entry `w` is the unique best match. */
  method MatchedCode(statusText: string, w: nat) returns (code: Option<string>)
    requires IsBestMatch(TestCatalog, Upper(Clean(statusText)), w)
    ensures code == Some(TestCatalog[w].code)
  {
    var best, _ := MatchOccurrenceCode(statusText, TestCatalog);
    var v: nat :| IsBestMatch(TestCatalog, Upper(Clean(statusText)), v) && best.value == TestCatalog[v];
    BestMatchUnique(TestCatalog, Upper(Clean(statusText)), v, w);
    code := Some(best.value.code);
  }

  /** The matcher gives codes 37, 37, 37 and 1, as the test expects. */
  method MatchTestCases() returns (codes: seq<Option<string>>)
    ensures codes == [Some("37"), Some("37"), Some("37"), Some("1")]
  {
    var t1 := Ressalva + " (" + Suffix + ")";
    var t2 := Partial + " (" + Suffix + ")";
    var t3 := Normal + " (" + Suffix + ")";
    var t4 := Mercadoria + " (" + Suffix + ")";
    RessalvaMatch(t1);
    PartialMatch(t2);
    NormalMatch(t3);
    MercadoriaMatch(t4);
    var c1 := MatchedCode(t1, 1);
    var c2 := MatchedCode(t2, 1);
    var c3 := MatchedCode(t3, 1);
    var c4 := MatchedCode(t4, 0);
    codes := [c1, c2, c3, c4];
  }
}
