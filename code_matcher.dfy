/**
 * The scored occurrence-code matcher of the scraping tests (test_scraping.py,
 * test_occurrence_code_matching): the status text loses a trailing
 * parenthetical, is upper-cased, and every catalog entry, longest
 * description first, is scored by containment or by shared keywords; an
 * entry replaces the best one so far only with a strictly higher score.
 */
module CodeMatcher {
  import opened Wrappers
  import opened Text
  import opened StatusMapping

  // ---------------------------------------------------------------------------
  // Cleaning: re.sub(r'\s*\(.*?\)\s*\.?$', '', text).strip()

  predicate NoNewline(s: string) {
    forall i :: 0 <= i < |s| ==> s[i] != '\n'
  }

  /**
   * What may follow the closing parenthesis up to the end: whitespace, then
   * an optional full stop, then the end or one final line break (where `$`
   * also matches).
   */
  predicate EndsAfterParen(t: string) {
    || AllSpace(t)
    || (|t| >= 1 && t[|t| - 1] == '.' && AllSpace(t[..|t| - 1]))
    || (|t| >= 2 && t[|t| - 2] == '.' && t[|t| - 1] == '\n' && AllSpace(t[..|t| - 2]))
  }

  /**
   * An opening parenthesis at `p` starts a parenthetical that the pattern
   * removes: a closing one follows on the same line, and after it only what
   * `EndsAfterParen` allows.
   */
  predicate ParenTailAt(s: string, p: nat) {
    && p < |s| && s[p] == '('
    && exists q :: p < q < |s| && s[q] == ')' && NoNewline(s[p + 1..q]) && EndsAfterParen(s[q + 1..])
  }

  /**
   * The cleaned status text. The leftmost match of the pattern starts at the
   * whitespace before the leftmost removable parenthetical and runs to the
   * end (what it may leave is whitespace), so the result is the stripped
   * text before that parenthesis.
   */
  function Clean(statusText: string): string {
    match FirstMatch(statusText, ParenTailAt, 0)
    case None => Strip(statusText)
    case Some(p) => Strip(statusText[..p])
  }

  /**
   * A text, whitespace, a one-line parenthetical and a tail of whitespace and
   * at most a full stop cleans to the text, whatever the parenthetical holds.
   */
  lemma CleanStripsParenthetical(a: string, w: string, m: string, t: string)
    requires a == [] || (!IsSpace(a[0]) && !IsSpace(a[|a| - 1]))
    requires forall i :: 0 <= i < |a| ==> a[i] != '('
    requires AllSpace(w) && NoNewline(m) && EndsAfterParen(t)
    ensures Clean(a + w + "(" + m + ")" + t) == a
  {
    var s := a + w + "(" + m + ")" + t;
    var p := |a| + |w|;
    var q := p + 1 + |m|;
    assert s[p] == '(' && s[q] == ')';
    assert s[p + 1..q] == m;
    assert s[q + 1..] == t;
    assert ParenTailAt(s, p);
    assert forall i: nat :: i < p ==> s[i] != '(' by {
      assert forall i :: 0 <= i < |a| ==> s[i] == a[i];
      assert forall i :: |a| <= i < p ==> s[i] == w[i - |a|];
    }
    FirstMatchIs(s, ParenTailAt, 0, p);
    assert s[..p] == a + w;
    StripTrailingSpace(a, w);
  }

  /** Without a removable parenthetical the text is only stripped. */
  lemma CleanWithoutParen(statusText: string)
    requires forall p: nat :: !ParenTailAt(statusText, p)
    ensures Clean(statusText) == Strip(statusText)
  {
  }

  // ---------------------------------------------------------------------------
  // Keywords and scores

  /** The ignored words of the matcher. */
  const StopWords: set<string> := {"DE", "DA", "DO", "PARA", "COM", "SEM", "POR", "AO", "A", "O", "E"}

  /** `set(re.findall(r'\b\w+\b', text)) - ignore_words` */
  function Keywords(text: string): set<string> {
    set w | w in WordTokens(text) && w !in StopWords
  }

  /**
   * The tokens, left to right, that are keywords of the description and not
   * yet seen, each kept once: the common keywords as a list with no repeats.
   */
  function CommonWords(tokens: seq<string>, descKeys: set<string>, seen: set<string>): (r: seq<string>)
    ensures forall k :: 0 <= k < |r| ==> r[k] !in seen
    ensures forall k, l :: 0 <= k < l < |r| ==> r[k] != r[l]
    ensures forall w :: w in r <==> w in tokens && w !in StopWords && w in descKeys && w !in seen
  {
    if tokens == [] then []
    else
      var w := tokens[0];
      if w !in StopWords && w in descKeys && w !in seen then
        [w] + CommonWords(tokens[1..], descKeys, seen + {w})
      else CommonWords(tokens[1..], descKeys, seen)
  }

  /** The sum of the lengths of the keywords the status and the description share. */
  function Overlap(statusUpper: string, descUpper: string): nat {
    SumLengths(CommonWords(WordTokens(statusUpper), Keywords(descUpper), {}))
  }

  /** The shared keywords are exactly the intersection of the two keyword sets, with no repeats. */
  lemma OverlapCountsTheIntersection(statusUpper: string, descUpper: string)
    ensures var common := CommonWords(WordTokens(statusUpper), Keywords(descUpper), {});
      && (forall w :: w in common <==> w in Keywords(statusUpper) * Keywords(descUpper))
      && (forall k, l :: 0 <= k < l < |common| ==> common[k] != common[l])
  {
  }

  /** Keeping some of the tokens keeps at most their total length. */
  lemma {:induction false} CommonWordsFit(tokens: seq<string>, descKeys: set<string>, seen: set<string>)
    ensures SumLengths(CommonWords(tokens, descKeys, seen)) <= SumLengths(tokens)
    decreases |tokens|
  {
    if tokens != [] {
      var w := tokens[0];
      if w !in StopWords && w in descKeys && w !in seen {
        CommonWordsFit(tokens[1..], descKeys, seen + {w});
      } else {
        CommonWordsFit(tokens[1..], descKeys, seen);
      }
    }
  }

  /** An overlap score never exceeds the length of the cleaned status text. */
  lemma OverlapBound(statusUpper: string, descUpper: string)
    ensures Overlap(statusUpper, descUpper) <= |statusUpper|
  {
    CommonWordsFit(WordTokens(statusUpper), Keywords(descUpper), {});
    TokensFitInText(statusUpper);
  }

  /**
   * The score of one description: 100 per character of the description when
   * the status holds it, 100 per character of the status when the
   * description holds it, and otherwise the shared keywords' lengths.
   */
  function Score(statusUpper: string, description: string): nat {
    var descUpper := Upper(description);
    if Contains(statusUpper, descUpper) then 100 * |descUpper|
    else if Contains(descUpper, statusUpper) then 100 * |statusUpper|
    else Overlap(statusUpper, descUpper)
  }

  /**
   * A containment scores a hundredfold length; anything else scores at most
   * the length of the status, so a contained description of length n beats
   * every overlap once 100 n exceeds the status length.
   */
  lemma ScoreLevels(statusUpper: string, description: string)
    ensures var descUpper := Upper(description);
      && (Contains(statusUpper, descUpper) ==> Score(statusUpper, description) == 100 * |description|)
      && (!Contains(statusUpper, descUpper) && Contains(descUpper, statusUpper) ==>
            Score(statusUpper, description) == 100 * |statusUpper| && |statusUpper| <= |description|)
      && (!Contains(statusUpper, descUpper) && !Contains(descUpper, statusUpper) ==>
            Score(statusUpper, description) <= |statusUpper|)
  {
    OverlapBound(statusUpper, Upper(description));
  }

  // ---------------------------------------------------------------------------
  // The order of the search: sorted(codes, key=len(description), reverse=True)

  /**
   * Entry `i` comes before entry `j` in the stable descending sort by
   * description length: it is longer, or as long and earlier.
   */
  predicate Before(catalog: seq<OccurrenceCode>, i: nat, j: nat)
    requires i < |catalog| && j < |catalog|
  {
    || |catalog[i].description| > |catalog[j].description|
    || (|catalog[i].description| == |catalog[j].description| && i < j)
  }

  predicate SortedBy(catalog: seq<OccurrenceCode>, order: seq<nat>)
  {
    && (forall k :: 0 <= k < |order| ==> order[k] < |catalog|)
    && (forall k, l :: 0 <= k < l < |order| ==> Before(catalog, order[k], order[l]))
  }

  function Insert(catalog: seq<OccurrenceCode>, i: nat, order: seq<nat>): (r: seq<nat>)
    requires i < |catalog| && forall k :: 0 <= k < |order| ==> order[k] < |catalog|
    ensures |r| == |order| + 1
    ensures forall x :: x in r <==> x == i || x in order
    ensures forall k :: 0 <= k < |r| ==> r[k] < |catalog|
  {
    if order == [] then [i]
    else if Before(catalog, i, order[0]) then [i] + order
    else [order[0]] + Insert(catalog, i, order[1..])
  }

  lemma {:induction false} InsertSorted(catalog: seq<OccurrenceCode>, i: nat, order: seq<nat>)
    requires i < |catalog| && SortedBy(catalog, order) && i !in order
    ensures SortedBy(catalog, Insert(catalog, i, order))
  {
    if order == [] {
      assert Insert(catalog, i, order) == [i];
    } else if Before(catalog, i, order[0]) {
      forall x | x in order
        ensures Before(catalog, i, x)
      {
        var m :| 0 <= m < |order| && order[m] == x;
        if m > 0 {
          assert Before(catalog, order[0], order[m]);
        }
      }
      ConsSorted(catalog, i, order);
    } else {
      var tail := Insert(catalog, i, order[1..]);
      InsertSorted(catalog, i, order[1..]);
      forall x | x in tail
        ensures Before(catalog, order[0], x)
      {
        HeadBeforeInserted(catalog, i, order, x);
      }
      ConsSorted(catalog, order[0], tail);
    }
  }

  /** An entry that precedes every entry of a sorted order can be put in front of it. */
  lemma ConsSorted(catalog: seq<OccurrenceCode>, h: nat, tail: seq<nat>)
    requires h < |catalog| && SortedBy(catalog, tail)
    requires forall x :: x in tail ==> Before(catalog, h, x)
    ensures SortedBy(catalog, [h] + tail)
  {
    var r := [h] + tail;
    forall k, l | 0 <= k < l < |r|
      ensures Before(catalog, r[k], r[l])
    {
      assert r[l] == tail[l - 1];
      if k > 0 {
        assert r[k] == tail[k - 1];
      }
    }
  }

  /** The head of a sorted order that the new entry does not precede precedes every entry after it. */
  lemma HeadBeforeInserted(catalog: seq<OccurrenceCode>, i: nat, order: seq<nat>, x: nat)
    requires i < |catalog| && SortedBy(catalog, order) && i !in order
    requires order != [] && !Before(catalog, i, order[0])
    requires x == i || x in order[1..]
    ensures x < |catalog| && Before(catalog, order[0], x)
  {
    if x != i {
      var m :| 0 <= m < |order[1..]| && order[1..][m] == x;
      assert order[m + 1] == x;
    }
  }

  /** The catalog positions in the order the matcher visits them. */
  function SortByLength(catalog: seq<OccurrenceCode>, n: nat): (order: seq<nat>)
    requires n <= |catalog|
    ensures |order| == n
    ensures forall x: int :: x in order <==> 0 <= x < n
    ensures forall k :: 0 <= k < |order| ==> order[k] < |catalog|
  {
    if n == 0 then [] else Insert(catalog, n - 1, SortByLength(catalog, n - 1))
  }

  /** The visiting order is sorted, so it is the stable descending sort of the positions. */
  lemma {:induction false} SortByLengthSorted(catalog: seq<OccurrenceCode>, n: nat)
    requires n <= |catalog|
    ensures SortedBy(catalog, SortByLength(catalog, n))
  {
    if n > 0 {
      SortByLengthSorted(catalog, n - 1);
      InsertSorted(catalog, n - 1, SortByLength(catalog, n - 1));
    }
  }

  // ---------------------------------------------------------------------------
  // The match

  /**
   * Entry `w` is the match: it scores above zero, no entry scores more, and
   * every other entry with the same score comes after it in the visiting
   * order.
   */
  predicate IsBestMatch(catalog: seq<OccurrenceCode>, statusUpper: string, w: nat) {
    && w < |catalog|
    && Score(statusUpper, catalog[w].description) > 0
    && forall i :: 0 <= i < |catalog| ==>
         && Score(statusUpper, catalog[i].description) <= Score(statusUpper, catalog[w].description)
         && (i != w && Score(statusUpper, catalog[i].description) == Score(statusUpper, catalog[w].description)
             ==> Before(catalog, w, i))
  }

  /** The match is unique. */
  lemma BestMatchUnique(catalog: seq<OccurrenceCode>, statusUpper: string, w1: nat, w2: nat)
    requires IsBestMatch(catalog, statusUpper, w1) && IsBestMatch(catalog, statusUpper, w2)
    ensures w1 == w2
  {
  }

  /** The matcher: clean the status text, upper-case it, and search the catalog with it. */
  method MatchOccurrenceCode(statusText: string, catalog: seq<OccurrenceCode>)
    returns (best: Option<OccurrenceCode>, bestScore: nat)
    ensures var statusUpper := Upper(Clean(statusText));
      && (best.None? <==> forall i :: 0 <= i < |catalog| ==> Score(statusUpper, catalog[i].description) == 0)
      && (best.None? ==> bestScore == 0)
      && (best.Some? ==> exists w: nat :: IsBestMatch(catalog, statusUpper, w) && best.value == catalog[w]
                                     && bestScore == Score(statusUpper, catalog[w].description))
  {
    var statusUpper := Upper(Clean(statusText));
    best, bestScore := SearchCatalog(statusUpper, catalog);
  }

  /**
   * The search: visit the entries longest description first and keep an
   * entry only when it scores strictly more than the best so far.
   */
  method SearchCatalog(statusUpper: string, catalog: seq<OccurrenceCode>)
    returns (best: Option<OccurrenceCode>, bestScore: nat)
    ensures best.None? <==> forall i :: 0 <= i < |catalog| ==> Score(statusUpper, catalog[i].description) == 0
    ensures best.None? ==> bestScore == 0
    ensures best.Some? ==> exists w: nat :: IsBestMatch(catalog, statusUpper, w) && best.value == catalog[w]
                                        && bestScore == Score(statusUpper, catalog[w].description)
  {
    var order := VisitingOrder(catalog);
    ghost var scores: seq<nat> := seq(|order|, j requires 0 <= j < |order| => Score(statusUpper, catalog[order[j]].description));
    best := None;
    bestScore := 0;
    ghost var win := 0;
    for k := 0 to |order|
      invariant forall j :: 0 <= j < k ==> scores[j] <= bestScore
      invariant best.None? <==> bestScore == 0
      invariant best.Some? ==> && win < k && best.value == catalog[order[win]] && bestScore == scores[win]
                               && forall j :: 0 <= j < win ==> scores[j] < bestScore
    {
      var score := Score(statusUpper, catalog[order[k]].description);
      if score > bestScore {
        best := Some(catalog[order[k]]);
        bestScore := score;
        win := k;
      }
    }
    SearchOutcome(catalog, statusUpper, order, scores, best, bestScore, win);
  }

  /** What the search has found once every entry has been visited. */
  lemma SearchOutcome(catalog: seq<OccurrenceCode>, statusUpper: string, order: seq<nat>, scores: seq<nat>,
                      best: Option<OccurrenceCode>, bestScore: nat, win: nat)
    requires SortedBy(catalog, order) && |order| == |catalog|
    requires forall x: int :: x in order <==> 0 <= x < |catalog|
    requires ScoresInOrder(catalog, statusUpper, order, scores)
    requires forall j :: 0 <= j < |order| ==> scores[j] <= bestScore
    requires best.None? <==> bestScore == 0
    requires best.Some? ==> && win < |order| && best.value == catalog[order[win]] && bestScore == scores[win]
                            && forall j :: 0 <= j < win ==> scores[j] < bestScore
    ensures best.None? <==> forall i :: 0 <= i < |catalog| ==> Score(statusUpper, catalog[i].description) == 0
    ensures best.None? ==> bestScore == 0
    ensures best.Some? ==> exists w: nat :: IsBestMatch(catalog, statusUpper, w) && best.value == catalog[w]
                                        && bestScore == Score(statusUpper, catalog[w].description)
  {
    if best.Some? {
      BestFromOrder(catalog, statusUpper, order, scores, win);
      var w := order[win];
      assert IsBestMatch(catalog, statusUpper, w) && best.value == catalog[w]
             && bestScore == Score(statusUpper, catalog[w].description);
      assert Score(statusUpper, catalog[w].description) != 0;
    } else {
      NoneFromOrder(catalog, statusUpper, order, scores);
    }
  }

  /** `sorted(codes, key=lambda c: len(c["description"]), reverse=True)`, as positions. */
  method VisitingOrder(catalog: seq<OccurrenceCode>) returns (order: seq<nat>)
    ensures SortedBy(catalog, order) && |order| == |catalog|
    ensures forall x: int :: x in order <==> 0 <= x < |catalog|
  {
    order := SortByLength(catalog, |catalog|);
    SortByLengthSorted(catalog, |catalog|);
  }

  /** The scores of the entries in the visiting order. */
  predicate ScoresInOrder(catalog: seq<OccurrenceCode>, statusUpper: string, order: seq<nat>, scores: seq<nat>)
    requires forall k :: 0 <= k < |order| ==> order[k] < |catalog|
  {
    |scores| == |order| && forall j :: 0 <= j < |order| ==> scores[j] == Score(statusUpper, catalog[order[j]].description)
  }

  /** The visiting order's first entry with the top score is the best match. */
  lemma BestFromOrder(catalog: seq<OccurrenceCode>, statusUpper: string, order: seq<nat>, scores: seq<nat>, win: nat)
    requires SortedBy(catalog, order) && |order| == |catalog|
    requires forall x: int :: x in order <==> 0 <= x < |catalog|
    requires ScoresInOrder(catalog, statusUpper, order, scores)
    requires win < |order| && scores[win] > 0
    requires forall j :: 0 <= j < |order| ==> scores[j] <= scores[win]
    requires forall j :: 0 <= j < win ==> scores[j] < scores[win]
    ensures IsBestMatch(catalog, statusUpper, order[win])
  {
    var w := order[win];
    var top := Score(statusUpper, catalog[w].description);
    forall i | 0 <= i < |catalog|
      ensures Score(statusUpper, catalog[i].description) <= top
      ensures i != w && Score(statusUpper, catalog[i].description) == top ==> Before(catalog, w, i)
    {
      assert i in order;
      var j :| 0 <= j < |order| && order[j] == i;
      assert scores[j] <= scores[win];
      if j > win {
        assert Before(catalog, order[win], order[j]);
      }
    }
  }

  /** When every visited entry scores nothing, every entry does. */
  lemma NoneFromOrder(catalog: seq<OccurrenceCode>, statusUpper: string, order: seq<nat>, scores: seq<nat>)
    requires forall x: int :: x in order <==> 0 <= x < |catalog|
    requires forall k :: 0 <= k < |order| ==> order[k] < |catalog|
    requires ScoresInOrder(catalog, statusUpper, order, scores)
    requires forall j :: 0 <= j < |order| ==> scores[j] == 0
    ensures forall i :: 0 <= i < |catalog| ==> Score(statusUpper, catalog[i].description) == 0
  {
    forall i | 0 <= i < |catalog|
      ensures Score(statusUpper, catalog[i].description) == 0
    {
      assert i in order;
      var j :| 0 <= j < |order| && order[j] == i;
      assert scores[j] == 0;
    }
  }
}
