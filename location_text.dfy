/**
 * The location extractor of the scraping tests (test_scraping.py): the
 * shortest non-empty prefix of the location paragraph that is followed by a
 * `DD/MM/YY` date, with no line break in it, stripped, with one trailing
 * slash and the whitespace before it removed, and stripped again.
 */
module LocationText {
  import opened Wrappers
  import opened Text
  import opened Calendar

  // `re.sub(r'\s*/\s*$', '', x)`: a slash followed only by whitespace up to
  // the end is removed together with the whitespace around it; at most one
  // such slash exists, so at most one is removed.
  function DropTrailingSlash(x: string): (r: string)
    ensures |r| <= |x| && r == x[..|r|]
    ensures var y := TrimRight(x); (y == [] || y[|y| - 1] != '/') ==> r == x
    ensures var y := TrimRight(x); y != [] && y[|y| - 1] == '/' ==>
      && |r| < |y| && AllSpace(x[|r|..|y| - 1]) && (r == [] || !IsSpace(r[|r| - 1]))
  {
    var y := TrimRight(x);
    if y != [] && y[|y| - 1] == '/' then
      var z := y[..|y| - 1];
      var n := TrailingSpaces(z);
      assert x[|z| - n..|y| - 1] == z[|z| - n..];
      TrimRight(z)
    else x
  }

  /** `re.match(r"^(.+?)(?=\d{2}/\d{2}/\d{2})", raw)` followed by the clean-up. */
  function LocationBeforeDate(raw: string): (r: Option<string>)
    ensures r.Some? <==> exists k: nat :: 1 <= k && DateAt(raw, k) && !Contains(raw[..k], "\n")
    ensures r.Some? ==> r.value == [] || (!IsSpace(r.value[0]) && !IsSpace(r.value[|r.value| - 1]))
    // The value is the stripped text before the first date, less a trailing
    // slash and the whitespace before it.
    ensures r.Some? ==> SlashDropped(Strip(raw[..FirstMatch(raw, DateAt, 1).value]), r.value)
  {
    match FirstMatch(raw, DateAt, 1)
    case None => None
    case Some(k) =>
      if Contains(raw[..k], "\n") then
        NewlineStaysBefore(raw, k);
        None
      else
        var p := Strip(raw[..k]);
        StripSlashed(p);
        Some(Strip(DropTrailingSlash(p)))
  }

  /**
   * `v` is the stripped text `p` less its trailing slash and the whitespace
   * before that slash; a text that does not end with a slash is kept.
   */
  ghost predicate SlashDropped(p: string, v: string) {
    && ((p == [] || p[|p| - 1] != '/') ==> v == p)
    && (p != [] && p[|p| - 1] == '/' ==> exists a :: p == v + a + "/" && AllSpace(a))
  }

  lemma StripSlashed(p: string)
    requires p == [] || (!IsSpace(p[0]) && !IsSpace(p[|p| - 1]))
    ensures SlashDropped(p, Strip(DropTrailingSlash(p)))
  {
    assert TrimRight(p) == p by {
      if p != [] { assert TrailingSpaces(p) == 0; }
    }
    if p != [] && p[|p| - 1] == '/' {
      SlashGoes(p);
    } else {
      StripUntrimmed(p);
    }
  }

  lemma SlashGoes(p: string)
    requires p != [] && !IsSpace(p[0]) && p[|p| - 1] == '/' && TrimRight(p) == p
    ensures exists a :: p == Strip(DropTrailingSlash(p)) + a + "/" && AllSpace(a)
  {
    var d := DropTrailingSlash(p);
    var a := p[|d|..|p| - 1];
    assert d == p[..|d|] && |d| < |p| && AllSpace(a);
    assert p == p[..|d|] + a + p[|p| - 1..];
    assert d == [] || d[0] == p[0];
    StripUntrimmed(d);
    assert p == Strip(d) + a + "/";
  }

  /** A line break before the first date is before every later one too. */
  lemma NewlineStaysBefore(raw: string, k: nat)
    requires 1 <= k && k <= |raw| && Contains(raw[..k], "\n")
    requires forall i: nat :: 1 <= i < k ==> !DateAt(raw, i)
    ensures forall m: nat :: 1 <= m && DateAt(raw, m) ==> Contains(raw[..m], "\n")
  {
    var p: nat :| p <= k && OccursAt(raw[..k], "\n", p);
    forall m: nat | 1 <= m && DateAt(raw, m)
      ensures Contains(raw[..m], "\n")
    {
      assert k <= m;
      assert raw[..m][p..p + 1] == raw[..k][p..p + 1];
      assert OccursAt(raw[..m], "\n", p);
    }
  }

  /**
   * A non-empty text with no digit and no line break, glued to a date: the
   * match ends at the date and the clean-up works on that text.
   */
  lemma DateAfterPrefix(before: string, date: string, rest: string)
    requires before != []
    requires forall i :: 0 <= i < |before| ==> !IsDigit(before[i]) && before[i] != '\n'
    requires IsDateText(date)
    ensures LocationBeforeDate(before + date + rest) == Some(Strip(DropTrailingSlash(Strip(before))))
  {
    var raw := before + date + rest;
    var k := |before|;
    assert raw[k..k + 8] == date;
    assert DateAt(raw, k);
    assert forall i: nat :: 1 <= i < k ==> !DateAt(raw, i) by {
      assert forall i :: 0 <= i < k ==> raw[i] == before[i];
    }
    FirstMatchIs(raw, DateAt, 1, k);
    assert raw[..k] == before;
    assert !Contains(before, "\n") by {
      forall q: nat | q <= |before|
        ensures !OccursAt(before, "\n", q)
      {
        if q + 1 <= |before| {
          assert before[q..q + 1] == [before[q]];
        }
      }
    }
  }

  /**
   * The carrier renders a location as the place, then the date glued to it:
   * a place that holds no digit and no line break, has no whitespace at
   * either end and does not end with a slash comes back unchanged, whatever
   * follows the date.
   */
  lemma PlaceBeforeDate(place: string, date: string, rest: string)
    requires place != [] && !IsSpace(place[0]) && !IsSpace(place[|place| - 1]) && place[|place| - 1] != '/'
    requires forall i :: 0 <= i < |place| ==> !IsDigit(place[i]) && place[i] != '\n'
    requires IsDateText(date)
    ensures LocationBeforeDate(place + date + rest) == Some(place)
  {
    DateAfterPrefix(place, date, rest);
    StripUntrimmed(place);
    assert TrimRight(place) == place by {
      assert TrailingSpaces(place) == 0;
    }
  }

  /**
   * A place followed by a slash, whitespace around it allowed, and then the
   * date: the slash and the whitespace go, the place comes back.
   */
  lemma SlashedPlaceBeforeDate(place: string, a: string, b: string, date: string, rest: string)
    requires place != [] && !IsSpace(place[0]) && !IsSpace(place[|place| - 1])
    requires forall i :: 0 <= i < |place| ==> !IsDigit(place[i]) && place[i] != '\n'
    requires AllSpace(a) && AllSpace(b)
    requires forall i :: 0 <= i < |a| ==> a[i] != '\n'
    requires forall i :: 0 <= i < |b| ==> b[i] != '\n'
    requires IsDateText(date)
    ensures LocationBeforeDate(place + a + "/" + b + date + rest) == Some(place)
  {
    var before := place + a + "/" + b;
    assert place + a + "/" + b + date + rest == before + date + rest;
    assert forall i :: 0 <= i < |before| ==> !IsDigit(before[i]) && before[i] != '\n' by {
      forall i | 0 <= i < |before|
        ensures !IsDigit(before[i]) && before[i] != '\n'
      {
        if i < |place| {
          assert before[i] == place[i];
        } else if i < |place| + |a| {
          assert before[i] == a[i - |place|];
        } else if i > |place| + |a| {
          assert before[i] == b[i - |place| - |a| - 1];
        }
      }
    }
    DateAfterPrefix(before, date, rest);
    CleanSlashedPlace(place, a, b);
  }

  /** The clean-up of a place, a slash and whitespace around the slash is the place. */
  lemma CleanSlashedPlace(place: string, a: string, b: string)
    requires place != [] && !IsSpace(place[0]) && !IsSpace(place[|place| - 1])
    requires AllSpace(a) && AllSpace(b)
    ensures Strip(DropTrailingSlash(Strip(place + a + "/" + b))) == place
  {
    var p := place + a + "/";
    assert place + a + "/" + b == p + b;
    assert p[0] == place[0] && p[|p| - 1] == '/';
    StripTrailingSpace(p, b);
    var v := Strip(DropTrailingSlash(p));
    StripSlashed(p);
    var w :| p == v + w + "/" && AllSpace(w);
    assert v + w == place + a by {
      assert v + w == p[..|p| - 1];
    }
    TrimmedPrefix(v, w, place, a);
  }

  /** Two texts that end in no whitespace, each padded with whitespace to the same text, are equal. */
  lemma TrimmedPrefix(x: string, w: string, y: string, v: string)
    requires x == [] || !IsSpace(x[|x| - 1])
    requires y == [] || !IsSpace(y[|y| - 1])
    requires AllSpace(w) && AllSpace(v) && x + w == y + v
    ensures x == y
  {
    assert x == (x + w)[..|x|] && y == (y + v)[..|y|];
  }

  // The five renderings of the scraping tests.

  lemma LocationRio()
    ensures LocationBeforeDate("RIO DE JANEIRO / RJ18/11/25\n16:35") == Some("RIO DE JANEIRO / RJ")
  {
    assert "RIO DE JANEIRO / RJ18/11/25\n16:35" == "RIO DE JANEIRO / RJ" + "18/11/25" + "\n16:35";
    PlaceBeforeDate("RIO DE JANEIRO / RJ", "18/11/25", "\n16:35");
  }

  lemma LocationSaoPaulo()
    ensures LocationBeforeDate("SAO PAULO / SP20/11/25\n10:30") == Some("SAO PAULO / SP")
  {
    assert "SAO PAULO / SP20/11/25\n10:30" == "SAO PAULO / SP" + "20/11/25" + "\n10:30";
    PlaceBeforeDate("SAO PAULO / SP", "20/11/25", "\n10:30");
  }

  lemma LocationBeloHorizonte()
    ensures LocationBeforeDate("BELO HORIZONTE / MG21/11/25\n14:20") == Some("BELO HORIZONTE / MG")
  {
    assert "BELO HORIZONTE / MG21/11/25\n14:20" == "BELO HORIZONTE / MG" + "21/11/25" + "\n14:20";
    PlaceBeforeDate("BELO HORIZONTE / MG", "21/11/25", "\n14:20");
  }

  lemma LocationBrasilia()
    ensures LocationBeforeDate("BRASILIA / DF22/11/25\n08:15") == Some("BRASILIA / DF")
  {
    assert "BRASILIA / DF22/11/25\n08:15" == "BRASILIA / DF" + "22/11/25" + "\n08:15";
    PlaceBeforeDate("BRASILIA / DF", "22/11/25", "\n08:15");
  }

  lemma LocationPortoAlegre()
    ensures LocationBeforeDate("PORTO ALEGRE / RS23/11/25\n09:45") == Some("PORTO ALEGRE / RS")
  {
    assert "PORTO ALEGRE / RS23/11/25\n09:45" == "PORTO ALEGRE / RS" + "23/11/25" + "\n09:45";
    PlaceBeforeDate("PORTO ALEGRE / RS", "23/11/25", "\n09:45");
  }

  /** A place that ends in a slash before the date, as the clean-up expects. */
  lemma LocationSlashed()
    ensures LocationBeforeDate("CURITIBA /18/11/25\n09:00") == Some("CURITIBA")
  {
    assert "CURITIBA /18/11/25\n09:00" == "CURITIBA" + " " + "/" + "" + "18/11/25" + "\n09:00";
    SlashedPlaceBeforeDate("CURITIBA", " ", "", "18/11/25", "\n09:00");
  }
}
