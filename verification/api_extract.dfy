/**
  What the Tesco client reads out of the pages it fetches: the CSRF token of
  the login page, the Clubcard balance and next delivery of the account page,
  the product tiles of a search, the lines of the basket, the classification
  of an add-to-basket reply, and the selector sanity check.

  HTML parsing and most regular expressions are outside the model: a page is
  given as what the selectors found in it (attribute values, element texts,
  and what each pattern captured).  The one pattern modelled character by
  character is the script form of the CSRF token, whose capture decides the
  token the client sends back.
*/
module ApiExtract {
  import opened Common

  /** A response body that either decodes or raises while being read or parsed. */
  datatype Readable<T> = Unreadable(reason: string) | Read(value: T)

  /** One HTTP exchange: a transport failure, or a status code and a body. */
  datatype Reply<T> = TransportError(reason: string) | Response(status: int, body: Readable<T>)

  // ---------------------------------------------------------------------------
  // The CSRF token of the login page
  // ---------------------------------------------------------------------------

  /**
    The login page as the token search sees it: the `content` of the first
    `<meta name="csrf-token">`, the `value` of the first `<input name="_csrf">`
    (None when the tag or the attribute is missing), and the text of every
    `<script>` in document order (None for a script with no single text child).
  */
  datatype LoginPage = LoginPage(metaContent: Option<string>, inputValue: Option<string>, scripts: seq<Option<string>>)

  const CsrfKey := "csrfToken"

  predicate IsQuote(c: char) {
    c == '"' || c == '\''
  }

  /** The end of the run of whitespace starting at j. */
  function SkipSpaces(s: string, j: nat): (k: nat)
    requires j <= |s|
    ensures j <= k <= |s|
    ensures forall m :: j <= m < k ==> IsSpace(s[m])
    ensures k == |s| || !IsSpace(s[k])
    decreases |s| - j
  {
    if j < |s| && IsSpace(s[j]) then SkipSpaces(s, j + 1) else j
  }

  /** The end of the run of non-quote characters starting at j. */
  function SkipNonQuotes(s: string, j: nat): (k: nat)
    requires j <= |s|
    ensures j <= k <= |s|
    ensures forall m :: j <= m < k ==> !IsQuote(s[m])
    ensures k == |s| || IsQuote(s[k])
    decreases |s| - j
  {
    if j < |s| && !IsQuote(s[j]) then SkipNonQuotes(s, j + 1) else j
  }

  /**
    The group the script pattern ``csrfToken["']?\s*[=:]\s*["']([^"']+)``
    captures when its match starts at i, or None when it does not match there.
    The pattern never needs to backtrack: an optional quote after the key can
    only be taken, since `[=:]` cannot match a quote, and the capture is the
    longest run of non-quote characters after the opening quote.
  */
  function CsrfTokenAt(s: string, i: nat): Option<string> {
    if !OccursAt(s, CsrfKey, i) then None
    else
      var j0 := i + |CsrfKey|;
      var j1 := if j0 < |s| && IsQuote(s[j0]) then j0 + 1 else j0;
      var j2 := SkipSpaces(s, j1);
      if j2 == |s| || !(s[j2] == '=' || s[j2] == ':') then None
      else
        var j3 := SkipSpaces(s, j2 + 1);
        if j3 == |s| || !IsQuote(s[j3]) then None
        else
          var j4 := SkipNonQuotes(s, j3 + 1);
          if j4 == j3 + 1 then None else Some(s[j3 + 1..j4])
  }

  /** A left-to-right scan: the result at the first position in [from, end] where `at` gives one. */
  function LeftmostMatch(at: nat -> Option<string>, end: nat, from: nat): Option<string>
    decreases end + 1 - from
  {
    if from > end then None
    else if at(from).Some? then at(from)
    else LeftmostMatch(at, end, from + 1)
  }

  /** The scan finds nothing exactly when no position matches; otherwise it finds the leftmost. */
  lemma {:induction false} LeftmostMatchFound(at: nat -> Option<string>, end: nat, from: nat)
    ensures LeftmostMatch(at, end, from).None? <==> forall i :: from <= i <= end ==> at(i).None?
    ensures LeftmostMatch(at, end, from).Some? ==>
              exists i :: from <= i <= end && at(i) == LeftmostMatch(at, end, from)
                          && forall m :: from <= m < i ==> at(m).None?
    decreases end + 1 - from
  {
    if from <= end && at(from).None? {
      LeftmostMatchFound(at, end, from + 1);
      if LeftmostMatch(at, end, from + 1).Some? {
        var i: nat :| from + 1 <= i <= end && at(i) == LeftmostMatch(at, end, from + 1)
                 && forall m: nat :: from + 1 <= m < i ==> at(m).None?;
        assert forall m: nat :: from <= m < i ==> at(m).None?;
      }
    }
  }

  /** `re.search`: the capture of the leftmost match at or after `from`. */
  function SearchCsrf(s: string, from: nat): Option<string> {
    LeftmostMatch((i: nat) => CsrfTokenAt(s, i), |s|, from)
  }

  /**
    The search finds nothing exactly when the pattern matches at no position
    from `from` on; otherwise it returns the capture of the leftmost match.
  */
  lemma SearchCsrfLeftmost(s: string, from: nat)
    ensures SearchCsrf(s, from).None? <==> forall i :: from <= i <= |s| ==> CsrfTokenAt(s, i).None?
    ensures SearchCsrf(s, from).Some? ==>
              exists i :: from <= i <= |s| && CsrfTokenAt(s, i) == SearchCsrf(s, from)
                          && forall m :: from <= m < i ==> CsrfTokenAt(s, m).None?
  {
    var at := (i: nat) => CsrfTokenAt(s, i);
    assert SearchCsrf(s, from) == LeftmostMatch(at, |s|, from);
    LeftmostMatchFound(at, |s|, from);
    assert forall i: nat :: at(i) == CsrfTokenAt(s, i);
    if SearchCsrf(s, from).Some? {
      var i: nat :| from <= i <= |s| && at(i) == SearchCsrf(s, from)
                    && forall m: nat :: from <= m < i ==> at(m).None?;
      assert CsrfTokenAt(s, i) == SearchCsrf(s, from);
    }
  }

  /** Where a match at i puts its capture: between an opening quote at j3 and the quote or end at j4. */
  lemma CsrfTokenSpan(s: string, i: nat) returns (j3: nat, j4: nat)
    requires CsrfTokenAt(s, i).Some?
    ensures i + |CsrfKey| <= j3 && j3 + 1 < j4 <= |s|
    ensures CsrfTokenAt(s, i) == Some(s[j3 + 1..j4])
    ensures IsQuote(s[j3]) && (j4 == |s| || IsQuote(s[j4]))
    ensures forall m :: j3 + 1 <= m < j4 ==> !IsQuote(s[m])
  {
    var j0 := i + |CsrfKey|;
    var j1 := if j0 < |s| && IsQuote(s[j0]) then j0 + 1 else j0;
    var j2 := SkipSpaces(s, j1);
    j3 := SkipSpaces(s, j2 + 1);
    j4 := SkipNonQuotes(s, j3 + 1);
  }

  /** What the script pattern captures is a non-empty, quote-free slice of the script, closed by a quote or the end of the text. */
  lemma CsrfTokenShape(s: string, i: nat)
    requires CsrfTokenAt(s, i).Some?
    ensures var t := CsrfTokenAt(s, i).value;
            && t != []
            && (forall m :: 0 <= m < |t| ==> !IsQuote(t[m]))
            && exists k :: i + |CsrfKey| < k && OccursAt(s, t, k) && IsQuote(s[k - 1])
                           && (k + |t| == |s| || IsQuote(s[k + |t|]))
  {
    var j3, j4 := CsrfTokenSpan(s, i);
    var t := s[j3 + 1..j4];
    assert forall m :: 0 <= m < |t| ==> t[m] == s[j3 + 1 + m];
    assert OccursAt(s, t, j3 + 1);
  }

  lemma SkipSpacesOver(s: string, j: nat, ws: nat)
    requires j + ws <= |s|
    requires forall m :: j <= m < j + ws ==> IsSpace(s[m])
    requires j + ws == |s| || !IsSpace(s[j + ws])
    ensures SkipSpaces(s, j) == j + ws
  {
  }

  predicate AllSpaces(ws: string) {
    forall m :: 0 <= m < |ws| ==> IsSpace(ws[m])
  }

  /**
    Every assignment or property form of the token is recognised: the key,
    an optional quote, blanks, `=` or `:`, blanks, and the token in quotes
    gives back exactly the token.
  */
  lemma CsrfAssignmentRecognised(keyQuote: string, ws1: string, sep: char, ws2: string, open: char, t: string, rest: string)
    requires |keyQuote| <= 1 && (keyQuote != [] ==> IsQuote(keyQuote[0]))
    requires AllSpaces(ws1) && AllSpaces(ws2)
    requires sep == '=' || sep == ':'
    requires IsQuote(open)
    requires t != [] && forall m :: 0 <= m < |t| ==> !IsQuote(t[m])
    requires rest == [] || IsQuote(rest[0])
    ensures CsrfTokenAt(CsrfKey + keyQuote + ws1 + [sep] + ws2 + [open] + t + rest, 0) == Some(t)
  {
    var s := CsrfKey + keyQuote + ws1 + [sep] + ws2 + [open] + t + rest;
    var j1 := |CsrfKey| + |keyQuote|;
    var j2 := j1 + |ws1|;
    var j3 := j2 + 1 + |ws2|;
    var j4 := j3 + 1 + |t|;
    assert s[..|CsrfKey|] == CsrfKey;
    assert s[j2] == sep;
    assert s[j3] == open;
    assert forall m :: j1 <= m < j2 ==> s[m] == ws1[m - j1];
    assert forall m :: j2 + 1 <= m < j3 ==> s[m] == ws2[m - j2 - 1];
    assert forall m :: j3 + 1 <= m < j4 ==> s[m] == t[m - j3 - 1];
    assert j4 < |s| ==> s[j4] == rest[0];
    assert s[j3 + 1..j4] == t;
    CsrfTokenAtLayout(s, j1, j2, j3, j4);
  }

  /** The pattern's match at 0 in terms of where each of its parts ends. */
  lemma CsrfTokenAtLayout(s: string, j1: nat, j2: nat, j3: nat, j4: nat)
    requires OccursAt(s, CsrfKey, 0)
    requires |CsrfKey| <= j1 <= |CsrfKey| + 1 && j1 <= |s|
    requires j1 == |CsrfKey| + 1 ==> IsQuote(s[|CsrfKey|])
    requires j1 == |CsrfKey| && j1 < |s| ==> !IsQuote(s[j1])
    requires j1 <= j2 < j3 < j4 <= |s|
    requires forall m :: j1 <= m < j2 ==> IsSpace(s[m])
    requires s[j2] == '=' || s[j2] == ':'
    requires forall m :: j2 + 1 <= m < j3 ==> IsSpace(s[m])
    requires IsQuote(s[j3])
    requires j3 + 1 < j4 && forall m :: j3 + 1 <= m < j4 ==> !IsQuote(s[m])
    requires j4 == |s| || IsQuote(s[j4])
    ensures CsrfTokenAt(s, 0) == Some(s[j3 + 1..j4])
  {
    SkipSpacesOver(s, j1, j2 - j1);
    SkipSpacesOver(s, j2 + 1, j3 - j2 - 1);
    SkipNonQuotesOver(s, j3 + 1, j4 - j3 - 1);
    CsrfTokenAtScanned(s, j1, j2, j3, j4);
  }

  /** The match at 0 once each scan's end is known. */
  lemma CsrfTokenAtScanned(s: string, j1: nat, j2: nat, j3: nat, j4: nat)
    requires OccursAt(s, CsrfKey, 0)
    requires j1 == (if |CsrfKey| < |s| && IsQuote(s[|CsrfKey|]) then |CsrfKey| + 1 else |CsrfKey|)
    requires j2 < |s| && SkipSpaces(s, j1) == j2 && (s[j2] == '=' || s[j2] == ':')
    requires j3 < |s| && SkipSpaces(s, j2 + 1) == j3 && IsQuote(s[j3])
    requires j3 + 1 < j4 && SkipNonQuotes(s, j3 + 1) == j4
    ensures CsrfTokenAt(s, 0) == Some(s[j3 + 1..j4])
  {
  }

  lemma SkipNonQuotesOver(s: string, j: nat, n: nat)
    requires j + n <= |s|
    requires forall m :: j <= m < j + n ==> !IsQuote(s[m])
    requires j + n == |s| || IsQuote(s[j + n])
    ensures SkipNonQuotes(s, j) == j + n
  {
  }

  /** The token a script offers: scripts without text are skipped. */
  function ScriptCandidate(script: Option<string>): Option<string> {
    if TruthyString(script) then SearchCsrf(script.value, 0) else None
  }

  /** The scan over the scripts: the first one whose text yields a token. */
  function ScriptToken(scripts: seq<Option<string>>): Option<string> {
    if scripts == [] then None
    else if ScriptCandidate(scripts[0]).Some? then ScriptCandidate(scripts[0])
    else ScriptToken(scripts[1..])
  }

  /** The token search: the meta tag, then the hidden input, then the scripts. */
  function GetCsrfToken(page: LoginPage): Option<string> {
    if TruthyString(page.metaContent) then page.metaContent
    else if TruthyString(page.inputValue) then page.inputValue
    else ScriptToken(page.scripts)
  }

  /** What each script offers, in document order. */
  function ScriptCandidates(scripts: seq<Option<string>>): (r: seq<Option<string>>)
    ensures |r| == |scripts|
    ensures forall k :: 0 <= k < |scripts| ==> r[k] == ScriptCandidate(scripts[k])
  {
    if scripts == [] then [] else [ScriptCandidate(scripts[0])] + ScriptCandidates(scripts[1..])
  }

  /** Every place a token may come from, in priority order. */
  function CsrfCandidates(page: LoginPage): seq<Option<string>> {
    [page.metaContent, page.inputValue] + ScriptCandidates(page.scripts)
  }

  /** A token a script offers is never empty. */
  lemma ScriptCandidateNonEmpty(script: Option<string>)
    requires ScriptCandidate(script).Some?
    ensures ScriptCandidate(script).value != ""
  {
    var text := script.value;
    SearchCsrfLeftmost(text, 0);
    var j :| 0 <= j <= |text| && CsrfTokenAt(text, j) == ScriptCandidate(script)
             && forall m :: 0 <= m < j ==> CsrfTokenAt(text, m).None?;
    CsrfTokenShape(text, j);
  }

  lemma {:induction false} ScriptTokenIsFirst(scripts: seq<Option<string>>)
    ensures ScriptToken(scripts) == FirstTruthy(ScriptCandidates(scripts))
    decreases |scripts|
  {
    if scripts != [] {
      ScriptTokenIsFirst(scripts[1..]);
      assert ScriptCandidates(scripts) == [ScriptCandidate(scripts[0])] + ScriptCandidates(scripts[1..]);
      FirstTruthyCons(ScriptCandidate(scripts[0]), ScriptCandidates(scripts[1..]));
      if ScriptCandidate(scripts[0]).Some? {
        ScriptCandidateNonEmpty(scripts[0]);
      }
    }
  }

  /**
    The token found is the first source, in priority order (meta tag, hidden
    input, each script in turn), that offers a non-empty one; no token is
    found only when no source offers one.
  */
  lemma CsrfTokenIsFirstCandidate(page: LoginPage)
    ensures GetCsrfToken(page) == FirstTruthy(CsrfCandidates(page))
  {
    var scripts := ScriptCandidates(page.scripts);
    ScriptTokenIsFirst(page.scripts);
    assert CsrfCandidates(page) == [page.metaContent] + ([page.inputValue] + scripts);
    FirstTruthyCons(page.inputValue, scripts);
    FirstTruthyCons(page.metaContent, [page.inputValue] + scripts);
  }

  // ---------------------------------------------------------------------------
  // The Clubcard balance
  // ---------------------------------------------------------------------------

  /**
    What the three points patterns capture in one text, in the order they are
    tried: a number before "point(s)", a number after "clubcard", a number
    after "points".  Each capture is a run of digits, so converting it never
    fails.
  */
  datatype PointsMatches = PointsMatches(beforePoints: Option<nat>, afterClubcard: Option<nat>, afterPoints: Option<nat>)

  /** The first pattern that matches a text. */
  function FirstPattern(m: PointsMatches): Option<nat> {
    if m.beforePoints.Some? then m.beforePoints
    else if m.afterClubcard.Some? then m.afterClubcard
    else m.afterPoints
  }

  /** The element scan: the first clubcard element in which some pattern matches. */
  function ElementPoints(elements: seq<PointsMatches>): Option<nat> {
    if elements == [] then None
    else if FirstPattern(elements[0]).Some? then FirstPattern(elements[0])
    else ElementPoints(elements[1..])
  }

  /** The balance: from the clubcard elements first, then from the whole page text, else 0. */
  function ParseClubcardPoints(elements: seq<PointsMatches>, pageText: PointsMatches): nat {
    match ElementPoints(elements)
    case Some(p) => p
    case None => FirstPattern(pageText).GetOr(0)
  }

  /**
    Which capture the balance comes from: the first pattern matching in the
    earliest clubcard element that has a match; when no element matches, the
    first pattern matching the page text; 0 when nothing matches at all.
  */
  lemma {:induction false} ClubcardPointsSource(elements: seq<PointsMatches>, pageText: PointsMatches)
    ensures forall i :: 0 <= i < |elements| && FirstPattern(elements[i]).Some?
                        && (forall m :: 0 <= m < i ==> FirstPattern(elements[m]).None?) ==>
              ParseClubcardPoints(elements, pageText) == FirstPattern(elements[i]).value
    ensures (forall i :: 0 <= i < |elements| ==> FirstPattern(elements[i]).None?) ==>
              ParseClubcardPoints(elements, pageText) == FirstPattern(pageText).GetOr(0)
    decreases |elements|
  {
    if elements != [] {
      ClubcardPointsSource(elements[1..], pageText);
      forall i | 0 <= i < |elements| && FirstPattern(elements[i]).Some?
                 && (forall m :: 0 <= m < i ==> FirstPattern(elements[m]).None?)
        ensures ParseClubcardPoints(elements, pageText) == FirstPattern(elements[i]).value
      {
        if i > 0 {
          assert elements[1..][i - 1] == elements[i];
          assert forall m :: 0 <= m < i - 1 ==> elements[1..][m] == elements[m + 1];
        }
      }
      if forall i :: 0 <= i < |elements| ==> FirstPattern(elements[i]).None? {
        assert forall i :: 0 <= i < |elements| - 1 ==> elements[1..][i] == elements[i + 1];
      }
    }
  }

  // ---------------------------------------------------------------------------
  // The next delivery
  // ---------------------------------------------------------------------------

  /** A regular-expression capture; all the delivery captures are non-empty. */
  type Capture = s: string | s != [] witness "0"

  /** What the date, slot and order patterns capture in one delivery element's text. */
  datatype DeliveryMatches = DeliveryMatches(date: Option<Capture>, slot: Option<Capture>, orderNumber: Option<Capture>)

  datatype DeliveryInfo = DeliveryInfo(nextDelivery: Option<string>, deliverySlot: Option<string>, orderNumber: Option<string>)

  /** The earliest present value. */
  function FirstSome<T>(xs: seq<Option<T>>): (r: Option<T>)
    ensures r.None? <==> forall i :: 0 <= i < |xs| ==> xs[i].None?
    ensures r.Some? ==> exists i :: 0 <= i < |xs| && xs[i] == r && forall m :: 0 <= m < i ==> xs[m].None?
  {
    if xs == [] then None
    else if xs[0].Some? then xs[0]
    else
      var tail := xs[1..];
      var r := FirstSome(tail);
      assert forall i :: 0 < i < |xs| ==> xs[i] == tail[i - 1];
      assert r.Some? ==> exists i :: 0 <= i < |xs| && xs[i] == r && forall m :: 0 <= m < i ==> xs[m].None? by {
        if r.Some? {
          var i :| 0 <= i < |tail| && tail[i] == r && forall m :: 0 <= m < i ==> tail[m].None?;
          assert xs[i + 1] == r;
        }
      }
      r
  }

  /** The latest present value. */
  function LastSome<T>(xs: seq<Option<T>>): (r: Option<T>)
    ensures r.None? <==> forall i :: 0 <= i < |xs| ==> xs[i].None?
  {
    if xs == [] then None
    else if xs[|xs| - 1].Some? then xs[|xs| - 1]
    else
      var init := xs[..|xs| - 1];
      assert forall i :: 0 <= i < |init| ==> xs[i] == init[i];
      LastSome(init)
  }

  /** A present value with nothing present after it is the latest present value. */
  lemma {:induction false} LastSomeIsLast<T>(xs: seq<Option<T>>, i: int)
    requires 0 <= i < |xs| && xs[i].Some?
    requires forall m :: i < m < |xs| ==> xs[m].None?
    ensures LastSome(xs) == xs[i]
    decreases |xs|
  {
    if i < |xs| - 1 {
      var init := xs[..|xs| - 1];
      assert init[i] == xs[i];
      assert forall m :: i < m < |init| ==> init[m] == xs[m];
      LastSomeIsLast(init, i);
    }
  }

  lemma {:induction false} FirstSomeSnoc<T>(xs: seq<Option<T>>, x: Option<T>)
    ensures FirstSome(xs + [x]) == if FirstSome(xs).Some? then FirstSome(xs) else x
    decreases |xs|
  {
    if xs == [] {
      assert (xs + [x])[1..] == [];
    } else {
      assert (xs + [x])[1..] == xs[1..] + [x];
      FirstSomeSnoc(xs[1..], x);
    }
  }

  function Dates(es: seq<DeliveryMatches>): seq<Option<string>> {
    seq(|es|, i requires 0 <= i < |es| => es[i].date)
  }

  function Slots(es: seq<DeliveryMatches>): seq<Option<string>> {
    seq(|es|, i requires 0 <= i < |es| => es[i].slot)
  }

  function OrderNumbers(es: seq<DeliveryMatches>): seq<Option<string>> {
    seq(|es|, i requires 0 <= i < |es| => es[i].orderNumber)
  }

  /**
    The delivery info of an account page: the date and the slot of the first
    element where they match, the order number of the last one.
  */
  function DeliveryInfoOf(elements: seq<DeliveryMatches>): DeliveryInfo {
    DeliveryInfo(FirstSome(Dates(elements)), FirstSome(Slots(elements)), LastSome(OrderNumbers(elements)))
  }

  /**
    The scan of the delivery elements: a date or a slot is kept only while
    none was found before; every order number overwrites the previous one.
  */
  method ParseDeliveryInfo(elements: seq<DeliveryMatches>) returns (info: DeliveryInfo)
    ensures info == DeliveryInfoOf(elements)
  {
    info := DeliveryInfo(None, None, None);
    for i := 0 to |elements|
      invariant info == DeliveryInfoOf(elements[..i])
    {
      var e := elements[i];
      DeliveryInfoStep(elements, i);
      if e.date.Some? && !TruthyString(info.nextDelivery) {
        info := info.(nextDelivery := e.date);
      }
      if e.slot.Some? && !TruthyString(info.deliverySlot) {
        info := info.(deliverySlot := e.slot);
      }
      if e.orderNumber.Some? {
        info := info.(orderNumber := e.orderNumber);
      }
    }
    assert elements[..|elements|] == elements;
  }

  /** One element more: how the delivery info of a prefix grows, in the scan's own terms. */
  lemma DeliveryInfoStep(es: seq<DeliveryMatches>, i: nat)
    requires i < |es|
    ensures var p, e := DeliveryInfoOf(es[..i]), es[i];
      DeliveryInfoOf(es[..i + 1]) == DeliveryInfo(
        if e.date.Some? && !TruthyString(p.nextDelivery) then e.date else p.nextDelivery,
        if e.slot.Some? && !TruthyString(p.deliverySlot) then e.slot else p.deliverySlot,
        if e.orderNumber.Some? then e.orderNumber else p.orderNumber)
  {
    var pre, e := es[..i], es[i];
    assert es[..i + 1] == pre + [e];
    assert Dates(pre + [e]) == Dates(pre) + [e.date];
    assert Slots(pre + [e]) == Slots(pre) + [e.slot];
    assert OrderNumbers(pre + [e]) == OrderNumbers(pre) + [e.orderNumber];
    FirstSomeSnoc(Dates(pre), e.date);
    FirstSomeSnoc(Slots(pre), e.slot);
    LastSomeSnoc(OrderNumbers(pre), e.orderNumber);
    FoundDateTruthy(pre);
  }

  /** Every capture is non-empty, so a date or slot once found is truthy. */
  lemma FoundDateTruthy(es: seq<DeliveryMatches>)
    ensures FirstSome(Dates(es)).Some? ==> TruthyString(FirstSome(Dates(es)))
    ensures FirstSome(Slots(es)).Some? ==> TruthyString(FirstSome(Slots(es)))
  {
    var d := FirstSome(Dates(es));
    if d.Some? {
      var k :| 0 <= k < |Dates(es)| && Dates(es)[k] == d && forall m :: 0 <= m < k ==> Dates(es)[m].None?;
      assert es[k].date == d;
    }
    var t := FirstSome(Slots(es));
    if t.Some? {
      var k :| 0 <= k < |Slots(es)| && Slots(es)[k] == t && forall m :: 0 <= m < k ==> Slots(es)[m].None?;
      assert es[k].slot == t;
    }
  }

  lemma LastSomeSnoc<T>(xs: seq<Option<T>>, x: Option<T>)
    ensures LastSome(xs + [x]) == if x.Some? then x else LastSome(xs)
  {
    assert (xs + [x])[..|xs|] == xs;
  }

  // ---------------------------------------------------------------------------
  // Product search
  // ---------------------------------------------------------------------------

  /**
    A product tile as the selectors see it: its `data-product-id`,
    `data-product` and `id` attributes, and the stripped text of its name and
    price elements (None when the element is missing).
  */
  datatype Container = Container(
    dataProductId: Option<string>,
    dataProduct: Option<string>,
    elementId: Option<string>,
    name: Option<string>,
    price: Option<string>)

  datatype Product = Product(id: string, name: string, price: string)

  /**
    The product built from a named tile when `count` products precede it: the
    first non-empty id attribute, else "product_<count>"; the price text, else
    "N/A".
  */
  function ProductOf(c: Container, count: nat): Product
    requires c.name.Some?
  {
    var id := match FirstTruthy([c.dataProductId, c.dataProduct, c.elementId])
              case Some(v) => v
              case None => "product_" + DecimalString(count);
    Product(id, c.name.value, c.price.GetOr("N/A"))
  }

  /** The tiles that have a name element, in page order. */
  function Named(cs: seq<Container>): (r: seq<Container>)
    ensures |r| <= |cs|
    ensures forall j :: 0 <= j < |r| ==> r[j].name.Some? && r[j] in cs
  {
    if cs == [] then []
    else
      var init := Named(cs[..|cs| - 1]);
      assert forall c :: c in cs[..|cs| - 1] ==> c in cs;
      if cs[|cs| - 1].name.Some? then init + [cs[|cs| - 1]] else init
  }

  /** The product list of a search over the given tiles, built one tile at a time. */
  function ProductsFrom(cs: seq<Container>): seq<Product> {
    if cs == [] then []
    else
      var ps := ProductsFrom(cs[..|cs| - 1]);
      var c := cs[|cs| - 1];
      if c.name.Some? then ps + [ProductOf(c, |ps|)] else ps
  }

  /**
    The tile loop: the tiles beyond the first `maxResults` are ignored, then
    every tile without a name element is skipped.
  */
  method CollectProducts(containers: seq<Container>, maxResults: nat) returns (products: seq<Product>)
    ensures products == ProductsFrom(Take(containers, maxResults))
  {
    var tiles := Take(containers, maxResults);
    products := [];
    for i := 0 to |tiles|
      invariant products == ProductsFrom(tiles[..i])
    {
      assert tiles[..i + 1][..i] == tiles[..i];
      var elem := tiles[i];
      if elem.name.Some? {
        var productId := FirstTruthy([elem.dataProductId, elem.dataProduct, elem.elementId]);
        var id := if productId.Some? then productId.value else "product_" + DecimalString(|products|);
        products := products + [Product(id, elem.name.value, if elem.price.Some? then elem.price.value else "N/A")];
      }
    }
    assert tiles[..|tiles|] == tiles;
  }

  /**
    The j-th product comes from the j-th named tile: its name and price are
    that tile's, and its id is the tile's first non-empty id attribute or
    "product_<j>".
  */
  lemma {:induction false} ProductsAreNamedTiles(cs: seq<Container>)
    ensures |ProductsFrom(cs)| == |Named(cs)|
    ensures forall j :: 0 <= j < |Named(cs)| ==> ProductsFrom(cs)[j] == ProductOf(Named(cs)[j], j)
    decreases |cs|
  {
    if cs != [] {
      var init, c := cs[..|cs| - 1], cs[|cs| - 1];
      ProductsAreNamedTiles(init);
      if c.name.Some? {
        assert Named(cs) == Named(init) + [c];
        assert ProductsFrom(cs) == ProductsFrom(init) + [ProductOf(c, |ProductsFrom(init)|)];
      } else {
        assert Named(cs) == Named(init);
        assert ProductsFrom(cs) == ProductsFrom(init);
      }
    }
  }

  /** A search returns at most `maxResults` products, each with a non-empty id. */
  lemma SearchResultBound(containers: seq<Container>, maxResults: nat)
    ensures |ProductsFrom(Take(containers, maxResults))| <= maxResults
    ensures forall p :: p in ProductsFrom(Take(containers, maxResults)) ==> p.id != ""
  {
    var cs := Take(containers, maxResults);
    ProductsAreNamedTiles(cs);
    forall p | p in ProductsFrom(cs)
      ensures p.id != ""
    {
      var j :| 0 <= j < |ProductsFrom(cs)| && ProductsFrom(cs)[j] == p;
      assert p == ProductOf(Named(cs)[j], j);
    }
  }

  // ---------------------------------------------------------------------------
  // Basket lines
  // ---------------------------------------------------------------------------

  /** A basket line as the selectors see it: the stripped texts of its name and quantity elements. */
  datatype BasketElement = BasketElement(name: Option<string>, quantityText: Option<string>)

  datatype BasketItem = BasketItem(name: string, quantity: int)

  /**
    The item a basket line gives: none without a name element; quantity 1
    without a quantity element; none when the quantity text is not an integer
    (the exception is swallowed and the line skipped).
  */
  function ItemOf(e: BasketElement): Option<BasketItem> {
    if e.name.None? then None
    else match e.quantityText
      case None => Some(BasketItem(e.name.value, 1))
      case Some(text) =>
        match ParseInt(text)
        case None => None
        case Some(q) => Some(BasketItem(e.name.value, q))
  }

  /** The basket items read from the given lines, one line at a time. */
  function ItemsFrom(es: seq<BasketElement>): seq<BasketItem> {
    if es == [] then []
    else
      var init := ItemsFrom(es[..|es| - 1]);
      match ItemOf(es[|es| - 1])
      case Some(item) => init + [item]
      case None => init
  }

  /** The basket loop over the lines found on the basket page. */
  method CollectBasketItems(elements: seq<BasketElement>) returns (items: seq<BasketItem>)
    ensures items == ItemsFrom(elements)
  {
    items := [];
    for i := 0 to |elements|
      invariant items == ItemsFrom(elements[..i])
    {
      assert elements[..i + 1][..i] == elements[..i];
      var elem := elements[i];
      if elem.name.Some? {
        var quantity: Option<int> := Some(1);
        if elem.quantityText.Some? {
          quantity := ParseInt(elem.quantityText.value);
        }
        if quantity.Some? {
          items := items + [BasketItem(elem.name.value, quantity.value)];
        }
      }
    }
    assert elements[..|elements|] == elements;
  }

  lemma {:induction false} ItemsFromConcat(a: seq<BasketElement>, b: seq<BasketElement>)
    ensures ItemsFrom(a + b) == ItemsFrom(a) + ItemsFrom(b)
    decreases |b|
  {
    if b == [] {
      assert a + b == a;
    } else {
      assert (a + b)[..|a + b| - 1] == a + b[..|b| - 1];
      ItemsFromConcat(a, b[..|b| - 1]);
    }
  }

  /**
    A line that yields no item (no name, or a quantity that is not an
    integer) drops only itself: the lines around it are read as if it were
    not there; a named line whose quantity text is `str(q)` gives quantity q.
  */
  lemma BadLineDropsOnlyItself(before: seq<BasketElement>, e: BasketElement, after: seq<BasketElement>)
    ensures ItemOf(e).None? ==> ItemsFrom(before + [e] + after) == ItemsFrom(before) + ItemsFrom(after)
    ensures e.name.Some? && e.quantityText.Some? ==>
              (forall q :: e.quantityText.value == IntString(q) ==>
                 ItemsFrom(before + [e] + after) == ItemsFrom(before) + [BasketItem(e.name.value, q)] + ItemsFrom(after))
  {
    ItemsFromConcat(before + [e], after);
    ItemsFromConcat(before, [e]);
    assert [e][..0] == [];
    forall q | e.name.Some? && e.quantityText.Some? && e.quantityText.value == IntString(q)
      ensures ItemsFrom(before + [e] + after) == ItemsFrom(before) + [BasketItem(e.name.value, q)] + ItemsFrom(after)
    {
      IntStringRoundTrip(q);
    }
  }

  // ---------------------------------------------------------------------------
  // The add-to-basket reply
  // ---------------------------------------------------------------------------

  /** The reply body: its text, and the decoded JSON document when `.json()` succeeds. */
  datatype AddResponse = AddResponse(text: string, json: Option<string>)

  /** The `response_data` of a basket operation. */
  datatype ResponseData =
    | JsonBody(document: string)
    | EmptyObject
    | RawResponse(text: string)
    | HttpFailure(status: int, error: string)

  datatype BasketOperationResult = BasketOperationResult(success: bool, message: string, responseData: Option<ResponseData>)

  const AddedMessage := "Item added to basket successfully"

  /**
    The classification of the reply to an add-to-basket request: 200 and 201
    succeed with the decoded body (`{}` for an empty body, the raw text when
    it is not JSON); any other status fails with the status and the first 200
    characters of the body; a transport or decoding error fails with its
    message and no data.
  */
  function ClassifyAddReply(reply: Reply<AddResponse>): BasketOperationResult {
    match reply
    case TransportError(e) => BasketOperationResult(false, "Error: " + e, None)
    case Response(status, Unreadable(e)) => BasketOperationResult(false, "Error: " + e, None)
    case Response(status, Read(r)) =>
      if status == 200 || status == 201 then
        var data := if r.text == "" then EmptyObject
                    else match r.json
                      case Some(doc) => JsonBody(doc)
                      case None => RawResponse(r.text);
        BasketOperationResult(true, AddedMessage, Some(data))
      else
        BasketOperationResult(false, "Failed with HTTP " + IntString(status),
                              Some(HttpFailure(status, Take(r.text, 200))))
  }

  /**
    An add succeeds exactly on a readable 200 or 201 reply; a success always
    carries data; an HTTP failure reports its own status and at most the
    first 200 characters of the body; a raised error carries no data.
  */
  lemma AddReplyClassification(reply: Reply<AddResponse>)
    ensures var r := ClassifyAddReply(reply);
            && (r.success <==> reply.Response? && reply.body.Read? && (reply.status == 200 || reply.status == 201))
            && (r.success ==> r.message == AddedMessage && r.responseData.Some?
                              && !r.responseData.value.HttpFailure?)
            && (r.responseData.Some? && r.responseData.value.HttpFailure? ==>
                  && reply.Response? && reply.body.Read?
                  && r.responseData.value.status == reply.status
                  && |r.responseData.value.error| <= 200
                  && r.responseData.value.error <= reply.body.value.text)
            && (r.responseData.None? <==> reply.TransportError? || reply.body.Unreadable?)
  {
  }

  /**
    What each reply is reported as, case by case: the data of a success (an
    empty object for an empty body, the decoded document, or the raw text
    when the body is not JSON); the status message and the body cut to 200
    characters for any other status; the error message, with no data, for
    a transport or decoding error.
  */
  lemma AddReplyContents(reply: Reply<AddResponse>)
    ensures reply.TransportError? ==>
              ClassifyAddReply(reply) == BasketOperationResult(false, "Error: " + reply.reason, None)
    ensures reply.Response? && reply.body.Unreadable? ==>
              ClassifyAddReply(reply) == BasketOperationResult(false, "Error: " + reply.body.reason, None)
    ensures reply.Response? && reply.body.Read? && reply.status != 200 && reply.status != 201 ==>
              var text := reply.body.value.text;
              && ClassifyAddReply(reply).message == "Failed with HTTP " + IntString(reply.status)
              && ClassifyAddReply(reply).responseData
                 == Some(HttpFailure(reply.status, if |text| <= 200 then text else text[..200]))
    ensures reply.Response? && reply.body.Read? && (reply.status == 200 || reply.status == 201) ==>
              var body := reply.body.value;
              && (body.text == "" ==> ClassifyAddReply(reply).responseData == Some(EmptyObject))
              && (body.text != "" && body.json.Some? ==>
                    ClassifyAddReply(reply).responseData == Some(JsonBody(body.json.value)))
              && (body.text != "" && body.json.None? ==>
                    ClassifyAddReply(reply).responseData == Some(RawResponse(body.text)))
  {
  }

  // ---------------------------------------------------------------------------
  // Selector validation
  // ---------------------------------------------------------------------------

  /** The exception raised when a selector finds nothing and warnings are not enough. */
  datatype SelectorValidationError = SelectorValidationError(selectorType: string, message: string)

  const StructureChanged := " Website structure may have changed."

  const SelectorErrorMessages: map<string, string> := map[
    "clubcard_points" := "Unable to find Clubcard points on page." + StructureChanged,
    "delivery_info" := "Unable to find delivery information." + StructureChanged,
    "product_search" := "Unable to find product listings." + StructureChanged,
    "basket_items" := "Unable to parse basket items." + StructureChanged
  ]

  function BaseMessage(selectorType: string): string {
    if selectorType in SelectorErrorMessages then SelectorErrorMessages[selectorType]
    else "Selector validation failed"
  }

  /** The exception's message: the known message for the selector, a blank and the details, stripped. */
  function NewSelectorValidationError(selectorType: string, details: string): SelectorValidationError {
    SelectorValidationError(selectorType, Strip(BaseMessage(selectorType) + " " + details))
  }

  /** The check either returns its verdict or raises. */
  datatype Validation = Verdict(passed: bool) | Rejected(error: SelectorValidationError)

  function ValidateSelectorResults(foundElements: nat, selectorType: string, warnOnly: bool): Validation {
    if foundElements == 0 then
      if warnOnly then Verdict(false)
      else Rejected(NewSelectorValidationError(selectorType, "Found " + DecimalString(foundElements) + " elements"))
    else Verdict(true)
  }

  lemma BaseMessageStart(selectorType: string)
    ensures BaseMessage(selectorType) != [] && !IsSpace(BaseMessage(selectorType)[0])
  {
    if selectorType == "clubcard_points" {
      assert selectorType in SelectorErrorMessages;
      assert BaseMessage(selectorType) == "Unable to find Clubcard points on page." + StructureChanged;
      assert ("Unable to find Clubcard points on page." + StructureChanged)[0] == 'U';
    } else if selectorType == "delivery_info" {
      assert selectorType in SelectorErrorMessages;
      assert BaseMessage(selectorType) == "Unable to find delivery information." + StructureChanged;
      assert ("Unable to find delivery information." + StructureChanged)[0] == 'U';
    } else if selectorType == "product_search" {
      assert selectorType in SelectorErrorMessages;
      assert BaseMessage(selectorType) == "Unable to find product listings." + StructureChanged;
      assert ("Unable to find product listings." + StructureChanged)[0] == 'U';
    } else if selectorType == "basket_items" {
      assert selectorType in SelectorErrorMessages;
      assert BaseMessage(selectorType) == "Unable to parse basket items." + StructureChanged;
      assert ("Unable to parse basket items." + StructureChanged)[0] == 'U';
    } else {
      assert selectorType !in SelectorErrorMessages;
      assert BaseMessage(selectorType)[0] == 'S';
    }
  }

  lemma StripUnchanged(s: string)
    requires s != [] && !IsSpace(s[0]) && !IsSpace(s[|s| - 1])
    ensures Strip(s) == s
  {
  }

  /**
    The check passes exactly when something was found; an empty result only
    warns in warn-only mode and otherwise raises with the selector's message
    followed by " Found 0 elements".
  */
  lemma SelectorValidationOutcome(foundElements: nat, selectorType: string, warnOnly: bool)
    ensures var v := ValidateSelectorResults(foundElements, selectorType, warnOnly);
            && (v == Verdict(true) <==> foundElements > 0)
            && (v.Rejected? <==> foundElements == 0 && !warnOnly)
            && (v.Rejected? ==> v.error == SelectorValidationError(selectorType, BaseMessage(selectorType) + " Found 0 elements"))
  {
    if foundElements == 0 && !warnOnly {
      var s := BaseMessage(selectorType) + " " + ("Found " + DecimalString(0) + " elements");
      assert DecimalString(0) == "0";
      assert s == BaseMessage(selectorType) + " Found 0 elements";
      BaseMessageStart(selectorType);
      StripUnchanged(s);
    }
  }
}
