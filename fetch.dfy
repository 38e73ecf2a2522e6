/** The paging loop of `get_offers_data` in src/get_data.py: one token request
    and one search request per page of 50 offers, the offers of every page that
    came back as a JSON object flattened and appended in order.

    The two HTTP endpoints are parameters: `tokenApi(k)` is the response to the
    token request of page `k`, `searchApi(k, url, token)` the response to the
    search request of page `k` for that URL and token. */
module Fetch {
  import opened Values
  import opened Text
  import opened Api
  import opened Offers

  /** The arguments of one `get_offers_data` call that stay the same on every
      page: the search words `mots_cles`, the optional creation-date window,
      and the two endpoints. */
  datatype Query = Query(keywords: string, beginning: Option<string>, ending: Option<string>,
                         tokenApi: nat -> HttpResponse, searchApi: (nat, string, Value) -> HttpResponse)

  /** `step`: the number of offers asked for per page. */
  const Step: nat := 50

  /** The number of pages `range(0, max_results, step)` visits. */
  function PageCount(maxResults: int): nat
  {
    if maxResults <= 0 then 0 else (maxResults + Step - 1) / Step
  }

  /** Page `k` starts at offset `Step * k`, and the pages are exactly those whose
      offset is below `max_results`. */
  lemma PageOffsets(maxResults: int, k: nat)
    ensures k < PageCount(maxResults) <==> Step * k < maxResults
  {
    if maxResults > 0 {
      var n := PageCount(maxResults);
      assert Step * n >= maxResults && Step * (n - 1) < maxResults by {
        var q, r := (maxResults + Step - 1) / Step, (maxResults + Step - 1) % Step;
        assert maxResults + Step - 1 == Step * q + r;
      }
      if k < n {
        assert Step * k <= Step * (n - 1);
      } else {
        assert Step * k >= Step * n;
      }
    }
  }

  /** `f'{i}-{i+step-1}'`: for an offset `i`, the API reads the first and
      the last offset of the page, `Step` offsets apart, on either side of the
      dash. */
  function RangeValue(i: int): (r: string)
    ensures i >= 0 ==> var p := |NatToString(i)|;
      && p + 1 < |r| && r[p] == '-'
      && AllDigits(r[..p]) && DigitsValue(r[..p]) == i
      && AllDigits(r[p + 1..]) && DigitsValue(r[p + 1..]) == i + Step - 1
  {
    if i >= 0 then
      DashedPair(i, i + Step - 1);
      NatToString(i) + "-" + NatToString(i + Step - 1)
    else IntToString(i) + "-" + IntToString(i + Step - 1)
  }

  /** The two numbers of `a-b` read back on either side of the dash. */
  lemma DashedPair(a: nat, b: nat)
    ensures var r, p := NatToString(a) + "-" + NatToString(b), |NatToString(a)|;
      && p + 1 < |r| && r[p] == '-'
      && r[..p] == NatToString(a) && r[p + 1..] == NatToString(b)
      && AllDigits(r[..p]) && DigitsValue(r[..p]) == a
      && AllDigits(r[p + 1..]) && DigitsValue(r[p + 1..]) == b
  {
    var r, p := NatToString(a) + "-" + NatToString(b), |NatToString(a)|;
    assert r[..p] == NatToString(a);
    assert r[p + 1..] == NatToString(b);
    NatToStringRoundTrip(a);
    NatToStringRoundTrip(b);
  }

  /** What `for offer in job_offers.get('resultats', [])` iterates over: the
      list's items; the one-character strings of a string; the keys of a dict
      (strings, on which `offer.get` fails); nothing for an absent key. Other
      values cannot be iterated. */
  function OffersIn(page: map<string, Value>): (r: Result<seq<Value>>)
    ensures "resultats" !in page ==> r == Ok([])
    ensures "resultats" in page && page["resultats"].Arr? ==> r == Ok(page["resultats"].items)
  {
    var results := if "resultats" in page then page["resultats"] else Arr([]);
    match results
    case Arr(items) => Ok(items)
    case Str(s) => Ok(seq(|s|, i requires 0 <= i < |s| => Str([s[i]])))
    case Obj(fields) => if fields == map[] then Ok([]) else Err(AttributeError("get"))
    case _ => Err(TypeError("object is not iterable"))
  }

  /** The flat rows of a page's offers, in order; the first offer that cannot
      be flattened aborts. */
  function FlattenAll(offers: seq<Value>): Result<seq<Row>>
  {
    FlattenEach(offers, Flatten)
  }

  /** `FlattenAll` for any per-offer flattening, so that its proofs need not
      look inside `Flatten`. */
  function FlattenEach(offers: seq<Value>, flatten: Value -> Result<Row>): Result<seq<Row>>
  {
    if offers == [] then Ok([])
    else
      match FlattenEach(offers[..|offers| - 1], flatten)
      case Err(e) => Err(e)
      case Ok(rows) =>
        match flatten(offers[|offers| - 1])
        case Err(e) => Err(e)
        case Ok(row) => Ok(rows + [row])
  }

  /** A page's rows are its offers flattened one by one, in order, and the
      page fails exactly when one of its offers cannot be flattened. */
  lemma {:induction false} FlattenEachRows(offers: seq<Value>, flatten: Value -> Result<Row>)
    ensures var r := FlattenEach(offers, flatten);
      && (r.Ok? <==> forall i :: 0 <= i < |offers| ==> flatten(offers[i]).Ok?)
      && (r.Ok? ==> |r.value| == |offers| && forall i :: 0 <= i < |offers| ==> flatten(offers[i]) == Ok(r.value[i]))
      && (r.Err? ==> exists i :: 0 <= i < |offers| && flatten(offers[i]) == Err(r.error)
                                && forall j :: 0 <= j < i ==> flatten(offers[j]).Ok?)
  {
    if offers != [] {
      var n := |offers| - 1;
      var init := offers[..n];
      FlattenEachRows(init, flatten);
      assert forall i :: 0 <= i < n ==> init[i] == offers[i];
      var prefix := FlattenEach(init, flatten);
      if prefix.Err? {
        var i :| 0 <= i < n && flatten(init[i]) == Err(prefix.error) && forall j :: 0 <= j < i ==> flatten(init[j]).Ok?;
        assert flatten(offers[i]) == Err(prefix.error);
      } else if flatten(offers[n]).Ok? {
        var rows := prefix.value + [flatten(offers[n]).value];
        assert forall i :: 0 <= i < n ==> rows[i] == prefix.value[i];
      } else {
        assert forall j :: 0 <= j < n ==> flatten(offers[j]).Ok?;
      }
    }
  }

  /** `FlattenEachRows` for the pipeline's own flattening. */
  lemma FlattenAllRows(offers: seq<Value>)
    ensures var r := FlattenAll(offers);
      && (r.Ok? <==> forall i :: 0 <= i < |offers| ==> Flatten(offers[i]).Ok?)
      && (r.Ok? ==> |r.value| == |offers| && forall i :: 0 <= i < |offers| ==> Flatten(offers[i]) == Ok(r.value[i]))
      && (r.Err? ==> r.error.AttributeError?)
      && (r.Err? ==> exists i :: 0 <= i < |offers| && Flatten(offers[i]) == Err(r.error)
                                && forall j :: 0 <= j < i ==> Flatten(offers[j]).Ok?)
  {
    FlattenEachRows(offers, Flatten);
  }

  /** The rows page `k` contributes: nothing when the search result is not a
      JSON object (an error text, a list), its flattened offers otherwise. An
      exception in either request or in flattening aborts. Every row it
      contributes has exactly the fourteen base columns. */
  function PageRows(k: nat, q: Query): (r: Result<seq<Row>>)
    ensures r.Ok? ==> forall row :: row in r.value ==> row.Keys == BaseColumns
  {
    match GetToken(q.tokenApi(k))
    case Err(e) => Err(e)
    case Ok(token) =>
      var url := SearchUrl(RangeValue(Step * k), q.keywords, q.beginning, q.ending);
      match SearchJobOffers(q.searchApi(k, url, token))
      case Err(e) => Err(e)
      case Ok(Obj(page)) =>
        (match OffersIn(page)
         case Err(e) => Err(e)
         case Ok(offers) => FlattenedRowsAreFlat(offers); FlattenAll(offers))
      case Ok(_) => Ok([])
  }

  /** The rows of a run of pages: the rows of each page in page order, or the
      error of the first page that raised. The run succeeds exactly when
      every page does. */
  function Collect(pages: seq<Result<seq<Row>>>): (r: Result<seq<Row>>)
    ensures r.Ok? <==> forall k :: 0 <= k < |pages| ==> pages[k].Ok?
  {
    if pages == [] then Ok([])
    else
      match Collect(pages[..|pages| - 1])
      case Err(e) => Err(e)
      case Ok(rows) =>
        match pages[|pages| - 1]
        case Err(e) => Err(e)
        case Ok(more) => Ok(rows + more)
  }

  /** The outcome of each of the first `n` pages. */
  function PageResults(n: nat, q: Query): seq<Result<seq<Row>>>
  {
    seq(n, k requires 0 <= k => PageRows(k, q))
  }

  lemma PageResultsAt(n: nat, q: Query)
    ensures |PageResults(n, q)| == n
    ensures forall k :: 0 <= k < n ==> PageResults(n, q)[k] == PageRows(k, q)
  {
  }

  /** The rows of the first `n` pages, in page order; the fetch succeeds
      exactly when each of those pages does. */
  function Pages(n: nat, q: Query): (r: Result<seq<Row>>)
    ensures r.Ok? <==> forall k :: 0 <= k < n ==> PageRows(k, q).Ok?
  {
    PageResultsAt(n, q);
    Collect(PageResults(n, q))
  }

  /** `get_offers_data`. */
  method GetOffersData(maxResults: int, q: Query)
    returns (r: Result<seq<Row>>)
    ensures r == Pages(PageCount(maxResults), q)
  {
    ghost var n := PageCount(maxResults);
    ghost var results := PageResults(n, q);
    var allOffers: seq<Row> := [];
    var i := 0;
    var k: nat := 0;
    while i < maxResults
      invariant i == Step * k && k <= n
      invariant Collect(results[..k]) == Ok(allOffers)
      decreases maxResults - i
    {
      assert k < n by { PageOffsets(maxResults, k); }
      var page := FetchPage(k, i, q);
      assert results[..k + 1][..k] == results[..k];
      if page.Err? {
        CollectAbort(results, k + 1);
        return page;
      }
      allOffers := allOffers + page.value;
      i := i + Step;
      k := k + 1;
    }
    assert k == n by { PageOffsets(maxResults, k); }
    assert results[..k] == results;
    return Ok(allOffers);
  }

  /** One pass of the loop body of `get_offers_data`: the token request, the
      search request for offsets `i` to `i + Step - 1`, and the offers of the
      page appended one by one. */
  method FetchPage(k: nat, i: int, q: Query)
    returns (r: Result<seq<Row>>)
    requires i == Step * k
    ensures r == PageRows(k, q)
  {
    var rangeValue := RangeValue(i);
    var token := GetToken(q.tokenApi(k));
    if token.Err? {
      return Err(token.error);
    }
    var jobOffers := SearchJobOffers(q.searchApi(k, SearchUrl(rangeValue, q.keywords, q.beginning, q.ending), token.value));
    if jobOffers.Err? {
      return Err(jobOffers.error);
    }
    if !jobOffers.value.Obj? {
      return Ok([]);
    }
    var offers := OffersIn(jobOffers.value.fields);
    if offers.Err? {
      return Err(offers.error);
    }
    r := FlattenOffers(offers.value);
  }

  /** The inner loop of `get_offers_data`: each offer of the page flattened
      and appended in turn. */
  method FlattenOffers(offers: seq<Value>) returns (r: Result<seq<Row>>)
    ensures r == FlattenAll(offers)
  {
    var rows: seq<Row> := [];
    var j := 0;
    while j < |offers|
      invariant 0 <= j <= |offers|
      invariant FlattenAll(offers[..j]) == Ok(rows)
    {
      var extracted := Flatten(offers[j]);
      assert offers[..j + 1][..j] == offers[..j];
      if extracted.Err? {
        FlattenAbort(offers, j + 1);
        return Err(extracted.error);
      }
      rows := rows + [extracted.value];
      j := j + 1;
    }
    assert offers[..j] == offers;
    return Ok(rows);
  }

  /** An error among the first `m` pages is the error of the whole run. */
  lemma {:induction false} CollectAbort(pages: seq<Result<seq<Row>>>, m: nat)
    requires m <= |pages| && Collect(pages[..m]).Err?
    decreases |pages| - m
    ensures Collect(pages) == Collect(pages[..m])
  {
    if m < |pages| {
      assert pages[..m + 1][..m] == pages[..m];
      CollectAbort(pages, m + 1);
    } else {
      assert pages[..m] == pages;
    }
  }

  /** An error among the first `m` offers is the error of the whole page. */
  lemma {:induction false} FlattenAbort(offers: seq<Value>, m: nat)
    requires m <= |offers| && FlattenAll(offers[..m]).Err?
    decreases |offers| - m
    ensures FlattenAll(offers) == FlattenAll(offers[..m])
  {
    if m < |offers| {
      assert offers[..m + 1][..m] == offers[..m];
      FlattenAbort(offers, m + 1);
    } else {
      assert offers[..m] == offers;
    }
  }

  /** A search request answered with a status other than 200 or 206 yields an
      error text instead of a dict, and the page adds no rows. */
  lemma RefusedPageIsSkipped(k: nat, q: Query)
    requires GetToken(q.tokenApi(k)).Ok?
    requires var resp := q.searchApi(k, SearchUrl(RangeValue(Step * k), q.keywords, q.beginning, q.ending),
                                     GetToken(q.tokenApi(k)).value);
             resp.status != 200 && resp.status != 206
    ensures PageRows(k, q) == Ok([])
  {
  }

  /** Every row flattened from a page's offers has exactly the fourteen
      base columns. */
  lemma FlattenedRowsAreFlat(offers: seq<Value>)
    ensures FlattenAll(offers).Ok? ==> forall row :: row in FlattenAll(offers).value ==> row.Keys == BaseColumns
  {
    if FlattenAll(offers).Ok? {
      var rows := FlattenAll(offers).value;
      FlattenAllRows(offers);
      forall row | row in rows
        ensures row.Keys == BaseColumns
      {
        var i :| 0 <= i < |rows| && rows[i] == row;
        FlattenCopiesFields(offers[i]);
      }
    }
  }

  /** Collecting more pages only appends: the rows of the first `m` pages come
      first, in the same order. */
  lemma {:induction false} CollectExtends(pages: seq<Result<seq<Row>>>, m: nat)
    requires m <= |pages| && Collect(pages).Ok?
    decreases |pages| - m
    ensures Collect(pages[..m]).Ok? && Collect(pages[..m]).value <= Collect(pages).value
  {
    if m < |pages| {
      var shorter := pages[..|pages| - 1];
      assert shorter[..m] == pages[..m];
      CollectExtends(shorter, m);
    } else {
      assert pages[..m] == pages;
    }
  }

  /** Collecting fails exactly when some page failed, and then with the error
      of the first page that failed. */
  lemma {:induction false} CollectFirstError(pages: seq<Result<seq<Row>>>)
    ensures Collect(pages).Ok? <==> forall k :: 0 <= k < |pages| ==> pages[k].Ok?
    ensures Collect(pages).Err? ==>
      exists k :: 0 <= k < |pages| && Collect(pages) == pages[k] && forall j :: 0 <= j < k ==> pages[j].Ok?
  {
    if pages != [] {
      var shorter := pages[..|pages| - 1];
      CollectFirstError(shorter);
      if Collect(shorter).Err? {
        var k :| 0 <= k < |shorter| && Collect(shorter) == shorter[k] && forall j :: 0 <= j < k ==> shorter[j].Ok?;
        assert Collect(pages) == pages[k];
      } else if pages[|pages| - 1].Err? {
        assert Collect(pages) == pages[|pages| - 1];
      }
    }
  }

  /** Collecting keeps every row of every page, and nothing else. */
  lemma {:induction false} CollectKeepsRows(pages: seq<Result<seq<Row>>>)
    requires Collect(pages).Ok?
    ensures forall row :: row in Collect(pages).value <==> exists k :: 0 <= k < |pages| && pages[k].Ok? && row in pages[k].value
  {
    CollectFirstError(pages);
    if pages != [] {
      var shorter := pages[..|pages| - 1];
      CollectFirstError(shorter);
      CollectKeepsRows(shorter);
      forall row
        ensures row in Collect(pages).value <==> exists k :: 0 <= k < |pages| && pages[k].Ok? && row in pages[k].value
      {
        if row in Collect(pages).value && row !in pages[|pages| - 1].value {
          var k :| 0 <= k < |shorter| && shorter[k].Ok? && row in shorter[k].value;
          assert row in pages[k].value;
        }
      }
    }
  }

  /** Every row `get_offers_data` returns has exactly the fourteen base
      columns. */
  lemma FetchedRowsAreFlat(n: nat, q: Query)
    requires Pages(n, q).Ok?
    ensures forall row :: row in Pages(n, q).value ==> row.Keys == BaseColumns
  {
    var results := PageResults(n, q);
    CollectFirstError(results);
    CollectKeepsRows(results);
    forall row | row in Pages(n, q).value
      ensures row.Keys == BaseColumns
    {
      var k :| 0 <= k < n && results[k].Ok? && row in results[k].value;
    }
  }

  /** Fetching more pages only appends. */
  lemma PagesExtend(m: nat, n: nat, q: Query)
    requires m <= n && Pages(n, q).Ok?
    ensures Pages(m, q).Ok? && Pages(m, q).value <= Pages(n, q).value
  {
    var results := PageResults(n, q);
    CollectExtends(results, m);
    assert results[..m] == PageResults(m, q);
  }

  /** The fetch fails exactly when some page fails, and then with the error of
      the first page that fails. */
  lemma FirstFailingPage(n: nat, q: Query)
    ensures Pages(n, q).Ok? <==> forall k :: 0 <= k < n ==> PageRows(k, q).Ok?
    ensures Pages(n, q).Err? ==>
      exists k :: 0 <= k < n && Pages(n, q) == PageRows(k, q) && forall j :: 0 <= j < k ==> PageRows(j, q).Ok?
  {
    PageResultsAt(n, q);
    CollectFirstError(PageResults(n, q));
  }

  /** A non-empty string under `resultats` is iterated character by character,
      and the first character has no `get`: the page raises. */
  lemma StringResultsRaise(k: nat, q: Query, page: map<string, Value>)
    requires GetToken(q.tokenApi(k)).Ok?
    requires SearchJobOffers(q.searchApi(k, SearchUrl(RangeValue(Step * k), q.keywords, q.beginning, q.ending),
                                         GetToken(q.tokenApi(k)).value)) == Ok(Obj(page))
    requires "resultats" in page && page["resultats"].Str? && page["resultats"].s != []
    ensures PageRows(k, q).Err? && PageRows(k, q).error.AttributeError?
  {
    var offers := OffersIn(page).value;
    assert !Flatten(offers[0]).Ok?;
    FlattenAllRows(offers);
  }
}
