/** The two calls to the France Travail API (`get_token` and `search_job_offers`
    in src/get_data.py). The HTTP exchange itself is outside the model: a call
    is represented by the response it got, and what is modelled is the URL that
    is requested and what each function makes of the response. */
module Api {
  import opened Values
  import opened Text

  /** A response: its status code, its body as text, and the body decoded as
      JSON (`None` when the body is not JSON, where `response.json()` raises). */
  datatype HttpResponse = HttpResponse(status: int, text: string, json: Option<Value>)

  /** `f"Erreur : {response.status_code} - {response.text}"`: the text
      starts with "Erreur : " and ends with the body of the response. */
  function ErrorText(resp: HttpResponse): (r: string)
    ensures |r| > 9 + |resp.text| && r[..9] == "Erreur : " && r[|r| - |resp.text|..] == resp.text
  {
    "Erreur : " + IntToString(resp.status) + " - " + resp.text
  }

  /** `get_token`: on 200, the `access_token` field of the JSON body (KeyError
      when the object lacks it, TypeError when the body is not an object); on any
      other status, the error text, which the caller then uses as its token. */
  function GetToken(resp: HttpResponse): (r: Result<Value>)
    ensures resp.status != 200 ==> r == Ok(Str(ErrorText(resp)))
    ensures resp.status == 200 && resp.json.None? ==> r == Err(JsonDecodeError)
    ensures resp.status == 200 && resp.json.Some? ==>
      match resp.json.value
      case Obj(fields) =>
        if "access_token" in fields then r == Ok(fields["access_token"]) else r == Err(KeyError("access_token"))
      case _ => r.Err? && r.error.TypeError?
  {
    if resp.status != 200 then Ok(Str(ErrorText(resp)))
    else
      match resp.json
      case None => Err(JsonDecodeError)
      case Some(Obj(fields)) =>
        if "access_token" in fields then Ok(fields["access_token"]) else Err(KeyError("access_token"))
      case Some(_) => Err(TypeError("indices must be integers"))
  }

  const SearchEndpoint: string := "https://api.francetravail.io/partenaire/offresdemploi/v2/offres/search"

  /** The URL `search_job_offers` requests: the range and the keywords, and the
      two creation-date bounds only when both are given. The values are pasted
      in as they are, without URL encoding. */
  function SearchUrl(rangeValue: string, keywords: string, beginning: Option<string>, ending: Option<string>): (url: string)
    ensures SearchEndpoint + "?range=" + rangeValue + "&motsCles=" + keywords <= url
  {
    var base := SearchEndpoint + "?range=" + rangeValue + "&motsCles=" + keywords;
    if beginning.None? || ending.None? then base
    else base + "&minCreationDate=" + beginning.value + "&maxCreationDate=" + ending.value
  }

  /** `search_job_offers` once the response is in: the decoded body on 200 or
      206 (whatever JSON it is), the error text on any other status. */
  function SearchJobOffers(resp: HttpResponse): (r: Result<Value>)
    ensures r.Err? <==> (resp.status == 200 || resp.status == 206) && resp.json.None?
    ensures r.Err? ==> r.error == JsonDecodeError
    ensures r.Ok? && r.value.Obj? ==> resp.status == 200 || resp.status == 206
    ensures resp.status != 200 && resp.status != 206 ==> r == Ok(Str(ErrorText(resp)))
  {
    if resp.status == 200 || resp.status == 206 then
      match resp.json
      case None => Err(JsonDecodeError)
      case Some(v) => Ok(v)
    else Ok(Str(ErrorText(resp)))
  }

  // ------------------------------------------------------------------ lemmas

  /** The date bounds are appended to the URL without them, and a single bound
      is dropped. */
  lemma DatesOnlyWithBoth(rangeValue: string, keywords: string, beginning: Option<string>, ending: Option<string>)
    ensures var bare := SearchUrl(rangeValue, keywords, None, None);
      if beginning.Some? && ending.Some? then
        SearchUrl(rangeValue, keywords, beginning, ending)
          == bare + "&minCreationDate=" + beginning.value + "&maxCreationDate=" + ending.value
      else SearchUrl(rangeValue, keywords, beginning, ending) == bare
  {
  }
}
