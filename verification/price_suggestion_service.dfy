/** src/services/priceSuggestionService.ts: unwrapping the price suggestion envelope. */
module PriceSuggestionService {
  import opened Wrappers
  import opened Js

  const NoResponse: string := "No response from price suggestion API"
  const SuggestionFailed: string := "Lấy gợi ý giá thất bại"
  const DataMissing: string := "Price suggestion data missing"

  /** The message of the `Error` thrown when the server reports failure: its `message`, or the default. */
  function FailureText(body: Value): (r: string)
    ensures Truthy(Get(body, "message")) ==> r == Stringify(Get(body, "message"))
    ensures !Truthy(Get(body, "message")) ==> r == SuggestionFailed
  {
    Stringify(Or(Get(body, "message"), Some(JStr(SuggestionFailed))))
  }

  /**
   * `getPriceSuggestion` on the response body: no body, then a falsy `success`, then
   * a falsy `data` each fail with their message, in that order; otherwise `data`.
   */
  function GetPriceSuggestion(body: Value): (r: Result<Json, string>)
    ensures !Truthy(body) ==> r == Err(NoResponse)
    ensures Truthy(body) && !Truthy(Get(body, "success")) ==> r == Err(FailureText(body))
    ensures Truthy(body) && Truthy(Get(body, "success")) && !Truthy(Get(body, "data")) ==> r == Err(DataMissing)
    ensures r.Ok? <==> Truthy(body) && Truthy(Get(body, "success")) && Truthy(Get(body, "data"))
    ensures r.Ok? ==> Some(r.value) == Get(body, "data")
  {
    if !Truthy(body) then Err(NoResponse)
    else if !Truthy(Get(body, "success")) then Err(FailureText(body))
    else if !Truthy(Get(body, "data")) then Err(DataMissing)
    else Ok(Get(body, "data").value)
  }

  /** The envelope the backend sends on success is unwrapped to its payload. */
  lemma EnvelopeRoundTrip(data: Json)
    requires Truthy(Some(data))
    ensures GetPriceSuggestion(Some(JObj([("success", JBool(true)), ("data", data)]))) == Ok(data)
  {
    var fields := [("success", JBool(true)), ("data", data)];
    assert Lookup(fields, "data") == Some(data) by {
      assert fields[1..] == [("data", data)];
    }
  }

  /** A failure the server explains is reported with its own words; an unexplained one with the default. */
  lemma ServerMessageKept(m: string)
    ensures m != "" ==> GetPriceSuggestion(Some(JObj([("success", JBool(false)), ("message", JStr(m))]))) == Err(m)
    ensures GetPriceSuggestion(Some(JObj([("success", JBool(false))]))) == Err(SuggestionFailed)
  {
    var fields := [("success", JBool(false)), ("message", JStr(m))];
    assert Lookup(fields, "message") == Some(JStr(m)) by {
      assert fields[1..] == [("message", JStr(m))];
    }
  }
}
