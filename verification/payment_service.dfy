/** src/services/paymentService.ts: normalising the payment link the backend returns. */
module PaymentService {
  import opened Wrappers
  import opened Js

  /** `{ url, paymentUrl, raw }`. */
  datatype CreatePaymentResult = CreatePaymentResult(url: Value, paymentUrl: Value, raw: Json)

  /** `res.data ?? {}`. */
  function BodyOrEmpty(resData: Value): (r: Json)
    ensures Defined(resData) ==> r == resData.value
    ensures !Defined(resData) ==> r == JObj([])
  {
    if Defined(resData) then resData.value else JObj([])
  }

  /** The places a link may be found, in the order they are tried. */
  function Candidates(data: Json): (vs: seq<Value>)
    ensures |vs| == 6
  {
    var d := Some(data);
    [Get(d, "paymentUrl"), Get(d, "paymentURL"), Get(d, "url"), GetPath(d, ["data", "paymentUrl"]), GetPath(d, ["data", "url"]),
     if data.JStr? then d else None]
  }

  /** `createPaymentUrl` after the call: the link is the first truthy candidate. */
  function CreatePaymentUrl(resData: Value): (r: CreatePaymentResult)
    ensures r.raw == BodyOrEmpty(resData)
    ensures r.paymentUrl == Get(Some(r.raw), "paymentUrl")
    ensures var vs := Candidates(r.raw); var k := FirstTruthyIndex(vs);
      r.url == if k < |vs| then vs[k] else vs[|vs| - 1]
  {
    var data := BodyOrEmpty(resData);
    CreatePaymentResult(FirstTruthy(Candidates(data)), Get(Some(data), "paymentUrl"), data)
  }

  /** There is a link exactly when some candidate is truthy. */
  lemma UrlFoundIffSomeCandidate(resData: Value)
    ensures var vs := Candidates(BodyOrEmpty(resData));
      Truthy(CreatePaymentUrl(resData).url) <==> exists i :: 0 <= i < |vs| && Truthy(vs[i])
  {
    FirstTruthyTruthy(Candidates(BodyOrEmpty(resData)));
  }

  /**
   * Without a truthy candidate the link is `undefined`, except for an empty-string body,
   * where `||` hands back that last operand, `""`.
   */
  lemma NoLink(resData: Value)
    requires var vs := Candidates(BodyOrEmpty(resData)); forall i :: 0 <= i < |vs| ==> !Truthy(vs[i])
    ensures CreatePaymentUrl(resData).url == (if resData == Some(JStr("")) then Some(JStr("")) else None)
  {
  }

  /** A bare non-empty string body is itself the link. */
  lemma BareStringIsLink(s: string)
    requires s != ""
    ensures CreatePaymentUrl(Some(JStr(s))).url == Some(JStr(s))
  {
    var vs := Candidates(JStr(s));
    assert vs[..5] == [None, None, None, None, None];
    assert vs[5] == Some(JStr(s));
    assert FirstTruthyIndex(vs) == 5 by {
      assert forall i :: 0 <= i < 5 ==> !Truthy(vs[i]);
      assert Truthy(vs[5]);
    }
  }

  /** A top-level `paymentUrl` wins over a nested one. */
  lemma TopFieldWins(top: string, nested: string)
    requires top != ""
    ensures var body := JObj([("paymentUrl", JStr(top)), ("data", JObj([("paymentUrl", JStr(nested))]))]);
      CreatePaymentUrl(Some(body)).url == Some(JStr(top))
  {
    var body := JObj([("paymentUrl", JStr(top)), ("data", JObj([("paymentUrl", JStr(nested))]))]);
    var vs := Candidates(body);
    assert vs[0] == Some(JStr(top));
    assert FirstTruthyIndex(vs) == 0;
  }

  /** A `null` body is read as `{}`: no link, no `paymentUrl`. */
  lemma NullBodyIsEmptyObject()
    ensures CreatePaymentUrl(Some(JNull)) == CreatePaymentResult(None, None, JObj([]))
  {
  }
}
