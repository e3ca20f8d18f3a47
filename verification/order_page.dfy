/**
 * src/pages/OrderPage.tsx: the order form, the total it shows, and how a failed
 * order is classified as a wallet shortfall or a plain error.
 */
module OrderPage {
  import opened Wrappers
  import opened Text
  import opened Js
  import Storage
  import Forms

  // ---------------------------------------------------------------------------
  // The form and the total
  // ---------------------------------------------------------------------------

  /** The shipping fee is held as a number; the other fields as typed. */
  datatype Form = Form(paymentMethod: string, shippingAddress: string, notes: string, shippingFee: Num)

  const InitialForm: Form := Form("COD", "", "", Int(0))

  datatype FieldName = PaymentMethod | ShippingAddress | Notes | ShippingFee

  /** `handleChange`: the named field takes the typed value; the shipping fee through `Number`. */
  function HandleChange(f: Form, name: FieldName, value: string): (r: Form)
    ensures name == ShippingFee ==> r == f.(shippingFee := ToNumber(value))
    ensures name != ShippingFee ==> r.shippingFee == f.shippingFee
    ensures name == ShippingAddress ==> r == f.(shippingAddress := value)
    ensures name == PaymentMethod ==> r == f.(paymentMethod := value)
    ensures name == Notes ==> r == f.(notes := value)
  {
    match name
    case PaymentMethod => f.(paymentMethod := value)
    case ShippingAddress => f.(shippingAddress := value)
    case Notes => f.(notes := value)
    case ShippingFee => f.(shippingFee := ToNumber(value))
  }

  /** A fee typed as a number is held as that number; an emptied field as 0. */
  lemma FeeFieldRoundTrip(f: Form, n: int)
    ensures HandleChange(f, ShippingFee, IntToString(n)).shippingFee == Int(n)
    ensures HandleChange(f, ShippingFee, "").shippingFee == Int(0)
  {
    ToNumberRoundTrip(n);
  }

  /** `a + b` on numbers: `NaN` when either is. */
  function Add(a: Num, b: Num): (r: Num)
    ensures r.NaN? <==> a.NaN? || b.NaN?
    ensures r.Int? ==> r.v - b.v == a.v
  {
    if a.Int? && b.Int? then Int(a.v + b.v) else NaN
  }

  /** `product ? product.price + Number(form.shippingFee) : 0`; `price` is `None` without a product. */
  function Total(price: Option<Num>, fee: Num): (r: Num)
    ensures price.None? ==> r == Int(0)
    ensures price.Some? && price.value.Int? && fee.Int? ==> r == Int(price.value.v + fee.v)
    ensures price.Some? && (price.value.NaN? || fee.NaN?) ==> r.NaN?
  {
    match price
    case None => Int(0)
    case Some(p) => Add(p, fee)
  }

  // ---------------------------------------------------------------------------
  // Submitting
  // ---------------------------------------------------------------------------

  const AddressRequired: string := "Vui lòng nhập địa chỉ nhận hàng"

  /** The body of `createOrder`. */
  datatype OrderRequest = OrderRequest(productId: string, paymentMethod: string, shippingAddress: string, notes: string, shippingFee: int)

  /**
   * `handleSubmit` up to the call: a blank address stops with its message; otherwise the
   * order is sent with the address as typed and a fee of 0 when it is not a number.
   */
  function Submit(f: Form, productId: Option<string>): (r: Result<OrderRequest, string>)
    ensures r.Err? <==> IsBlank(f.shippingAddress)
    ensures r.Err? ==> r.error == AddressRequired
    ensures r.Ok? ==> r.value.shippingAddress == f.shippingAddress && !IsBlank(r.value.shippingAddress)
    ensures r.Ok? ==> r.value.shippingFee == (if f.shippingFee.Int? then f.shippingFee.v else 0)
    ensures r.Ok? ==> r.value.productId == productId.GetOr("")
    ensures r.Ok? ==> r.value.paymentMethod == f.paymentMethod && r.value.notes == f.notes
  {
    if IsBlank(f.shippingAddress) then Err(AddressRequired)
    else Ok(OrderRequest(productId.GetOr(""), f.paymentMethod, f.shippingAddress, f.notes, f.shippingFee.OrZero()))
  }

  // ---------------------------------------------------------------------------
  // The current user
  // ---------------------------------------------------------------------------

  const UserKey: string := "user"
  const UserIdKey: string := "userId"

  /**
   * `getCurrentUserId`: with a non-empty stored `user`, its `id || _id || userId`, or
   * `null` when none is truthy or the JSON does not parse (`parse` gives `None`);
   * without one, the stored `userId`, or `null` when that is missing or empty.
   */
  function CurrentUserId(st: Storage.Store, parse: string -> Option<Json>): (r: Value)
    ensures Truthy(r) || r == Some(JNull)
    ensures var user := Storage.GetItem(st, UserKey);
      user.Some? && user.value != "" && parse(user.value).None? ==> r == Some(JNull)
    ensures var user := Storage.GetItem(st, UserKey);
      (user.None? || user.value == "") ==>
        r == (if Storage.Has(st, UserIdKey) then Some(JStr(st.local[UserIdKey])) else Some(JNull))
    ensures var user := Storage.GetItem(st, UserKey);
      user.Some? && user.value != "" && parse(user.value).Some? ==>
        var u := Some(parse(user.value).value);
        r == FirstTruthy([Get(u, "id"), Get(u, "_id"), Get(u, "userId"), Some(JNull)])
  {
    var user := Storage.GetItem(st, UserKey);
    if user.Some? && user.value != "" then
      match parse(user.value)
      case None => Some(JNull)
      case Some(u) =>
        var r := FirstTruthy([Get(Some(u), "id"), Get(Some(u), "_id"), Get(Some(u), "userId"), Some(JNull)]);
        r
    else
      match Storage.GetItem(st, UserIdKey)
      case Some(id) => if id != "" then Some(JStr(id)) else Some(JNull)
      case None => Some(JNull)
  }

  /** A parsed user's `id` wins over its `_id` and `userId`; the separate `userId` key is then not read. */
  lemma UserIdPrecedence(st: Storage.Store, parse: string -> Option<Json>, u: Json)
    requires Storage.GetItem(st, UserKey).Some? && Storage.GetItem(st, UserKey).value != ""
    requires parse(Storage.GetItem(st, UserKey).value) == Some(u)
    ensures Truthy(Get(Some(u), "id")) ==> CurrentUserId(st, parse) == Get(Some(u), "id")
    ensures !Truthy(Get(Some(u), "id")) && Truthy(Get(Some(u), "_id")) ==> CurrentUserId(st, parse) == Get(Some(u), "_id")
    ensures !Truthy(Get(Some(u), "id")) && !Truthy(Get(Some(u), "_id")) && Truthy(Get(Some(u), "userId")) ==>
      CurrentUserId(st, parse) == Get(Some(u), "userId")
    ensures !Truthy(Get(Some(u), "id")) && !Truthy(Get(Some(u), "_id")) && !Truthy(Get(Some(u), "userId")) ==>
      CurrentUserId(st, parse) == Some(JNull)
  {
    var vs := [Get(Some(u), "id"), Get(Some(u), "_id"), Get(Some(u), "userId"), Some(JNull)];
    assert vs[1..][1..] == vs[2..];
    if !Truthy(vs[0]) && !Truthy(vs[1]) && Truthy(vs[2]) {
      assert FirstTruthyIndex(vs[2..]) == 0;
      assert FirstTruthyIndex(vs) == 2;
    }
  }

  // ---------------------------------------------------------------------------
  // A failed order
  // ---------------------------------------------------------------------------

  const OrderFailed: string := "Đặt hàng thất bại!"
  const InsufficientBalance: string := "Số dư ví không đủ để thanh toán đơn hàng"

  /** What the page shows after `createOrder` throws: the error, the shortfall, and whether the top-up dialog opens. */
  datatype Failure = Failure(error: Value, shortfall: Option<Num>, showTopUp: bool)

  /** `response.data.shortfall ?? response.data.needAmount`. */
  function ServerShortfall(err: Value): Value {
    Coalesce(GetPath(err, ["response", "data", "shortfall"]), GetPath(err, ["response", "data", "needAmount"]))
  }

  /** The phrases that mark an error message as being about the wallet balance. */
  const BalancePhrases: seq<string> := ["không đủ", "số dư", "ví"]

  /** The lower-cased message contains one of the phrases. */
  predicate AboutBalance(msg: Value) {
    var lower := Lower(Stringify(msg));
    Contains(lower, "không đủ") || Contains(lower, "số dư") || Contains(lower, "ví")
  }

  lemma AboutBalanceMeaning(msg: Value)
    ensures AboutBalance(msg) <==> exists i :: 0 <= i < |BalancePhrases| && Contains(Lower(Stringify(msg)), BalancePhrases[i])
  {
    if AboutBalance(msg) {
      var lower := Lower(Stringify(msg));
      if Contains(lower, "không đủ") {
        assert BalancePhrases[0] == "không đủ";
      } else if Contains(lower, "số dư") {
        assert BalancePhrases[1] == "số dư";
      } else {
        assert BalancePhrases[2] == "ví";
      }
    }
  }

  /** The wallet fields that may hold the balance, read with `??` in this order. */
  const BalancePaths: seq<seq<string>> := [["balance"], ["Balance"], ["amount"], ["Amount"], ["_raw", "Balance"], ["_raw", "balance"]]

  /** `wallet.balance ?? wallet.Balance ?? wallet.amount ?? wallet.Amount ?? wallet._raw?.Balance ?? wallet._raw?.balance ?? 0`. */
  function RawBalance(wallet: Value): Value {
    Coalesce(Get(wallet, "balance"),
    Coalesce(Get(wallet, "Balance"),
    Coalesce(Get(wallet, "amount"),
    Coalesce(Get(wallet, "Amount"),
    Coalesce(GetPath(wallet, ["_raw", "Balance"]),
    Coalesce(GetPath(wallet, ["_raw", "balance"]), Some(JNum(0))))))))
  }

  /** The chain picks the first field in `BalancePaths` that is present and not `null`, else 0. */
  lemma RawBalanceFirstDefined(wallet: Value)
    ensures var vs := ReadAll(wallet, BalancePaths);
      var k := FirstDefinedIndex(vs);
      RawBalance(wallet) == if k < |vs| then vs[k] else Some(JNum(0))
  {
    var vs := BalanceReads(wallet);
    SixFoldCoalesce(vs[0], vs[1], vs[2], vs[3], vs[4], vs[5], Some(JNum(0)));
    assert vs + [Some(JNum(0))] == [vs[0], vs[1], vs[2], vs[3], vs[4], vs[5], Some(JNum(0))];
    FirstDefinedWithDefault(vs, Some(JNum(0)));
  }

  /** The six reads of `BalancePaths`, in the chain's order. */
  lemma BalanceReads(wallet: Value) returns (vs: seq<Value>)
    ensures vs == ReadAll(wallet, BalancePaths)
    ensures vs == [Get(wallet, "balance"), Get(wallet, "Balance"), Get(wallet, "amount"), Get(wallet, "Amount"),
                   GetPath(wallet, ["_raw", "Balance"]), GetPath(wallet, ["_raw", "balance"])]
  {
    vs := ReadAll(wallet, BalancePaths);
  }

  /** Six nested `??` with a last operand read as one chain. */
  lemma SixFoldCoalesce(a: Value, b: Value, c: Value, d: Value, e: Value, f: Value, z: Value)
    ensures Coalesce(a, Coalesce(b, Coalesce(c, Coalesce(d, Coalesce(e, Coalesce(f, z))))))
         == FirstDefined([a, b, c, d, e, f, z])
  {
    var ws := [a, b, c, d, e, f, z];
    assert ws[6..] == [z];
    assert FirstDefined(ws[5..]) == Coalesce(f, FirstDefined(ws[6..])) by { assert ws[5..][1..] == ws[6..]; }
    assert FirstDefined(ws[4..]) == Coalesce(e, FirstDefined(ws[5..])) by { assert ws[4..][1..] == ws[5..]; }
    assert FirstDefined(ws[3..]) == Coalesce(d, FirstDefined(ws[4..])) by { assert ws[3..][1..] == ws[4..]; }
    assert FirstDefined(ws[2..]) == Coalesce(c, FirstDefined(ws[3..])) by { assert ws[2..][1..] == ws[3..]; }
    assert FirstDefined(ws[1..]) == Coalesce(b, FirstDefined(ws[2..])) by { assert ws[1..][1..] == ws[2..]; }
  }

  /** `Number(rawBalance) || 0`. */
  function Balance(wallet: Value): int {
    NumberOf(RawBalance(wallet)).OrZero()
  }

  /** `??` keeps a zero balance: a wallet holding `balance: 0` has balance 0 whatever its other fields say. */
  lemma ZeroBalanceKept(wallet: Value)
    requires Get(wallet, "balance") == Some(JNum(0))
    ensures Balance(wallet) == 0
  {
  }

  /** A balance that is not a number counts as 0. */
  lemma UnreadableBalanceIsZero(wallet: Value)
    requires NumberOf(RawBalance(wallet)).NaN?
    ensures Balance(wallet) == 0
  {
  }

  /** `Math.max(0, total - balance)`: `NaN` when the total is. */
  function Shortfall(total: Num, balance: int): (r: Num)
    ensures r.NaN? <==> total.NaN?
    ensures r.Int? ==> r.v >= 0
    ensures r.Int? ==> (r.v == 0 <==> total.v <= balance)
    ensures r.Int? && r.v > 0 ==> balance + r.v == total.v
  {
    if total.NaN? then NaN
    else if total.v - balance > 0 then Int(total.v - balance) else Int(0)
  }

  /**
   * The `catch` of `handleSubmit`. `userId` is `getCurrentUserId()`; `wallet` is what
   * `getWalletByUser` returned, or `None` when it threw (it is asked only for a
   * truthy `userId`). Reading a field of an undefined or `null` wallet throws too,
   * into the same `catch`, so such a wallet also leaves the plain message.
   */
  function OnOrderError(err: Value, total: Num, userId: Value, wallet: Option<Value>): (r: Failure)
    ensures var server := ServerShortfall(err);
      Truthy(server) ==> r == Failure(Some(JStr(InsufficientBalance)), Some(NumberOf(server)), true)
    ensures var msg := Forms.FailureMessage(err, OrderFailed);
      !Truthy(ServerShortfall(err)) && !(AboutBalance(msg) && Truthy(userId) && wallet.Some? && Defined(wallet.value)) ==>
        r == Failure(msg, None, false)
    ensures (!Truthy(ServerShortfall(err)) && AboutBalance(Forms.FailureMessage(err, OrderFailed)) && Truthy(userId)
      && wallet.Some? && Defined(wallet.value)) ==>
      r == Failure(Some(JStr(InsufficientBalance)), Some(Shortfall(total, Balance(wallet.value))), true)
    ensures r.showTopUp <==> r.shortfall.Some?
  {
    var msg := Forms.FailureMessage(err, OrderFailed);
    var server := ServerShortfall(err);
    if Truthy(server) then Failure(Some(JStr(InsufficientBalance)), Some(NumberOf(server)), true)
    else if AboutBalance(msg) then
      if Truthy(userId) then
        match wallet
        case Some(w) =>
          if Defined(w) then Failure(Some(JStr(InsufficientBalance)), Some(Shortfall(total, Balance(w))), true)
          else Failure(msg, None, false)
        case None => Failure(msg, None, false)
      else Failure(msg, None, false)
    else Failure(msg, None, false)
  }

  /** A server shortfall of 0 is falsy, so it does not open the dialog on its own. */
  lemma ZeroServerShortfallFallsThrough(err: Value, total: Num, userId: Value, wallet: Option<Value>)
    requires GetPath(err, ["response", "data", "shortfall"]) == Some(JNum(0))
    requires !AboutBalance(Forms.FailureMessage(err, OrderFailed))
    ensures OnOrderError(err, total, userId, wallet).showTopUp == false
  {
  }

  /** A `null` shortfall lets `needAmount` through; a `0` shortfall hides it. */
  lemma NeedAmountOnlyBehindNullish(err: Value, need: Json)
    requires GetPath(err, ["response", "data", "needAmount"]) == Some(need)
    ensures GetPath(err, ["response", "data", "shortfall"]) == Some(JNull) ==> ServerShortfall(err) == Some(need)
    ensures GetPath(err, ["response", "data", "shortfall"]) == Some(JNum(0)) ==> ServerShortfall(err) == Some(JNum(0))
  {
  }

  /** Whenever the page computes the shortfall itself, it is never negative, and it is 0 only when the balance covers the total. */
  lemma ComputedShortfallNonNegative(err: Value, total: Num, userId: Value, wallet: Value)
    requires !Truthy(ServerShortfall(err)) && AboutBalance(Forms.FailureMessage(err, OrderFailed)) && Truthy(userId)
    requires total.Int? && Defined(wallet)
    ensures var r := OnOrderError(err, total, userId, Some(wallet));
      r.shortfall.Some? && r.shortfall.value.Int? && r.shortfall.value.v >= 0
      && (r.shortfall.value.v == 0 <==> Balance(wallet) >= total.v)
  {
  }
}
