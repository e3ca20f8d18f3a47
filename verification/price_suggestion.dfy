/** src/components/Common/PriceSuggestion.tsx: the price suggestion panel's form and what it shows. */
module PriceSuggestion {
  import opened Wrappers
  import opened Js
  import PriceSuggestionService

  /** The request form; `year` and `cycleCount` are held as numbers. */
  datatype Form = Form(brand: string, year: Num, cycleCount: Num, capacity: string, condition: string, voltage: string)

  /** The empty form; `currentYear` is `new Date().getFullYear()`. */
  function DefaultForm(currentYear: int): (r: Form)
    ensures r.year == Int(currentYear) && r.cycleCount == Int(0)
    ensures r.brand == r.capacity == r.condition == r.voltage == ""
  {
    Form("", Int(currentYear), Int(0), "", "", "")
  }

  datatype FieldName = Brand | Year | CycleCount | Capacity | Condition | Voltage

  /** `handleSuggestChange`: `year` and `cycleCount` through `Number`, the rest as typed. */
  function HandleChange(f: Form, name: FieldName, value: string): (r: Form)
    ensures name == Year ==> r == f.(year := ToNumber(value))
    ensures name == CycleCount ==> r == f.(cycleCount := ToNumber(value))
    ensures name !in {Year, CycleCount} ==> r.year == f.year && r.cycleCount == f.cycleCount
    ensures name == Brand ==> r == f.(brand := value)
    ensures name == Capacity ==> r == f.(capacity := value)
    ensures name == Condition ==> r == f.(condition := value)
    ensures name == Voltage ==> r == f.(voltage := value)
  {
    match name
    case Brand => f.(brand := value)
    case Year => f.(year := ToNumber(value))
    case CycleCount => f.(cycleCount := ToNumber(value))
    case Capacity => f.(capacity := value)
    case Condition => f.(condition := value)
    case Voltage => f.(voltage := value)
  }

  /** A year typed as digits is held as that number. */
  lemma YearRoundTrip(f: Form, n: int)
    ensures HandleChange(f, Year, IntToString(n)).year == Int(n)
  {
    ToNumberRoundTrip(n);
  }

  /** The panel: open or closed, a call running, the error (`None` is `null`) and the last result. */
  datatype Panel = Panel(open: bool, loading: bool, error: Value, result: Option<Json>, form: Form)

  const MissingFields: string := "Vui lòng điền đầy đủ: Hãng, Dung lượng, Tình trạng, Điện áp"

  /** The four text fields the request needs, tested untrimmed. */
  predicate Complete(f: Form) {
    f.brand != "" && f.capacity != "" && f.condition != "" && f.voltage != ""
  }

  /**
   * `handleSuggest` up to the call: the old error and result are cleared; an incomplete
   * form shows the message and makes no call; otherwise the call starts.
   */
  function StartSuggest(p: Panel): (r: (Panel, bool))
    ensures r.0.result.None? && r.0.form == p.form && r.0.open == p.open
    ensures r.1 <==> Complete(p.form)
    ensures r.1 ==> r.0.loading && r.0.error.None?
    ensures !r.1 ==> r.0.error == Some(JStr(MissingFields)) && r.0.loading == p.loading
  {
    var cleared := p.(error := None, result := None);
    if !Complete(p.form) then (cleared.(error := Some(JStr(MissingFields))), false)
    else (cleared.(loading := true), true)
  }

  /** How the call settled: its data, or the thrown value. */
  datatype Outcome = Returned(data: Json) | Threw(err: Value)

  /** The end of `handleSuggest`: the result, or `err?.message || "Lấy gợi ý giá thất bại"`. */
  function FinishSuggest(p: Panel, outcome: Outcome): (r: Panel)
    ensures !r.loading && r.form == p.form && r.open == p.open
    ensures outcome.Returned? ==> r.result == Some(outcome.data) && r.error == p.error
    ensures outcome.Threw? ==> r.result == p.result
    ensures outcome.Threw? && Truthy(Get(outcome.err, "message")) ==> r.error == Get(outcome.err, "message")
    ensures outcome.Threw? && !Truthy(Get(outcome.err, "message")) ==> r.error == Some(JStr(PriceSuggestionService.SuggestionFailed))
  {
    match outcome
    case Returned(data) => p.(result := Some(data), loading := false)
    case Threw(err) => p.(error := Or(Get(err, "message"), Some(JStr(PriceSuggestionService.SuggestionFailed))), loading := false)
  }

  /** `new Error(message)` as the component catches it. */
  function ErrorValue(message: string): Value {
    Some(JObj([("message", JStr(message))]))
  }

  /** Whatever the service reports goes on screen: its data, or its error's message. */
  lemma ServiceReachesPanel(p: Panel, body: Value)
    requires Complete(p.form)
    ensures var started := StartSuggest(p).0;
      var r := PriceSuggestionService.GetPriceSuggestion(body);
      var outcome := if r.Ok? then Returned(r.value) else Threw(ErrorValue(r.error));
      var shown := FinishSuggest(started, outcome);
      && (r.Ok? ==> shown.result == Some(r.value) && shown.error.None?)
      && (r.Err? && r.error != "" ==> shown.error == Some(JStr(r.error)) && shown.result.None?)
  {
  }

  /** The "Xóa" button: the default form, and no result or error. */
  function Reset(p: Panel, currentYear: int): (r: Panel)
    ensures r.form == DefaultForm(currentYear) && r.result.None? && r.error.None?
    ensures r.open == p.open && r.loading == p.loading
  {
    p.(form := DefaultForm(currentYear), result := None, error := None)
  }

  /** After a reset the form is incomplete, so the next submit makes no call. */
  lemma ResetBlocksSubmit(p: Panel, currentYear: int)
    ensures !StartSuggest(Reset(p, currentYear)).1
  {
  }

  /** Closing the panel also forgets the result and the error. */
  function Close(p: Panel): (r: Panel)
    ensures !r.open && r.result.None? && r.error.None? && r.form == p.form
  {
    p.(open := false, result := None, error := None)
  }

  /** The min-max line shows when both bounds are present (`!== undefined`, so `null` counts as present). */
  predicate ShowsRange(result: Json) {
    Get(Some(result), "minPrice").Some? && Get(Some(result), "maxPrice").Some?
  }

  /** Whether an object carries a field under `key`, whatever its value. */
  predicate HasField(fields: seq<(string, Json)>, key: string) {
    exists i :: 0 <= i < |fields| && fields[i].0 == key
  }

  /** The range shows iff the result is an object holding both bound fields, whatever their values. */
  lemma RangeNeedsBothBounds(result: Json)
    ensures ShowsRange(result) <==>
      result.JObj? && HasField(result.fields, "minPrice") && HasField(result.fields, "maxPrice")
  {
  }

  /** Bounds that are `null` are not `undefined`: the line shows, reading `null` for each. */
  lemma NullBoundsShowRange(fields: seq<(string, Json)>, i: nat, j: nat)
    requires i < |fields| && fields[i] == ("minPrice", JNull)
    requires j < |fields| && fields[j] == ("maxPrice", JNull)
    requires forall k :: 0 <= k < i ==> fields[k].0 != "minPrice"
    requires forall k :: 0 <= k < j ==> fields[k].0 != "maxPrice"
    ensures ShowsRange(JObj(fields))
    ensures Get(Some(JObj(fields)), "minPrice") == Get(Some(JObj(fields)), "maxPrice") == Some(JNull)
  {
    LookupFirst(fields, "minPrice", i);
    LookupFirst(fields, "maxPrice", j);
  }
}
