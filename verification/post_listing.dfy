/**
 * src/pages/PostListingPage.tsx: the four-step listing form, its image list, its
 * checks, and the product it submits.
 */
module PostListing {
  import opened Wrappers
  import opened Text
  import opened Js

  /** An uploaded file; only its identity matters here. */
  datatype File = File(name: string, size: nat)

  datatype Form = Form(
    name: string, brand: string, kind: string, capacity: string, voltage: string,
    year: string, price: string, condition: string, cycleCount: string, warranty: string,
    location: string, description: string, images: seq<File>)

  // ---------------------------------------------------------------------------
  // Images
  // ---------------------------------------------------------------------------

  const MaxImages: nat := 10

  /** `[...current, ...added].slice(0, 10)`, used for both the files and their preview URLs. */
  function AddCapped<T>(current: seq<T>, added: seq<T>): (r: seq<T>)
    ensures |r| == if |current| + |added| <= MaxImages then |current| + |added| else MaxImages
    ensures r == (current + added)[..|r|]
    ensures |current| <= MaxImages ==> current <= r
  {
    var all := current + added;
    if |all| <= MaxImages then all else all[..MaxImages]
  }

  /** `s.filter((_, i) => i !== index)`. */
  function RemoveAt<T>(s: seq<T>, index: int): (r: seq<T>)
    ensures 0 <= index < |s| ==> r == s[..index] + s[index + 1..]
    ensures !(0 <= index < |s|) ==> r == s
    decreases |s|
  {
    if s == [] then []
    else
      var init := RemoveAt(s[..|s| - 1], index);
      var r := init + if |s| - 1 == index then [] else [s[|s| - 1]];
      assert 0 <= index < |s| - 1 ==> s[..|s| - 1][index + 1..] + [s[|s| - 1]] == s[index + 1..];
      r
  }

  /** Files and previews grow and shrink together, so they stay the same length. */
  lemma ImagesStayAligned<A, B>(files: seq<A>, previews: seq<B>, newFiles: seq<A>, newPreviews: seq<B>, index: int)
    requires |files| == |previews| && |newFiles| == |newPreviews|
    ensures |AddCapped(files, newFiles)| == |AddCapped(previews, newPreviews)|
    ensures |RemoveAt(files, index)| == |RemoveAt(previews, index)|
  {
  }

  // ---------------------------------------------------------------------------
  // Steps
  // ---------------------------------------------------------------------------

  const FirstStep: int := 1
  const LastStep: int := 4

  /** "Back": `Math.max(1, currentStep - 1)`. */
  function Back(step: int): (r: int)
    ensures r >= FirstStep
    ensures step > FirstStep ==> r == step - 1
  {
    if step - 1 > FirstStep then step - 1 else FirstStep
  }

  /** "Continue" is offered only below the last step; on the last step the form is submitted instead. */
  function Forward(step: int): (r: Option<int>)
    ensures r.Some? <==> step < LastStep
    ensures r.Some? ==> r.value == step + 1
  {
    if step < LastStep then Some(step + 1) else None
  }

  /** Whatever the user clicks, the step stays between the first and the last. */
  lemma StepInRange(step: int)
    requires FirstStep <= step <= LastStep
    ensures FirstStep <= Back(step) <= LastStep
    ensures Forward(step).Some? ==> FirstStep <= Forward(step).value <= LastStep
  {
  }

  // ---------------------------------------------------------------------------
  // Checks
  // ---------------------------------------------------------------------------

  /** The checks, in the order `validate` runs them. */
  datatype Problem =
    | NameMissing | BrandMissing | KindMissing | CapacityMissing | VoltageMissing
    | YearMissing | PriceMissing | ConditionMissing | LocationMissing | DescriptionMissing
    | NoImages

  function Rank(p: Problem): nat {
    match p
    case NameMissing => 0
    case BrandMissing => 1
    case KindMissing => 2
    case CapacityMissing => 3
    case VoltageMissing => 4
    case YearMissing => 5
    case PriceMissing => 6
    case ConditionMissing => 7
    case LocationMissing => 8
    case DescriptionMissing => 9
    case NoImages => 10
  }

  /** Typed text fields must be non-blank after trimming; chosen fields only non-empty. */
  predicate Passes(f: Form, p: Problem) {
    match p
    case NameMissing => !IsBlank(f.name)
    case BrandMissing => !IsBlank(f.brand)
    case KindMissing => f.kind != ""
    case CapacityMissing => !IsBlank(f.capacity)
    case VoltageMissing => !IsBlank(f.voltage)
    case YearMissing => f.year != ""
    case PriceMissing => f.price != ""
    case ConditionMissing => f.condition != ""
    case LocationMissing => f.location != ""
    case DescriptionMissing => !IsBlank(f.description)
    case NoImages => |f.images| > 0
  }

  function Message(p: Problem): string {
    match p
    case NameMissing => "Vui lòng nhập tên sản phẩm"
    case BrandMissing => "Vui lòng nhập hãng sản xuất"
    case KindMissing => "Vui lòng chọn loại pin"
    case CapacityMissing => "Vui lòng nhập dung lượng pin"
    case VoltageMissing => "Vui lòng nhập điện áp"
    case YearMissing => "Vui lòng nhập năm sản xuất"
    case PriceMissing => "Vui lòng nhập giá bán"
    case ConditionMissing => "Vui lòng chọn tình trạng pin"
    case LocationMissing => "Vui lòng chọn địa điểm"
    case DescriptionMissing => "Vui lòng nhập mô tả chi tiết"
    case NoImages => "Vui lòng tải lên ít nhất 1 hình ảnh"
  }

  /**
   * `validate()`: the first failing check, or nothing when all pass. A typed field
   * fails when `field.trim()` is empty, that is (by `Trim`'s contract) when it is blank.
   */
  function Validate(f: Form): (r: Option<Problem>)
    ensures r.Some? ==> !Passes(f, r.value) && forall p :: Rank(p) < Rank(r.value) ==> Passes(f, p)
    ensures r.None? <==> forall p :: Passes(f, p)
  {
    if IsBlank(f.name) then Some(NameMissing)
    else if IsBlank(f.brand) then Some(BrandMissing)
    else if f.kind == "" then Some(KindMissing)
    else if IsBlank(f.capacity) then Some(CapacityMissing)
    else if IsBlank(f.voltage) then Some(VoltageMissing)
    else if f.year == "" then Some(YearMissing)
    else if f.price == "" then Some(PriceMissing)
    else if f.condition == "" then Some(ConditionMissing)
    else if f.location == "" then Some(LocationMissing)
    else if IsBlank(f.description) then Some(DescriptionMissing)
    else if |f.images| == 0 then Some(NoImages)
    else None
  }

  // ---------------------------------------------------------------------------
  // Submission
  // ---------------------------------------------------------------------------

  /** The product sent to `createProduct`. */
  datatype Product = Product(
    name: string, brand: string, kind: string, capacity: string, voltage: string,
    year: Num, price: Option<real>, condition: string, cycleCount: int, warranty: string,
    location: string, description: string, images: seq<string>, status: string, ownerId: Json)

  const PendingStatus: string := "Pending"

  /**
   * The product built from the form. `price` is `parseFloat(form.price)` and
   * `imageUrls` the data URLs read from the files; `userId` is the page's
   * `payload.userId || payload.id || ""`, which may be any JSON value the token names.
   */
  function BuildProduct(f: Form, price: Option<real>, imageUrls: seq<string>, userId: Value): (r: Product)
    ensures r.status == PendingStatus
    ensures ParseInt(f.cycleCount).NaN? ==> r.cycleCount == 0
    ensures ParseInt(f.cycleCount).Int? ==> r.cycleCount == ParseInt(f.cycleCount).v
    ensures r.year == ParseInt(f.year) && r.price == price
    ensures Truthy(userId) ==> r.ownerId == userId.value
    ensures !Truthy(userId) ==> r.ownerId == JStr("")
    ensures && r.name == f.name && r.brand == f.brand && r.kind == f.kind && r.capacity == f.capacity
            && r.voltage == f.voltage && r.condition == f.condition && r.warranty == f.warranty
            && r.location == f.location && r.description == f.description && r.images == imageUrls
  {
    Product(
      f.name, f.brand, f.kind, f.capacity, f.voltage,
      ParseInt(f.year), price, f.condition, ParseInt(f.cycleCount).OrZero(), f.warranty,
      f.location, f.description, imageUrls, PendingStatus,
      Or(userId, Some(JStr(""))).value)
  }

  /** A cycle count typed as a number is sent as that number. */
  lemma CycleCountRoundTrip(f: Form, n: int, price: Option<real>, imageUrls: seq<string>, userId: Value)
    requires f.cycleCount == IntToString(n)
    ensures BuildProduct(f, price, imageUrls, userId).cycleCount == n
  {
    ParseIntRoundTrip(n);
  }

  datatype Outcome = ShowError(message: string) | Create(product: Product)

  /** `handleSubmit`: a failing check shows its message and no product is created. */
  function Submit(f: Form, price: Option<real>, imageUrls: seq<string>, userId: Value): (r: Outcome)
    ensures r.ShowError? <==> Validate(f).Some?
    ensures r.ShowError? ==> r.message == Message(Validate(f).value)
    ensures r.Create? ==> r.product.status == PendingStatus && !IsBlank(r.product.name) && !IsBlank(r.product.description)
    ensures r.Create? ==> r.product == BuildProduct(f, price, imageUrls, userId)
  {
    match Validate(f)
    case Some(p) => ShowError(Message(p))
    case None =>
      assert Passes(f, NameMissing) && Passes(f, DescriptionMissing);
      Create(BuildProduct(f, price, imageUrls, userId))
  }
}
