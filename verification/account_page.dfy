/**
 * src/pages/AccountPage.tsx: the profile edits (one field inline, or the whole
 * form), the avatar checks, the wallet top-up, and the listing status labels.
 */
module AccountPage {
  import opened Wrappers
  import opened Text
  import opened Js
  import Forms
  import PostListing

  // ---------------------------------------------------------------------------
  // Profile edits
  // ---------------------------------------------------------------------------

  /** The profile as loaded; fields the server left out are `None`. */
  datatype Profile = Profile(
    id: Option<string>, fullName: Option<string>, phone: Option<string>, address: Option<string>,
    displayName: Option<string>, avatarUrl: Option<string>)

  /** The body of `updateProfile`; `None` fields are left out of it. */
  datatype Payload = Payload(
    fullName: Option<string>, phone: Option<string>, address: Option<string>,
    displayName: Option<string>, avatarUrl: Option<string>)

  datatype Field = FullName | Phone | Address | DisplayName | AvatarUrl

  function Get(p: Payload, f: Field): Option<string> {
    match f
    case FullName => p.fullName
    case Phone => p.phone
    case Address => p.address
    case DisplayName => p.displayName
    case AvatarUrl => p.avatarUrl
  }

  /** `{ ...payload, [f]: v }`. */
  function With(p: Payload, f: Field, v: Option<string>): (r: Payload)
    ensures Get(r, f) == v
    ensures forall g :: g != f ==> Get(r, g) == Get(p, g)
  {
    match f
    case FullName => p.(fullName := v)
    case Phone => p.(phone := v)
    case Address => p.(address := v)
    case DisplayName => p.(displayName := v)
    case AvatarUrl => p.(avatarUrl := v)
  }

  /** `s || undefined` on an optional string. */
  function OrAbsent(s: Option<string>): (r: Option<string>)
    ensures r.None? <==> s.None? || s.value == ""
    ensures r.Some? ==> r == s
  {
    if s.Some? && s.value != "" then s else None
  }

  /** The profile as a payload: names, phone and address as loaded, the optional two only when non-empty. */
  function Current(p: Profile): (r: Payload)
    ensures r.fullName == p.fullName && r.phone == p.phone && r.address == p.address
    ensures r.displayName == OrAbsent(p.displayName) && r.avatarUrl == OrAbsent(p.avatarUrl)
  {
    Payload(p.fullName, p.phone, p.address, OrAbsent(p.displayName), OrAbsent(p.avatarUrl))
  }

  /** `profile?.id` is truthy. */
  predicate HasId(profile: Option<Profile>) {
    profile.Some? && profile.value.id.Some? && profile.value.id.value != ""
  }

  /** The checks both edits run, in this order. */
  datatype Problem = NoProfile | FullNameMissing | PhoneMissing | PhoneMalformed | AddressMissing

  function Rank(p: Problem): nat {
    match p
    case NoProfile => 0
    case FullNameMissing => 1
    case PhoneMissing => 2
    case PhoneMalformed => 3
    case AddressMissing => 4
  }

  /** The alert of the inline editor. */
  function InlineMessage(p: Problem): string {
    match p
    case NoProfile => "Không tìm thấy thông tin người dùng"
    case FullNameMissing => "Họ tên không được để trống"
    case PhoneMissing => "Số điện thoại không được để trống"
    case PhoneMalformed => "Số điện thoại không hợp lệ (10-11 chữ số)"
    case AddressMissing => "Địa chỉ không được để trống"
  }

  /** The alert of the edit dialog. */
  function EditMessage(p: Problem): string {
    match p
    case NoProfile => "Không tìm thấy thông tin người dùng"
    case FullNameMissing => "Vui lòng nhập họ tên"
    case PhoneMissing => "Vui lòng nhập số điện thoại"
    case PhoneMalformed => "Số điện thoại không hợp lệ (10-11 chữ số)"
    case AddressMissing => "Vui lòng nhập địa chỉ"
  }

  /** The inline editor saving `value` into `field`: only the edited field is checked. */
  predicate InlinePasses(profile: Option<Profile>, field: Field, value: string, p: Problem) {
    match p
    case NoProfile => HasId(profile)
    case FullNameMissing => field != FullName || !IsBlank(value)
    case PhoneMissing => field != Phone || !IsBlank(value)
    case PhoneMalformed => field != Phone || Forms.IsPhone(Trim(value))
    case AddressMissing => field != Address || !IsBlank(value)
  }

  /**
   * `handleSaveField(field)`: the first failing check, or the payload that keeps the
   * profile and replaces only `field`, by its trimmed value or by nothing when that is empty.
   */
  function SaveField(profile: Option<Profile>, field: Field, value: string): (r: Result<Payload, Problem>)
    ensures r.Err? ==> (!InlinePasses(profile, field, value, r.error)
      && forall p :: Rank(p) < Rank(r.error) ==> InlinePasses(profile, field, value, p))
    ensures r.Ok? <==> forall p :: InlinePasses(profile, field, value, p)
    ensures r.Ok? ==> profile.Some? && Get(r.value, field) == (if Trim(value) == "" then None else Some(Trim(value)))
    ensures r.Ok? ==> forall g :: g != field ==> Get(r.value, g) == Get(Current(profile.value), g)
  {
    if !HasId(profile) then Err(NoProfile)
    else if field == FullName && IsBlank(value) then Err(FullNameMissing)
    else if field == Phone && IsBlank(value) then Err(PhoneMissing)
    else if field == Phone && !Forms.IsPhone(Trim(value)) then Err(PhoneMalformed)
    else if field == Address && IsBlank(value) then Err(AddressMissing)
    else
      var t := Trim(value);
      Ok(With(Current(profile.value), field, if t == "" then None else Some(t)))
  }

  /** A saved required field is never sent empty, and a saved phone is always well formed. */
  lemma SavedRequiredFieldsFilled(profile: Option<Profile>, field: Field, value: string)
    requires SaveField(profile, field, value).Ok?
    ensures field in {FullName, Phone, Address} ==> Get(SaveField(profile, field, value).value, field) == Some(Trim(value))
    ensures field == Phone ==> Forms.IsPhone(SaveField(profile, field, value).value.phone.value)
  {
    var r := SaveField(profile, field, value);
    assert InlinePasses(profile, field, value, FullNameMissing);
    assert InlinePasses(profile, field, value, PhoneMissing);
    assert InlinePasses(profile, field, value, AddressMissing);
    assert InlinePasses(profile, field, value, PhoneMalformed);
  }

  /** The display name is not checked: even a blank one is saved, as absent. */
  lemma BlankDisplayNameSaved(profile: Option<Profile>, value: string)
    requires HasId(profile) && IsBlank(value)
    ensures SaveField(profile, DisplayName, value).Ok?
    ensures SaveField(profile, DisplayName, value).value.displayName.None?
  {
  }

  /** The edit dialog's fields. */
  datatype EditForm = EditForm(fullName: string, displayName: string, phone: string, avatarUrl: string, address: string)

  predicate EditPasses(profile: Option<Profile>, f: EditForm, p: Problem) {
    match p
    case NoProfile => HasId(profile)
    case FullNameMissing => !IsBlank(f.fullName)
    case PhoneMissing => !IsBlank(f.phone)
    case PhoneMalformed => Forms.IsPhone(Trim(f.phone))
    case AddressMissing => !IsBlank(f.address)
  }

  /** An optional dialog field: its trimmed value, or nothing when it is blank. */
  function Optional(s: string): (r: Option<string>)
    ensures r.None? <==> IsBlank(s)
    ensures r.Some? ==> r.value == Trim(s)
  {
    if s != "" && !IsBlank(s) then Some(Trim(s)) else None
  }

  /**
   * `handleEditProfile`: the first failing check, or the payload of trimmed values
   * with the display name and avatar URL only when they are not blank.
   */
  function EditProfile(profile: Option<Profile>, f: EditForm): (r: Result<Payload, Problem>)
    ensures r.Err? ==> !EditPasses(profile, f, r.error) && forall p :: Rank(p) < Rank(r.error) ==> EditPasses(profile, f, p)
    ensures r.Ok? <==> forall p :: EditPasses(profile, f, p)
    ensures r.Ok? ==> (r.value.fullName == Some(Trim(f.fullName)) && r.value.phone == Some(Trim(f.phone))
      && r.value.address == Some(Trim(f.address)))
    ensures r.Ok? ==> r.value.displayName == Optional(f.displayName) && r.value.avatarUrl == Optional(f.avatarUrl)
  {
    if !HasId(profile) then Err(NoProfile)
    else if IsBlank(f.fullName) then Err(FullNameMissing)
    else if IsBlank(f.phone) then Err(PhoneMissing)
    else if !Forms.IsPhone(Trim(f.phone)) then Err(PhoneMalformed)
    else if IsBlank(f.address) then Err(AddressMissing)
    else Ok(Payload(Some(Trim(f.fullName)), Some(Trim(f.phone)), Some(Trim(f.address)), Optional(f.displayName), Optional(f.avatarUrl)))
  }

  /** After a save the dialog is refilled from the returned profile, `field || ""` for each. */
  function FormFrom(p: Payload): EditForm {
    EditForm(p.fullName.GetOr(""), p.displayName.GetOr(""), p.phone.GetOr(""), p.avatarUrl.GetOr(""), p.address.GetOr(""))
  }

  /** A trimmed value is as blank as the original, and trimming it again changes nothing. */
  lemma TrimKeepsBlankness(s: string)
    ensures IsBlank(Trim(s)) <==> IsBlank(s)
    ensures Trim(Trim(s)) == Trim(s)
  {
    TrimIdempotent(s);
  }

  lemma OptionalIdempotent(s: string)
    ensures Optional(Optional(s).GetOr("")) == Optional(s)
  {
    TrimKeepsBlankness(s);
  }

  /** When the server returns what it was sent, saving the refilled dialog again sends the same payload. */
  lemma EditProfileIdempotent(profile: Option<Profile>, f: EditForm)
    requires EditProfile(profile, f).Ok?
    ensures EditProfile(profile, FormFrom(EditProfile(profile, f).value)) == EditProfile(profile, f)
  {
    assert EditPasses(profile, f, FullNameMissing) && EditPasses(profile, f, PhoneMissing);
    assert EditPasses(profile, f, PhoneMalformed) && EditPasses(profile, f, AddressMissing);
    var g := FormFrom(EditProfile(profile, f).value);
    assert g == EditForm(Trim(f.fullName), Optional(f.displayName).GetOr(""), Trim(f.phone), Optional(f.avatarUrl).GetOr(""), Trim(f.address));
    TrimKeepsBlankness(f.fullName);
    TrimKeepsBlankness(f.phone);
    TrimKeepsBlankness(f.address);
    OptionalIdempotent(f.displayName);
    OptionalIdempotent(f.avatarUrl);
  }

  // ---------------------------------------------------------------------------
  // The avatar
  // ---------------------------------------------------------------------------

  const MaxAvatarBytes: nat := 5 * 1024 * 1024

  datatype AvatarProblem = NotAnImage | TooLarge

  function AvatarMessage(p: AvatarProblem): string {
    match p
    case NotAnImage => "Vui lòng chọn file ảnh"
    case TooLarge => "Kích thước ảnh không được vượt quá 5MB"
  }

  /** `handleImageUpload`'s checks: an `image/` type first, then at most 5 MiB. */
  function CheckAvatar(mime: string, size: nat): (r: Option<AvatarProblem>)
    ensures r.None? <==> StartsWith(mime, "image/") && size <= 5242880
    ensures r == Some(NotAnImage) <==> !StartsWith(mime, "image/")
  {
    if !StartsWith(mime, "image/") then Some(NotAnImage)
    else if size > MaxAvatarBytes then Some(TooLarge)
    else None
  }

  /** The payload the upload sends: the profile as it is, with the data URL as its avatar. */
  function AvatarPayload(profile: Profile, dataUrl: string): (r: Payload)
    ensures r.avatarUrl == Some(dataUrl)
    ensures forall g :: g != AvatarUrl ==> Get(r, g) == Get(Current(profile), g)
  {
    Payload(profile.fullName, profile.phone, profile.address, OrAbsent(profile.displayName), Some(dataUrl))
  }

  // ---------------------------------------------------------------------------
  // Wallet top-up
  // ---------------------------------------------------------------------------

  const MinTopUp: real := 10000.0

  datatype TopUpProblem = InvalidAmount | BelowMinimum

  function TopUpMessage(p: TopUpProblem): string {
    match p
    case InvalidAmount => "Vui lòng nhập số tiền hợp lệ"
    case BelowMinimum => "Số tiền nạp tối thiểu là 10,000 VND"
  }

  /** `Math.ceil(x)`. */
  function Ceil(x: real): (r: int)
    ensures (r - 1) as real < x <= r as real
  {
    -((-x).Floor)
  }

  /**
   * `handleTopUp`'s checks on `parseFloat(topUpAmount)` (`None` is `NaN`): the amount
   * is sent rounded up when it is a positive number of at least 10000.
   */
  function CheckTopUp(amount: Option<real>): (r: Result<int, TopUpProblem>)
    ensures r == Err(InvalidAmount) <==> amount.None? || amount.value <= 0.0
    ensures r.Ok? <==> amount.Some? && amount.value >= MinTopUp
    ensures r.Ok? ==> r.value >= 10000 && (r.value - 1) as real < amount.value <= r.value as real
  {
    match amount
    case None => Err(InvalidAmount)
    case Some(a) =>
      if a <= 0.0 then Err(InvalidAmount)
      else if a < MinTopUp then Err(BelowMinimum)
      else Ok(Ceil(a))
  }

  /** A whole amount is sent unchanged. */
  lemma WholeAmountSentAsIs(n: int)
    requires n >= 10000
    ensures CheckTopUp(Some(n as real)) == Ok(n)
  {
  }

  datatype TopUpOutcome = Redirect(url: Json) | Alert(message: string)

  /**
   * What the page does with the payment provider's reply: open `orderUrl` when the
   * return code is the string "1" and the URL is truthy, and otherwise alert the
   * provider's message or a default. An `undefined` or `null` reply makes
   * `resp.returncode` throw, and the catch alerts its own message.
   */
  function OnTopUpReply(resp: Value): (r: TopUpOutcome)
    ensures !Defined(resp) ==> r == Alert(TopUpCallFailed)
    ensures r.Redirect? <==> Js.Get(resp, "returncode") == Some(JStr("1")) && Truthy(Js.Get(resp, "orderUrl"))
    ensures r.Redirect? ==> Some(r.url) == Js.Get(resp, "orderUrl")
    ensures r.Alert? && Defined(resp) ==>
      r.message == "Lỗi: " + Stringify(Or(Js.Get(resp, "returnmessage"), Some(JStr(TopUpLinkMissing)))) + ". Vui lòng thử lại."
  {
    if !Defined(resp) then Alert(TopUpCallFailed)
    else if Js.Get(resp, "returncode") == Some(JStr("1")) && Truthy(Js.Get(resp, "orderUrl")) then Redirect(Js.Get(resp, "orderUrl").value)
    else Alert("Lỗi: " + Stringify(Or(Js.Get(resp, "returnmessage"), Some(JStr(TopUpLinkMissing)))) + ". Vui lòng thử lại.")
  }

  /** The catch's alert when the reply cannot be read. */
  const TopUpCallFailed: string := "Lỗi khi tạo liên kết nạp tiền. Vui lòng thử lại."

  const TopUpLinkMissing: string := "Không tạo được đường dẫn thanh toán"

  /** A numeric return code 1 is not the string "1", so it does not redirect. */
  lemma NumericReturnCodeRejected(url: string)
    requires url != ""
    ensures OnTopUpReply(Some(JObj([("returncode", JNum(1)), ("orderUrl", JStr(url))]))).Alert?
  {
  }

  // ---------------------------------------------------------------------------
  // Listing status labels
  // ---------------------------------------------------------------------------

  const OnSale: string := "Đang bán"
  const Sold: string := "Đã bán"
  const AwaitingReview: string := "Đang chờ duyệt"
  const Processing: string := "Đang xử lý"

  /** The label as written: exact, case-sensitive comparisons. */
  function StatusLabelAsWritten(status: Option<string>): (r: string)
    ensures r == OnSale <==> status == Some("published") || status == Some("available")
    ensures r == Sold <==> status == Some("sold")
    ensures r == AwaitingReview <==> status == Some("pending")
  {
    if status == Some("published") || status == Some("available") then OnSale
    else if status == Some("sold") then Sold
    else if status == Some("pending") then AwaitingReview
    else Processing
  }

  /** A listing just posted carries the status "Pending", which the exact comparison does not recognise. */
  lemma PostedListingShowsProcessing()
    ensures StatusLabelAsWritten(Some(PostListing.PendingStatus)) == Processing
  {
    assert PostListing.PendingStatus[0] == 'P';
  }

  /** The label compared case-insensitively, as the search page compares statuses. */
  function StatusLabel(status: Option<string>): (r: string)
    ensures r == StatusLabelAsWritten(if status.Some? then Some(Lower(status.value)) else None)
  {
    match status
    case None => Processing
    case Some(s) => StatusLabelAsWritten(Some(Lower(s)))
  }

  /** A listing just posted is labelled as awaiting review, and the label does not depend on capitalisation. */
  lemma PostedListingAwaitsReview(s: string)
    ensures StatusLabel(Some(PostListing.PendingStatus)) == AwaitingReview
    ensures StatusLabel(Some(Upper(s))) == StatusLabel(Some(s))
  {
    assert Lower(PostListing.PendingStatus) == "pending";
    LowerUpper(s);
  }

  /** On lower-case statuses the two labels agree. */
  lemma LabelsAgreeOnLowerCase(s: string)
    requires Lower(s) == s
    ensures StatusLabel(Some(s)) == StatusLabelAsWritten(Some(s))
  {
  }
}
