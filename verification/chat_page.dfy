/**
 * src/pages/ChatPage.tsx: the seller's name and initials, finding or opening the
 * conversation about a listing, sending a message, and where avatars are drawn.
 */
module ChatPage {
  import opened Wrappers
  import opened Text
  import opened Js

  // ---------------------------------------------------------------------------
  // The seller header
  // ---------------------------------------------------------------------------

  /** The page's fixed buyer id (the page does not read the signed-in user). */
  const CurrentUserId: string := "69018208e1519300ed63251e"

  const DefaultSellerName: string := "Người bán"
  const DefaultInitials: string := "NB"

  /**
   * Initials of a name: with a space in the trimmed name, the first letters of its
   * first and last space-separated parts; otherwise the first two characters of the
   * name as given. Upper-cased either way.
   */
  function Initials(name: string): (r: string)
    ensures var t := Trim(name);
      ' ' in t ==> (LastPartInside(name); |r| == 2 && r[0] == UpperChar(t[0]) && r[1] == UpperChar(t[LastIndexOf(t, ' ').value + 1]))
    ensures ' ' !in Trim(name) ==> r == Upper(Take(name, 2))
  {
    var t := Trim(name);
    if ' ' in t then LastPartInside(name); FirstAndLast(t) else Upper(Take(name, 2))
  }

  /** In a trimmed string with a space, the last space is followed by at least one character. */
  lemma LastPartInside(name: string)
    requires ' ' in Trim(name)
    ensures var t := Trim(name);
      && !IsSpace(t[0]) && !IsSpace(t[|t| - 1])
      && LastIndexOf(t, ' ').value + 1 < |t|
  {
    var t := Trim(name);
    assert IsSpace(' ');
  }

  /** `(nameParts[0][0] + nameParts[nameParts.length - 1][0]).toUpperCase()` on a trimmed name with a space. */
  function FirstAndLast(t: string): (r: string)
    requires ' ' in t && !IsSpace(t[0]) && !IsSpace(t[|t| - 1])
    ensures |r| == 2 && r[0] == UpperChar(t[0]) && r[1] == UpperChar(t[LastIndexOf(t, ' ').value + 1])
  {
    var parts := Split(t, ' ');
    SplitEnds(t);
    [UpperChar(parts[0][0]), UpperChar(parts[|parts| - 1][0])]
  }

  /** For a trimmed string with a space, the first and last parts are non-empty and start where expected. */
  lemma SplitEnds(t: string)
    requires ' ' in t
    requires !IsSpace(t[0]) && !IsSpace(t[|t| - 1])
    ensures var parts := Split(t, ' ');
      && |parts| >= 2
      && parts[0] != [] && parts[0][0] == t[0]
      && parts[|parts| - 1] != [] && parts[|parts| - 1][0] == t[LastIndexOf(t, ' ').value + 1]
  {
    var k := LastIndexOf(t, ' ').value;
    SplitCount(t, ' ');
    SplitFirst(t, ' ');
    SplitLast(t, ' ', k);
    assert k < |t| - 1;
  }

  /** The initials of a non-empty name are never empty, and never longer than two characters. */
  lemma InitialsShape(name: string)
    requires name != ""
    ensures 1 <= |Initials(name)| <= 2
  {
  }

  /** The seller as `getUserById` returns it. */
  datatype Seller = Seller(fullName: Option<string>, displayName: Option<string>)

  /** `seller.fullName || seller.displayName || "Người bán"`. */
  function SellerName(s: Seller): (r: string)
    ensures r != ""
    ensures s.fullName.Some? && s.fullName.value != "" ==> r == s.fullName.value
    ensures (s.fullName.None? || s.fullName.value == "") && s.displayName.Some? && s.displayName.value != "" ==> r == s.displayName.value
    ensures (s.fullName.None? || s.fullName.value == "") && (s.displayName.None? || s.displayName.value == "") ==> r == DefaultSellerName
  {
    if s.fullName.Some? && s.fullName.value != "" then s.fullName.value
    else if s.displayName.Some? && s.displayName.value != "" then s.displayName.value
    else DefaultSellerName
  }

  /** The header's name and initials; `None` is a failed fetch. */
  function SellerHeader(seller: Option<Seller>): (r: (string, string))
    ensures seller.None? ==> r == (DefaultSellerName, DefaultInitials)
    ensures seller.Some? ==> r == (SellerName(seller.value), Initials(SellerName(seller.value)))
    ensures 1 <= |r.1| <= 2
  {
    match seller
    case None => (DefaultSellerName, DefaultInitials)
    case Some(s) =>
      var name := SellerName(s);
      InitialsShape(name);
      (name, Initials(name))
  }

  /** The fallback name yields the fallback initials, so a failed fetch and a nameless seller look the same. */
  lemma FallbacksAgree()
    ensures Initials(DefaultSellerName) == DefaultInitials
    ensures SellerHeader(Some(Seller(None, None))) == SellerHeader(None)
  {
    var d := DefaultSellerName;
    assert |d| == 9 && d[0] == 'N' && d[5] == ' ' && d[6] == 'b' && d[8] == 'n';
    TrimUnpadded(d);
    assert d[6..] == ['b', d[7], 'n'] && d[7] != ' ';
    var k := LastIndexOf(d, ' ').value;
    assert k == 5;
    assert FirstAndLast(d) == DefaultInitials;
  }

  // ---------------------------------------------------------------------------
  // Finding or opening the conversation
  // ---------------------------------------------------------------------------

  /** `c.listingId === productId && c.sellerId === sellerId && c.buyerId === currentUserId`. */
  predicate IsConversation(c: Json, productId: string, sellerId: string) {
    && Get(Some(c), "listingId") == Some(JStr(productId))
    && Get(Some(c), "sellerId") == Some(JStr(sellerId))
    && Get(Some(c), "buyerId") == Some(JStr(CurrentUserId))
  }

  /**
   * `Array.isArray(res.data.data) ? res.data.data : []` on the body `getChats` returns.
   * Both reads are plain member accesses: `None` is the `TypeError` thrown when the body
   * or its `data` is `undefined` or `null`.
   */
  function ChatsOf(res: Value): (r: Option<seq<Json>>)
    ensures r.None? <==> !Defined(res) || !Defined(Get(res, "data"))
    ensures r.Some? && r.value != [] ==> GetPath(res, ["data", "data"]) == Some(JArr(r.value))
    ensures r.Some? && GetPath(res, ["data", "data"]).Some? && GetPath(res, ["data", "data"]).value.JArr? ==>
      r.value == GetPath(res, ["data", "data"]).value.items
  {
    if !Defined(res) || !Defined(Get(res, "data")) then None
    else match GetPath(res, ["data", "data"])
      case Some(JArr(items)) => Some(items)
      case _ => Some([])
  }

  /** How `allChats.find(...)` ends: at a match, past the end, or thrown by `c.listingId` on a `null` entry. */
  datatype Lookup = Match(index: nat) | NoMatch | NullEntry(index: nat)

  /** Every entry before `k` is a non-null conversation about something else. */
  predicate SkippedBefore(chats: seq<Json>, k: nat, productId: string, sellerId: string)
    requires k <= |chats|
  {
    forall i :: 0 <= i < k ==> chats[i] != JNull && !IsConversation(chats[i], productId, sellerId)
  }

  /** `allChats.find(...)`, entry by entry. */
  function FindChat(chats: seq<Json>, productId: string, sellerId: string): (r: Lookup)
    ensures r.NoMatch? <==> SkippedBefore(chats, |chats|, productId, sellerId)
    ensures r.Match? ==>
      (r.index < |chats| && IsConversation(chats[r.index], productId, sellerId) && SkippedBefore(chats, r.index, productId, sellerId))
    ensures r.NullEntry? ==>
      (r.index < |chats| && chats[r.index] == JNull && SkippedBefore(chats, r.index, productId, sellerId))
    decreases |chats|
  {
    if chats == [] then NoMatch
    else if chats[0] == JNull then NullEntry(0)
    else if IsConversation(chats[0], productId, sellerId) then Match(0)
    else
      var r := FindChat(chats[1..], productId, sellerId);
      assert forall i :: 1 <= i < |chats| ==> chats[1..][i - 1] == chats[i];
      match r
      case Match(i) => Match(i + 1)
      case NoMatch => NoMatch
      case NullEntry(i) => NullEntry(i + 1)
  }

  const ChatFailed: string := "Không thể tạo cuộc trò chuyện. Vui lòng thử lại."

  /** What opening the page does: reuse a conversation, ask to create one, or show the catch's error. */
  datatype Init = Reuse(chat: Json) | Create(listingId: string, sellerId: string) | Fail(message: string)

  function InitChat(res: Value, productId: string, sellerId: string): (r: Init)
    ensures r.Fail? <==> ChatsOf(res).None? || FindChat(ChatsOf(res).value, productId, sellerId).NullEntry?
    ensures r.Fail? ==> r.message == ChatFailed
    ensures r.Create? <==> ChatsOf(res).Some? && FindChat(ChatsOf(res).value, productId, sellerId).NoMatch?
    ensures r.Create? ==> r == Create(productId, sellerId)
    ensures r.Reuse? ==> IsConversation(r.chat, productId, sellerId) && r.chat in ChatsOf(res).value
  {
    match ChatsOf(res)
    case None => Fail(ChatFailed)
    case Some(chats) =>
      match FindChat(chats, productId, sellerId)
      case Match(i) => Reuse(chats[i])
      case NoMatch => Create(productId, sellerId)
      case NullEntry(_) => Fail(ChatFailed)
  }

  /** A body that is not an object holding a `data` field fails before any lookup, and creates nothing. */
  lemma MissingDataFails(res: Value, productId: string, sellerId: string)
    requires !Defined(res) || !Defined(Get(res, "data"))
    ensures InitChat(res, productId, sellerId) == Fail(ChatFailed)
  {
  }

  /** A `null` entry ahead of every match fails the lookup, and creates nothing. */
  lemma NullBeforeMatchFails(chats: seq<Json>, k: nat, productId: string, sellerId: string)
    requires k < |chats| && chats[k] == JNull && SkippedBefore(chats, k, productId, sellerId)
    ensures var res := Some(JObj([("data", JObj([("data", JArr(chats))]))]));
      InitChat(res, productId, sellerId) == Fail(ChatFailed)
  {
    var res := Some(JObj([("data", JObj([("data", JArr(chats))]))]));
    assert ChatsOf(res) == Some(chats);
    assert FindChat(chats, productId, sellerId) == NullEntry(k);
  }

  /** Once the server lists the conversation it created, opening the page again reuses it rather than creating another. */
  lemma ReopeningReuses(res: Value, chat: Json, productId: string, sellerId: string)
    requires InitChat(res, productId, sellerId).Create?
    requires IsConversation(chat, productId, sellerId)
    ensures var later := Some(JObj([("data", JObj([("data", JArr(ChatsOf(res).value + [chat]))]))]));
      InitChat(later, productId, sellerId) == Reuse(chat)
  {
    var chats := ChatsOf(res).value;
    var later := Some(JObj([("data", JObj([("data", JArr(chats + [chat]))]))]));
    assert ChatsOf(later) == Some(chats + [chat]);
    var i := |chats|;
    assert FindChat(chats + [chat], productId, sellerId) == Match(i) by {
      FindAfterSkipped(chats, chat, productId, sellerId);
    }
  }

  /** After entries that are all skipped, `find` stops at an appended match. */
  lemma {:induction false} FindAfterSkipped(chats: seq<Json>, chat: Json, productId: string, sellerId: string)
    requires SkippedBefore(chats, |chats|, productId, sellerId)
    requires IsConversation(chat, productId, sellerId)
    ensures FindChat(chats + [chat], productId, sellerId) == Match(|chats|)
    decreases |chats|
  {
    if chats == [] {
      assert chat != JNull;
    } else {
      assert (chats + [chat])[1..] == chats[1..] + [chat];
      assert SkippedBefore(chats[1..], |chats[1..]|, productId, sellerId) by {
        assert forall i :: 0 <= i < |chats| - 1 ==> chats[1..][i] == chats[i + 1];
      }
      FindAfterSkipped(chats[1..], chat, productId, sellerId);
    }
  }

  // ---------------------------------------------------------------------------
  // Sending
  // ---------------------------------------------------------------------------

  /**
   * `handleSend`: nothing is sent without a conversation, with a blank input or
   * while a call is running; otherwise the trimmed input is sent.
   */
  function Send(chatId: Option<string>, input: string, loading: bool): (r: Option<string>)
    ensures r.None? <==> chatId.None? || chatId.value == "" || IsBlank(input) || loading
    ensures r.Some? ==> r.value == Trim(input) && !IsBlank(r.value)
  {
    if chatId.None? || chatId.value == "" || IsBlank(input) || loading then None
    else
      TrimIdempotent(input);
      Some(Trim(input))
  }

  /** The input box after a send: emptied on success, the sent text put back on failure. */
  function InputAfter(sent: string, ok: bool): (r: string)
    ensures ok ==> r == ""
    ensures !ok ==> r == sent
  {
    if ok then "" else sent
  }

  /** Sending again after a failure sends the same text. */
  lemma RetrySendsSameText(chatId: Option<string>, input: string)
    requires Send(chatId, input, false).Some?
    ensures Send(chatId, InputAfter(Send(chatId, input, false).value, false), false) == Send(chatId, input, false)
  {
    TrimIdempotent(input);
  }

  // ---------------------------------------------------------------------------
  // Avatars
  // ---------------------------------------------------------------------------

  /** A message; only its sender matters here. */
  datatype Message = Message(senderId: Option<string>)

  /** The avatar is drawn on the first message and wherever the sender changes. */
  predicate ShowAvatar(msgs: seq<Message>, i: nat)
    requires i < |msgs|
  {
    i == 0 || msgs[i - 1].senderId != msgs[i].senderId
  }

  /** Every message belongs to a run of one sender that starts with a drawn avatar. */
  lemma {:induction false} AvatarStartsRun(msgs: seq<Message>, i: nat)
    requires i < |msgs|
    ensures exists j :: 0 <= j <= i && ShowAvatar(msgs, j) && forall k :: j <= k <= i ==> msgs[k].senderId == msgs[i].senderId
    decreases i
  {
    if ShowAvatar(msgs, i) {
      assert ShowAvatar(msgs, i) && forall k :: i <= k <= i ==> msgs[k].senderId == msgs[i].senderId;
    } else {
      AvatarStartsRun(msgs, i - 1);
      var j :| 0 <= j <= i - 1 && ShowAvatar(msgs, j) && forall k :: j <= k <= i - 1 ==> msgs[k].senderId == msgs[i - 1].senderId;
      assert forall k :: j <= k <= i ==> msgs[k].senderId == msgs[i].senderId;
    }
  }

  /** Consecutive messages of one sender draw only one avatar. */
  lemma OneAvatarPerRun(msgs: seq<Message>, i: nat)
    requires 0 < i < |msgs| && msgs[i - 1].senderId == msgs[i].senderId
    ensures !ShowAvatar(msgs, i)
  {
  }
}
