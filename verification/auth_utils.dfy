/**
 * src/utils/authUtils.ts: the session-expiry guard, the authentication test shared
 * by the header and the route guard, and the password-strength rules.
 */
module AuthUtils {
  import opened Wrappers
  import opened Text
  import opened Storage

  // ---------------------------------------------------------------------------
  // Session-expiry guard
  // ---------------------------------------------------------------------------

  /**
   * The effect of one `handleTokenExpiration()` call: the new store, the new value
   * of the module-level `isHandlingExpiration` flag, and whether a notification
   * (toast plus a scheduled redirect) was issued.
   */
  datatype ExpiryStep = ExpiryStep(store: Store, handling: bool, notified: bool)

  function HandleTokenExpiration(st: Store, handling: bool): (r: ExpiryStep)
    ensures handling ==> r == ExpiryStep(st, true, false)
    ensures !handling ==> r.handling && r.notified
    ensures !handling ==> GetItem(r.store, TokenKey).None? && GetItem(r.store, RefreshKey).None?
    ensures !handling ==> GetItem(r.store, ProfileKey).None?
    ensures SameExcept(r.store, st, {TokenKey, RefreshKey, ProfileKey})
    ensures r.store.defaultAuth == st.defaultAuth
  {
    if handling then ExpiryStep(st, true, false)
    else
      var s1 := RemoveItem(RemoveItem(RemoveItem(st, TokenKey), RefreshKey), ProfileKey);
      ExpiryStep(s1, true, true)
  }

  /** Where the delayed callback sends the browser. */
  const LoginPath: string := "/login"

  /** The delayed callback: it resets the flag (and redirects to `LoginPath`). */
  function TimerFires(handling: bool): (r: bool)
    ensures !r
  {
    false
  }

  datatype GuardEvent = Expire | Fire

  /** Flag and number of notifications after a sequence of guard events. */
  function RunGuard(handling: bool, events: seq<GuardEvent>): (bool, nat)
    decreases |events|
  {
    if events == [] then (handling, 0)
    else
      match events[0]
      case Fire => RunGuard(TimerFires(handling), events[1..])
      case Expire =>
        var step := HandleTokenExpiration(Store(map[], None), handling);
        var (h, n) := RunGuard(step.handling, events[1..]);
        (h, n + if step.notified then 1 else 0)
  }

  function Fires(events: seq<GuardEvent>): nat {
    if events == [] then 0 else Fires(events[1..]) + if events[0] == Fire then 1 else 0
  }

  /**
   * At most one notification between resets: over any run, the notifications
   * number at most the timer firings, plus one if the flag started clear.
   */
  lemma {:induction false} AtMostOneNotificationPerReset(handling: bool, events: seq<GuardEvent>)
    ensures RunGuard(handling, events).1 <= Fires(events) + (if handling then 0 else 1)
    ensures Fires(events) == 0 && handling ==> RunGuard(handling, events).1 == 0
    decreases |events|
  {
    if events != [] {
      match events[0]
      case Fire =>
        AtMostOneNotificationPerReset(false, events[1..]);
      case Expire =>
        AtMostOneNotificationPerReset(true, events[1..]);
    }
  }

  // ---------------------------------------------------------------------------
  // Authentication test
  // ---------------------------------------------------------------------------

  /**
   * `isAuthenticated()`, also written inline in the header (`isAuthed`) and in the
   * route guard (`!token || !refreshToken` redirects to the login page).
   */
  predicate IsAuthenticated(st: Store) {
    Has(st, TokenKey) && Has(st, RefreshKey)
  }

  lemma IsAuthenticatedMeaning(st: Store)
    ensures IsAuthenticated(st) <==>
      && GetItem(st, TokenKey).Some? && GetItem(st, TokenKey).value != ""
      && GetItem(st, RefreshKey).Some? && GetItem(st, RefreshKey).value != ""
  {
  }

  /** After an effective expiry the user is no longer authenticated. */
  lemma ExpiryLogsOut(st: Store)
    ensures !IsAuthenticated(HandleTokenExpiration(st, false).store)
  {
  }

  // ---------------------------------------------------------------------------
  // Password strength
  // ---------------------------------------------------------------------------

  /** The rules in the order their messages are emitted. */
  datatype PasswordRule = MinLength | HasUpper | HasLower | HasDigit | HasSpecial

  function Rank(rule: PasswordRule): nat {
    match rule
    case MinLength => 0
    case HasUpper => 1
    case HasLower => 2
    case HasDigit => 3
    case HasSpecial => 4
  }

  /** The characters of the class `[!@#$%^&*(),.?":{}|<>]`. */
  const SpecialChars: string := "!@#$%^&*(),.?\":{}|<>"

  predicate Holds(password: string, rule: PasswordRule) {
    match rule
    case MinLength => |password| >= 8
    case HasUpper => exists i :: 0 <= i < |password| && IsUpper(password[i])
    case HasLower => exists i :: 0 <= i < |password| && IsLower(password[i])
    case HasDigit => exists i :: 0 <= i < |password| && IsDigit(password[i])
    case HasSpecial => exists i :: 0 <= i < |password| && password[i] in SpecialChars
  }

  datatype PasswordCheck = PasswordCheck(isValid: bool, errors: seq<PasswordRule>)

  /** The rules are checked, and their messages pushed, in this order. */
  const RuleOrder: seq<PasswordRule> := [MinLength, HasUpper, HasLower, HasDigit, HasSpecial]

  predicate RankIncreasing(rules: seq<PasswordRule>) {
    forall i, j :: 0 <= i < j < |rules| ==> Rank(rules[i]) < Rank(rules[j])
  }

  /** The failing rules among `rules`, each pushed in turn as the source does. */
  function Failing(password: string, rules: seq<PasswordRule>): (errors: seq<PasswordRule>)
    requires RankIncreasing(rules)
    ensures forall rule :: rule in errors <==> rule in rules && !Holds(password, rule)
    ensures RankIncreasing(errors)
    ensures |errors| <= |rules|
  {
    if rules == [] then []
    else
      var rest := Failing(password, rules[1..]);
      if Holds(password, rules[0]) then rest
      else
        assert forall rule :: rule in rest ==> Rank(rules[0]) < Rank(rule);
        [rules[0]] + rest
  }

  /** `validatePassword(password)`. */
  function ValidatePassword(password: string): (r: PasswordCheck)
    ensures forall rule :: rule in r.errors <==> !Holds(password, rule)
    ensures RankIncreasing(r.errors)
    ensures |r.errors| <= 5
    ensures r.isValid <==> r.errors == []
    ensures r.isValid <==> forall rule :: Holds(password, rule)
  {
    var errors := Failing(password, RuleOrder);
    assert forall rule :: rule in RuleOrder by {
      forall rule ensures rule in RuleOrder {
        assert RuleOrder[Rank(rule)] == rule;
      }
    }
    assert errors == [] <==> forall rule :: Holds(password, rule) by {
      if errors != [] { assert errors[0] in errors; }
    }
    PasswordCheck(|errors| == 0, errors)
  }
}
