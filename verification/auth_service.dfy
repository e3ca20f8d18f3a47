/**
 * src/services/authService.ts: pulling an access/refresh token pair out of a
 * loosely shaped response body, storing and clearing it, and the guards around
 * the refresh and logout calls.
 */
module AuthService {
  import opened Wrappers
  import opened Text
  import opened Js
  import opened Storage
  import AuthUtils
  import Seqs
  import ObjectKeys

  /** `{ accessToken?, refreshToken? }`; before stage 3 either may hold any JSON value. */
  datatype Tokens = Tokens(access: Value, refresh: Value)

  const NoTokens: Tokens := Tokens(None, None)

  /** `t.accessToken || t.refreshToken`. */
  predicate Found(t: Tokens) {
    Truthy(t.access) || Truthy(t.refresh)
  }

  // ---------------------------------------------------------------------------
  // Stage 1: direct fields
  // ---------------------------------------------------------------------------

  const AccessPaths: seq<seq<string>> :=
    [["accessToken"], ["access_token"], ["token"], ["jwt"], ["access"], ["data", "accessToken"], ["data", "access_token"]]
  const RefreshPaths: seq<seq<string>> :=
    [["refreshToken"], ["refresh_token"], ["refresh"], ["data", "refreshToken"], ["data", "refresh_token"]]

  function Direct(d: Value): Tokens {
    Tokens(FirstTruthy(ReadAll(d, AccessPaths)), FirstTruthy(ReadAll(d, RefreshPaths)))
  }

  // ---------------------------------------------------------------------------
  // Stage 2: named containers
  // ---------------------------------------------------------------------------

  const ContainerPaths: seq<seq<string>> :=
    [["token"], ["tokens"], ["result"], ["payload"], ["content"], ["data", "token"], ["data", "tokens"], ["data", "result"]]
  const NestedAccessPaths: seq<seq<string>> := [["accessToken"], ["access_token"], ["jwt"], ["access"]]
  const NestedRefreshPaths: seq<seq<string>> := [["refreshToken"], ["refresh_token"], ["refresh"]]

  /** `[d.token, ..., d.data?.result].filter(Boolean)`. */
  function Containers(d: Value): (cs: seq<Value>)
    ensures forall i :: 0 <= i < |cs| ==> Truthy(cs[i])
  {
    Seqs.Filter(ReadAll(d, ContainerPaths), Truthy)
  }

  function Nested(c: Value): Tokens {
    Tokens(FirstTruthy(ReadAll(c, NestedAccessPaths)), FirstTruthy(ReadAll(c, NestedRefreshPaths)))
  }

  /** The container yields a token. */
  predicate Yields(c: Value) {
    Found(Nested(c))
  }

  /** The `for (const c of containers)` loop: the first container that yields a token. */
  function FirstNested(cs: seq<Value>): (r: Option<Tokens>)
    ensures r.None? <==> forall i :: 0 <= i < |cs| ==> !Found(Nested(cs[i]))
    ensures r.Some? ==> exists k :: (0 <= k < |cs| && r.value == Nested(cs[k]) && Found(r.value)
      && forall i :: 0 <= i < k ==> !Found(Nested(cs[i])))
  {
    var k := Seqs.FirstIndex(cs, Yields);
    if k < |cs| then Some(Nested(cs[k])) else None
  }

  const MaxDepth: nat := 5

  /** The `found` object of the search: string values only. */
  datatype Slots = Slots(access: Option<string>, refresh: Option<string>)

  const NoSlots: Slots := Slots(None, None)

  /** `!found.accessToken`: nothing stored yet, or only the empty string. */
  predicate Unset(o: Option<string>) {
    o.None? || o.value == ""
  }

  predicate SlotsFound(f: Slots) {
    !Unset(f.access) || !Unset(f.refresh)
  }

  predicate KeyMatchesAccess(key: string) {
    var k := Lower(key);
    Contains(k, "access") || Contains(k, "token") || Contains(k, "jwt")
  }

  predicate KeyMatchesRefresh(key: string) {
    Contains(Lower(key), "refresh")
  }

  /**
   * `Object.entries(obj)` on a value the search visits: the fields of an object, which
   * `InEntriesOrder` has already put in the order `Object.entries` lists them, or the
   * index/element pairs of an array.
   */
  function Entries(j: Json): seq<(string, Json)> {
    match j
    case JObj(fields) => fields
    case JArr(items) => seq(|items|, i requires 0 <= i < |items| => (NatToString(i), items[i]))
    case _ => []
  }

  /** One `[k, v]` entry: a string value may fill an unset slot whose key matches. */
  function ScanEntry(f: Slots, key: string, v: Json): (r: Slots)
    ensures !Unset(f.access) ==> r.access == f.access
    ensures !Unset(f.refresh) ==> r.refresh == f.refresh
    ensures r.access != f.access ==> v.JStr? && r.access == Some(v.s) && KeyMatchesAccess(key)
    ensures r.refresh != f.refresh ==> v.JStr? && r.refresh == Some(v.s) && KeyMatchesRefresh(key)
  {
    if v.JStr? then
      var f1 := if Unset(f.access) && KeyMatchesAccess(key) then f.(access := Some(v.s)) else f;
      if Unset(f1.refresh) && KeyMatchesRefresh(key) then f1.(refresh := Some(v.s)) else f1
    else f
  }

  function ScanEntries(f: Slots, es: seq<(string, Json)>): Slots
    decreases |es|
  {
    if es == [] then f else ScanEntry(ScanEntries(f, es[..|es| - 1]), es[|es| - 1].0, es[|es| - 1].1)
  }

  /** The values of `es` that the search pushes for the next level. */
  function ChildrenOf(es: seq<(string, Json)>): seq<Json>
    decreases |es|
  {
    if es == [] then []
    else ChildrenOf(es[..|es| - 1]) + (if IsObject(es[|es| - 1].1) then [es[|es| - 1].1] else [])
  }

  /** A dequeued value is inspected only if it is an object (or array). */
  function ScanNode(f: Slots, j: Json): Slots {
    if IsObject(j) then ScanEntries(f, Entries(j)) else f
  }

  function NodeChildren(j: Json): seq<Json> {
    if IsObject(j) then ChildrenOf(Entries(j)) else []
  }

  function ScanLevel(f: Slots, level: seq<Json>): Slots
    decreases |level|
  {
    if level == [] then f else ScanNode(ScanLevel(f, level[..|level| - 1]), level[|level| - 1])
  }

  function NextLevel(level: seq<Json>): seq<Json>
    decreases |level|
  {
    if level == [] then [] else NextLevel(level[..|level| - 1]) + NodeChildren(level[|level| - 1])
  }

  /**
   * The search, level by level: it stops after the first level that filled a slot,
   * and answers `{}` when the queue runs dry or `MaxDepth` levels were scanned.
   */
  function DeepSearchFrom(level: seq<Json>, depth: nat, f: Slots): Slots
    decreases MaxDepth - depth
  {
    if level == [] || depth >= MaxDepth then NoSlots
    else
      var f1 := ScanLevel(f, level);
      if SlotsFound(f1) then f1 else DeepSearchFrom(NextLevel(level), depth + 1, f1)
  }

  /** The inner `for (const [k, v] of Object.entries(obj))` loop of the search. */
  method ScanEntriesLoop(entries: seq<(string, Json)>, found0: Slots, queue0: seq<Json>)
    returns (found: Slots, queue: seq<Json>)
    ensures found == ScanEntries(found0, entries)
    ensures queue == queue0 + ChildrenOf(entries)
  {
    found, queue := found0, queue0;
    var j := 0;
    while j < |entries|
      invariant 0 <= j <= |entries|
      invariant queue == queue0 + ChildrenOf(entries[..j])
      invariant found == ScanEntries(found0, entries[..j])
    {
      var (k, v) := entries[j];
      var key := Lower(k);
      if v.JStr? {
        if Unset(found.access) && (Contains(key, "access") || Contains(key, "token") || Contains(key, "jwt")) {
          found := found.(access := Some(v.s));
        }
        if Unset(found.refresh) && Contains(key, "refresh") {
          found := found.(refresh := Some(v.s));
        }
      } else if IsObject(v) {
        queue := queue + [v];
      }
      assert entries[..j + 1][..j] == entries[..j];
      j := j + 1;
    }
    assert entries[..j] == entries;
  }

  /** One level of the search: `levelSize` values are shifted off the queue and scanned. */
  method ScanLevelLoop(level: seq<Json>, found0: Slots) returns (found: Slots, queue: seq<Json>)
    ensures found == ScanLevel(found0, level)
    ensures queue == NextLevel(level)
  {
    queue := level;
    found := found0;
    var levelSize := |queue|;
    var i := 0;
    while i < levelSize
      invariant 0 <= i <= levelSize
      invariant queue == level[i..] + NextLevel(level[..i])
      invariant found == ScanLevel(found0, level[..i])
    {
      var obj := queue[0];
      assert obj == level[i];
      queue := queue[1..];
      assert queue == level[i + 1..] + NextLevel(level[..i]);
      ghost var done := level[..i + 1];
      assert done[..i] == level[..i] && done[i] == obj;
      assert NextLevel(done) == NextLevel(level[..i]) + NodeChildren(obj);
      assert ScanLevel(found0, done) == ScanNode(ScanLevel(found0, level[..i]), obj);
      if IsObject(obj) {
        found, queue := ScanEntriesLoop(Entries(obj), found, queue);
      }
      i := i + 1;
    }
    assert level[..i] == level;
  }

  /** The search loop as written: one queue, a level counter, and `{}` when it gives up. */
  method DeepSearch(d: Json) returns (found: Slots)
    ensures found == DeepSearchFrom([d], 0, NoSlots)
  {
    var queue := [d];
    found := NoSlots;
    var depth := 0;
    while queue != [] && depth < MaxDepth
      invariant depth <= MaxDepth
      invariant DeepSearchFrom(queue, depth, found) == DeepSearchFrom([d], 0, NoSlots)
      decreases MaxDepth - depth
    {
      found, queue := ScanLevelLoop(queue, found);
      depth := depth + 1;
      if SlotsFound(found) {
        return;
      }
    }
    found := NoSlots;
  }

  function SlotsToTokens(f: Slots): Tokens {
    Tokens(
      match f.access case Some(s) => Some(JStr(s)) case None => None,
      match f.refresh case Some(s) => Some(JStr(s)) case None => None)
  }

  // ---------------------------------------------------------------------------
  // extractTokens
  // ---------------------------------------------------------------------------

  /** `raw ?? {}`. */
  function Body(raw: Value): Json {
    if raw.Some? && raw.value != JNull then raw.value else JObj([])
  }

  function ExtractTokens(raw: Value): Tokens {
    var d := Some(Body(raw));
    var direct := Direct(d);
    if Found(direct) then direct
    else
      match FirstNested(Containers(d))
      case Some(t) => t
      case None => SlotsToTokens(DeepSearchFrom([ObjectKeys.InEntriesOrder(Body(raw))], 0, NoSlots))
  }

  /**
   * Stage 1 answers whenever one of its candidates is truthy, for either role. Each role
   * is then truthy exactly when one of its own candidates is, and takes the first such.
   */
  lemma DirectFirst(raw: Value)
    requires Found(Direct(Some(Body(raw))))
    ensures ExtractTokens(raw) == Direct(Some(Body(raw)))
    ensures Truthy(ExtractTokens(raw).access)
      <==> exists i :: 0 <= i < |AccessPaths| && Truthy(GetPath(Some(Body(raw)), AccessPaths[i]))
    ensures Truthy(ExtractTokens(raw).refresh)
      <==> exists i :: 0 <= i < |RefreshPaths| && Truthy(GetPath(Some(Body(raw)), RefreshPaths[i]))
    ensures var vs := ReadAll(Some(Body(raw)), AccessPaths);
      (exists i :: 0 <= i < |vs| && Truthy(vs[i])) ==>
        ExtractTokens(raw).access == vs[FirstTruthyIndex(vs)] && Truthy(ExtractTokens(raw).access)
    ensures var vs := ReadAll(Some(Body(raw)), RefreshPaths);
      (exists i :: 0 <= i < |vs| && Truthy(vs[i])) ==>
        ExtractTokens(raw).refresh == vs[FirstTruthyIndex(vs)] && Truthy(ExtractTokens(raw).refresh)
  {
  }

  /**
   * A truthy top-level `token` that is an object is returned whole as the access
   * token: stage 1 reads `d.token`, so the `token` container is never opened.
   */
  lemma TokenObjectTakenWhole()
    ensures var inner := JObj([("accessToken", JStr("a"))]);
      ExtractTokens(Some(JObj([("token", inner)]))).access == Some(inner)
  {
    var inner := JObj([("accessToken", JStr("a"))]);
    var d := Some(JObj([("token", inner)]));
    assert GetPath(d, AccessPaths[0]) == None;
    assert GetPath(d, AccessPaths[1]) == None;
    assert GetPath(d, AccessPaths[2]) == Some(inner);
    assert FirstTruthyIndex(ReadAll(d, AccessPaths)) == 2;
  }

  /** Stage 2 returns the first container, in the listed order, that yields either token. */
  lemma ContainerOrder(raw: Value)
    requires !Found(Direct(Some(Body(raw))))
    requires FirstNested(Containers(Some(Body(raw)))).Some?
    ensures var cs := Containers(Some(Body(raw)));
      exists k :: 0 <= k < |cs| && ExtractTokens(raw) == Nested(cs[k]) && Found(Nested(cs[k]))
        && forall i :: 0 <= i < k ==> !Found(Nested(cs[i]))
  {
  }

  /** Once a slot holds a non-empty value, scanning more entries never changes it. */
  lemma {:induction false} ScanEntriesKeeps(f: Slots, es: seq<(string, Json)>)
    ensures !Unset(f.access) ==> ScanEntries(f, es).access == f.access
    ensures !Unset(f.refresh) ==> ScanEntries(f, es).refresh == f.refresh
    decreases |es|
  {
    if es != [] {
      ScanEntriesKeeps(f, es[..|es| - 1]);
    }
  }

  /** A slot filled during a scan holds the value of a string entry whose key matches its role. */
  lemma {:induction false} ScanEntriesSource(f: Slots, es: seq<(string, Json)>)
    ensures var r := ScanEntries(f, es);
      r.access != f.access ==>
        (r.access.Some? && exists i :: 0 <= i < |es| && es[i].1 == JStr(r.access.value) && KeyMatchesAccess(es[i].0))
    ensures var r := ScanEntries(f, es);
      r.refresh != f.refresh ==>
        (r.refresh.Some? && exists i :: 0 <= i < |es| && es[i].1 == JStr(r.refresh.value) && KeyMatchesRefresh(es[i].0))
    decreases |es|
  {
    if es != [] {
      var init := es[..|es| - 1];
      ScanEntriesSource(f, init);
      var mid := ScanEntries(f, init);
      var r := ScanEntries(f, es);
      if r.access != f.access && r.access == mid.access {
        assert r.access.Some?;
        var i :| 0 <= i < |init| && init[i].1 == JStr(r.access.value) && KeyMatchesAccess(init[i].0);
        assert es[i] == init[i];
      }
      if r.refresh != f.refresh && r.refresh == mid.refresh {
        assert r.refresh.Some?;
        var i :| 0 <= i < |init| && init[i].1 == JStr(r.refresh.value) && KeyMatchesRefresh(init[i].0);
        assert es[i] == init[i];
      }
    }
  }

  /** `n` nested single-field objects `{"a": {"a": ... leaf}}` around `leaf`. */
  function Wrap(n: nat, leaf: Json): Json {
    if n == 0 then leaf else JObj([("a", Wrap(n - 1, leaf))])
  }

  const TokenLeaf: Json := JObj([("token", JStr("x"))])

  lemma ScanTokenLeaf(f: Slots)
    requires f == NoSlots
    ensures ScanLevel(f, [TokenLeaf]) == Slots(Some("x"), None)
  {
    var key := "token";
    assert OccursAt(Lower(key), "token", 0);
    assert !KeyMatchesRefresh(key);
    assert [TokenLeaf][..0] == [];
  }

  lemma ScanWrapper(m: nat)
    requires m > 0
    ensures ScanLevel(NoSlots, [Wrap(m, TokenLeaf)]) == NoSlots
    ensures NextLevel([Wrap(m, TokenLeaf)]) == [Wrap(m - 1, TokenLeaf)]
  {
    var w := Wrap(m, TokenLeaf);
    var child := Wrap(m - 1, TokenLeaf);
    assert child.JObj?;
    var es := Entries(w);
    assert es == [("a", child)];
    assert es[..0] == [];
    assert [w][..0] == [];
    assert ScanEntries(NoSlots, es) == ScanEntry(NoSlots, "a", child) == NoSlots;
    assert ChildrenOf(es) == ChildrenOf([]) + [child];
    assert NextLevel([w]) == NextLevel([]) + NodeChildren(w);
  }

  /** A level holding only the leaf ends the search with its token. */
  lemma SearchLeafLevel(depth: nat)
    requires depth < MaxDepth
    ensures DeepSearchFrom([Wrap(0, TokenLeaf)], depth, NoSlots) == Expected(0, depth)
  {
    assert Wrap(0, TokenLeaf) == TokenLeaf;
    ScanTokenLeaf(NoSlots);
  }

  /** No level past the bound is scanned. */
  lemma SearchPastBound(level: seq<Json>, depth: nat)
    requires depth >= MaxDepth
    ensures DeepSearchFrom(level, depth, NoSlots) == NoSlots
  {
  }

  /** A level holding only a wrapper moves the search one level down, to its child. */
  lemma SearchWrapperLevel(m: nat, depth: nat)
    requires m > 0 && depth < MaxDepth
    ensures DeepSearchFrom([Wrap(m, TokenLeaf)], depth, NoSlots) == DeepSearchFrom([Wrap(m - 1, TokenLeaf)], depth + 1, NoSlots)
  {
    ScanWrapper(m);
  }

  /** What the bounded search answers for a token `m` levels below level `depth`. */
  function Expected(m: nat, depth: nat): Slots {
    if depth + m < MaxDepth then Slots(Some("x"), None) else NoSlots
  }

  /** A wrapper level answers what the level below it answers. */
  lemma DepthStep(m: nat, depth: nat)
    requires m > 0 && depth < MaxDepth
    requires DeepSearchFrom([Wrap(m - 1, TokenLeaf)], depth + 1, NoSlots) == Expected(m - 1, depth + 1)
    ensures DeepSearchFrom([Wrap(m, TokenLeaf)], depth, NoSlots) == Expected(m, depth)
  {
    SearchWrapperLevel(m, depth);
  }

  /** The search is bounded: a token `m` levels below the level being scanned is found iff it is above level `MaxDepth`. */
  lemma {:induction false} DepthBound(m: nat, depth: nat)
    ensures DeepSearchFrom([Wrap(m, TokenLeaf)], depth, NoSlots) == Expected(m, depth)
    decreases m
  {
    if depth >= MaxDepth {
      SearchPastBound([Wrap(m, TokenLeaf)], depth);
    } else if m == 0 {
      SearchLeafLevel(depth);
    } else {
      var inner := DeepSearchFrom([Wrap(m - 1, TokenLeaf)], depth + 1, NoSlots);
      DepthBound(m - 1, depth + 1);
      assert inner == Expected(m - 1, depth + 1);
      DepthStep(m, depth);
    }
  }

  /** A key is matched case-insensitively, and a key holding "token" also fills the access slot. */
  lemma RefreshKeyFillsBothSlots()
    ensures ScanEntry(NoSlots, "REFRESH_TOKEN", JStr("r")) == Slots(Some("r"), Some("r"))
  {
    var k := Lower("REFRESH_TOKEN");
    assert k == "refresh_token";
    assert OccursAt(k, "token", 8);
    assert OccursAt(k, "refresh", 0);
  }

  /** The top-level keys stages 1 and 2 read first. */
  const CandidateKeys: set<string> := {
    "accessToken", "access_token", "token", "jwt", "access", "data",
    "refreshToken", "refresh_token", "refresh", "tokens", "result", "payload", "content"}

  /** Every path of the first two stages starts with a candidate key. */
  lemma PathsStartWithCandidateKeys()
    ensures forall i :: 0 <= i < |AccessPaths| ==> AccessPaths[i] != [] && AccessPaths[i][0] in CandidateKeys
    ensures forall i :: 0 <= i < |RefreshPaths| ==> RefreshPaths[i] != [] && RefreshPaths[i][0] in CandidateKeys
    ensures forall i :: 0 <= i < |ContainerPaths| ==> ContainerPaths[i] != [] && ContainerPaths[i][0] in CandidateKeys
  {
  }

  /** A path whose first key is missing reads `undefined`. */
  lemma {:induction false} MissingHeadUndefined(v: Value, path: seq<string>)
    requires path != [] && Get(v, path[0]).None?
    ensures GetPath(v, path).None?
    decreases |path|
  {
    if |path| > 1 {
      MissingHeadUndefined(None, path[1..]);
    }
  }

  /** An object without candidate keys reads `undefined` on every path in `paths`. */
  lemma ReadsUndefined(fields: seq<(string, Json)>, paths: seq<seq<string>>)
    requires forall i :: 0 <= i < |fields| ==> fields[i].0 !in CandidateKeys
    requires forall i :: 0 <= i < |paths| ==> paths[i] != [] && paths[i][0] in CandidateKeys
    ensures forall i :: 0 <= i < |paths| ==> ReadAll(Some(JObj(fields)), paths)[i].None?
  {
    forall i | 0 <= i < |paths| ensures GetPath(Some(JObj(fields)), paths[i]).None? {
      var key := paths[i][0];
      assert Lookup(fields, key).None?;
      MissingHeadUndefined(Some(JObj(fields)), paths[i]);
    }
  }

  /**
   * A body whose top-level keys name none of the candidates falls through the first two
   * stages: the answer is what the deep search finds.
   */
  lemma OnlyDeepSearch(fields: seq<(string, Json)>)
    requires forall i :: 0 <= i < |fields| ==> fields[i].0 !in CandidateKeys
    ensures ExtractTokens(Some(JObj(fields)))
      == SlotsToTokens(DeepSearchFrom([ObjectKeys.InEntriesOrder(JObj(fields))], 0, NoSlots))
  {
    var d := Some(JObj(fields));
    PathsStartWithCandidateKeys();
    ReadsUndefined(fields, AccessPaths);
    ReadsUndefined(fields, RefreshPaths);
    ReadsUndefined(fields, ContainerPaths);
    FirstTruthyTruthy(ReadAll(d, AccessPaths));
    FirstTruthyTruthy(ReadAll(d, RefreshPaths));
    assert !Found(Direct(d));
    Seqs.FilterNone(ReadAll(d, ContainerPaths), Truthy);
    assert Containers(d) == [];
    assert Body(d) == JObj(fields);
  }

  /** `{"token": t}`, an object holding one token. */
  function TokenObject(t: string): Json {
    JObj([("token", JStr(t))])
  }

  /** `{"b": {"token": "x"}, "1": {"token": "y"}}` lists its index key `1` first. */
  lemma IndexKeyBodyOrder()
    ensures ObjectKeys.InEntriesOrder(JObj([("b", TokenObject("x")), ("1", TokenObject("y"))]))
      == JObj([("1", TokenObject("y")), ("b", TokenObject("x"))])
  {
    var x, y := TokenObject("x"), TokenObject("y");
    ObjectKeys.NonDigitKey("token", 0);
    ObjectKeys.FlatObjectInOrder([("token", JStr("x"))]);
    ObjectKeys.FlatObjectInOrder([("token", JStr("y"))]);
    var fields := [("b", x), ("1", y)];
    ObjectKeys.InEntriesOrderObject(fields, fields);
    ObjectKeys.NonDigitKey("b", 0);
    ObjectKeys.OneIsIndexKey();
    ObjectKeys.IndexKeyListedFirst("b", x, "1", y);
  }

  /** A level of token objects is answered by the first one. */
  lemma TokenLevel(t: string, u: string)
    requires t != ""
    ensures ScanLevel(NoSlots, [TokenObject(t), TokenObject(u)]) == Slots(Some(t), None)
  {
    var y, x := TokenObject(t), TokenObject(u);
    assert OccursAt(Lower("token"), "token", 0);
    assert !KeyMatchesRefresh("token");
    var ey := [("token", JStr(t))];
    assert ey[..0] == [];
    assert ScanEntry(NoSlots, "token", JStr(t)) == Slots(Some(t), None);
    assert ScanEntries(NoSlots, ey) == Slots(Some(t), None);
    assert [y][..0] == [];
    assert ScanLevel(NoSlots, [y]) == Slots(Some(t), None);
    var ex := [("token", JStr(u))];
    assert ex[..0] == [];
    assert ScanEntries(Slots(Some(t), None), ex) == ScanEntry(Slots(Some(t), None), "token", JStr(u));
    assert [y, x][..1] == [y];
  }

  /** The root of that body holds no string and queues its two objects in entries order. */
  lemma TokenRootLevel(t: string, u: string)
    ensures var root := JObj([("1", TokenObject(t)), ("b", TokenObject(u))]);
      ScanLevel(NoSlots, [root]) == NoSlots && NextLevel([root]) == [TokenObject(t), TokenObject(u)]
  {
    var y, x := TokenObject(t), TokenObject(u);
    var root := JObj([("1", y), ("b", x)]);
    var es := [("1", y), ("b", x)];
    assert es[..1] == [("1", y)] && es[..1][..0] == [];
    assert ScanEntries(NoSlots, es[..1]) == ScanEntry(NoSlots, "1", y) == NoSlots;
    assert ScanEntries(NoSlots, es) == ScanEntry(NoSlots, "b", x) == NoSlots;
    assert ChildrenOf(es[..1]) == ChildrenOf([]) + [y];
    assert ChildrenOf(es) == ChildrenOf(es[..1]) + [x];
    assert [root][..0] == [];
    assert NextLevel([root]) == NextLevel([]) + NodeChildren(root);
  }

  /**
   * `Object.entries` lists an index key first, so the deep search opens `{"1": ...}`
   * before `{"b": ...}` although `b` comes first in the body, and takes its token.
   */
  lemma IndexKeyScannedFirst()
    ensures ExtractTokens(Some(JObj([("b", TokenObject("x")), ("1", TokenObject("y"))]))).access == Some(JStr("y"))
  {
    var fields := [("b", TokenObject("x")), ("1", TokenObject("y"))];
    assert "1" !in CandidateKeys && "b" !in CandidateKeys;
    OnlyDeepSearch(fields);
    IndexKeyBodyOrder();
    var root := JObj([("1", TokenObject("y")), ("b", TokenObject("x"))]);
    TokenRootLevel("y", "x");
    TokenLevel("y", "x");
    assert DeepSearchFrom([root], 0, NoSlots) == DeepSearchFrom([TokenObject("y"), TokenObject("x")], 1, NoSlots);
  }

  /** When no candidate of any stage yields a token, the result is empty. */
  lemma NothingFound(raw: Value)
    requires !Found(Direct(Some(Body(raw))))
    requires FirstNested(Containers(Some(Body(raw)))).None?
    requires !SlotsFound(DeepSearchFrom([ObjectKeys.InEntriesOrder(Body(raw))], 0, NoSlots))
    ensures !Found(ExtractTokens(raw))
  {
    var f := DeepSearchFrom([ObjectKeys.InEntriesOrder(Body(raw))], 0, NoSlots);
    assert ExtractTokens(raw) == SlotsToTokens(f);
    SlotsToTokensFound(f);
  }

  /** The slots hold a token exactly when the tokens built from them do. */
  lemma SlotsToTokensFound(f: Slots)
    ensures Found(SlotsToTokens(f)) <==> SlotsFound(f)
  {
  }

  // ---------------------------------------------------------------------------
  // Storing and clearing the tokens
  // ---------------------------------------------------------------------------

  /** `saveTokens(raw)`: each role is stored, independently, when its token is truthy. */
  function SaveTokens(st: Store, raw: Value): (r: Store)
    ensures var t := ExtractTokens(raw);
      && (Truthy(t.access) ==>
            GetItem(r, TokenKey) == Some(ToJsString(t.access.value)) && r.defaultAuth == Some(Bearer(ToJsString(t.access.value))))
      && (!Truthy(t.access) ==> GetItem(r, TokenKey) == GetItem(st, TokenKey) && r.defaultAuth == st.defaultAuth)
      && (Truthy(t.refresh) ==> GetItem(r, RefreshKey) == Some(ToJsString(t.refresh.value)))
      && (!Truthy(t.refresh) ==> GetItem(r, RefreshKey) == GetItem(st, RefreshKey))
    ensures SameExcept(r, st, {TokenKey, RefreshKey})
    ensures !Found(ExtractTokens(raw)) ==> r == st
  {
    var t := ExtractTokens(raw);
    var s1 := if Truthy(t.access)
      then SetItem(st, TokenKey, ToJsString(t.access.value)).(defaultAuth := Some(Bearer(ToJsString(t.access.value))))
      else st;
    if Truthy(t.refresh) then SetItem(s1, RefreshKey, ToJsString(t.refresh.value)) else s1
  }

  /** `clearTokens()`: both tokens and the default header go; `profile` and the rest stay. */
  function ClearTokens(st: Store): (r: Store)
    ensures GetItem(r, TokenKey).None? && GetItem(r, RefreshKey).None?
    ensures r.defaultAuth.None?
    ensures SameExcept(r, st, {TokenKey, RefreshKey})
  {
    RemoveItem(RemoveItem(st, TokenKey), RefreshKey).(defaultAuth := None)
  }

  /** Where `logout` posts. */
  const LogoutUrl: string := "/auth/logout"
  /** Where `authService.refreshToken` posts. */
  const AuthRefreshUrl: string := "/auth/refresh-token"

  datatype AuthError = NoRefreshToken | RequestFailed(message: string)

  /** `logout()`: the tokens are cleared in `finally`, whatever the endpoint answered. */
  function Logout(st: Store, call: Result<(), AuthError>): (r: (Store, Result<(), AuthError>))
    ensures !AuthUtils.IsAuthenticated(r.0) && r.0.defaultAuth.None?
    ensures GetItem(r.0, ProfileKey) == GetItem(st, ProfileKey)
    ensures r.1 == call
  {
    (ClearTokens(st), call)
  }

  /**
   * The guard of `refreshToken()`: with no stored refresh token it throws before any
   * request; otherwise it posts the stored token to `AuthRefreshUrl`.
   */
  function RefreshRequest(st: Store): (r: Result<string, AuthError>)
    ensures r.Err? <==> !Has(st, RefreshKey)
    ensures r.Err? ==> r.error == NoRefreshToken
    ensures r.Ok? ==> GetItem(st, RefreshKey) == Some(r.value) && r.value != ""
  {
    if Has(st, RefreshKey) then Ok(st.local[RefreshKey]) else Err(NoRefreshToken)
  }

  /** `if (res.data) saveTokens(res.data)` after login, register and refresh. */
  function AfterTokenResponse(st: Store, data: Value): (r: Store)
    ensures !Truthy(data) ==> r == st
    ensures Truthy(data) ==> r == SaveTokens(st, data)
  {
    if Truthy(data) then SaveTokens(st, data) else st
  }
}
