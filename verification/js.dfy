/**
 * JavaScript values as the client sees them after `JSON.parse`, with the
 * language rules the code leans on: truthiness, `||`, `??`, optional property
 * reads, `String(v)`, `Number(v)` and `parseInt(s)`.
 */
module Js {
  import opened Wrappers
  import opened Text

  /** A parsed JSON value; objects keep their fields in insertion order. */
  datatype Json =
    | JNull
    | JBool(b: bool)
    | JNum(n: int)
    | JStr(s: string)
    | JArr(items: seq<Json>)
    | JObj(fields: seq<(string, Json)>)

  /** A property read: `None` is `undefined`. */
  type Value = Option<Json>

  /** JavaScript truthiness: `undefined`, `null`, `false`, `0` and `""` are falsy. */
  predicate Truthy(v: Value) {
    match v
    case None => false
    case Some(JNull) => false
    case Some(JBool(b)) => b
    case Some(JNum(n)) => n != 0
    case Some(JStr(s)) => s != ""
    case Some(_) => true
  }

  /** `a || b`: the left operand when it is truthy, the right one otherwise. */
  function Or(a: Value, b: Value): Value {
    if Truthy(a) then a else b
  }

  /** `a ?? b`: the left operand unless it is `null` or `undefined`. */
  function Coalesce(a: Value, b: Value): Value {
    if a.Some? && a.value != JNull then a else b
  }

  /** The value bound to `key` in a field list (its first binding). */
  function Lookup(fields: seq<(string, Json)>, key: string): (v: Value)
    ensures v.Some? ==> exists i :: 0 <= i < |fields| && fields[i] == (key, v.value)
    ensures v.None? ==> forall i :: 0 <= i < |fields| ==> fields[i].0 != key
  {
    if fields == [] then None
    else if fields[0].0 == key then Some(fields[0].1)
    else
      var v := Lookup(fields[1..], key);
      assert forall i :: 0 <= i < |fields[1..]| ==> fields[1..][i] == fields[i + 1];
      v
  }

  /** A lookup passes over leading fields with other keys: the first field with the key wins. */
  lemma {:induction false} LookupFirst(fields: seq<(string, Json)>, key: string, i: nat)
    requires i < |fields| && fields[i].0 == key
    requires forall k :: 0 <= k < i ==> fields[k].0 != key
    ensures Lookup(fields, key) == Some(fields[i].1)
  {
    if i > 0 {
      assert fields[0].0 != key;
      assert fields[1..][i - 1] == fields[i];
      LookupFirst(fields[1..], key, i - 1);
    }
  }

  /** `v?.key`: a property of an object; `undefined` for anything that is not one. */
  function Get(v: Value, key: string): Value {
    match v
    case Some(JObj(fields)) => Lookup(fields, key)
    case _ => None
  }

  /** Index of the first truthy value (`|vs|` when there is none). */
  function FirstTruthyIndex(vs: seq<Value>): (k: nat)
    ensures k <= |vs|
    ensures forall i :: 0 <= i < k ==> !Truthy(vs[i])
    ensures k < |vs| ==> Truthy(vs[k])
  {
    if vs == [] then 0
    else if Truthy(vs[0]) then 0
    else 1 + FirstTruthyIndex(vs[1..])
  }

  /** `v1 || v2 || ... || vn`: the first truthy operand, or the last one when none is. */
  function FirstTruthy(vs: seq<Value>): (r: Value)
    requires |vs| >= 1
    ensures var k := FirstTruthyIndex(vs); r == if k < |vs| then vs[k] else vs[|vs| - 1]
  {
    if |vs| == 1 then vs[0] else Or(vs[0], FirstTruthy(vs[1..]))
  }

  /** The chain is truthy exactly when one of its operands is. */
  lemma FirstTruthyTruthy(vs: seq<Value>)
    requires |vs| >= 1
    ensures Truthy(FirstTruthy(vs)) <==> exists i :: 0 <= i < |vs| && Truthy(vs[i])
  {
    var k := FirstTruthyIndex(vs);
    if k == |vs| {
      assert !Truthy(vs[|vs| - 1]);
    }
  }

  /** Neither `undefined` nor `null`: what `??` keeps. */
  predicate Defined(v: Value) {
    v.Some? && v.value != JNull
  }

  /** Index of the first defined value (`|vs|` when there is none). */
  function FirstDefinedIndex(vs: seq<Value>): (k: nat)
    ensures k <= |vs|
    ensures forall i :: 0 <= i < k ==> !Defined(vs[i])
    ensures k < |vs| ==> Defined(vs[k])
  {
    if vs == [] then 0
    else if Defined(vs[0]) then 0
    else 1 + FirstDefinedIndex(vs[1..])
  }

  /** `v1 ?? v2 ?? ... ?? vn`: the first defined operand, or the last one when none is. */
  function FirstDefined(vs: seq<Value>): (r: Value)
    requires |vs| >= 1
    ensures var k := FirstDefinedIndex(vs); r == if k < |vs| then vs[k] else vs[|vs| - 1]
  {
    if |vs| == 1 then vs[0] else Coalesce(vs[0], FirstDefined(vs[1..]))
  }

  /** A defined last operand is the chain's default: it is used only when no earlier operand is defined. */
  lemma FirstDefinedWithDefault(vs: seq<Value>, z: Value)
    requires Defined(z)
    ensures var k := FirstDefinedIndex(vs);
      FirstDefined(vs + [z]) == if k < |vs| then vs[k] else z
  {
    var ws := vs + [z];
    var k := FirstDefinedIndex(vs);
    assert forall i :: 0 <= i < |vs| ==> ws[i] == vs[i];
    assert Defined(ws[k]);
    assert FirstDefinedIndex(ws) == k;
  }

  /** A property path such as `data?.accessToken`. */
  function GetPath(v: Value, path: seq<string>): Value
    decreases |path|
  {
    if path == [] then v else GetPath(Get(v, path[0]), path[1..])
  }

  function ReadAll(v: Value, paths: seq<seq<string>>): (vs: seq<Value>)
    ensures |vs| == |paths|
    ensures forall i :: 0 <= i < |paths| ==> vs[i] == GetPath(v, paths[i])
  {
    seq(|paths|, i requires 0 <= i < |paths| => GetPath(v, paths[i]))
  }

  /** `v?.k1?.k2`. */
  function Get2(v: Value, k1: string, k2: string): Value {
    Get(Get(v, k1), k2)
  }

  /** `typeof v === "object"` for a value that is not `null`. */
  predicate IsObject(j: Json) {
    j.JObj? || j.JArr?
  }

  /** A string-valued property, as `typeof v === "string"` selects it. */
  function AsString(v: Value): Option<string> {
    match v
    case Some(JStr(s)) => Some(s)
    case _ => None
  }

  function DigitChar(d: nat): (c: char)
    requires d < 10
    ensures IsDigit(c)
  {
    ('0' as int + d) as char
  }

  function DigitValue(c: char): (d: nat)
    requires IsDigit(c)
    ensures d < 10
  {
    c as int - '0' as int
  }

  /** Decimal digits of a natural number, most significant first, without leading zeros. */
  function NatToString(n: nat): (r: string)
    ensures |r| >= 1 && AllDigits(r)
    decreases n
  {
    if n < 10 then [DigitChar(n)] else NatToString(n / 10) + [DigitChar(n % 10)]
  }

  /** `String(n)` for an integer. */
  function IntToString(n: int): (r: string)
    ensures |r| >= 1
  {
    if n < 0 then "-" + NatToString(-n) else NatToString(n)
  }

  /** The value of a string of decimal digits. */
  function DigitsValue(s: string): nat
    requires AllDigits(s)
  {
    if s == [] then 0 else DigitsValue(s[..|s| - 1]) * 10 + DigitValue(s[|s| - 1])
  }

  /** Reading back the digits of a natural number gives the number. */
  lemma {:induction false} DigitsValueOfNat(n: nat)
    ensures DigitsValue(NatToString(n)) == n
    decreases n
  {
    if n >= 10 {
      var s := NatToString(n);
      DigitsValueOfNat(n / 10);
      assert s[..|s| - 1] == NatToString(n / 10);
    }
  }

  /** A JavaScript number, restricted to the integers; `NaN` is kept apart. */
  datatype Num = Int(v: int) | NaN {
    /** `x || 0` on a number: `NaN` and `0` both become `0`. */
    function OrZero(): int {
      if Int? then v else 0
    }
  }

  /** Length of the longest prefix of decimal digits. */
  function DigitPrefix(s: string): (k: nat)
    ensures k <= |s| && AllDigits(s[..k])
    ensures k < |s| ==> !IsDigit(s[k])
  {
    if s == [] || !IsDigit(s[0]) then 0
    else
      var k := DigitPrefix(s[1..]);
      assert s[..k + 1] == [s[0]] + s[1..][..k];
      k + 1
  }

  /** Splits an optional leading sign off: `(negative, rest)`. */
  function SplitSign(s: string): (bool, string) {
    if |s| > 0 && s[0] == '-' then (true, s[1..])
    else if |s| > 0 && s[0] == '+' then (false, s[1..])
    else (false, s)
  }

  function Signed(negative: bool, n: nat): int {
    if negative then -(n as int) else n
  }

  predicate IsHexDigit(c: char) {
    IsDigit(c) || 'a' <= c <= 'f' || 'A' <= c <= 'F'
  }

  predicate AllHex(s: string) {
    forall i :: 0 <= i < |s| ==> IsHexDigit(s[i])
  }

  function HexDigitValue(c: char): (d: nat)
    requires IsHexDigit(c)
    ensures d < 16
  {
    if IsDigit(c) then c as int - '0' as int
    else if 'a' <= c <= 'f' then c as int - 'a' as int + 10
    else c as int - 'A' as int + 10
  }

  /** Length of the longest prefix of hexadecimal digits. */
  function HexPrefix(s: string): (k: nat)
    ensures k <= |s| && AllHex(s[..k])
    ensures k < |s| ==> !IsHexDigit(s[k])
  {
    if s == [] || !IsHexDigit(s[0]) then 0
    else
      var k := HexPrefix(s[1..]);
      assert s[..k + 1] == [s[0]] + s[1..][..k];
      k + 1
  }

  function HexValue(s: string): nat
    requires AllHex(s)
  {
    if s == [] then 0 else HexValue(s[..|s| - 1]) * 16 + HexDigitValue(s[|s| - 1])
  }

  /** `0x` or `0X`, which `parseInt` without a radix reads as base 16. */
  predicate HasHexPrefix(s: string) {
    |s| >= 2 && s[0] == '0' && (s[1] == 'x' || s[1] == 'X')
  }

  /**
   * `parseInt(s)` without a radix: leading whitespace skipped, an optional sign, then
   * either `0x`/`0X` and the longest run of hexadecimal digits after it, or the longest
   * run of decimal digits; `NaN` when that run is empty.
   */
  function ParseInt(s: string): (r: Num)
    ensures var rest := SplitSign(TrimStart(s)).1;
      r.NaN? <==> if HasHexPrefix(rest) then HexPrefix(rest[2..]) == 0 else DigitPrefix(rest) == 0
  {
    var (negative, rest) := SplitSign(TrimStart(s));
    if HasHexPrefix(rest) then
      var k := HexPrefix(rest[2..]);
      if k == 0 then NaN else Int(Signed(negative, HexValue(rest[2..][..k])))
    else
      var k := DigitPrefix(rest);
      if k == 0 then NaN else Int(Signed(negative, DigitsValue(rest[..k])))
  }

  /** `parseInt("0x" + h)` reads all of a run of hexadecimal digits `h` in base 16. */
  lemma ParseIntHex(h: string)
    requires h != [] && AllHex(h)
    ensures ParseInt("0x" + h) == Int(HexValue(h))
  {
    var s := "0x" + h;
    NotSpaceSignOrDigit(s[0]);
    assert TrimStart(s) == s;
    assert SplitSign(s) == (false, s);
    assert s[2..] == h;
    assert HexPrefix(h) == |h|;
    assert h[..|h|] == h;
  }

  /** `parseInt("0x10")` is 16, not the 0 a decimal reading would stop at. */
  lemma ParseIntHexSixteen()
    ensures ParseInt("0x10") == Int(16)
  {
    var h := "10";
    assert h[..1] == "1" && "1"[..0] == "";
    assert HexDigitValue('1') == 1 && HexDigitValue('0') == 0;
    assert HexValue("1") == 1;
    assert HexValue(h) == 16;
    assert AllHex(h);
    ParseIntHex(h);
    assert "0x" + h == "0x10";
  }

  /** A bare `0x` has no digits after it, so it reads as `NaN`. */
  lemma ParseIntBareHexPrefix()
    ensures ParseInt("0x").NaN?
  {
    NotSpaceSignOrDigit('0');
    var s := "0x";
    assert TrimStart(s) == s;
    assert SplitSign(s) == (false, s);
    assert HasHexPrefix(s);
    assert s[2..] == "";
    assert HexPrefix("") == 0;
  }

  /**
   * `Number(s)` on a string, for the forms a `Num` can hold: blank is `0`, and an
   * optionally signed run of decimal digits filling the whole trimmed string is its
   * value. Every other string is `NaN` here, including the exponent, fraction,
   * `0x`/`0o`/`0b` and `Infinity` forms JavaScript also accepts.
   */
  function ToNumber(s: string): (r: Num)
    ensures IsBlank(s) ==> r == Int(0)
  {
    var t := Trim(s);
    if t == [] then Int(0)
    else
      var (negative, rest) := SplitSign(t);
      if rest != [] && AllDigits(rest) then Int(Signed(negative, DigitsValue(rest))) else NaN
  }

  lemma NotSpaceSignOrDigit(c: char)
    requires c == '-' || IsDigit(c)
    ensures !IsSpace(c)
  {
  }

  /** `parseInt(String(n)) === n` for every integer. */
  lemma ParseIntRoundTrip(n: int)
    ensures ParseInt(IntToString(n)) == Int(n)
  {
    var s := IntToString(n);
    var m: nat := if n < 0 then -n else n;
    var digits := NatToString(m);
    NotSpaceSignOrDigit(s[0]);
    assert TrimStart(s) == s;
    assert SplitSign(s) == (n < 0, digits);
    assert DigitPrefix(digits) == |digits| by {
      assert forall i :: 0 <= i < |digits| ==> IsDigit(digits[i]);
    }
    assert digits[..|digits|] == digits;
    DigitsValueOfNat(m);
  }

  /** `Number(String(n)) === n` for every integer. */
  lemma ToNumberRoundTrip(n: int)
    ensures ToNumber(IntToString(n)) == Int(n)
  {
    var s := IntToString(n);
    var m: nat := if n < 0 then -n else n;
    var digits := NatToString(m);
    NotSpaceSignOrDigit(s[0]);
    NotSpaceSignOrDigit(s[|s| - 1]);
    assert TrimStart(s) == s;
    assert TrimEnd(s) == s;
    assert SplitSign(s) == (n < 0, digits);
    DigitsValueOfNat(m);
  }

  /** `String(v)` for a parsed JSON value, as `localStorage.setItem` and template literals apply it. */
  function ToJsString(j: Json): string
    decreases j
  {
    match j
    case JNull => "null"
    case JBool(b) => if b then "true" else "false"
    case JNum(n) => IntToString(n)
    case JStr(s) => s
    case JObj(_) => "[object Object]"
    case JArr(items) =>
      Join(seq(|items|, i requires 0 <= i < |items| => if items[i] == JNull then "" else ToJsString(items[i])), ',')
  }

  /** `String(v)`, including `undefined`. */
  function Stringify(v: Value): string {
    match v
    case None => "undefined"
    case Some(j) => ToJsString(j)
  }

  /** `Number(v)`. */
  function NumberOf(v: Value): Num {
    match v
    case None => NaN
    case Some(JNull) => Int(0)
    case Some(JBool(b)) => Int(if b then 1 else 0)
    case Some(JNum(n)) => Int(n)
    case Some(JStr(s)) => ToNumber(s)
    case Some(j) => ToNumber(ToJsString(j))
  }
}
