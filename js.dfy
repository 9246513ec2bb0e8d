/** JSON values as the request handlers receive them, and the parts of
    JavaScript's semantics the handlers rely on: truthiness (`!x`, `x || y`),
    property access and destructuring. */
module JsValues {

  datatype Option<T> = None | Some(value: T)

  /** How an `async` JavaScript function ends: with a value or by throwing an
      `Error` carrying a message. */
  datatype Outcome<T> = Returned(value: T) | Raised(error: string)

  /** A value produced by `JSON.parse`, plus `undefined` for a missing
      property. JSON numbers are IEEE doubles; JSON has no NaN and no
      infinities, so a number is modelled by its real value. Object members
      are kept in source order, duplicates included. */
  datatype JsValue =
    | Undefined
    | Null
    | Bool(b: bool)
    | Num(n: real)
    | Str(s: string)
    | Arr(items: seq<JsValue>)
    | Obj(members: seq<(string, JsValue)>)

  /** JavaScript's ToBoolean: `undefined`, `null`, `false`, `0` and `""` are
      falsy, every other value is truthy. */
  predicate Truthy(v: JsValue) {
    match v
    case Undefined => false
    case Null => false
    case Bool(b) => b
    case Num(n) => n != 0.0
    case Str(s) => s != ""
    case Arr(_) => true
    case Obj(_) => true
  }

  /** `v || null`: a truthy value is kept, every falsy value collapses to `null`. */
  function OrNull(v: JsValue): (r: JsValue)
    ensures Truthy(r) <==> Truthy(v)
    ensures Truthy(v) ==> r == v
    ensures !Truthy(v) ==> r == Null
  {
    if Truthy(v) then v else Null
  }

  /** The value `JSON.parse` keeps for `key`: the last member with that
      name, or `undefined` when there is none. */
  function Lookup(members: seq<(string, JsValue)>, key: string): (r: JsValue)
    ensures (forall i :: 0 <= i < |members| ==> members[i].0 != key) ==> r == Undefined
    ensures (exists i :: 0 <= i < |members| && members[i].0 == key) ==>
              exists i :: 0 <= i < |members| && members[i] == (key, r) &&
                forall j :: i < j < |members| ==> members[j].0 != key
  {
    if members == [] then Undefined
    else if members[|members| - 1].0 == key then members[|members| - 1].1
    else
      var r := Lookup(members[..|members| - 1], key);
      assert forall j :: 0 <= j < |members| - 1 ==> members[..|members| - 1][j] == members[j];
      r
  }

  /** Property access and destructuring throw a TypeError on `null` and
      `undefined` and succeed on every other value. */
  predicate Destructurable(v: JsValue) {
    !v.Null? && !v.Undefined?
  }

  /** `v.key` (or `const { key } = v`) on a value that does not throw. Only
      objects carry the member names used by the handlers; on other values
      the property is `undefined`. */
  function Prop(v: JsValue, key: string): (r: JsValue)
    requires Destructurable(v)
    ensures !v.Obj? ==> r == Undefined
    ensures v.Obj? ==> r == Lookup(v.members, key)
  {
    match v
    case Obj(members) => Lookup(members, key)
    case _ => Undefined
  }

  /** Every falsy JSON value, not only a missing one, defaults to `null`;
      `undefined` and `null` never survive a truthiness test. */
  lemma FalsyValuesDefaultToNull(v: JsValue)
    ensures OrNull(Str("")) == Null && OrNull(Num(0.0)) == Null && OrNull(Bool(false)) == Null
    ensures OrNull(Undefined) == Null && OrNull(Null) == Null
    ensures !Destructurable(v) ==> OrNull(v) == Null
  {
  }
}

/** JavaScript string operations over Dafny strings. A Dafny `char` is a
    Unicode scalar value; a JavaScript string is a sequence of UTF-16 code
    units, so characters above U+FFFF take two units. */
module JsStrings {

  /** The number of UTF-16 code units, which is what `.length` reports. */
  function Utf16Length(s: string): (n: nat)
    ensures |s| <= n <= 2 * |s|
  {
    if s == [] then 0
    else (if s[0] as int > 0xFFFF then 2 else 1) + Utf16Length(s[1..])
  }

  /** On the Basic Multilingual Plane `.length` is the number of characters. */
  lemma {:induction false} Utf16LengthOfBmp(s: string)
    requires forall i :: 0 <= i < |s| ==> s[i] as int <= 0xFFFF
    ensures Utf16Length(s) == |s|
  {
    if s != [] {
      assert forall i :: 0 <= i < |s| - 1 ==> s[1..][i] == s[i + 1];
      Utf16LengthOfBmp(s[1..]);
    }
  }

  /** A character outside the Basic Multilingual Plane counts twice. */
  lemma {:induction false} Utf16LengthCountsAstralTwice(s: string)
    requires forall i :: 0 <= i < |s| ==> s[i] as int > 0xFFFF
    ensures Utf16Length(s) == 2 * |s|
  {
    if s != [] {
      assert forall i :: 0 <= i < |s| - 1 ==> s[1..][i] == s[i + 1];
      Utf16LengthCountsAstralTwice(s[1..]);
    }
  }

  /** The characters `String.prototype.trim` removes: ECMAScript WhiteSpace
      (TAB, VT, FF, ZWNBSP and every Unicode space separator) and
      LineTerminator (LF, CR, LS, PS). */
  predicate IsJsWhitespace(c: char) {
    var n := c as int;
    (0x09 <= n <= 0x0D) || n == 0x20 || n == 0xA0 || n == 0x1680 ||
    (0x2000 <= n <= 0x200A) || n == 0x2028 || n == 0x2029 || n == 0x202F ||
    n == 0x205F || n == 0x3000 || n == 0xFEFF
  }

  /** Removes leading whitespace. */
  function TrimStart(s: string): (r: string)
    ensures |r| <= |s| && r == s[|s| - |r|..]
    ensures forall i :: 0 <= i < |s| - |r| ==> IsJsWhitespace(s[i])
    ensures r != [] ==> !IsJsWhitespace(r[0])
  {
    if s != [] && IsJsWhitespace(s[0]) then TrimStart(s[1..]) else s
  }

  /** Removes trailing whitespace. */
  function TrimEnd(s: string): (r: string)
    ensures |r| <= |s| && r == s[..|r|]
    ensures forall i :: |r| <= i < |s| ==> IsJsWhitespace(s[i])
    ensures r != [] ==> !IsJsWhitespace(r[|r| - 1])
  {
    if s != [] && IsJsWhitespace(s[|s| - 1]) then TrimEnd(s[..|s| - 1]) else s
  }

  /** `r` is the infix of `s` that starts at `k`, and everything of `s`
      before and after it is whitespace. */
  ghost predicate InfixAmidWhitespace(s: string, k: nat, r: string) {
    k + |r| <= |s| && r == s[k..k + |r|] &&
    (forall i :: 0 <= i < k ==> IsJsWhitespace(s[i])) &&
    (forall i :: k + |r| <= i < |s| ==> IsJsWhitespace(s[i]))
  }

  /** Neither the first nor the last character is whitespace. */
  predicate EndsClear(r: string) {
    r != [] ==> !IsJsWhitespace(r[0]) && !IsJsWhitespace(r[|r| - 1])
  }

  /** `s.trim()`: the infix of `s` that neither starts nor ends with
      whitespace and is surrounded only by whitespace. */
  function Trim(s: string): (r: string)
    ensures exists k: nat :: InfixAmidWhitespace(s, k, r)
    ensures EndsClear(r)
    ensures r == [] <==> forall i :: 0 <= i < |s| ==> IsJsWhitespace(s[i])
  {
    var t := TrimStart(s);
    var r := TrimEnd(t);
    TrimLayout(s, t, r);
    assert InfixAmidWhitespace(s, |s| - |t|, r);
    r
  }

  lemma TrimLayout(s: string, t: string, r: string)
    requires t == TrimStart(s) && r == TrimEnd(t)
    ensures InfixAmidWhitespace(s, |s| - |t|, r)
    ensures EndsClear(r)
    ensures r == [] <==> forall i :: 0 <= i < |s| ==> IsJsWhitespace(s[i])
  {
    var k := |s| - |t|;
    InfixOfSuffix(s, t, r, k);
    assert forall i :: 0 <= i < k ==> IsJsWhitespace(s[i]);
    forall i | k + |r| <= i < |s|
      ensures IsJsWhitespace(s[i])
    {
      assert s[i] == t[i - k];
    }
    assert InfixAmidWhitespace(s, k, r);
    assert r == [] ==> t == [];
    if r != [] {
      assert r[0] == t[0];
      assert s[k] == r[0];
    }
  }

  lemma InfixOfSuffix(s: string, t: string, r: string, k: nat)
    requires k <= |s| && t == s[k..] && |r| <= |t| && r == t[..|r|]
    ensures r == s[k..k + |r|]
  {
  }
}
