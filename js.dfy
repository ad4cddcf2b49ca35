/** A parsed JSON value and the JavaScript operations the route handlers apply to
    provider payloads: optional-chaining property reads, truthiness, `||`, `??`,
    `String(v)` and `Number(v)`. */
module Js {
  import opened Wrappers
  import Text

  /** The message of the error `JSON.parse` throws on text that is not JSON, and
      the one a method call on a value of the wrong type throws (`x.trim()` on a
      number); the engine's exact wording is not modelled. */
  const SyntaxErrorText := "SyntaxError: Unexpected token in JSON"
  const TypeErrorText := "TypeError: not a function"

  /** A JSON value, or a built-in function read off a prototype (`Fn`, which
      `JSON.parse` never yields). Numbers are integers; an object keeps its members in
      source order. */
  datatype Val = Null | Bool(b: bool) | Num(n: int) | Str(s: string) | Arr(elems: seq<Val>) | Obj(members: seq<(string, Val)>) | Fn(name: string)

  /** The member of `members` named `key`; the last one wins, as with `JSON.parse`. */
  function Member(members: seq<(string, Val)>, key: string): (r: Option<Val>)
    ensures r.Some? ==> (key, r.value) in members
    ensures r.None? ==> forall i :: 0 <= i < |members| ==> members[i].0 != key
  {
    if members == [] then None
    else if members[|members| - 1].0 == key then Some(members[|members| - 1].1)
    else Member(members[..|members| - 1], key)
  }

  /** The members every object literal inherits from `Object.prototype`. Reading one
      that the literal does not list gives a function (an object for `__proto__`),
      never `undefined` and never a number. */
  const ObjectPrototypeNames: set<string> := {
    "constructor", "__proto__", "toString", "toLocaleString", "valueOf", "hasOwnProperty",
    "isPrototypeOf", "propertyIsEnumerable", "__defineGetter__", "__defineSetter__",
    "__lookupGetter__", "__lookupSetter__"}

  /** The inherited names are long: only `valueOf` has as few as seven characters. */
  lemma PrototypeNameShape(name: string)
    requires name in ObjectPrototypeNames
    ensures |name| > 7 || (|name| == 7 && name[0] == 'v')
  {
  }

  /** `x?.key`: `None` stands for `undefined`. Only objects have members here. */
  function Get(x: Option<Val>, key: string): Option<Val> {
    match x
    case Some(Obj(m)) => Member(m, key)
    case _ => None
  }

  /** The `String.prototype` methods a handler reads by name off a value that may be
      a string: `link`, one of the HTML methods of Annex B of the ECMAScript
      specification. */
  const StringMethodNames: set<string> := {"link"}

  /** `x?.key` where `x` may also be a string: an object's own member, or a method of
      `String.prototype` named in `StringMethodNames`. */
  function Read(x: Option<Val>, key: string): (r: Option<Val>)
    ensures x.Some? && x.value.Obj? ==> r == Get(x, key)
    ensures x.Some? && x.value.Str? ==> (r.Some? <==> key in StringMethodNames)
    ensures r.Some? && x.Some? && x.value.Str? ==> Truthy(r)
    ensures x.None? || !(x.value.Obj? || x.value.Str?) ==> r.None?
  {
    match x
    case Some(Str(_)) => if key in StringMethodNames then Some(Fn(key)) else None
    case _ => Get(x, key)
  }

  /** `x?.[i]`: an array element, a one-character string, or an object's member
      named by the index's text. */
  function At(x: Option<Val>, i: nat): (r: Option<Val>)
    ensures x.Some? && x.value.Arr? ==> (r.Some? <==> i < |x.value.elems|)
    ensures x.Some? && x.value.Arr? && i < |x.value.elems| ==> r == Some(x.value.elems[i])
  {
    match x
    case Some(Arr(e)) => if i < |e| then Some(e[i]) else None
    case Some(Str(s)) => if i < |s| then Some(Str([s[i]])) else None
    case Some(Obj(m)) => Member(m, Text.NatToString(i))
    case _ => None
  }

  /** Reading a property of `null` or `undefined` without `?.` throws a TypeError. */
  predicate AccessThrows(x: Option<Val>) {
    x.None? || x == Some(Null)
  }

  /** JavaScript truthiness: `undefined`, `null`, `false`, `0` and `""` are falsy. */
  predicate Truthy(x: Option<Val>) {
    match x
    case None => false
    case Some(Null) => false
    case Some(Bool(b)) => b
    case Some(Num(n)) => n != 0
    case Some(Str(s)) => s != ""
    case Some(_) => true
  }

  /** `a || b`. */
  function Or(a: Option<Val>, b: Option<Val>): (r: Option<Val>)
    ensures Truthy(a) ==> r == a
    ensures !Truthy(a) ==> r == b
  {
    if Truthy(a) then a else b
  }

  /** `a || b || ...` over optional readings, ending in a fallback value. */
  function FirstTruthy(xs: seq<Option<Val>>, fallback: Val): (r: Val)
    ensures (exists i :: 0 <= i < |xs| && Truthy(xs[i])) ==> Truthy(Some(r))
    ensures (forall i :: 0 <= i < |xs| ==> !Truthy(xs[i])) ==> r == fallback
    ensures r == fallback || exists i :: 0 <= i < |xs| && xs[i] == Some(r)
  {
    if xs == [] then fallback
    else if Truthy(xs[0]) then xs[0].value
    else
      var r := FirstTruthy(xs[1..], fallback);
      assert forall i :: 1 <= i < |xs| ==> xs[i] == xs[1..][i - 1];
      r
  }

  /** The chain stops at its first truthy operand. */
  lemma {:induction false} FirstTruthyAt(xs: seq<Option<Val>>, fallback: Val, i: nat)
    requires i < |xs| && Truthy(xs[i])
    requires forall j :: 0 <= j < i ==> !Truthy(xs[j])
    ensures FirstTruthy(xs, fallback) == xs[i].value
  {
    if i > 0 {
      assert forall j :: 0 <= j < i - 1 ==> xs[1..][j] == xs[j + 1];
      FirstTruthyAt(xs[1..], fallback, i - 1);
    }
  }

  /** `a ?? b`. */
  function Coalesce(a: Option<Val>, b: Option<Val>): Option<Val> {
    if a.None? || a == Some(Null) then b else a
  }

  /** `x === s` for a string literal `s`. */
  predicate IsString(x: Option<Val>, s: string) {
    x == Some(Str(s))
  }

  /** `String(v)` of one value. Arrays join their elements with ","; `null` elements become "". */
  function ValText(v: Val): string
    decreases v
  {
    match v
    case Null => "null"
    case Bool(b) => if b then "true" else "false"
    case Num(n) => Text.IntToString(n)
    case Str(s) => s
    case Arr(e) => Text.Join(seq(|e|, i requires 0 <= i < |e| => if e[i] == Null then "" else ValText(e[i])), ",")
    case Obj(_) => "[object Object]"
    case Fn(name) => "function " + name + "() { [native code] }"
  }

  /** `String(x)`, where `undefined` prints as "undefined". */
  function ToStr(x: Option<Val>): string {
    match x
    case None => "undefined"
    case Some(v) => ValText(v)
  }

  /** `Number(s)` for a string: blank text is 0, an optionally signed run of decimal
      digits is its value, anything else is NaN (`None`). */
  function StringToNumber(s: string): Option<int> {
    var t := Text.Trim(s);
    if t == "" then Some(0)
    else
      var negative := t[0] == '-';
      var digits := if t[0] == '-' || t[0] == '+' then t[1..] else t;
      match Text.ParseNat(digits)
      case None => None
      case Some(n) => Some(if negative then 0 - n else n as int)
  }

  /** `Number(x)`; `None` stands for NaN. Arrays convert through their `String` text. */
  function ToNumber(x: Option<Val>): Option<int> {
    match x
    case None => None
    case Some(Null) => Some(0)
    case Some(Bool(b)) => Some(if b then 1 else 0)
    case Some(Num(n)) => Some(n)
    case Some(Str(s)) => StringToNumber(s)
    case Some(Arr(e)) => StringToNumber(ValText(Arr(e)))
    case Some(Obj(_)) => None
    case Some(Fn(_)) => None
  }

  /** The text of a decimal integer converts back to that integer. */
  lemma NumberOfIntText(i: int)
    ensures StringToNumber(Text.IntToString(i)) == Some(i)
  {
    var s := Text.IntToString(i);
    if i < 0 {
      Text.NatToStringRoundTrip(-i);
      assert s[1..] == Text.NatToString(-i);
    } else {
      Text.NatToStringRoundTrip(i);
    }
    assert Text.Trim(s) == s by {
      assert !Text.IsSpace(s[0]);
      assert !Text.IsSpace(s[|s| - 1]) by {
        assert Text.IsDigit(Text.NatToString(if i < 0 then -i else i)[|Text.NatToString(if i < 0 then -i else i)| - 1]);
      }
    }
  }
}
