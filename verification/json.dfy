/**
 * JSON-like values as the JavaScript front end and the Python tools handle
 * them: objects keep their members in insertion order, a missing member reads
 * as `undefined`, and the handful of JavaScript coercions the modelled code
 * relies on (truthiness, `||`, `??`, `String(v)`, `Number(v)`,
 * `Object.keys(v).length`) are spelled out.
 */
module Json {
  import opened Wrappers
  import opened Strings

  /** Numbers are integers here; see the README for what that leaves out. */
  datatype Value =
    | Undefined
    | Null
    | Bool(b: bool)
    | Num(n: int)
    | Str(s: string)
    | Arr(items: seq<Value>)
    | Obj(props: seq<Prop>)

  /** One member of an object, in the position it was inserted. */
  datatype Prop = Prop(key: string, val: Value)

  function Keys(props: seq<Prop>): (ks: seq<string>)
    ensures |ks| == |props|
    ensures forall i :: 0 <= i < |props| ==> ks[i] == props[i].key
  {
    if props == [] then [] else [props[0].key] + Keys(props[1..])
  }

  lemma KeysCons(p: Prop, rest: seq<Prop>)
    ensures Keys([p] + rest) == [p.key] + Keys(rest)
  {
    assert ([p] + rest)[1..] == rest;
  }

  lemma KeysAppend(a: seq<Prop>, b: seq<Prop>)
    ensures Keys(a + b) == Keys(a) + Keys(b)
  {
    if a != [] {
      assert (a + b)[1..] == a[1..] + b;
      KeysAppend(a[1..], b);
    }
  }

  /** The value of the first member named `k`, or `undefined`. */
  function Lookup(props: seq<Prop>, k: string): (r: Value)
    ensures k !in Keys(props) ==> r == Undefined
  {
    if props == [] then Undefined
    else if props[0].key == k then props[0].val
    else
      assert props == [props[0]] + props[1..];
      KeysCons(props[0], props[1..]);
      Lookup(props[1..], k)
  }

  lemma LookupCons(p: Prop, rest: seq<Prop>)
    ensures forall k :: Lookup([p] + rest, k) == if p.key == k then p.val else Lookup(rest, k)
  {
    forall k ensures Lookup([p] + rest, k) == if p.key == k then p.val else Lookup(rest, k) {
      assert ([p] + rest)[1..] == rest;
    }
  }

  /** The member a lookup finds is the first one carrying the key. */
  lemma {:induction false} LookupFirst(props: seq<Prop>, i: nat, k: string)
    requires i < |props| && props[i].key == k
    requires forall j :: 0 <= j < i ==> props[j].key != k
    ensures Lookup(props, k) == props[i].val
    decreases i
  {
    if i > 0 {
      LookupFirst(props[1..], i - 1, k);
    }
  }

  /** A member present in an object without `undefined` members reads as a defined value. */
  lemma {:induction false} LookupDefined(props: seq<Prop>, k: string)
    requires forall i :: 0 <= i < |props| ==> !props[i].val.Undefined?
    requires k in Keys(props)
    ensures !Lookup(props, k).Undefined?
  {
    if props[0].key != k {
      assert props == [props[0]] + props[1..];
      KeysCons(props[0], props[1..]);
      LookupDefined(props[1..], k);
    }
  }

  /** Property access `v.k` (and `v?.k`): only objects carry named members here. */
  function Get(v: Value, k: string): Value {
    if v.Obj? then Lookup(v.props, k) else Undefined
  }

  /** `v` is an object with an own member named `k` (`hasOwnProperty`, Python `k in d`). */
  predicate HasKey(v: Value, k: string) {
    v.Obj? && k in Keys(v.props)
  }

  /**
   * Assignment `o[k] = v` on an ordered object (JavaScript and Python dicts alike):
   * an existing member keeps its position, a new one goes last.
   */
  function SetProp(props: seq<Prop>, k: string, v: Value): (r: seq<Prop>)
    ensures Lookup(r, k) == v
    ensures forall k' :: k' != k ==> Lookup(r, k') == Lookup(props, k')
  {
    if props == [] then [Prop(k, v)]
    else
      var p, tail := props[0], props[1..];
      assert props == [p] + tail;
      KeysCons(p, tail);
      LookupCons(p, tail);
      if p.key == k then
        KeysCons(Prop(k, v), tail);
        LookupCons(Prop(k, v), tail);
        [Prop(k, v)] + tail
      else
        var rest := SetProp(tail, k, v);
        KeysCons(p, rest);
        LookupCons(p, rest);
        [p] + rest
  }

  /** Assignment never reorders members: a new key is appended, an old one stays put. */
  lemma {:induction false} SetPropKeys(props: seq<Prop>, k: string, v: Value)
    ensures Keys(SetProp(props, k, v)) == if k in Keys(props) then Keys(props) else Keys(props) + [k]
  {
    if props != [] {
      var p, tail := props[0], props[1..];
      assert props == [p] + tail;
      KeysCons(p, tail);
      if p.key == k {
        KeysCons(Prop(k, v), tail);
      } else {
        SetPropKeys(tail, k, v);
        KeysCons(p, SetProp(tail, k, v));
      }
    }
  }

  /** A list of strings as values. */
  function Strs(ss: seq<string>): (vs: seq<Value>)
    ensures |vs| == |ss|
    ensures forall i :: 0 <= i < |ss| ==> vs[i] == Str(ss[i])
  {
    seq(|ss|, i requires 0 <= i < |ss| => Str(ss[i]))
  }

  /** JavaScript truthiness. */
  predicate Truthy(v: Value) {
    match v
    case Undefined => false
    case Null => false
    case Bool(b) => b
    case Num(n) => n != 0
    case Str(s) => s != ""
    case _ => true
  }

  /** `null` or `undefined`: what `??` and `?.` look through. */
  predicate Nullish(v: Value) {
    v.Undefined? || v.Null?
  }

  /** JavaScript `a || b`. */
  function Or(a: Value, b: Value): Value {
    if Truthy(a) then a else b
  }

  /** JavaScript `a ?? b`. */
  function Coalesce(a: Value, b: Value): Value {
    if Nullish(a) then b else a
  }

  /** JavaScript `String(v)`, as template literals apply it. */
  function JsString(v: Value): string
    decreases v
  {
    match v
    case Undefined => "undefined"
    case Null => "null"
    case Bool(b) => if b then "true" else "false"
    case Num(n) => IntToString(n)
    case Str(s) => s
    case Arr(items) => JoinItems(items)
    case Obj(_) => "[object Object]"
  }

  /** `Array.prototype.join(",")`: `null` and `undefined` elements print as nothing. */
  function JoinItems(items: seq<Value>): string
    decreases items
  {
    if items == [] then ""
    else
      var first := if Nullish(items[0]) then "" else JsString(items[0]);
      if |items| == 1 then first else first + "," + JoinItems(items[1..])
  }

  function DigitsValue(s: string): nat
    requires forall i :: 0 <= i < |s| ==> '0' <= s[i] <= '9'
  {
    if s == [] then 0
    else 10 * DigitsValue(s[..|s| - 1]) + (s[|s| - 1] as int - '0' as int)
  }

  predicate AllDigits(s: string) {
    s != [] && forall i :: 0 <= i < |s| ==> '0' <= s[i] <= '9'
  }

  /**
   * `Number(s)` for a string: blank reads as 0, an optionally signed run of
   * decimal digits as its value; anything else is `None` (NaN).
   */
  function StringToNumber(s: string): Option<int> {
    var t := JsTrim(s);
    if t == [] then Some(0)
    else if AllDigits(t) then Some(DigitsValue(t))
    else if t[0] == '+' && AllDigits(t[1..]) then Some(DigitsValue(t[1..]))
    else if t[0] == '-' && AllDigits(t[1..]) then Some(0 - DigitsValue(t[1..]))
    else None
  }

  /** `Number(v)` as arithmetic coerces an operand; `None` is NaN. */
  function ToNumber(v: Value): Option<int> {
    match v
    case Undefined => None
    case Null => Some(0)
    case Bool(b) => Some(if b then 1 else 0)
    case Num(n) => Some(n)
    case Str(s) => StringToNumber(s)
    case Arr(_) => StringToNumber(JsString(v))
    case Obj(_) => None
  }

  /** `Object.keys(v).length`: members of an object, indices of an array or string. */
  function KeyCount(v: Value): nat {
    match v
    case Obj(props) => |props|
    case Arr(items) => |items|
    case Str(s) => |s|
    case _ => 0
  }

  /**
   * What a JSON text round trip keeps of a value: object members holding
   * `undefined` disappear and `undefined` array elements become `null`.
   */
  function Clean(v: Value): Value
    decreases v
  {
    match v
    case Arr(items) => Arr(CleanItems(items))
    case Obj(props) => Obj(CleanProps(props))
    case _ => v
  }

  function CleanItems(items: seq<Value>): (r: seq<Value>)
    ensures |r| == |items|
    decreases items
  {
    if items == [] then []
    else [if items[0].Undefined? then Null else Clean(items[0])] + CleanItems(items[1..])
  }

  function CleanProps(props: seq<Prop>): (r: seq<Prop>)
    ensures forall k :: k in Keys(props) && !Lookup(props, k).Undefined? ==> k in Keys(r)
    decreases props
  {
    if props == [] then []
    else
      assert props == [props[0]] + props[1..];
      KeysCons(props[0], props[1..]);
      var rest := CleanProps(props[1..]);
      var head := if props[0].val.Undefined? then [] else [Prop(props[0].key, Clean(props[0].val))];
      KeysAppend(head, rest);
      head + rest
  }
}
