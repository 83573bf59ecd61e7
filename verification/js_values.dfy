/** The slice of JavaScript's value model that the lighting and style code relies on:
    numbers (finite reals or NaN), strings, arrays, `undefined` and `null`, plus plain
    objects represented as association lists in `Object.keys` order. */
module JsValues {

  datatype Option<+T> = None | Some(value: T)

  /** A JavaScript value as far as this model needs one. Finite numbers are reals;
      NaN is kept apart because it propagates through arithmetic and fails
      `Number.isFinite`. */
  datatype JsValue =
    | Undefined
    | Null
    | NaN
    | Num(n: real)
    | Str(s: string)
    | Arr(items: seq<JsValue>)

  /** JavaScript truthiness: `undefined`, `null`, NaN, 0 and "" are falsy. */
  predicate Truthy(v: JsValue) {
    match v
    case Undefined => false
    case Null => false
    case NaN => false
    case Num(n) => n != 0.0
    case Str(s) => s != ""
    case Arr(_) => true
  }

  /** The operands `??` skips over. */
  predicate Nullish(v: JsValue) {
    v.Undefined? || v.Null?
  }

  /** `a ?? b`. */
  function Coalesce(a: JsValue, b: JsValue): (r: JsValue)
    ensures !Nullish(a) ==> r == a
    ensures Nullish(a) ==> r == b
  {
    if Nullish(a) then b else a
  }

  /** `a || b`. */
  function Or(a: JsValue, b: JsValue): (r: JsValue)
    ensures Truthy(a) ==> r == a
    ensures !Truthy(a) ==> r == b
  {
    if Truthy(a) then a else b
  }

  /** A plain object: its own enumerable properties in `Object.keys` order. */
  type Entries = seq<(string, JsValue)>

  predicate DistinctKeys(o: Entries) {
    forall i, j :: 0 <= i < j < |o| ==> o[i].0 != o[j].0
  }

  function KeySet(o: Entries): (ks: set<string>)
    ensures forall i :: 0 <= i < |o| ==> o[i].0 in ks
    ensures forall k :: k in ks ==> exists i :: 0 <= i < |o| && o[i].0 == k
  {
    if |o| == 0 then {} else {o[0].0} + KeySet(o[1..])
  }

  /** Property access `o[k]`: `undefined` when the key is absent. */
  function Get(o: Entries, k: string): (v: JsValue)
    requires DistinctKeys(o)
    ensures k !in KeySet(o) ==> v == Undefined
    ensures forall i :: 0 <= i < |o| && o[i].0 == k ==> v == o[i].1
  {
    if |o| == 0 then Undefined
    else if o[0].0 == k then o[0].1
    else Get(o[1..], k)
  }

  /** Property access on a map-shaped object. */
  function Lookup(m: map<string, JsValue>, k: string): (v: JsValue)
    ensures k in m ==> v == m[k]
    ensures k !in m ==> v == Undefined
  {
    if k in m then m[k] else Undefined
  }

  /** `s.includes(sub)`. */
  ghost predicate Contains(s: string, sub: string) {
    exists i :: OccursAt(s, sub, i)
  }

  predicate OccursAt(s: string, sub: string, i: int) {
    0 <= i <= |s| - |sub| && s[i..i + |sub|] == sub
  }

  /** A constructive search for `sub` in `s`, agreeing with `Contains`. */
  function IndexOf(s: string, sub: string, from: nat): (r: int)
    requires from <= |s|
    decreases |s| - from
    ensures r == -1 || (from <= r && OccursAt(s, sub, r))
    ensures r == -1 ==> forall i :: from <= i ==> !OccursAt(s, sub, i)
  {
    if from + |sub| > |s| then -1
    else if s[from..from + |sub|] == sub then from
    else if from == |s| then -1
    else IndexOf(s, sub, from + 1)
  }

  function Includes(s: string, sub: string): (b: bool)
    ensures b <==> Contains(s, sub)
  {
    IndexOf(s, sub, 0) != -1
  }
}
