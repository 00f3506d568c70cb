/**
 * The fragment of JavaScript value semantics that the mail relay handler relies on:
 * truthiness, the `||` operator, property access and optional chaining (`?.`).
 *
 * Objects are modelled by their own properties only; there is no prototype chain.
 * None of the property names the handler reads ("to", "from", "response", "errors",
 * "message", ...) is inherited by a value that the JSON body parser or the mail
 * provider's client produces, except `Error.prototype.message`, which is the empty
 * string and therefore falsy, exactly like the `undefined` the model yields.
 */
module Js {

  /** A property key: a name (`o.name`, `o["name"]`) or an array index (`o[0]`). */
  datatype Key = Name(name: string) | Index(index: nat)

  /** A JavaScript value. Functions and other exotic objects are plain `Obj`s here. */
  datatype JsVal =
    | Undefined
    | Null
    | Bool(b: bool)
    | Num(n: real)
    | NaN
    | Str(s: string)
    | Arr(elems: seq<JsVal>)
    | Obj(props: map<string, JsVal>)

  /** `Boolean(v)`: false exactly for undefined, null, false, 0, NaN and "". */
  predicate Truthy(v: JsVal)
  {
    match v
    case Undefined => false
    case Null => false
    case Bool(b) => b
    case Num(n) => n != 0.0
    case NaN => false
    case Str(s) => s != ""
    case Arr(_) => true
    case Obj(_) => true
  }

  /** The values on which `?.` short-circuits and property access throws. */
  predicate Nullish(v: JsVal)
  {
    v.Undefined? || v.Null?
  }

  /** `a || b`: the left operand when it is truthy, otherwise the right one. */
  function Or(a: JsVal, b: JsVal): JsVal
  {
    if Truthy(a) then a else b
  }

  /** `vs[0] || vs[1] || ... || vs[n-1]`, grouped to the left as JavaScript parses it. */
  function OrChain(vs: seq<JsVal>): JsVal
    requires |vs| > 0
    decreases |vs|
  {
    if |vs| == 1 then vs[0] else Or(OrChain(vs[..|vs| - 1]), vs[|vs| - 1])
  }

  /**
   * Reference reading of a fallback chain: the first truthy candidate, or the
   * last candidate when none is truthy.
   */
  function FirstTruthy(vs: seq<JsVal>): (r: JsVal)
    requires |vs| > 0
    decreases |vs|
    ensures r in vs
    ensures Truthy(r) <==> exists i :: 0 <= i < |vs| && Truthy(vs[i])
    ensures !Truthy(r) ==> r == vs[|vs| - 1]
    ensures forall i :: 0 <= i < |vs| && Truthy(vs[i]) && (forall j :: 0 <= j < i ==> !Truthy(vs[j]))
              ==> r == vs[i]
  {
    if |vs| == 1 || Truthy(vs[0]) then vs[0] else FirstTruthy(vs[1..])
  }

  /** Extending a chain by one operand on the right is one more `||`. */
  lemma {:induction false} FirstTruthySnoc(vs: seq<JsVal>, x: JsVal)
    requires |vs| > 0
    ensures FirstTruthy(vs + [x]) == Or(FirstTruthy(vs), x)
    decreases |vs|
  {
    if |vs| == 1 {
      assert vs + [x] == [vs[0], x];
      assert [vs[0], x][1..] == [x];
    } else if !Truthy(vs[0]) {
      assert (vs + [x])[1..] == vs[1..] + [x];
      FirstTruthySnoc(vs[1..], x);
    }
  }

  /** A left-grouped `||` chain evaluates to its first truthy operand, else its last. */
  lemma {:induction false} OrChainIsFirstTruthy(vs: seq<JsVal>)
    requires |vs| > 0
    ensures OrChain(vs) == FirstTruthy(vs)
    decreases |vs|
  {
    if |vs| > 1 {
      var init := vs[..|vs| - 1];
      OrChainIsFirstTruthy(init);
      FirstTruthySnoc(init, vs[|vs| - 1]);
      assert init + [vs[|vs| - 1]] == vs;
    }
  }

  function DigitChar(d: nat): char
    requires d < 10
  {
    "0123456789"[d]
  }

  /** The canonical decimal spelling of an index, which is how `o[0]` names a property. */
  function DecimalString(n: nat): string
    decreases n
  {
    if n < 10 then [DigitChar(n)] else DecimalString(n / 10) + [DigitChar(n % 10)]
  }

  /** The property name an index stands for on an ordinary object. */
  function KeyName(k: Key): string
  {
    match k
    case Name(n) => n
    case Index(i) => DecimalString(i)
  }

  /**
   * `v[k]` on a value that is not nullish: an own property of an object, an element
   * of an array, a one-character string of a string, and undefined otherwise.
   */
  function Get(v: JsVal, k: Key): JsVal
  {
    match v
    case Obj(m) => if KeyName(k) in m then m[KeyName(k)] else Undefined
    case Arr(xs) => if k.Index? && k.index < |xs| then xs[k.index] else Undefined
    case Str(s) => if k.Index? && k.index < |s| then Str([s[k.index]]) else Undefined
    case _ => Undefined
  }

  /** `v?.k1?.k2 ... ?.kn`: undefined as soon as a nullish value is reached. */
  function Chain(v: JsVal, path: seq<Key>): JsVal
    decreases |path|
  {
    if path == [] then v
    else if Nullish(v) then Undefined
    else Chain(Get(v, path[0]), path[1..])
  }

  /** Optional chaining over a nullish value yields undefined, whatever the path. */
  lemma {:induction false} ChainShortCircuits(v: JsVal, path: seq<Key>)
    requires Nullish(v)
    ensures Chain(v, path) == (if path == [] then v else Undefined)
  {
  }

  /** Splitting an optional chain in two does not change its value. */
  lemma {:induction false} ChainAppend(v: JsVal, p: seq<Key>, q: seq<Key>)
    ensures Chain(v, p + q) == Chain(Chain(v, p), q)
    decreases |p|
  {
    if p == [] {
      assert p + q == q;
    } else if Nullish(v) {
      ChainShortCircuits(Undefined, q);
    } else {
      assert (p + q)[1..] == p[1..] + q;
      ChainAppend(Get(v, p[0]), p[1..], q);
    }
  }
}
