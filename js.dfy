/** The pieces of JavaScript semantics that the two dashboards rely on:
    truthiness, `||`, array indexing past the end, plain objects used as
    dictionaries, and the string an array turns into when used as a key. */
module Js {

  datatype Option<T> = None | Some(value: T)

  /** What an object property or an array index yields here: nothing
      (`undefined`), `null`, or an object. */
  datatype Value<T> = Undefined | Null | Obj(obj: T)

  /** Objects are always truthy; `undefined` and `null` are falsy. */
  predicate Truthy<T>(v: Value<T>)
  {
    v.Obj?
  }

  /** `a || b` */
  function Or<T>(a: Value<T>, b: Value<T>): Value<T>
  {
    if Truthy(a) then a else b
  }

  /** `s[i]`: the element, or `undefined` past the end. */
  function At<T>(s: seq<T>, i: nat): (v: Value<T>)
    ensures Truthy(v) <==> i < |s|
    ensures i < |s| ==> v == Obj(s[i])
  {
    if i < |s| then Obj(s[i]) else Undefined
  }

  /** A plain object used as a dictionary: its own properties. */
  type Dict<T> = map<string, Value<T>>

  /** `d[key]` for a key that is an own property or no property at all;
      the latter reads `undefined`. Names inherited from `Object.prototype`
      (`toString`, `constructor`, ...) are not modelled. */
  function Get<T>(d: Dict<T>, key: string): Value<T>
  {
    if key in d then d[key] else Undefined
  }

  /** `s || fallback` for an optional string: absent and `""` are falsy. */
  function OrText(s: Option<string>, fallback: string): string
  {
    if s.Some? && s.value != "" then s.value else fallback
  }

  /** `xs.join(sep)` */
  function Join(xs: seq<string>, sep: string): string
  {
    if |xs| == 0 then ""
    else if |xs| == 1 then xs[0]
    else xs[0] + sep + Join(xs[1..], sep)
  }

  /** The property key an array of strings is coerced to, `String(xs)`,
      which is `xs.join(",")`. */
  function ArrayKey(xs: seq<string>): string
  {
    Join(xs, ",")
  }

  /** Joining two or more parts is longer than any one part plus a separator. */
  lemma {:induction false} JoinOutgrowsEachPart(xs: seq<string>, sep: string, i: nat)
    requires |xs| >= 2 && i < |xs|
    ensures |Join(xs, sep)| >= |xs[i]| + |sep|
  {
    if i > 0 && |xs| > 2 {
      JoinOutgrowsEachPart(xs[1..], sep, i - 1);
    }
  }

  /** The key of an array with one element is that element; the key of an
      array with two or more elements contains a comma and is none of them. */
  lemma ArrayKeyShape(xs: seq<string>)
    ensures |xs| == 1 ==> ArrayKey(xs) == xs[0]
    ensures |xs| >= 2 ==> ',' in ArrayKey(xs)
    ensures |xs| >= 2 ==> forall i :: 0 <= i < |xs| ==> ArrayKey(xs) != xs[i]
  {
    if |xs| >= 2 {
      var k := ArrayKey(xs);
      assert k == xs[0] + "," + Join(xs[1..], ",");
      assert k[|xs[0]|] == ',';
      forall i | 0 <= i < |xs|
        ensures k != xs[i]
      {
        JoinOutgrowsEachPart(xs, ",", i);
      }
    }
  }

  function DigitChar(d: nat): char
    requires d < 10
  {
    "0123456789"[d]
  }

  /** The decimal digits of `n`, most significant first. */
  function Digits(n: nat): (s: string)
    ensures |s| > 0
    ensures forall i :: 0 <= i < |s| ==> '0' <= s[i] <= '9'
  {
    if n < 10 then [DigitChar(n)] else Digits(n / 10) + [DigitChar(n % 10)]
  }

  /** `String(n)` for an integer. */
  function Decimal(n: int): (s: string)
    ensures |s| > 0
    ensures s[0] == '-' <==> n < 0
  {
    if n < 0 then "-" + Digits(-n) else Digits(n)
  }
}
