/** Small pieces of JavaScript semantics that every part of the model shares:
    optional values, the truthiness of optional numbers and Math.round. */
module Common {

  /** A value that may be absent (`null` or `undefined` in the source). */
  datatype Option<+T> = None | Some(value: T)

  /** JavaScript truthiness of an optional number: `null`, `undefined` and `0`
      are falsy, every other number (negative ones included) is truthy. */
  predicate Truthy(o: Option<int>)
  {
    o.Some? && o.value != 0
  }

  function MinReal(a: real, b: real): real { if a <= b then a else b }
  function MaxReal(a: real, b: real): real { if a >= b then a else b }

  /** Math.round (section 21.3.2.28 of ECMA-262): the integer nearest to x,
      halves rounded toward +infinity. */
  function JsRound(x: real): (r: int)
    ensures r as real - 0.5 <= x < r as real + 0.5
  {
    (x + 0.5).Floor
  }

  /** Math.round never reverses the order of its arguments. */
  lemma JsRoundMonotone(x: real, y: real)
    requires x <= y
    ensures JsRound(x) <= JsRound(y)
  {
  }

  /** Rounding a value that lies between two integers stays between them. */
  lemma JsRoundBetween(x: real, lo: int, hi: int)
    requires lo as real <= x <= hi as real
    ensures lo <= JsRound(x) <= hi
  {
    JsRoundMonotone(lo as real, x);
    JsRoundMonotone(x, hi as real);
    JsRoundOfInt(lo);
    JsRoundOfInt(hi);
  }

  /** Math.round leaves integers unchanged. */
  lemma JsRoundOfInt(n: int)
    ensures JsRound(n as real) == n
  {
  }
}
