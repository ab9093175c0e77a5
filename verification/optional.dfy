/**
 This module gives possibly-undefined values an explicit type and makes the
 truthiness that JavaScript's `||` tests on them explicit.

 A TypeScript `string | undefined` is an `Option<string>`; `a || b` picks `a`
 only when `a` is a non-empty string, so an empty string falls back exactly
 like `undefined` does.
 */
module Optional {

  datatype Option<+T> = None | Some(value: T)

  datatype Result<+T, +E> = Ok(value: T) | Err(error: E)

  /** A possibly-undefined string is truthy when it is defined and non-empty. */
  predicate Truthy(o: Option<string>) {
    o.Some? && o.value != ""
  }

  /**
   JavaScript `a || b` on possibly-undefined strings: one of the two
   operands, the left one whenever it is truthy, and truthy exactly when
   either operand is.
   */
  function Or(a: Option<string>, b: Option<string>): (r: Option<string>)
    ensures r == a || r == b
    ensures Truthy(a) ==> r == a
    ensures !Truthy(a) ==> r == b
    ensures Truthy(r) <==> Truthy(a) || Truthy(b)
  {
    if Truthy(a) then a else b
  }

  /**
   JavaScript `a || d` where the fallback `d` is a string literal: always
   defined, and the one-candidate case of `FirstTruthy`.
   */
  function OrElse(a: Option<string>, d: string): (r: string)
    ensures r == FirstTruthy([a], d)
  {
    if Truthy(a) then a.value else d
  }

  /**
   Reference reading of a chain of `||`: the first truthy candidate, or the
   fallback when none is truthy.
   */
  function FirstTruthy(candidates: seq<Option<string>>, fallback: string): (r: string)
    ensures (forall i :: 0 <= i < |candidates| ==> !Truthy(candidates[i])) ==> r == fallback
    ensures forall i :: (0 <= i < |candidates| && Truthy(candidates[i])
                         && forall j :: 0 <= j < i ==> !Truthy(candidates[j]))
                        ==> r == candidates[i].value
    ensures r == fallback || exists i :: 0 <= i < |candidates| && Truthy(candidates[i]) && r == candidates[i].value
  {
    if |candidates| == 0 then fallback
    else if Truthy(candidates[0]) then candidates[0].value
    else
      var r := FirstTruthy(candidates[1..], fallback);
      assert forall i :: 1 <= i < |candidates| ==> candidates[i] == candidates[1..][i - 1];
      r
  }

  /** An empty string behaves under `||` exactly like `undefined`. */
  lemma EmptyIsAbsent(b: Option<string>)
    ensures Or(Some(""), b) == Or(None, b) == b
  {
  }

  /**
   `||` is associative, so the left-nested `a || b || c` the code writes
   selects the first truthy operand.
   */
  lemma OrAssociative(a: Option<string>, b: Option<string>, c: Option<string>)
    ensures Or(Or(a, b), c) == Or(a, Or(b, c))
  {
  }

  /** `a || b || d` with a literal fallback `d` is the first truthy of `a`, `b`, else `d`. */
  lemma OrChainIsFirstTruthy(a: Option<string>, b: Option<string>, d: string)
    ensures OrElse(Or(a, b), d) == FirstTruthy([a, b], d)
  {
  }
}
