/** Small shared vocabulary: optional values, fallible results, and real arithmetic. */
module Prelude {
  datatype Option<+T> = None | Some(value: T)

  datatype Result<+T, +E> = Success(value: T) | Failure(error: E)

  function Min(a: int, b: int): int {
    if a <= b then a else b
  }

  function Max(a: int, b: int): int {
    if a >= b then a else b
  }

  function MinR(a: real, b: real): real {
    if a <= b then a else b
  }

  function MaxR(a: real, b: real): real {
    if a >= b then a else b
  }

  function AbsR(x: real): real {
    if x < 0.0 then -x else x
  }

  /** `Number(x.toFixed(2))`: nearest hundredth, ties away from zero. */
  function Fixed2(x: real): real {
    if x < 0.0 then -(((-x * 100.0 + 0.5).Floor as real) / 100.0)
    else ((x * 100.0 + 0.5).Floor as real) / 100.0
  }

  lemma {:induction false} Fixed2IsClose(x: real)
    ensures AbsR(Fixed2(x) - x) <= 0.005
  {
    var y := AbsR(x) * 100.0 + 0.5;
    assert y.Floor as real <= y < y.Floor as real + 1.0;
  }

  /** `r` is `x` to the nearest hundredth: a whole number of cents, at most half a cent away, ties away from zero. */
  predicate IsCents(r: real, x: real) {
    && (r * 100.0).Floor as real == r * 100.0
    && AbsR(r - x) <= 0.005
    && (AbsR(r - x) == 0.005 ==> AbsR(r) > AbsR(x))
  }

  lemma {:induction false} WholeCents(n: int)
    ensures (n as real / 100.0 * 100.0).Floor as real == n as real / 100.0 * 100.0
  {
    assert n as real / 100.0 * 100.0 == n as real;
  }

  lemma {:induction false} Fixed2IsCents(x: real)
    ensures IsCents(Fixed2(x), x)
  {
    var n := (AbsR(x) * 100.0 + 0.5).Floor;
    assert n as real <= AbsR(x) * 100.0 + 0.5 < n as real + 1.0;
    if x < 0.0 {
      WholeCents(-n);
      assert Fixed2(x) == (-n) as real / 100.0;
    } else {
      WholeCents(n);
      assert Fixed2(x) == n as real / 100.0;
    }
  }

  /** A named product, so that equal factors give equal terms. */
  function Times(x: real, y: real): real {
    x * y
  }

  lemma {:induction false} TimesSum(x: real, w: real, y: real)
    ensures Times(x + w, y) == Times(x, y) + Times(w, y)
  {
  }

  lemma {:induction false} TimesOrder(x: real, low: real, high: real)
    requires x >= 0.0 && low <= high
    ensures Times(x, low) <= Times(x, high)
  {
  }

  function Filter<T>(keep: T -> bool, s: seq<T>): seq<T> {
    if s == [] then []
    else Filter(keep, s[..|s| - 1]) + (if keep(s[|s| - 1]) then [s[|s| - 1]] else [])
  }

  lemma {:induction false} FilterMembers<T>(keep: T -> bool, s: seq<T>)
    ensures forall x :: x in Filter(keep, s) <==> x in s && keep(x)
  {
    if s != [] {
      FilterMembers(keep, s[..|s| - 1]);
      assert s == s[..|s| - 1] + [s[|s| - 1]];
    }
  }
}
