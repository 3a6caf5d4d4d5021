/** Shared vocabulary of the scheduling model: the time unit, optional
    values (JavaScript `undefined`), random draws and the pick rule
    `floor(Math.random() * length)`. */
module Common {

  /** `BASE_TIME_UNIT`: every offset and period is a multiple of it. */
  const BaseTimeUnit: real := 0.5

  /** One bar, `8 * BASE_TIME_UNIT`: the interval of the kick, snare and
      tongue-drum repeat callbacks. */
  const BarPeriod: real := 8.0 * BaseTimeUnit

  /** A value that may be JavaScript `undefined`. */
  datatype Option<T> = None | Some(value: T)

  /** A value `Math.random()` can return. */
  predicate IsDraw(r: real) {
    0.0 <= r < 1.0
  }

  /** Every element of `rs` is a value `Math.random()` can return. */
  predicate AllDraws(rs: seq<real>) {
    forall k :: 0 <= k < |rs| ==> IsDraw(rs[k])
  }

  /** No two neighbouring elements of `s` are equal. */
  predicate NoAdjacentRepeat<T(==)>(s: seq<T>) {
    forall k :: 0 <= k < |s| - 1 ==> s[k] != s[k + 1]
  }

  /** Every pair of positions holds different elements. */
  predicate Distinct<T(==)>(s: seq<T>) {
    forall a, b :: 0 <= a < b < |s| ==> s[a] != s[b]
  }

  /** `Math.floor(r * len)`: an index into a list of `len` elements, or 0
      (out of range) when the list is empty. */
  function PickIndex(r: real, len: nat): (i: int)
    requires IsDraw(r)
    ensures len > 0 ==> 0 <= i < len
    ensures len == 0 ==> i == 0
  {
    var x := r * len as real;
    assert 0.0 <= x <= len as real;
    assert len > 0 ==> x < len as real by {
      if len > 0 {
        assert x == r * len as real < 1.0 * len as real;
      }
    }
    x.Floor
  }

  /** Every index of a non-empty list is picked by some draw: the draw
      `k / len` picks index `k`. */
  lemma PickReachesEveryIndex(k: nat, len: nat)
    requires k < len
    ensures IsDraw(k as real / len as real)
    ensures PickIndex(k as real / len as real, len) == k
  {
    var r := k as real / len as real;
    assert r * len as real == k as real;
    assert r * len as real < 1.0 * len as real;
  }
}
