/** The one formula every progress figure uses: `total > 0 ? (completed / total) * 100 : 0`.
    It is a ratio of two counts, kept exact as a `real`. */
module Percent {

  function Percentage(completed: nat, total: nat): (p: real)
    ensures total == 0 ==> p == 0.0
    ensures completed <= total ==> 0.0 <= p <= 100.0
    ensures completed <= total ==> (p == 100.0 <==> 0 < total && completed == total)
    ensures p > 0.0 <==> 0 < completed && 0 < total
  {
    if total > 0 then
      var r := completed as real / total as real;
      RatioBounds(completed, total);
      r * 100.0
    else 0.0
  }

  lemma RatioBounds(c: nat, t: nat)
    requires t > 0
    ensures c <= t ==> c as real / t as real <= 1.0
    ensures c <= t ==> (c as real / t as real == 1.0 <==> c == t)
    ensures c as real / t as real > 0.0 <==> c > 0
    ensures c as real / t as real >= 0.0
  {
    var r := c as real / t as real;
    assert r * t as real == c as real;
  }

  /** Percentages of the same total order as their completed counts. */
  lemma {:induction false} PercentageMonotone(c1: nat, c2: nat, t: nat)
    requires c1 <= c2
    ensures Percentage(c1, t) <= Percentage(c2, t)
  {
    if t > 0 {
      assert c1 as real / t as real <= c2 as real / t as real by {
        var r1, r2 := c1 as real / t as real, c2 as real / t as real;
        assert r1 * t as real == c1 as real;
        assert r2 * t as real == c2 as real;
      }
    }
  }
}
