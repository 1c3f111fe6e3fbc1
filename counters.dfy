/**
 A `defaultdict(int)` keyed by string, as the per-operator `call_types`
 counter uses it: read with `get(key, 0)`, written with `[key] += 1`.
 */
module Counters {

  type Counter = map<string, nat>

  /** `counter.get(k, 0)`. */
  function Count(m: Counter, k: string): nat {
    if k in m then m[k] else 0
  }

  /** `counter[k] += 1` on a `defaultdict(int)`. */
  function Bump(m: Counter, k: string): (r: Counter)
    ensures r.Keys == m.Keys + {k}
    ensures Count(r, k) == Count(m, k) + 1
    ensures forall j :: j != k ==> Count(r, j) == Count(m, j)
  {
    m[k := Count(m, k) + 1]
  }

  /** The sum of all counts. */
  ghost function Total(m: Counter): nat
    decreases |m|
  {
    if m == map[] then 0
    else
      var k :| k in m;
      assert |(m - {k}).Keys| < |m.Keys| by {
        assert (m - {k}).Keys == m.Keys - {k};
      }
      m[k] + Total(m - {k})
  }

  /** Total does not depend on which key is taken out first. */
  lemma {:induction false} TotalRemove(m: Counter, k: string)
    requires k in m
    ensures Total(m) == m[k] + Total(m - {k})
    decreases |m|
  {
    var j :| j in m && Total(m) == m[j] + Total(m - {j});
    if j != k {
      assert (m - {j}).Keys == m.Keys - {j};
      assert (m - {k}).Keys == m.Keys - {k};
      TotalRemove(m - {j}, k);
      TotalRemove(m - {k}, j);
      assert m - {j} - {k} == m - {k} - {j};
    }
  }

  /** Each `[k] += 1` adds exactly one to the sum of the counts. */
  lemma {:induction false} TotalBump(m: Counter, k: string)
    ensures Total(Bump(m, k)) == Total(m) + 1
  {
    var r := Bump(m, k);
    TotalRemove(r, k);
    if k in m {
      TotalRemove(m, k);
      assert r - {k} == m - {k};
    } else {
      assert r - {k} == m;
    }
  }
}
