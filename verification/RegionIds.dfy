/**
 Region ids: the strings `R1`, `R2`, ...
 */
module RegionIds {
  import opened Texts

  function RegionId(k: nat): string { "R" + Decimal(k) }

  /** Different counters give different region ids. */
  lemma RegionIdInjective(m: nat, n: nat)
    requires RegionId(m) == RegionId(n)
    ensures m == n
  {
    assert RegionId(m)[1..] == Decimal(m) && RegionId(n)[1..] == Decimal(n);
    DecimalInjective(m, n);
  }
}
