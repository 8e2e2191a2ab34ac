/** Runs of readings of one input, and what it means that they were steady. */
module Readings {
  import opened Options

  datatype Reading = Reading(level: Option<bool>, now: nat)

  /** Every reading from `j` to `k` is `level`, or failed. */
  ghost predicate Steady(readings: seq<Reading>, j: nat, k: nat, level: bool)
    requires k < |readings|
  {
    forall i :: j <= i <= k ==> readings[i].level == Some(level) || readings[i].level.None?
  }

  ghost predicate SteadySince(readings: seq<Reading>, k: nat, since: nat, level: bool)
    requires k < |readings|
  {
    exists j :: 0 <= j <= k && readings[j].now == since && readings[j].level == Some(level) &&
      Steady(readings, j, k, level)
  }

  lemma SteadyLonger(readings: seq<Reading>, k: nat, since: nat, level: bool)
    requires k + 1 < |readings| && SteadySince(readings, k, since, level)
    requires readings[k + 1].level == Some(level) || readings[k + 1].level.None?
    ensures SteadySince(readings, k + 1, since, level)
  {
    var j :| 0 <= j <= k && readings[j].now == since && readings[j].level == Some(level) &&
      Steady(readings, j, k, level);
    assert Steady(readings, j, k + 1, level);
  }

  lemma SteadyFromNow(readings: seq<Reading>, k: nat, level: bool)
    requires k < |readings| && readings[k].level == Some(level)
    ensures SteadySince(readings, k, readings[k].now, level)
  {
    assert Steady(readings, k, k, level);
  }

  /** Time does not run backwards between readings. */
  ghost predicate Chronological(readings: seq<Reading>) {
    forall k :: 0 < k < |readings| ==> Follows(readings, k)
  }

  predicate Follows(readings: seq<Reading>, k: nat)
    requires 0 < k < |readings|
  {
    readings[k - 1].now <= readings[k].now
  }

  lemma TimesOrdered(readings: seq<Reading>, j: nat, k: nat)
    requires Chronological(readings) && j <= k < |readings|
    ensures readings[j].now <= readings[k].now
    decreases k
  {
    if j == k {
    } else {
      assert Follows(readings, k);
      TimesOrdered(readings, j, k - 1);
    }
  }
}
