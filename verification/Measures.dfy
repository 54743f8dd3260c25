/** Durations in milliseconds reported in hours or minutes with two decimals, and the limits they
    are compared with. Results are kept in hundredths, so no precision is lost in the model. */
module Measures {
  import opened Environments

  /** `Math.round`: the nearest integer, halves towards positive infinity. */
  function RoundHalfUp(x: real): (r: int)
    ensures r as real - 0.5 <= x < r as real + 0.5
  {
    (x + 0.5).Floor
  }

  /** `Math.round(ms / unit * 100)`, the hundredths of a unit that are reported. */
  function Hundredths(ms: int, unitMs: nat): int
    requires unitMs > 0
  {
    RoundHalfUp(ms as real / unitMs as real * 100.0)
  }

  const HOUR: nat := 1000 * 60 * 60
  const MINUTE: nat := 60000

  /** A rounded measure, in units with two decimals, is at most `limit` units. */
  predicate Within(hundredths: int, limit: int) {
    hundredths as real / 100.0 <= limit as real
  }

  lemma RoundingThreshold(x: real, bound: int)
    ensures RoundHalfUp(x) <= bound <==> x < bound as real + 0.5
  {
  }

  lemma QuotientLess(a: real, b: real, c: real)
    requires b > 0.0
    ensures a / b < c <==> a < c * b
  {
    var q := a / b;
    assert q * b == a;
    if q < c {
      assert (c - q) * b > 0.0;
    } else {
      assert (q - c) * b >= 0.0;
    }
  }

  lemma ScaledLess(ms: int, unitMs: nat, limit: int, slack: int)
    requires unitMs > 0 && slack * 200 == unitMs
    ensures ms as real / unitMs as real * 100.0 < (100 * limit) as real + 0.5
       <==> ms < limit * unitMs + slack
  {
    var u := unitMs as real;
    QuotientLess(ms as real, u, limit as real + 0.005);
    assert (limit * unitMs) as real == limit as real * u;
    assert (limit as real + 0.005) * u == (limit * unitMs + slack) as real;
  }

  /** Rounding to two decimals lets a whole-unit limit be exceeded by less than half of a
      hundredth of the unit, and by nothing more. */
  lemma LimitThreshold(ms: int, unitMs: nat, limit: int, slack: int)
    requires unitMs > 0 && slack * 200 == unitMs
    ensures Within(Hundredths(ms, unitMs), limit) <==> ms < limit * unitMs + slack
  {
    RoundingThreshold(ms as real / unitMs as real * 100.0, 100 * limit);
    ScaledLess(ms, unitMs, limit, slack);
  }

  // ----- Backup age

  function AgeHundredths(createdMs: int, nowMs: int): int {
    Hundredths(nowMs - createdMs, HOUR)
  }

  /** The recency test of backup verification. */
  predicate RecentEnough(createdMs: int, nowMs: int, environment: Environment) {
    Within(AgeHundredths(createdMs, nowMs), PolicyOf(environment).requireRecentBackupHours)
  }

  /** The backup check of the readiness assessment, on the age that verification reported. */
  predicate ReadinessBackupCheck(environment: Environment, backupVerified: bool, ageHundredths: int) {
    backupVerified && !(environment == Production && ageHundredths as real / 100.0 > 6.0)
  }

  /** A backup passes an H-hour limit exactly when it is younger than H hours and 18 seconds. */
  lemma BackupAgeThreshold(createdMs: int, nowMs: int, environment: Environment)
    ensures RecentEnough(createdMs, nowMs, environment)
       <==> nowMs - createdMs < PolicyOf(environment).requireRecentBackupHours * HOUR + 18000
  {
    LimitThreshold(nowMs - createdMs, HOUR, PolicyOf(environment).requireRecentBackupHours, 18000);
  }

  /** The limits are a week in development, a day in staging and six hours in production. */
  lemma BackupAgeLimits(createdMs: int, nowMs: int)
    ensures RecentEnough(createdMs, nowMs, Development) <==> nowMs - createdMs < 168 * 3600000 + 18000
    ensures RecentEnough(createdMs, nowMs, Staging) <==> nowMs - createdMs < 24 * 3600000 + 18000
    ensures RecentEnough(createdMs, nowMs, Production) <==> nowMs - createdMs < 6 * 3600000 + 18000
  {
    BackupAgeThreshold(createdMs, nowMs, Development);
    BackupAgeThreshold(createdMs, nowMs, Staging);
    BackupAgeThreshold(createdMs, nowMs, Production);
  }

  /** For production the literal limit in the readiness check is the one in the policy table, so
      both services accept the same backups. */
  lemma ReadinessAgreesWithVerification(createdMs: int, nowMs: int, verified: bool)
    ensures ReadinessBackupCheck(Production, verified, AgeHundredths(createdMs, nowMs))
       <==> verified && RecentEnough(createdMs, nowMs, Production)
    ensures ReadinessBackupCheck(Production, verified, AgeHundredths(createdMs, nowMs))
       <==> verified && nowMs - createdMs < 6 * HOUR + 18000
  {
    BackupAgeThreshold(createdMs, nowMs, Production);
  }

  // ----- Recovery point and recovery time

  function RpoHundredths(backupMs: int, failureMs: int): int {
    Hundredths(failureMs - backupMs, MINUTE)
  }

  function RtoHundredths(failureMs: int, recoveredMs: int): int {
    Hundredths(recoveredMs - failureMs, MINUTE)
  }

  /** An objective of whole minutes is met exactly under the objective plus 300 milliseconds. */
  lemma ObjectiveThreshold(fromMs: int, toMs: int, minutes: int)
    ensures Within(RpoHundredths(fromMs, toMs), minutes) <==> toMs - fromMs < minutes * MINUTE + 300
    ensures Within(RtoHundredths(fromMs, toMs), minutes) <==> toMs - fromMs < minutes * MINUTE + 300
  {
    LimitThreshold(toMs - fromMs, MINUTE, minutes, 300);
  }

  /** The reported recovery point and recovery time add up, within a hundredth of a minute, to
      the time between the backup and the recovery. */
  lemma RpoPlusRto(backupMs: int, failureMs: int, recoveredMs: int)
    ensures var total := (recoveredMs - backupMs) as real / 60000.0;
      var reported := (RpoHundredths(backupMs, failureMs) + RtoHundredths(failureMs, recoveredMs)) as real / 100.0;
      total - 0.01 <= reported <= total + 0.01
  {
  }
}
