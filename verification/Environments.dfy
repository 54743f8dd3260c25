/** The deployment environments and the parts of their policies that other components read. */
module Environments {
  import opened CodeUnits

  datatype Environment = Development | Staging | Production

  datatype Strategy = Recreate | Rolling | BlueGreen | Canary

  datatype Policy = Policy(
    minApprovalCount: nat,
    allowedStrategies: seq<Strategy>,
    requiresBackupBeforeMigration: bool,
    requireRecentBackupHours: nat)

  /** The schema file, which the migration gate and the row-level-security gate read. */
  datatype SchemaFile = NoSchema | Schema(text: JsString)

  function PolicyOf(environment: Environment): Policy {
    match environment
    case Development => Policy(0, [Recreate, Rolling], false, 168)
    case Staging => Policy(1, [Rolling, BlueGreen, Canary], true, 24)
    case Production => Policy(2, [BlueGreen, Canary, Rolling], true, 6)
  }

  predicate RequiresApproval(environment: Environment) {
    PolicyOf(environment).minApprovalCount > 0
  }

  // ----- Their texts

  function EnvironmentText(environment: Environment): JsString {
    match environment
    case Development => Units("development")
    case Staging => Units("staging")
    case Production => Units("production")
  }

  function StrategyText(strategy: Strategy): JsString {
    match strategy
    case Recreate => Units("RECREATE")
    case Rolling => Units("ROLLING")
    case BlueGreen => Units("BLUE_GREEN")
    case Canary => Units("CANARY")
  }

  lemma TextsDiffer(a: Environment, b: Environment, s: Strategy, t: Strategy)
    ensures EnvironmentText(a) == EnvironmentText(b) <==> a == b
    ensures StrategyText(s) == StrategyText(t) <==> s == t
  {
    assert |EnvironmentText(a)| == if a == Development then 11 else if a == Staging then 7 else 10;
    assert |EnvironmentText(b)| == if b == Development then 11 else if b == Staging then 7 else 10;
    assert |StrategyText(s)| == match s case Recreate => 8 case Rolling => 7 case BlueGreen => 10 case Canary => 6;
    assert |StrategyText(t)| == match t case Recreate => 8 case Rolling => 7 case BlueGreen => 10 case Canary => 6;
  }

  lemma EnvironmentNames()
    ensures EnvironmentText(Development) == Units("development") && EnvironmentText(Staging) == Units("staging")
    ensures EnvironmentText(Production) == Units("production")
    ensures StrategyText(Recreate) == Units("RECREATE") && StrategyText(Rolling) == Units("ROLLING")
    ensures StrategyText(BlueGreen) == Units("BLUE_GREEN") && StrategyText(Canary) == Units("CANARY")
  {
  }

  /** Rolling is allowed everywhere, recreating in development alone, the others outside it. */
  lemma AllowedStrategies(environment: Environment, strategy: Strategy)
    ensures strategy in PolicyOf(environment).allowedStrategies
       <==> strategy == Rolling || (strategy == Recreate <==> environment == Development)
    ensures PolicyOf(environment).minApprovalCount
         == if environment == Production then 2 else if environment == Staging then 1 else 0
  {
  }
}
