/** What each plan allows. */
module Plans {
  datatype Plan = FREE | STARTER | PRO | ENTERPRISE

  const MAX_SAFE_INTEGER: nat := 9007199254740991

  const ALL_PLANS: seq<Plan> := [FREE, STARTER, PRO, ENTERPRISE]

  function MaxApiCallsPerDay(plan: Plan): nat {
    match plan
    case FREE => 5_000
    case STARTER => 50_000
    case PRO => 500_000
    case ENTERPRISE => MAX_SAFE_INTEGER
  }

  function LogRetentionDays(plan: Plan): nat {
    match plan
    case FREE => 7
    case STARTER => 30
    case PRO => 90
    case ENTERPRISE => 365
  }

  function MaxOAuthApps(plan: Plan): nat {
    match plan
    case FREE => 1
    case STARTER => 5
    case PRO => 20
    case ENTERPRISE => MAX_SAFE_INTEGER
  }
}
