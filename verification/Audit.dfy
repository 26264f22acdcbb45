/** The daily clean-up of audit logs: each plan keeps its organizations' logs for its own number of days. */
module Audit {
  import opened Basics
  import opened Plans

  const ONE_DAY_MS: nat := 24 * 60 * 60 * 1000

  /** The owner is null for system logs and for logs whose user was deleted. */
  datatype Log = Log(userId: Option<Id>, createdAt: nat)

  /** Foreign keys: a user's organization, an organization's plan, a log's user. */
  ghost predicate Keyed(logs: map<Id, Log>, users: map<Id, Id>, plans: map<Id, Plan>) {
    && (forall u :: u in users ==> users[u] in plans)
    && (forall l :: l in logs && logs[l].userId.Some? ==> logs[l].userId.value in users)
  }

  function PlanOf(users: map<Id, Id>, plans: map<Id, Plan>, u: Id): Plan
    requires u in users && users[u] in plans
  {
    plans[users[u]]
  }

  /** The retention that applies to a log: its owner's plan, or the longest plan for an ownerless log. */
  function Retention(log: Log, users: map<Id, Id>, plans: map<Id, Plan>): nat
    requires log.userId.Some? ==> log.userId.value in users && users[log.userId.value] in plans
  {
    if log.userId.Some? then LogRetentionDays(PlanOf(users, plans, log.userId.value)) else LogRetentionDays(ENTERPRISE)
  }

  /** The documented rule: a log is kept while its age is within its retention. */
  predicate WithinRetention(log: Log, users: map<Id, Id>, plans: map<Id, Plan>, now: nat)
    requires log.userId.Some? ==> log.userId.value in users && users[log.userId.value] in plans
  {
    now <= log.createdAt + Retention(log, users, plans) * ONE_DAY_MS
  }

  function Survivors(logs: map<Id, Log>, users: map<Id, Id>, plans: map<Id, Plan>, now: nat): map<Id, Log>
    requires Keyed(logs, users, plans)
  {
    map l | l in logs && WithinRetention(logs[l], users, plans, now) :: logs[l]
  }

  function UsersOn(users: map<Id, Id>, plans: map<Id, Plan>, plan: Plan): set<Id> {
    set u | u in users && users[u] in plans && plans[users[u]] == plan
  }

  function CutOff(now: nat, plan: Plan): int { now - LogRetentionDays(plan) * ONE_DAY_MS }

  lemma RemovedCount(logs: map<Id, Log>, gone: set<Id>)
    requires gone <= logs.Keys
    ensures |logs - gone| == |logs| - |gone|
  {
  }

  /** Logs that the passes over the first `i` plans delete. */
  predicate PastPlan(log: Log, users: map<Id, Id>, plans: map<Id, Plan>, now: nat, i: nat)
    requires i <= |ALL_PLANS|
  {
    exists k :: 0 <= k < i && DueUnder(log, users, plans, now, ALL_PLANS[k])
  }

  predicate DueUnder(log: Log, users: map<Id, Id>, plans: map<Id, Plan>, now: nat, plan: Plan) {
    log.userId.Some? && log.userId.value in UsersOn(users, plans, plan) && log.createdAt < CutOff(now, plan)
  }

  /** What is left after the passes over the first `i` plans. */
  function AfterPlans(logs: map<Id, Log>, users: map<Id, Id>, plans: map<Id, Plan>, now: nat, i: nat): map<Id, Log>
    requires i <= |ALL_PLANS|
  {
    map l | l in logs && !PastPlan(logs[l], users, plans, now, i) :: logs[l]
  }

  function WithoutOwned(logs: map<Id, Log>, cutoff: int, userIds: set<Id>): map<Id, Log> {
    map l | l in logs && !(logs[l].userId.Some? && logs[l].userId.value in userIds && logs[l].createdAt < cutoff)
      :: logs[l]
  }

  function WithoutOrphans(logs: map<Id, Log>, cutoff: int): map<Id, Log> {
    map l | l in logs && !(logs[l].userId.None? && logs[l].createdAt < cutoff) :: logs[l]
  }

  class AuditStore {
    var logs: map<Id, Log>
    var users: map<Id, Id>      // user to organization
    var plans: map<Id, Plan>    // organization to plan

    ghost predicate Valid() reads this { Keyed(logs, users, plans) }

    constructor (logs: map<Id, Log>, users: map<Id, Id>, plans: map<Id, Plan>)
      requires Keyed(logs, users, plans)
      ensures Valid() && this.logs == logs && this.users == users && this.plans == plans
    {
      this.logs, this.users, this.plans := logs, users, plans;
    }

    /** Delete the logs of these users created before the cut-off. */
    method DeleteOwned(cutoff: int, userIds: set<Id>) returns (count: nat)
      modifies this`logs
      ensures logs == WithoutOwned(old(logs), cutoff, userIds)
      ensures count == |old(logs)| - |logs|
    {
      var gone := set l |
        l in logs && logs[l].userId.Some? && logs[l].userId.value in userIds && logs[l].createdAt < cutoff;
      RemovedCount(logs, gone);
      logs := logs - gone;
      count := |gone|;
    }

    /** Delete the ownerless logs created before the cut-off. */
    method DeleteOrphaned(cutoff: int) returns (count: nat)
      modifies this`logs
      ensures logs == WithoutOrphans(old(logs), cutoff)
      ensures count == |old(logs)| - |logs|
    {
      var gone := set l | l in logs && logs[l].userId.None? && logs[l].createdAt < cutoff;
      RemovedCount(logs, gone);
      logs := logs - gone;
      count := |gone|;
    }

    /** One error-free clean-up at a fixed time. */
    method RunCleanup(now: nat) returns (totalDeleted: nat)
      requires Valid()
      modifies this`logs
      ensures Valid() && logs == Survivors(old(logs), users, plans, now)
      ensures totalDeleted == |old(logs)| - |logs|
    {
      totalDeleted := 0;
      for i := 0 to |ALL_PLANS|
        invariant logs == AfterPlans(old(logs), users, plans, now, i)
        invariant totalDeleted == |old(logs)| - |logs|
      {
        var plan := ALL_PLANS[i];
        var userIds := UsersOn(users, plans, plan);
        if userIds != {} {
          var count := DeleteOwned(CutOff(now, plan), userIds);
          totalDeleted := totalDeleted + count;
        }
        AfterOneMore(old(logs), users, plans, now, i);
      }
      var count := DeleteOrphaned(CutOff(now, ENTERPRISE));
      totalDeleted := totalDeleted + count;
      AfterAll(old(logs), users, plans, now);
    }
  }

  lemma AfterOneMore(logs: map<Id, Log>, users: map<Id, Id>, plans: map<Id, Plan>, now: nat, i: nat)
    requires i < |ALL_PLANS|
    ensures AfterPlans(logs, users, plans, now, i + 1) ==
      var before := AfterPlans(logs, users, plans, now, i);
      WithoutOwned(before, CutOff(now, ALL_PLANS[i]), UsersOn(users, plans, ALL_PLANS[i]))
    ensures UsersOn(users, plans, ALL_PLANS[i]) == {} ==>
      AfterPlans(logs, users, plans, now, i + 1) == AfterPlans(logs, users, plans, now, i)
  {
  }

  lemma AfterAll(logs: map<Id, Log>, users: map<Id, Id>, plans: map<Id, Plan>, now: nat)
    requires Keyed(logs, users, plans)
    ensures Survivors(logs, users, plans, now) ==
      WithoutOrphans(AfterPlans(logs, users, plans, now, |ALL_PLANS|), CutOff(now, ENTERPRISE))
  {
    SurvivorsByPlan(logs, users, plans, now);
  }

  /** The passes together delete exactly the owned logs past their own plan's retention. */
  lemma SurvivorsByPlan(logs: map<Id, Log>, users: map<Id, Id>, plans: map<Id, Plan>, now: nat)
    requires Keyed(logs, users, plans)
    ensures forall l :: l in logs && logs[l].userId.Some? ==>
      (PastPlan(logs[l], users, plans, now, |ALL_PLANS|) <==> !WithinRetention(logs[l], users, plans, now))
    ensures forall l :: l in logs && logs[l].userId.None? ==> !PastPlan(logs[l], users, plans, now, |ALL_PLANS|)
  {
    forall l | l in logs && logs[l].userId.Some?
      ensures PastPlan(logs[l], users, plans, now, |ALL_PLANS|) <==> !WithinRetention(logs[l], users, plans, now)
    {
      var own := PlanOf(users, plans, logs[l].userId.value);
      var k := PlanIndex(own);
      assert DueUnder(logs[l], users, plans, now, ALL_PLANS[k]) <==> !WithinRetention(logs[l], users, plans, now);
    }
  }

  function PlanIndex(plan: Plan): (k: nat)
    ensures k < |ALL_PLANS| && ALL_PLANS[k] == plan
  {
    match plan case FREE => 0 case STARTER => 1 case PRO => 2 case ENTERPRISE => 3
  }

  /** A second run at the same time deletes nothing. */
  lemma SecondRunDeletesNothing(logs: map<Id, Log>, users: map<Id, Id>, plans: map<Id, Plan>, now: nat)
    requires Keyed(logs, users, plans)
    ensures Keyed(Survivors(logs, users, plans, now), users, plans)
    ensures Survivors(Survivors(logs, users, plans, now), users, plans, now) == Survivors(logs, users, plans, now)
  {
  }

  /** No plan, and no clean-up, ever deletes a log younger than seven days. */
  lemma YoungLogsSurvive(logs: map<Id, Log>, users: map<Id, Id>, plans: map<Id, Plan>, now: nat, l: Id)
    requires Keyed(logs, users, plans) && l in logs && now <= logs[l].createdAt + 7 * ONE_DAY_MS
    ensures l in Survivors(logs, users, plans, now)
  {
  }
}
