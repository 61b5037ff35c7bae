/**
 * The plans router: the plan catalogue, changed by administrators only, and the quote for
 * moving the caller's subscription to another plan.
 */
module Plans {
  import opened Query
  import opened Db
  import opened Proration

  const AdminsAccessOnly := "Admins access only"
  const NotActivated := "Subscription has not been activated"

  /** plans.getOne: the plan with id `planId`, else NOT_FOUND. */
  function GetOne(db: Store, planId: int): (r: Result<Plan>)
    reads db
    ensures r.Err? <==> forall i :: 0 <= i < |db.plans| ==> db.plans[i].id != planId
    ensures r.Err? ==> r.error == Error(NotFound, None)
    ensures r.Ok? ==> r.value in db.plans && r.value.id == planId
  {
    match FindFirst(db.plans, PlanWithId(planId))
    case None => Fail(NotFound)
    case Some(p) => Ok(p)
  }

  /** plans.getAll: the whole catalogue; a failing read is answered with an empty list, never an error. */
  function GetAll(db: Store, readFails: bool): (r: seq<Plan>)
    reads db
    ensures readFails ==> r == []
    ensures !readFails ==> r == db.plans
  {
    if readFails then [] else db.plans
  }

  /** What plans.create answers: `{success: true}`, or `{success: false, message}`. */
  datatype CreateReply = Created | Refused(message: string)

  /** plans.create: an administrator adds a plan; anyone else is refused without an error. */
  method Create(db: Store, userId: int, name: string, price: Cents) returns (r: CreateReply)
    requires db.Valid()
    modifies db
    ensures db.Valid()
    ensures db.users == old(db.users) && db.teams == old(db.teams)
    ensures db.subscriptions == old(db.subscriptions) && db.activations == old(db.activations)
    ensures r.Created? <==> IsAdmin(old(db.users), userId)
    ensures r.Refused? ==> r.message == AdminsAccessOnly && db.plans == old(db.plans)
    ensures r.Created? ==> |db.plans| == |old(db.plans)| + 1 && db.plans[..|old(db.plans)|] == old(db.plans)
    ensures r.Created? ==> var p := db.plans[|old(db.plans)|];
              p.name == name && p.price == price &&
              forall i :: 0 <= i < |old(db.plans)| ==> old(db.plans)[i].id < p.id
  {
    UserLookup(db.users, userId);
    var user := FindFirst(db.users, UserWithId(userId));
    if user.None? || !user.value.isAdmin {
      return Refused(AdminsAccessOnly);
    }
    var plan := Plan(NextId(db.plans, PlanId), name, price);
    AppendFreshKey(db.plans, plan, PlanId);
    db.plans := db.plans + [plan];
    r := Created;
  }

  /**
   * plans.update: an administrator renames and reprices every plan with id `id` (none, if there
   * is no such plan) and is told `planUpdated: id`; anyone else gets FORBIDDEN.
   */
  method Update(db: Store, userId: int, id: int, name: string, price: Cents) returns (r: Result<int>)
    requires db.Valid()
    modifies db
    ensures db.Valid()
    ensures db.users == old(db.users) && db.teams == old(db.teams)
    ensures db.subscriptions == old(db.subscriptions) && db.activations == old(db.activations)
    ensures r.Err? <==> !IsAdmin(old(db.users), userId)
    ensures r.Err? ==> r.error == Error(Forbidden, None) && db.plans == old(db.plans)
    ensures r.Ok? ==> r.value == id
    ensures r.Ok? ==> |db.plans| == |old(db.plans)|
    ensures r.Ok? ==> forall i :: 0 <= i < |db.plans| ==>
              db.plans[i] == if old(db.plans)[i].id == id then old(db.plans)[i].(name := name, price := price)
                             else old(db.plans)[i]
  {
    UserLookup(db.users, userId);
    var user := FindFirst(db.users, UserWithId(userId));
    if user.None? || !user.value.isAdmin {
      return Fail(Forbidden);
    }
    var rows := db.plans;
    var updated := seq(|rows|, i requires 0 <= i < |rows| =>
      if rows[i].id == id then rows[i].(name := name, price := price) else rows[i]);
    assert forall i :: 0 <= i < |rows| ==> updated[i].id == rows[i].id;
    db.plans := updated;
    r := Ok(id);
  }

  /** What plans.calculateProratedUpgrade answers on success (`success: true` is implied). */
  datatype Upgrade = Upgrade(proratedPrice: Amount, remainingDays: int, plan: Plan)

  /**
   * plans.calculateProratedUpgrade: resolves the caller, its first team, its first subscription
   * in that team (active or not), the new plan and the first activation window of that
   * subscription, and quotes the move from the subscription's own price to the new plan's. A
   * missing link is NOT_FOUND; a subscription without an activation says so. Nothing is written.
   */
  function CalculateProratedUpgrade(db: Store, userId: int, newPlanId: int, now: Millis): (r: Result<Upgrade>)
    reads db
    ensures r.Err? ==> r.error.code == NotFound
    ensures r.Err? ==> r == Fail(NotFound) || r == FailWith(NotFound, NotActivated)
    ensures !HasUser(db.users, userId) ==> r == Fail(NotFound)
    ensures r == FailWith(NotFound, NotActivated) <==>
              HasUser(db.users, userId) && HasPlan(db.plans, newPlanId) &&
              exists t, s :: IsFirst(db.teams, TeamOwnedBy(userId), t) &&
                IsFirst(db.subscriptions, SubscriptionOf(userId, t.id), s) &&
                forall k :: 0 <= k < |db.activations| ==> db.activations[k].subscriptionId != s.id
    ensures r.Ok? ==> IsFirst(db.plans, PlanWithId(newPlanId), r.value.plan)
    ensures r.Ok? ==>
              exists t, s, a :: IsFirst(db.teams, TeamOwnedBy(userId), t) &&
                IsFirst(db.subscriptions, SubscriptionOf(userId, t.id), s) &&
                IsFirst(db.activations, ActivationOf(s.id), a) &&
                r.value.remainingDays == RemainingDays(a.expirationDate, now) &&
                r.value.proratedPrice ==
                  Prorate(s.price, r.value.plan.price, a.activationDate, a.expirationDate, now).proratedPrice
  {
    FindFirstExactly(db.teams, TeamOwnedBy(userId));
    FindFirstExactly(db.plans, PlanWithId(newPlanId));
    match FindFirst(db.users, UserWithId(userId))
    case None => Fail(NotFound)
    case Some(user) =>
      match FindFirst(db.teams, TeamOwnedBy(user.id))
      case None => Fail(NotFound)
      case Some(team) =>
        FindFirstExactly(db.subscriptions, SubscriptionOf(userId, team.id));
        var current := FindFirst(db.subscriptions, SubscriptionOf(userId, team.id));
        var newPlan := FindFirst(db.plans, PlanWithId(newPlanId));
        if current.None? || newPlan.None? then Fail(NotFound)
        else
          FindFirstExactly(db.activations, ActivationOf(current.value.id));
          match FindFirst(db.activations, ActivationOf(current.value.id))
          case None => FailWith(NotFound, NotActivated)
          case Some(window) =>
            var q := Prorate(current.value.price, newPlan.value.price, window.activationDate, window.expirationDate, now);
            Ok(Upgrade(q.proratedPrice, q.remainingDays, newPlan.value))
  }

  /**
   * Conversely, when the caller exists, its first team has a subscription of the caller, the new
   * plan exists and that first subscription has been activated, a quote is given.
   */
  lemma QuotedWhenEverythingExists(db: Store, userId: int, newPlanId: int, now: Millis, t: Team, s: Subscription)
    requires HasUser(db.users, userId)
    requires IsFirst(db.teams, TeamOwnedBy(userId), t)
    requires IsFirst(db.subscriptions, SubscriptionOf(userId, t.id), s)
    requires HasPlan(db.plans, newPlanId)
    requires exists k :: 0 <= k < |db.activations| && db.activations[k].subscriptionId == s.id
    ensures CalculateProratedUpgrade(db, userId, newPlanId, now).Ok?
  {
    FindFirstIsFirst(db.teams, TeamOwnedBy(userId), t);
    FindFirstIsFirst(db.subscriptions, SubscriptionOf(userId, t.id), s);
  }
}
