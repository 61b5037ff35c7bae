/**
 * The subscriptions router: a subscription is created inactive with the plan's price copied onto
 * it, becomes active when an activation window is recorded for it, and is found expired, and made
 * inactive, when it is read after its window has ended.
 */
module Subscriptions {
  import opened Query
  import opened Db
  import Teams
  import Plans

  /** The window activateSubscription records: 2024-05-05T20:55:00Z to 2024-06-05T20:55:00Z. */
  const ActivationStart: Millis := 1714942500000
  const ActivationEnd: Millis := 1717620900000

  const SubscriptionEnded := "subscription has ended"
  const AlreadyExists := "SUBSCRIPTION_ALREADY_EXISTS"
  const Activated := "Subscription activated successfully"

  // The `where` filters of the router's queries.
  function ActiveSubscriptionOf(userId: int, teamId: int): Subscription -> bool {
    (s: Subscription) => s.teamId == teamId && s.userId == userId && s.isActive
  }
  function SubscriptionOfTeam(teamId: int): Subscription -> bool {
    (s: Subscription) => s.teamId == teamId
  }
  function CreatedBy(userId: int): Subscription -> bool {
    (s: Subscription) => s.userId == userId
  }
  function AdminWithId(userId: int): User -> bool {
    (u: User) => u.id == userId && u.isAdmin
  }
  function IsActive(s: Subscription): bool {
    s.isActive
  }

  /** The caller has an active subscription in a team it owns. */
  predicate HasActiveSubscription(teams: seq<Team>, subscriptions: seq<Subscription>, userId: int) {
    exists t, s :: t in teams && s in subscriptions &&
      t.userId == userId && s.teamId == t.id && s.userId == userId && s.isActive
  }

  /** Some subscription row, active or not, belongs to a team `userId` owns. */
  predicate TeamHasSubscription(teams: seq<Team>, subscriptions: seq<Subscription>, userId: int) {
    exists t, s :: t in teams && s in subscriptions && t.userId == userId && s.teamId == t.id
  }

  /**
   * The subscription getOne resolves: the first active one of the caller in the caller's first
   * team.
   */
  function CurrentSubscription(teams: seq<Team>, subscriptions: seq<Subscription>, userId: int): (r: Option<Subscription>)
    ensures r.Some? ==> r.value in subscriptions && r.value.userId == userId && r.value.isActive
    ensures forall x :: r == Some(x) <==>
              exists t :: IsFirst(teams, TeamOwnedBy(userId), t) && IsFirst(subscriptions, ActiveSubscriptionOf(userId, t.id), x)
    ensures !HasActiveSubscription(teams, subscriptions, userId) ==> r.None?
  {
    FindFirstExactly(teams, TeamOwnedBy(userId));
    match FindFirst(teams, TeamOwnedBy(userId))
    case None => None
    case Some(team) =>
      FindFirstExactly(subscriptions, ActiveSubscriptionOf(userId, team.id));
      FindFirst(subscriptions, ActiveSubscriptionOf(userId, team.id))
  }

  /** With one team per owner, the caller has a current subscription exactly when it has an active one. */
  lemma CurrentSubscriptionExists(teams: seq<Team>, subscriptions: seq<Subscription>, userId: int)
    requires UniqueKeys(teams, TeamOwner)
    ensures CurrentSubscription(teams, subscriptions, userId).Some? <==> HasActiveSubscription(teams, subscriptions, userId)
  {
    if HasActiveSubscription(teams, subscriptions, userId) {
      var t, s :| t in teams && s in subscriptions &&
        t.userId == userId && s.teamId == t.id && s.userId == userId && s.isActive;
      TeamLookup(teams, userId, t);
      assert ActiveSubscriptionOf(userId, t.id)(s);
    }
  }

  datatype Status = Current(subscription: Subscription) | Ended(message: string)

  /**
   * subscriptions.getOne: the caller's current subscription. When its first activation window
   * has ended, the subscription is made inactive and the answer is "subscription has ended".
   */
  method GetOne(db: Store, userId: int, now: Millis) returns (r: Result<Status>)
    requires db.Valid()
    modifies db
    ensures db.Valid()
    ensures db.users == old(db.users) && db.teams == old(db.teams)
    ensures db.plans == old(db.plans) && db.activations == old(db.activations)
    ensures r == Fail(BadRequest) <==>
              !HasUser(old(db.users), userId) || !HasActiveSubscription(old(db.teams), old(db.subscriptions), userId)
    ensures r.Err? ==> r == Fail(BadRequest) || r == Fail(NotFound)
    ensures var cur := CurrentSubscription(old(db.teams), old(db.subscriptions), userId);
            HasUser(old(db.users), userId) && cur.Some? ==>
              match FindFirst(old(db.activations), ActivationOf(cur.value.id))
              case None => r == Fail(NotFound)
              case Some(window) =>
                if window.expirationDate < now then r == Ok(Ended(SubscriptionEnded))
                else r == Ok(Current(cur.value))
    ensures !(r.Ok? && r.value.Ended?) ==> db.subscriptions == old(db.subscriptions)
    ensures r.Ok? && r.value.Ended? ==>
              var cur := CurrentSubscription(old(db.teams), old(db.subscriptions), userId);
              cur.Some? && |db.subscriptions| == |old(db.subscriptions)| &&
              (forall i :: 0 <= i < |db.subscriptions| ==>
                 db.subscriptions[i] ==
                   if old(db.subscriptions)[i].id == cur.value.id && old(db.subscriptions)[i].userId == userId
                   then old(db.subscriptions)[i].(isActive := false)
                   else old(db.subscriptions)[i]) &&
              (forall i :: 0 <= i < |db.subscriptions| && db.subscriptions[i].id == cur.value.id ==>
                 !db.subscriptions[i].isActive)
  {
    UserLookup(db.users, userId);
    CurrentSubscriptionExists(db.teams, db.subscriptions, userId);
    var user := FindFirst(db.users, UserWithId(userId));
    if user.None? {
      return Fail(BadRequest);
    }
    assert user.value.id == userId;
    var team := FindFirst(db.teams, TeamOwnedBy(user.value.id));
    if team.None? {
      return Fail(BadRequest);
    }
    var subscription := FindFirst(db.subscriptions, ActiveSubscriptionOf(user.value.id, team.value.id));
    assert subscription == CurrentSubscription(db.teams, db.subscriptions, userId);
    if subscription.None? {
      return Fail(BadRequest);
    }
    var current := subscription.value;
    assert current.userId == userId;
    var details := FindFirst(db.activations, ActivationOf(current.id));
    if details.None? {
      return Fail(NotFound);
    }
    if details.value.expirationDate < now {
      OwnerOfId(db.subscriptions, current);
      Deactivate(db, current.id, userId);
      return Ok(Ended(SubscriptionEnded));
    }
    r := Ok(Current(current));
  }

  /** Every row with the id of row `s` is `s` itself, so it has the same owner. */
  lemma OwnerOfId(rows: seq<Subscription>, s: Subscription)
    requires UniqueKeys(rows, SubscriptionId) && s in rows
    ensures forall i :: 0 <= i < |rows| && rows[i].id == s.id ==> rows[i].userId == s.userId
  {
    forall i | 0 <= i < |rows| && rows[i].id == s.id ensures rows[i].userId == s.userId {
      UniqueKeyLookup(rows, SubscriptionId, rows[i], s);
    }
  }

  /** The write of getOne: the rows with id `subscriptionId` and owner `userId` become inactive. */
  method Deactivate(db: Store, subscriptionId: int, userId: int)
    requires db.Valid()
    modifies db
    ensures db.Valid()
    ensures db.users == old(db.users) && db.teams == old(db.teams)
    ensures db.plans == old(db.plans) && db.activations == old(db.activations)
    ensures |db.subscriptions| == |old(db.subscriptions)|
    ensures forall i :: 0 <= i < |db.subscriptions| ==>
              db.subscriptions[i] ==
                if old(db.subscriptions)[i].id == subscriptionId && old(db.subscriptions)[i].userId == userId
                then old(db.subscriptions)[i].(isActive := false)
                else old(db.subscriptions)[i]
    ensures (forall i :: 0 <= i < |old(db.subscriptions)| && old(db.subscriptions)[i].id == subscriptionId ==>
               old(db.subscriptions)[i].userId == userId) ==>
              forall i :: 0 <= i < |db.subscriptions| && db.subscriptions[i].id == subscriptionId ==>
                !db.subscriptions[i].isActive
  {
    var rows := db.subscriptions;
    var deactivated := seq(|rows|, i requires 0 <= i < |rows| =>
      if rows[i].id == subscriptionId && rows[i].userId == userId then rows[i].(isActive := false) else rows[i]);
    assert forall i :: 0 <= i < |rows| ==> deactivated[i].id == rows[i].id;
    db.subscriptions := deactivated;
  }

  /**
   * subscriptions.create, as written. `userId` is taken from the input, not from the caller. The
   * user, a team that user owns and the plan must exist (NOT_FOUND), and no subscription may name
   * that user's team (FORBIDDEN). The new row is the input's user, team and plan, inactive, at the
   * plan's current price.
   */
  method Create(db: Store, userId: int, teamId: int, planId: int) returns (r: Result<Subscription>)
    requires db.Valid()
    modifies db
    ensures db.Valid()
    ensures db.users == old(db.users) && db.teams == old(db.teams)
    ensures db.plans == old(db.plans) && db.activations == old(db.activations)
    ensures r == Fail(NotFound) <==>
              !HasUser(old(db.users), userId) || !OwnsTeam(old(db.teams), userId) || !HasPlan(old(db.plans), planId)
    ensures r == FailWith(Forbidden, AlreadyExists) <==>
              HasUser(old(db.users), userId) && OwnsTeam(old(db.teams), userId) && HasPlan(old(db.plans), planId) &&
              TeamHasSubscription(old(db.teams), old(db.subscriptions), userId)
    ensures r.Err? ==> r == Fail(NotFound) || r == FailWith(Forbidden, AlreadyExists)
    ensures r.Err? ==> db.subscriptions == old(db.subscriptions)
    ensures r.Ok? ==> db.subscriptions == old(db.subscriptions) + [r.value]
    ensures r.Ok? ==> r.value.userId == userId && r.value.teamId == teamId && r.value.planId == planId && !r.value.isActive
    ensures r.Ok? ==> forall p :: p in old(db.plans) && p.id == planId ==> r.value.price == p.price
    ensures r.Ok? ==> forall i :: 0 <= i < |old(db.subscriptions)| ==> old(db.subscriptions)[i].id < r.value.id
  {
    UserLookup(db.users, userId);
    var user := FindFirst(db.users, UserWithId(userId));
    var team := FindFirst(db.teams, TeamOwnedBy(userId));
    var plan := FindFirst(db.plans, PlanWithId(planId));
    if user.None? || team.None? || plan.None? {
      return Fail(NotFound);
    }
    TeamHasSubscriptionLookup(db.teams, db.subscriptions, userId, team.value);
    var existing := FindFirst(db.subscriptions, SubscriptionOfTeam(team.value.id));
    if existing.Some? {
      return FailWith(Forbidden, AlreadyExists);
    }
    PriceOfPlan(db.plans, plan.value);
    var row := Insert(db, userId, teamId, plan.value);
    r := Ok(row);
  }

  /**
   * The insert of create: one inactive row for `userId` and `teamId` on `plan`, at the plan's
   * price, with a fresh id. When no row named `teamId` before, teams still have one row each.
   */
  method Insert(db: Store, userId: int, teamId: int, plan: Plan) returns (row: Subscription)
    requires db.Valid()
    modifies db
    ensures db.Valid()
    ensures db.users == old(db.users) && db.teams == old(db.teams)
    ensures db.plans == old(db.plans) && db.activations == old(db.activations)
    ensures db.subscriptions == old(db.subscriptions) + [row]
    ensures row == Subscription(row.id, userId, teamId, false, plan.price, plan.id)
    ensures forall i :: 0 <= i < |old(db.subscriptions)| ==> old(db.subscriptions)[i].id < row.id
    ensures UniqueKeys(old(db.subscriptions), SubscriptionTeam) &&
            (forall i :: 0 <= i < |old(db.subscriptions)| ==> old(db.subscriptions)[i].teamId != teamId) ==>
              UniqueKeys(db.subscriptions, SubscriptionTeam)
  {
    row := Subscription(NextId(db.subscriptions, SubscriptionId), userId, teamId, false, plan.price, plan.id);
    AppendFreshKey(db.subscriptions, row, SubscriptionId);
    if UniqueKeys(db.subscriptions, SubscriptionTeam) &&
       forall i :: 0 <= i < |db.subscriptions| ==> db.subscriptions[i].teamId != teamId {
      AppendFreshKey(db.subscriptions, row, SubscriptionTeam);
    }
    db.subscriptions := db.subscriptions + [row];
  }

  /** The duplicate check of create looks at the team the user owns, which is the only one. */
  lemma TeamHasSubscriptionLookup(teams: seq<Team>, subscriptions: seq<Subscription>, userId: int, team: Team)
    requires UniqueKeys(teams, TeamOwner)
    requires team in teams && team.userId == userId
    ensures TeamHasSubscription(teams, subscriptions, userId) <==>
              exists i :: 0 <= i < |subscriptions| && subscriptions[i].teamId == team.id
  {
    if TeamHasSubscription(teams, subscriptions, userId) {
      var t, s :| t in teams && s in subscriptions && t.userId == userId && s.teamId == t.id;
      UniqueKeyLookup(teams, TeamOwner, t, team);
    }
  }

  /**
   * What create lets through as written: the duplicate check looks at the team owned by the input
   * `userId`, but the row names the team given as the input `teamId`. When that user's team is not
   * `teamId`, a subscription for `teamId` can be created again and again; here, twice in a row.
   */
  method SecondSubscriptionForOneTeam() returns (db: Store, first: Subscription, second: Subscription)
    ensures db.Valid()
    ensures first in db.subscriptions && second in db.subscriptions
    ensures first.teamId == second.teamId && first.id != second.id
    ensures !UniqueKeys(db.subscriptions, SubscriptionTeam)
  {
    db := new Store([User(1, true)]);
    assert IsAdmin(db.users, 1) && HasUser(db.users, 1) by { assert db.users[0] == User(1, true); }
    var team := Teams.Create(db, 1, "Acme", 0);
    assert team.Ok?;
    var plan := Plans.Create(db, 1, "Gold", 40000);
    assert plan.Created?;
    var planId := db.plans[0].id;
    assert HasPlan(db.plans, planId);
    assert OwnsTeam(db.teams, 1) by { assert db.teams[0] == team.value; }
    var otherTeam := team.value.id + 1;
    var r1 := Create(db, 1, otherTeam, planId);
    assert r1.Ok?;
    assert !TeamHasSubscription(db.teams, db.subscriptions, 1) by {
      assert db.teams == [team.value];
      assert db.subscriptions == [r1.value];
    }
    var r2 := Create(db, 1, otherTeam, planId);
    assert r2.Ok?;
    first, second := r1.value, r2.value;
    assert db.subscriptions == [first, second];
    assert SubscriptionTeam(db.subscriptions[0]) == SubscriptionTeam(db.subscriptions[1]);
  }

  /**
   * create as evidently intended: the team must be `teamId` and belong to the input user
   * (NOT_FOUND otherwise), and the duplicate check is on that same team. At most one subscription per team is
   * then kept.
   */
  method CreateForOwnedTeam(db: Store, userId: int, teamId: int, planId: int) returns (r: Result<Subscription>)
    requires db.Valid()
    modifies db
    ensures db.Valid()
    ensures db.users == old(db.users) && db.teams == old(db.teams)
    ensures db.plans == old(db.plans) && db.activations == old(db.activations)
    ensures r == Fail(NotFound) <==>
              !HasUser(old(db.users), userId) || !HasPlan(old(db.plans), planId) ||
              forall i :: 0 <= i < |old(db.teams)| ==> !Teams.OwnedTeam(teamId, userId)(old(db.teams)[i])
    ensures r == FailWith(Forbidden, AlreadyExists) <==>
              HasUser(old(db.users), userId) && HasPlan(old(db.plans), planId) &&
              (exists i :: 0 <= i < |old(db.teams)| && Teams.OwnedTeam(teamId, userId)(old(db.teams)[i])) &&
              exists i :: 0 <= i < |old(db.subscriptions)| && old(db.subscriptions)[i].teamId == teamId
    ensures r.Err? ==> r == Fail(NotFound) || r == FailWith(Forbidden, AlreadyExists)
    ensures r.Err? ==> db.subscriptions == old(db.subscriptions)
    ensures r.Ok? ==> db.subscriptions == old(db.subscriptions) + [r.value]
    ensures r.Ok? ==> r.value.userId == userId && r.value.teamId == teamId && r.value.planId == planId && !r.value.isActive
    ensures r.Ok? ==> forall p :: p in old(db.plans) && p.id == planId ==> r.value.price == p.price
    ensures r.Ok? ==> forall i :: 0 <= i < |old(db.subscriptions)| ==> old(db.subscriptions)[i].id < r.value.id
    ensures UniqueKeys(old(db.subscriptions), SubscriptionTeam) ==> UniqueKeys(db.subscriptions, SubscriptionTeam)
  {
    UserLookup(db.users, userId);
    var user := FindFirst(db.users, UserWithId(userId));
    var team := FindFirst(db.teams, Teams.OwnedTeam(teamId, userId));
    var plan := FindFirst(db.plans, PlanWithId(planId));
    if user.None? || team.None? || plan.None? {
      return Fail(NotFound);
    }
    var existing := FindFirst(db.subscriptions, SubscriptionOfTeam(teamId));
    if existing.Some? {
      return FailWith(Forbidden, AlreadyExists);
    }
    PriceOfPlan(db.plans, plan.value);
    var row := Insert(db, userId, teamId, plan.value);
    r := Ok(row);
  }

  /** With unique plan ids, the plan found by id carries the price of every plan with that id. */
  lemma PriceOfPlan(plans: seq<Plan>, plan: Plan)
    requires UniqueKeys(plans, PlanId) && plan in plans
    ensures forall p :: p in plans && p.id == plan.id ==> p.price == plan.price
  {
    forall p | p in plans && p.id == plan.id ensures p.price == plan.price {
      UniqueKeyLookup(plans, PlanId, p, plan);
    }
  }

  /**
   * subscriptions.activateSubscription: records the fixed activation window for
   * `subscriptionId` and marks that subscription active. It does not check that the subscription
   * exists, and every call records one more window.
   */
  method ActivateSubscription(db: Store, subscriptionId: int) returns (message: string)
    requires db.Valid()
    modifies db
    ensures db.Valid()
    ensures db.users == old(db.users) && db.teams == old(db.teams) && db.plans == old(db.plans)
    ensures message == Activated
    ensures |db.activations| == |old(db.activations)| + 1
    ensures db.activations[..|old(db.activations)|] == old(db.activations)
    ensures var a := db.activations[|old(db.activations)|];
              a.subscriptionId == subscriptionId && a.activationDate == ActivationStart &&
              a.expirationDate == ActivationEnd &&
              forall i :: 0 <= i < |old(db.activations)| ==> old(db.activations)[i].id < a.id
    ensures |db.subscriptions| == |old(db.subscriptions)|
    ensures forall i :: 0 <= i < |db.subscriptions| ==>
              db.subscriptions[i] == if old(db.subscriptions)[i].id == subscriptionId
                                     then old(db.subscriptions)[i].(isActive := true)
                                     else old(db.subscriptions)[i]
  {
    var window := Activation(NextId(db.activations, ActivationId), subscriptionId, ActivationStart, ActivationEnd);
    AppendFreshKey(db.activations, window, ActivationId);
    db.activations := db.activations + [window];
    var rows := db.subscriptions;
    var activated := seq(|rows|, i requires 0 <= i < |rows| =>
      if rows[i].id == subscriptionId then rows[i].(isActive := true) else rows[i]);
    assert forall i :: 0 <= i < |rows| ==> activated[i].id == rows[i].id;
    db.subscriptions := activated;
    message := Activated;
  }

  /** Activation is not idempotent: activating the same subscription twice records two windows. */
  method ActivateTwice(db: Store, subscriptionId: int)
    requires db.Valid()
    modifies db
    ensures db.Valid()
    ensures |db.activations| == |old(db.activations)| + 2
    ensures db.activations[|old(db.activations)|].subscriptionId == subscriptionId
    ensures db.activations[|old(db.activations)| + 1].subscriptionId == subscriptionId
    ensures db.activations[|old(db.activations)|].id != db.activations[|old(db.activations)| + 1].id
  {
    var _ := ActivateSubscription(db, subscriptionId);
    var _ := ActivateSubscription(db, subscriptionId);
  }

  /**
   * subscriptions.getActiveSubscriptions: for an administrator, every active subscription in
   * table order; anyone else gets BAD_REQUEST.
   */
  function GetActiveSubscriptions(db: Store, userId: int): (r: Result<seq<Subscription>>)
    reads db
    ensures r.Err? <==> !IsAdmin(db.users, userId)
    ensures r.Err? ==> r.error == Error(BadRequest, None)
    ensures r.Ok? ==> forall i :: 0 <= i < |r.value| ==> r.value[i] in db.subscriptions && r.value[i].isActive
    ensures r.Ok? ==> forall i :: 0 <= i < |db.subscriptions| && db.subscriptions[i].isActive ==>
                        db.subscriptions[i] in r.value
  {
    match FindFirst(db.users, AdminWithId(userId))
    case None => Fail(BadRequest)
    case Some(admin) => if !admin.isAdmin then Fail(BadRequest) else Ok(Filter(db.subscriptions, IsActive))
  }

  /** subscriptions.getSubscriptionHistory: every subscription of the caller, in table order. */
  function GetSubscriptionHistory(db: Store, userId: int): (r: seq<Subscription>)
    reads db
    ensures forall i :: 0 <= i < |r| ==> r[i] in db.subscriptions && r[i].userId == userId
    ensures forall i :: 0 <= i < |db.subscriptions| && db.subscriptions[i].userId == userId ==>
              db.subscriptions[i] in r
  {
    Filter(db.subscriptions, CreatedBy(userId))
  }

  /**
   * A created row is the last entry of its user's history, after the earlier ones in their order,
   * and every other user's history is unchanged.
   */
  lemma HistoryAfterCreate(subscriptions: seq<Subscription>, row: Subscription, userId: int)
    ensures Filter(subscriptions + [row], CreatedBy(userId)) ==
              if row.userId == userId then Filter(subscriptions, CreatedBy(userId)) + [row]
              else Filter(subscriptions, CreatedBy(userId))
  {
    FilterSnoc(subscriptions, row, CreatedBy(userId));
  }
}
