/**
 * The billing tables and the in-memory database the routers read and write.
 *
 * Record shapes follow the SQLite schema: users (only the columns the routers read), teams,
 * plans, subscriptions and subscriptionActivations. Prices, stored by the application as decimal
 * text, are integer cents here. Instants are integer milliseconds since the Unix epoch; a
 * `timestamp` column keeps whole seconds of them (StoredInstant).
 */
module Db {
  import opened Query

  /** The tRPC error codes the routers raise. */
  datatype Code = BadRequest | NotFound | Forbidden | Unauthorized

  /** A raised `trpcError`: its code and, when the code site gave one, its message. */
  datatype Error = Error(code: Code, message: Option<string>)

  /** A procedure either returns a value or raises a `trpcError`. */
  datatype Result<+T> = Ok(value: T) | Err(error: Error)

  function Fail<T>(code: Code): Result<T> {
    Err(Error(code, None))
  }

  function FailWith<T>(code: Code, message: string): Result<T> {
    Err(Error(code, Some(message)))
  }

  /** A monetary amount in cents. */
  type Cents = int

  /** An instant, in milliseconds since the Unix epoch. */
  type Millis = int

  /**
   * What a `timestamp` column keeps of an instant and gives back: the instant rounded down to the
   * whole second.
   */
  function StoredInstant(t: Millis): (s: Millis)
    ensures s % 1000 == 0
    ensures s <= t < s + 1000
  {
    t / 1000 * 1000
  }

  /** Storing a stored instant again changes nothing. */
  lemma StoredInstantIdempotent(t: Millis)
    ensures StoredInstant(StoredInstant(t)) == StoredInstant(t)
  {
  }

  datatype User = User(id: int, isAdmin: bool)

  datatype Team = Team(id: int, name: string, isPersonal: bool, createdAt: Millis, updatedAt: Millis, userId: int)

  datatype Plan = Plan(id: int, name: string, price: Cents)

  /** `price` is the plan's price copied when the subscription was created. */
  datatype Subscription = Subscription(id: int, userId: int, teamId: int, isActive: bool, price: Cents, planId: int)

  datatype Activation = Activation(id: int, subscriptionId: int, activationDate: Millis, expirationDate: Millis)

  // Column accessors, used as keys and in filters.
  function UserId(u: User): int { u.id }
  function TeamId(t: Team): int { t.id }
  function TeamOwner(t: Team): int { t.userId }
  function PlanId(p: Plan): int { p.id }
  function SubscriptionId(s: Subscription): int { s.id }
  function ActivationId(a: Activation): int { a.id }
  function SubscriptionTeam(s: Subscription): int { s.teamId }

  // The `where` filters of the routers' queries.
  function UserWithId(id: int): User -> bool { (u: User) => u.id == id }
  function TeamOwnedBy(userId: int): Team -> bool { (t: Team) => t.userId == userId }
  function PlanWithId(id: int): Plan -> bool { (p: Plan) => p.id == id }
  function ActivationOf(subscriptionId: int): Activation -> bool { (a: Activation) => a.subscriptionId == subscriptionId }
  function SubscriptionOf(userId: int, teamId: int): Subscription -> bool {
    (s: Subscription) => s.userId == userId && s.teamId == teamId
  }

  /** The user with id `userId` exists. */
  predicate HasUser(users: seq<User>, userId: int) {
    exists i :: 0 <= i < |users| && users[i].id == userId
  }

  /** The user with id `userId` exists and is an administrator. */
  predicate IsAdmin(users: seq<User>, userId: int) {
    exists i :: 0 <= i < |users| && users[i].id == userId && users[i].isAdmin
  }

  /** A plan with id `planId` exists. */
  predicate HasPlan(plans: seq<Plan>, planId: int) {
    exists i :: 0 <= i < |plans| && plans[i].id == planId
  }

  /** `userId` owns a team. */
  predicate OwnsTeam(teams: seq<Team>, userId: int) {
    exists i :: 0 <= i < |teams| && teams[i].userId == userId
  }

  /** The user record the routers resolve for `userId`; by the primary key, the one with that id. */
  lemma UserLookup(users: seq<User>, userId: int)
    requires UniqueKeys(users, UserId)
    ensures FindFirst(users, UserWithId(userId)).None? <==> !HasUser(users, userId)
    ensures FindFirst(users, UserWithId(userId)).Some? ==>
              (FindFirst(users, UserWithId(userId)).value.isAdmin <==> IsAdmin(users, userId))
  {
    var r := FindFirst(users, UserWithId(userId));
    if r.Some? && IsAdmin(users, userId) {
      var i :| 0 <= i < |users| && users[i].id == userId && users[i].isAdmin;
      UniqueKeyLookup(users, UserId, r.value, users[i]);
    }
  }

  /** The team the routers resolve for `userId`; with one team per owner, the one team it owns. */
  lemma TeamLookup(teams: seq<Team>, userId: int, t: Team)
    requires UniqueKeys(teams, TeamOwner)
    requires t in teams && t.userId == userId
    ensures FindFirst(teams, TeamOwnedBy(userId)) == Some(t)
  {
    var r := FindFirst(teams, TeamOwnedBy(userId));
    UniqueKeyLookup(teams, TeamOwner, r.value, t);
  }

  /**
   * The database. Each table is a sequence of rows in insertion order. Users are registered by
   * the authentication module, outside this model, so they are given when the store is built.
   */
  class Store {
    var users: seq<User>
    var teams: seq<Team>
    var plans: seq<Plan>
    var subscriptions: seq<Subscription>
    var activations: seq<Activation>

    /**
     * What every reachable state satisfies: primary keys are unique, a user owns at most one
     * team, and every activation window ends after it starts. One team per owner rests on the
     * check in teams.create and on teams.create being the only writer of the teams table here;
     * the team the authentication module creates at email verification is not part of this model.
     */
    ghost predicate Valid()
      reads this
    {
      && UniqueKeys(users, UserId)
      && UniqueKeys(teams, TeamId)
      && UniqueKeys(teams, TeamOwner)
      && UniqueKeys(plans, PlanId)
      && UniqueKeys(subscriptions, SubscriptionId)
      && UniqueKeys(activations, ActivationId)
      && forall i :: 0 <= i < |activations| ==> activations[i].activationDate < activations[i].expirationDate
    }

    constructor (users: seq<User>)
      requires UniqueKeys(users, UserId)
      ensures Valid()
      ensures this.users == users
      ensures teams == [] && plans == [] && subscriptions == [] && activations == []
    {
      this.users := users;
      teams := [];
      plans := [];
      subscriptions := [];
      activations := [];
    }
  }
}
