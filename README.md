# Billing routers: teams, plans and subscriptions

This project models the billing core of a tRPC back end written in TypeScript. That core is
three routers over a SQLite database:

- `teams`: a user owns at most one team, and only its owner may rename or delete it.
- `plans`: a catalogue that only administrators may change, plus a prorated quote for moving
  a subscription to another plan.
- `subscriptions`: a subscription is created inactive and priced at its plan's current price.
  It becomes active when an activation window is recorded for it. It is found expired, and
  made inactive, when it is read after that window has ended.

The database is the class `Db.Store`. It holds one sequence of rows per table (`users`,
`teams`, `plans`, `subscriptions`, `activations`), in insertion order.

- A query's `findFirst` is `Query.FindFirst`: the first matching row.
- Its `findMany` is `Query.Filter`: the matching rows, in table order.
- A new row takes the next SQLite rowid (`Query.NextId`): one more than the largest id, or 1
  in an empty table.
- `Store.Valid()` is the invariant every procedure keeps: primary keys are unique, each user
  owns at most one team, and every activation window ends after it starts.

Every procedure that reads the caller takes its `userId` as a plain input. `plans.getOne` and
`plans.getAll` are public and `subscriptions.activateSubscription` never reads the caller, so
these three take none. `subscriptions.create` reads `userId` from its input and never compares
it with the caller, so any signed-in caller can create a subscription in another user's name.
Procedures that read the clock take `now` in milliseconds. A `timestamp` column keeps whole
seconds, so an instant is stored rounded down to the second (`Db.StoredInstant`). A procedure either returns a value or raises an error. The error
holds a tRPC code and the message given where it was raised, or no message when a catch block
replaced the original error.

- Procedures that write are methods that modify the store.
- Read-only procedures are functions that read it.
- Prices are exact integer cents.
- The proration arithmetic (`Proration`) is pure. It has exact ceiling division, and exact
  rounding to cents with halves away from zero, which is what `toFixed(2)` does on an exact
  amount.

Where the code and its written description or tests disagree, the model follows the code:

- A duplicate subscription is refused with FORBIDDEN "SUBSCRIPTION_ALREADY_EXISTS". The
  subscription test expects BAD_REQUEST.
- `subscriptions.getOne` and `calculateProratedUpgrade` use the subscription's first
  activation record, not its most recent one.
- A zero-length activation window is not guarded. The quote then holds JavaScript's
  Infinity or NaN, which is `Proration.NotFinite` here.
- `subscriptions.cancel` is an empty stub.

## Model

| member | source | states |
|---|---|---|
| Query.FindFirst | src/modules/plans/router.ts:20-22 | `findFirst` finds nothing exactly when no row matches; otherwise it gives a matching row with no earlier match |
| Query.Filter | src/modules/subscriptions/router.ts:206-208 | `findMany` gives only rows of the table that match, and every matching row |
| Query.FindFirstIsFirst | src/modules/plans/router.ts:20-22 | `findFirst` returns a row exactly when that row is the first match by index |
| Query.FilterSnoc | src/modules/subscriptions/router.ts:206-208 | appending a row adds it to the end of a `findMany` result when it matches and leaves the result alone otherwise |
| Query.NextId | src/db/schema/index.ts:107 | a new rowid is larger than every id in the table, is 1 in an empty table and otherwise follows the largest id |
| Query.AppendFreshKey | src/db/schema/index.ts:107 | appending a row whose key is new keeps the keys unique |
| Query.FilterKeepsUnique | src/modules/teams/router.ts:134-138 | deleting rows keeps the keys unique |
| Query.UniqueKeyLookup | src/db/schema/index.ts:83 | two rows with the same primary key are the same row |
| Db.StoredInstant | src/db/schema/index.ts:12 | a `timestamp` column keeps an instant as whole seconds: a multiple of 1000 ms, at most the instant and less than a second before it |
| Db.StoredInstantIdempotent | src/db/schema/index.ts:12 | storing an already stored instant changes nothing |
| Db.UserLookup | src/modules/plans/router.ts:45-49 | the user lookup finds nothing exactly when the user does not exist, and the found user is an administrator exactly when the caller is |
| Db.TeamLookup | src/modules/teams/router.ts:9-11 | with one team per owner, the lookup by owner finds the caller's only team |
| Db.Store.constructor | src/db/schema/index.ts:14-33 | a store holding only the given users, with empty billing tables, satisfies the invariant |
| Teams.GetOne | src/modules/teams/router.ts:7-22 | NOT_FOUND exactly when the caller owns no team; otherwise the first team the caller owns |
| Teams.Create | src/modules/teams/router.ts:24-75 | BAD_REQUEST "TEAM_ALREADY_EXISTS" with nothing inserted exactly when the user is missing or already owns a team; otherwise one new team with a fresh id, the given name, `isPersonal` false, created and updated at `now` rounded down to the second, owned by the caller; at most one team per owner is kept |
| Teams.Update | src/modules/teams/router.ts:77-112 | UNAUTHORIZED with no message and nothing changed exactly when no team has that id and owner; otherwise only the name of that row changes |
| Teams.Cancel | src/modules/teams/router.ts:114-146 | BAD_REQUEST with nothing changed exactly when no team has that id and owner; otherwise exactly one row, that one, is deleted, and subscriptions are untouched |
| Teams.DeleteRemovesOneTeam | src/modules/teams/router.ts:134-138 | with unique team ids, the delete removes exactly one row |
| Plans.GetOne | src/modules/plans/router.ts:12-30 | NOT_FOUND exactly when no plan has the id; otherwise the plan with that id |
| Plans.GetAll | src/modules/plans/router.ts:31-39 | the whole catalogue, or an empty list when the read fails; never an error |
| Plans.Create | src/modules/plans/router.ts:40-73 | an administrator adds exactly one plan with the given name and price and a fresh id; anyone else is told "Admins access only" and the catalogue is unchanged |
| Plans.Update | src/modules/plans/router.ts:74-108 | FORBIDDEN with nothing changed exactly when the caller is not an administrator; otherwise the name and price change on the rows with that id only, and the answer is that id, even when no row has it |
| Plans.CalculateProratedUpgrade | src/modules/plans/router.ts:109-200 | every failure is NOT_FOUND, with no message except "Subscription has not been activated", and a missing user is one with no message; NOT_FOUND "Subscription has not been activated" exactly when the user and the plan exist and the first subscription of the user in the user's first team has no activation; a quote names the first plan with the new id and is the proration, from that first subscription's own stored price, over the window of its first activation |
| Plans.QuotedWhenEverythingExists | src/modules/plans/router.ts:119-160 | when the user, the new plan and a subscription of the user in the user's first team exist, and the first such subscription has an activation, a quote is given |
| Proration.Prorate | src/modules/plans/router.ts:162-195 | the quote's remaining days are the days left until the window ends, rounded up; the prorated price is not a finite amount (JavaScript's Infinity or NaN) exactly when the window rounds to zero days |
| Proration.CeilDiv | src/modules/plans/router.ts:173-180 | `Math.ceil(a / b)` is the least q with a <= q * b, for either sign of a |
| Proration.CeilDivMonotone | src/modules/plans/router.ts:173-180 | rounding up keeps order |
| Proration.RoundHalfAway | src/modules/plans/router.ts:195 | `toFixed(2)` on an exact amount gives the nearest whole cents, halves away from zero, with the sign of the amount |
| Proration.RoundHalfAwayNegate | src/modules/plans/router.ts:195 | rounding a negated amount gives the negated rounding |
| Proration.RoundWithin | src/modules/plans/router.ts:195 | rounding an amount between 0 and k whole cents stays between 0 and k |
| Proration.ScaledWithin | src/modules/plans/router.ts:182-189 | a difference scaled by a ratio between 0 and 1 lies between 0 and the difference, exactly and once rounded |
| Proration.DaysWithinWindow | src/modules/plans/router.ts:167-180 | inside the window, the days left lie between 0 and the days of the window |
| Proration.ProratedWithinDifference | src/modules/plans/router.ts:162-195 | inside the window, the quote is finite and lies between 0 and the price difference, before and after rounding, for either sign of the difference |
| Proration.SamePriceCostsNothing | src/modules/plans/router.ts:185-195 | moving to a plan of the same price is quoted at 0 |
| Proration.UpgradeCostsSomething | src/modules/plans/router.ts:185-189 | moving to a dearer plan before the window ends costs a positive amount before rounding |
| Proration.WorkedExample | src/modules/plans/router.ts:162-195 | the fixed activation window is 31 days; moving from 400.00 to 900.00 with 16 days left is quoted at 258.06 |
| Subscriptions.CurrentSubscription | src/modules/subscriptions/router.ts:29-44 | the subscription getOne resolves is exactly the first active subscription of the caller in the caller's first team, and there is none when the caller has no active subscription in a team it owns |
| Subscriptions.CurrentSubscriptionExists | src/modules/subscriptions/router.ts:29-44 | with one team per owner, getOne resolves a subscription exactly when the caller has an active one in its team |
| Subscriptions.GetOne | src/modules/subscriptions/router.ts:20-77 | BAD_REQUEST exactly when the user is missing or has no active subscription in its team; NOT_FOUND when that subscription has no activation; once its first window has ended, "subscription has ended" and that subscription becomes inactive; otherwise the subscription, with nothing changed |
| Subscriptions.Deactivate | src/modules/subscriptions/router.ts:57-67 | the write of getOne makes inactive the rows with that id and owner and changes nothing else; with unique ids, no row with that id stays active |
| Subscriptions.Insert | src/modules/subscriptions/router.ts:108-117 | the insert of create appends one inactive row with the given user, team, plan and plan price and a fresh id, and keeps one subscription per team when the team had none |
| Subscriptions.Create | src/modules/subscriptions/router.ts:79-123 | with `userId` taken from the input: NOT_FOUND exactly when that user, a team owned by that user or the plan is missing; FORBIDDEN "SUBSCRIPTION_ALREADY_EXISTS" exactly when any subscription names that user's team; every failure leaves the table unchanged; otherwise one inactive row is appended with the input user, team and plan, the plan's current price and a fresh id |
| Subscriptions.TeamHasSubscriptionLookup | src/modules/subscriptions/router.ts:97-99 | the duplicate check of create on the looked-up team of the input user is a check on every team that user owns |
| Subscriptions.SecondSubscriptionForOneTeam | src/modules/subscriptions/router.ts:97-112 | two creates in a row for a team other than the input user's both succeed, and leave two subscriptions for one team |
| Subscriptions.CreateForOwnedTeam | src/modules/subscriptions/router.ts:79-123 | as create, but the team must be the input team and owned by the input user, and the duplicate check is on that team; one subscription per team is kept |
| Subscriptions.ActivateSubscription | src/modules/subscriptions/router.ts:124-156 | appends one activation with a fresh id and the window 2024-05-05T20:55Z to 2024-06-05T20:55Z, and makes active the rows with that id and no others, whether or not such a row exists; the answer is "Subscription activated successfully" |
| Subscriptions.ActivateTwice | src/modules/subscriptions/router.ts:135-139 | activating twice records two distinct windows |
| Subscriptions.GetActiveSubscriptions | src/modules/subscriptions/router.ts:162-197 | BAD_REQUEST with no message exactly when the caller is not an administrator; otherwise exactly the active subscriptions |
| Subscriptions.GetSubscriptionHistory | src/modules/subscriptions/router.ts:199-221 | exactly the caller's subscriptions |
| Subscriptions.HistoryAfterCreate | src/modules/subscriptions/router.ts:206-208 | a new row ends its user's history, after the earlier rows in their order, and leaves other users' histories unchanged |

## Left out

- Authentication, session cookies and how the caller is built are not modelled. The caller's `userId` is an input, and users are given when the store is built, because registration lives in the authentication module.
- The team the authentication module creates when an email is verified (`auth.emailVerifySubmit` returns its `teamId`) is not modelled, and the store starts with no teams. One team per owner in `Store.Valid()` assumes `teams.create` is the only writer of the teams table.
- The tRPC router wiring, zod input validation and logging are not modelled. Inputs are assumed to have the declared types.
- The three lookups that `subscriptions.create` runs with `Promise.all` are modelled as sequential lookups. They only read, so the order does not matter.
- The update in `subscriptions.getOne` is not awaited in the source. It is modelled as a synchronous write, so the race with later requests is not captured.
- `subscriptionTime` computes a local-time calendar date and is never called, so it is not modelled.
- Prices are stored as decimal text and read with `parseFloat`. The model uses exact integer cents, so floating-point rounding of the price difference and ratio is not captured.
- `subscriptions.cancel` is an empty stub and is not modelled.
- The schema's relations, the `orders` table and the email-verification, email-change and password-reset tables are not modelled. No router here reads them.
- User columns other than `id` and `isAdmin` are not modelled, because the routers read no others.
- `isActive` is nullable in the schema, but every writer sets it, so it is a `bool` here.
- Teams.Create: a failing insert also ends in the catch block as BAD_REQUEST "TEAM_ALREADY_EXISTS". Storage failures are not modelled, so that path is missing.
- Teams.Update, Teams.Cancel: a failing write is not modelled. The source maps it to the same code.
- Plans.Create, Plans.Update: the `{success: false}` answer to a failing insert or update is not modelled.
- Subscriptions.ActivateSubscription: the `Error("Failed to activate subscription")` raised when a write fails is not modelled.
- Subscriptions.GetActiveSubscriptions, Subscriptions.GetSubscriptionHistory: the BAD_REQUEST raised when the read fails is not modelled. Plans.GetAll is the one read whose failure is modelled, through its `readFails` parameter, because there the failure changes the answer into an empty list.
- Teams.Create: `createdAt` and `updatedAt` are the input `now`, rounded down to the second as the column stores it. The clock is not modelled.

## Findings

| source | as written | input that shows it | evidently intended | confidence | as-written member | corrected member |
|---|---|---|---|---|---|---|
| src/modules/subscriptions/router.ts:97-112 | the duplicate check looks for a subscription of the team owned by the input `userId`, but the new row is stored with the `teamId` from the input | user 1, an administrator, owns team t and creates plan p; `create({userId: 1, teamId: t + 1, planId: p})` is called twice, and both calls insert a row for team t + 1 | the team must be the input team and owned by the input user, and the duplicate check is on that team, so a team has at most one subscription | not executed | Subscriptions.SecondSubscriptionForOneTeam | Subscriptions.CreateForOwnedTeam |
