/**
 * The teams router: a user owns at most one team, and only its owner may rename or delete it.
 */
module Teams {
  import opened Query
  import opened Db

  const TeamAlreadyExists := "TEAM_ALREADY_EXISTS"

  /** The `where` of update and cancel: team `teamId`, owned by `userId`. */
  function OwnedTeam(teamId: int, userId: int): Team -> bool {
    (t: Team) => t.id == teamId && t.userId == userId
  }

  /** The rows cancel keeps. */
  function OtherThanOwnedTeam(teamId: int, userId: int): Team -> bool {
    (t: Team) => !(t.id == teamId && t.userId == userId)
  }

  /** teams.getOne: the caller's team (the first one it owns), else NOT_FOUND. */
  function GetOne(db: Store, userId: int): (r: Result<Team>)
    reads db
    ensures r.Err? <==> !OwnsTeam(db.teams, userId)
    ensures r.Err? ==> r.error == Error(NotFound, None)
    ensures r.Ok? ==> r.value.userId == userId
    ensures r.Ok? ==> exists i :: 0 <= i < |db.teams| && db.teams[i] == r.value &&
                                  forall j :: 0 <= j < i ==> db.teams[j].userId != userId
  {
    match FindFirst(db.teams, TeamOwnedBy(userId))
    case None => Fail(NotFound)
    case Some(t) => Ok(t)
  }

  /**
   * teams.create. Every failure, a missing user included, leaves the catch block as
   * BAD_REQUEST "TEAM_ALREADY_EXISTS".
   */
  method Create(db: Store, userId: int, name: string, now: Millis) returns (r: Result<Team>)
    requires db.Valid()
    modifies db
    ensures db.Valid()
    ensures db.users == old(db.users) && db.plans == old(db.plans)
    ensures db.subscriptions == old(db.subscriptions) && db.activations == old(db.activations)
    ensures r.Err? <==> !HasUser(old(db.users), userId) || OwnsTeam(old(db.teams), userId)
    ensures r.Err? ==> r.error == Error(BadRequest, Some(TeamAlreadyExists)) && db.teams == old(db.teams)
    ensures r.Ok? ==> db.teams == old(db.teams) + [r.value]
    ensures r.Ok? ==> r.value == Team(r.value.id, name, false, StoredInstant(now), StoredInstant(now), userId)
    ensures r.Ok? ==> forall i :: 0 <= i < |old(db.teams)| ==> old(db.teams)[i].id < r.value.id
  {
    UserLookup(db.users, userId);
    var user := FindFirst(db.users, UserWithId(userId));
    if user.None? {
      // USER_NOT_FOUND, rewritten by the catch block
      return FailWith(BadRequest, TeamAlreadyExists);
    }
    var existing := FindFirst(db.teams, TeamOwnedBy(user.value.id));
    if existing.Some? {
      return FailWith(BadRequest, TeamAlreadyExists);
    }
    var team := Team(NextId(db.teams, TeamId), name, false, StoredInstant(now), StoredInstant(now), userId);
    AppendFreshKey(db.teams, team, TeamId);
    AppendFreshKey(db.teams, team, TeamOwner);
    db.teams := db.teams + [team];
    r := Ok(team);
  }

  /** teams.update: renames the caller's team `teamId`; any other caller gets UNAUTHORIZED. */
  method Update(db: Store, userId: int, teamId: int, name: string) returns (r: Result<()>)
    requires db.Valid()
    modifies db
    ensures db.Valid()
    ensures db.users == old(db.users) && db.plans == old(db.plans)
    ensures db.subscriptions == old(db.subscriptions) && db.activations == old(db.activations)
    ensures r.Err? <==> forall i :: 0 <= i < |old(db.teams)| ==> !OwnedTeam(teamId, userId)(old(db.teams)[i])
    ensures r.Err? ==> r.error == Error(Unauthorized, None) && db.teams == old(db.teams)
    ensures |db.teams| == |old(db.teams)|
    ensures forall i :: 0 <= i < |db.teams| ==>
              db.teams[i] == if OwnedTeam(teamId, userId)(old(db.teams)[i]) then old(db.teams)[i].(name := name)
                             else old(db.teams)[i]
  {
    var team := FindFirst(db.teams, OwnedTeam(teamId, userId));
    if team.None? {
      // the message is dropped by the catch block
      return Fail(Unauthorized);
    }
    var rows := db.teams;
    var renamed := seq(|rows|, i requires 0 <= i < |rows| =>
      if rows[i].id == teamId && rows[i].userId == userId then rows[i].(name := name) else rows[i]);
    assert forall i :: 0 <= i < |rows| ==> renamed[i].id == rows[i].id && renamed[i].userId == rows[i].userId;
    db.teams := renamed;
    r := Ok(());
  }

  /** teams.cancel: deletes the caller's team `teamId`; any other caller gets BAD_REQUEST. */
  method Cancel(db: Store, userId: int, teamId: int) returns (r: Result<()>)
    requires db.Valid()
    modifies db
    ensures db.Valid()
    ensures db.users == old(db.users) && db.plans == old(db.plans)
    ensures db.subscriptions == old(db.subscriptions) && db.activations == old(db.activations)
    ensures r.Err? <==> forall i :: 0 <= i < |old(db.teams)| ==> !OwnedTeam(teamId, userId)(old(db.teams)[i])
    ensures r.Err? ==> r.error == Error(BadRequest, None) && db.teams == old(db.teams)
    ensures r.Ok? ==> db.teams == Filter(old(db.teams), OtherThanOwnedTeam(teamId, userId))
    ensures r.Ok? ==> |db.teams| == |old(db.teams)| - 1
  {
    var team := FindFirst(db.teams, OwnedTeam(teamId, userId));
    if team.None? {
      return Fail(BadRequest);
    }
    var rows := db.teams;
    DeleteRemovesOneTeam(rows, teamId, userId);
    FilterKeepsUnique(rows, OtherThanOwnedTeam(teamId, userId), TeamId);
    FilterKeepsUnique(rows, OtherThanOwnedTeam(teamId, userId), TeamOwner);
    db.teams := Filter(rows, OtherThanOwnedTeam(teamId, userId));
    r := Ok(());
  }

  /**
   * Team ids are unique, so the delete of cancel removes exactly one row, and what remains is every
   * other team.
   */
  lemma {:induction false} DeleteRemovesOneTeam(teams: seq<Team>, teamId: int, userId: int)
    requires UniqueKeys(teams, TeamId)
    requires exists i :: 0 <= i < |teams| && OwnedTeam(teamId, userId)(teams[i])
    ensures |Filter(teams, OtherThanOwnedTeam(teamId, userId))| == |teams| - 1
  {
    var keep := OtherThanOwnedTeam(teamId, userId);
    var tail := teams[1..];
    if OwnedTeam(teamId, userId)(teams[0]) {
      forall i | 0 <= i < |tail| ensures keep(tail[i]) {
        assert tail[i] == teams[i + 1];
        assert TeamId(teams[0]) != TeamId(teams[i + 1]);
      }
      FilterAll(tail, keep);
    } else {
      var i :| 0 <= i < |teams| && OwnedTeam(teamId, userId)(teams[i]);
      assert tail[i - 1] == teams[i];
      assert UniqueKeys(tail, TeamId) by {
        forall a, b | 0 <= a < b < |tail| ensures TeamId(tail[a]) != TeamId(tail[b]) {
          assert tail[a] == teams[a + 1] && tail[b] == teams[b + 1];
        }
      }
      DeleteRemovesOneTeam(tail, teamId, userId);
    }
  }
}
