/** Teams: names are stripped and unique up to case on creation, unique only exactly
    on rename; deleting a team detaches its members first. */
module Teams {
  import opened Types
  import opened Db
  import opened Query
  import opened Text

  datatype TeamCreate = TeamCreate(name: string, color: Option<string>)

  /** `TeamUpdate`: both fields optional; None leaves the column alone. */
  datatype TeamUpdate = TeamUpdate(name: Option<string>, color: Option<string>)

  /** No two teams have equal names up to case. */
  predicate NamesDistinctIgnoringCase(teams: map<int, Team>) {
    forall a, b :: a in teams && b in teams && EqualsIgnoreCase(teams[a].name, teams[b].name) ==> a == b
  }

  /** No two teams have the same name (the column's `unique=True`). */
  predicate NamesDistinct(teams: map<int, Team>) {
    forall a, b :: a in teams && b in teams && teams[a].name == teams[b].name ==> a == b
  }

  /** No user refers to a team that is not stored. */
  predicate MembersAttached(users: map<int, User>, teams: map<int, Team>) {
    forall k :: k in users && users[k].teamId.Some? ==> users[k].teamId.value in teams
  }

  function NameOf(teams: map<int, Team>, k: int): string {
    if k in teams then teams[k].name else ""
  }

  /** `order_by(Team.name)` on team ids. */
  function ByName(teams: map<int, Team>): (int, int) -> bool {
    (a: int, b: int) => LexLe(NameOf(teams, a), NameOf(teams, b))
  }

  lemma ByNameIsPreorder(teams: map<int, Team>)
    ensures TotalPreorder(ByName(teams))
  {
    forall a, b ensures ByName(teams)(a, b) || ByName(teams)(b, a) {
      LexLeTotal(NameOf(teams, a), NameOf(teams, b));
    }
    forall a, b, c | ByName(teams)(a, b) && ByName(teams)(b, c) ensures ByName(teams)(a, c) {
      LexLeTransitive(NameOf(teams, a), NameOf(teams, b), NameOf(teams, c));
    }
  }

  function AnyTeam(t: Team): bool {
    true
  }

  /** `list_teams`: every team once, ordered by name. */
  method ListTeams(db: Store) returns (ks: seq<int>)
    ensures multiset(ks) == multiset(db.teams.Keys)
    ensures forall i :: 0 <= i < |ks| ==> ks[i] in db.teams
    ensures forall i, j :: 0 <= i < j < |ks| ==> LexLe(db.teams[ks[i]].name, db.teams[ks[j]].name)
  {
    var all := SelectKeys(db.teams, AnyTeam);
    assert Where(db.teams, AnyTeam) == db.teams.Keys by {
      forall k | k in db.teams ensures k in Where(db.teams, AnyTeam) {
        assert AnyTeam(db.teams[k]);
      }
    }
    ks := SortBy(all, ByName(db.teams));
    ByNameIsPreorder(db.teams);
    forall i | 0 <= i < |ks| ensures ks[i] in db.teams {
      assert ks[i] in multiset(ks);
    }
    forall i, j | 0 <= i < j < |ks| ensures LexLe(db.teams[ks[i]].name, db.teams[ks[j]].name) {
      assert ByName(db.teams)(ks[i], ks[j]);
    }
  }

  /** A team named `name` up to case, when one exists (`Team.name.ilike(name)`). */
  method FindNameIgnoringCase(teams: map<int, Team>, name: string) returns (found: Option<int>)
    ensures found.Some? ==> found.value in teams && EqualsIgnoreCase(teams[found.value].name, name)
    ensures found.None? ==> forall k :: k in teams ==> !EqualsIgnoreCase(teams[k].name, name)
  {
    var ks := SelectKeys(teams, (t: Team) => EqualsIgnoreCase(t.name, name));
    if ks == [] {
      forall k | k in teams ensures !EqualsIgnoreCase(teams[k].name, name) {
        InSetMultiset(ks, Where(teams, (t: Team) => EqualsIgnoreCase(t.name, name)), k);
      }
      return None;
    }
    InSetMultiset(ks, Where(teams, (t: Team) => EqualsIgnoreCase(t.name, name)), ks[0]);
    return Some(ks[0]);
  }

  /** A team other than `id` named exactly `name`, when one exists. */
  method FindOtherNamed(teams: map<int, Team>, id: int, name: string) returns (found: Option<int>)
    ensures found.Some? ==> found.value in teams && found.value != id && teams[found.value].name == name
    ensures found.None? ==> forall k :: k in teams && k != id ==> teams[k].name != name
  {
    var ks := SelectKeys(teams - {id}, (t: Team) => t.name == name);
    if ks == [] {
      forall k | k in teams && k != id ensures teams[k].name != name {
        InSetMultiset(ks, Where(teams - {id}, (t: Team) => t.name == name), k);
      }
      return None;
    }
    InSetMultiset(ks, Where(teams - {id}, (t: Team) => t.name == name), ks[0]);
    return Some(ks[0]);
  }

  /** Adding a team whose name matches no stored name up to case keeps names distinct
      up to case, and so exactly. */
  lemma {:induction false} InsertKeepsNamesDistinct(teams: map<int, Team>, id: int, t: Team)
    requires id !in teams && NamesDistinctIgnoringCase(teams)
    requires forall k :: k in teams ==> !EqualsIgnoreCase(teams[k].name, t.name)
    ensures NamesDistinctIgnoringCase(teams[id := t]) && NamesDistinct(teams[id := t])
  {
  }

  /** Distinct names up to case are distinct names. */
  lemma CaseDistinctIsDistinct(teams: map<int, Team>)
    requires NamesDistinctIgnoringCase(teams)
    ensures NamesDistinct(teams)
  {
  }

  /** `update_team` checks only exact equality, so a rename can make two names equal up
      to case: renaming "Events" to "MEDIA" next to "Media" is accepted. */
  lemma RenameMayBreakCaseDistinctness()
    ensures var teams: map<int, Team> := map[1 := Team("Media", None), 2 := Team("Events", None)];
      NamesDistinctIgnoringCase(teams)
      && (forall k :: k in teams && k != 2 ==> teams[k].name != "MEDIA")
      && !NamesDistinctIgnoringCase(teams[2 := Team("MEDIA", None)])
  {
    var teams: map<int, Team> := map[1 := Team("Media", None), 2 := Team("Events", None)];
    var renamed := teams[2 := Team("MEDIA", None)];
    assert Lower("Media") == "media";
    assert Lower("MEDIA") == "media";
    assert Lower("Events") == "events";
    assert NamesDistinctIgnoringCase(teams);
    assert EqualsIgnoreCase(renamed[1].name, renamed[2].name);
  }

  predicate NameTakenIgnoringCase(teams: map<int, Team>, name: string) {
    exists k :: k in teams && EqualsIgnoreCase(teams[k].name, name)
  }

  lemma TakenWitness(teams: map<int, Team>, k: int, name: string)
    requires k in teams && EqualsIgnoreCase(teams[k].name, name)
    ensures NameTakenIgnoringCase(teams, name)
  {
  }

  /** `create_team` (admin only): 400 when the stripped name is empty, then 400 when a
      team has that name up to case, both leaving the teams as they were; otherwise a team
      with the stripped name and the given color, under a fresh id. */
  method CreateTeam(db: Store, caller: User, data: TeamCreate) returns (r: Result<int>)
    requires caller.role == Admin && db.Valid()
    modifies db`teams, db`nextId
    ensures db.Valid()
    ensures Strip(data.name) == [] ==> r == BadRequest && db.teams == old(db.teams)
    ensures Strip(data.name) != [] && NameTakenIgnoringCase(old(db.teams), Strip(data.name)) ==>
      r == BadRequest && db.teams == old(db.teams)
    ensures Strip(data.name) != [] && !NameTakenIgnoringCase(old(db.teams), Strip(data.name)) ==>
      r.Ok? && r.value !in old(db.teams) && db.teams == old(db.teams)[r.value := Team(Strip(data.name), data.color)]
    ensures NamesDistinctIgnoringCase(old(db.teams)) ==> NamesDistinctIgnoringCase(db.teams) && NamesDistinct(db.teams)
  {
    var name := Strip(data.name);
    if name == [] {
      return BadRequest;
    }
    var existing := FindNameIgnoringCase(db.teams, name);
    if existing.Some? {
      TakenWitness(db.teams, existing.value, name);
      return BadRequest;
    }
    var id := db.NewId();
    if NamesDistinctIgnoringCase(db.teams) {
      InsertKeepsNamesDistinct(db.teams, id, Team(name, data.color));
    }
    db.teams := db.teams[id := Team(name, data.color)];
    return Ok(id);
  }

  /** The row `update_team` writes: a non-empty name replaces the name as given (not
      stripped) and a non-None color replaces the color. */
  function Renamed(t: Team, data: TeamUpdate): Team {
    Team(if NonEmpty(data.name) then data.name.value else t.name,
         if data.color.Some? then data.color else t.color)
  }

  /** `update_team` (admin only): 404 for a missing id; 400 when a non-empty new name is
      another team's exact name, leaving the teams as they were; otherwise only that
      team changes. Exact name distinctness is kept. */
  method UpdateTeam(db: Store, caller: User, id: int, data: TeamUpdate) returns (r: Result<Team>)
    requires caller.role == Admin
    modifies db`teams
    ensures id !in old(db.teams) ==> r == NotFound && db.teams == old(db.teams)
    ensures id in old(db.teams) && NonEmpty(data.name)
            && (exists k :: k in old(db.teams) && k != id && old(db.teams)[k].name == data.name.value) ==>
      r == BadRequest && db.teams == old(db.teams)
    ensures id in old(db.teams)
            && !(NonEmpty(data.name) && exists k :: k in old(db.teams) && k != id && old(db.teams)[k].name == data.name.value) ==>
      db.teams == old(db.teams)[id := Renamed(old(db.teams)[id], data)] && r == Ok(db.teams[id])
    ensures NamesDistinct(old(db.teams)) ==> NamesDistinct(db.teams)
  {
    if id !in db.teams {
      return NotFound;
    }
    if NonEmpty(data.name) {
      var other := FindOtherNamed(db.teams, id, data.name.value);
      if other.Some? {
        return BadRequest;
      }
    }
    db.teams := db.teams[id := Renamed(db.teams[id], data)];
    return Ok(db.teams[id]);
  }

  /** The bulk update `team_id = None` on the users of team `id`. */
  function Detached(users: map<int, User>, id: int): map<int, User> {
    map k | k in users :: if users[k].teamId == Some(id) then users[k].(teamId := None) else users[k]
  }

  /** After the detach no user refers to the team, every other user is as before, and a
      store whose users referred only to stored teams still does once the team is gone. */
  lemma DetachFacts(users: map<int, User>, teams: map<int, Team>, id: int)
    ensures Detached(users, id).Keys == users.Keys
    ensures forall k :: k in users ==> Detached(users, id)[k].teamId != Some(id)
    ensures forall k :: k in users && users[k].teamId != Some(id) ==> Detached(users, id)[k] == users[k]
    ensures forall k :: k in users ==> Detached(users, id)[k].(teamId := users[k].teamId) == users[k]
    ensures MembersAttached(users, teams) ==> MembersAttached(Detached(users, id), teams - {id})
  {
  }

  /** `delete_team` (admin only): 404 for a missing id; otherwise the team's members lose
      their team id and the team is removed; nothing else changes. */
  method DeleteTeam(db: Store, caller: User, id: int) returns (r: Result<()>)
    requires caller.role == Admin
    modifies db`teams, db`users
    ensures id !in old(db.teams) ==> r == NotFound && db.teams == old(db.teams) && db.users == old(db.users)
    ensures id in old(db.teams) ==>
      r == Ok(()) && db.users == Detached(old(db.users), id) && db.teams == old(db.teams) - {id}
    ensures MembersAttached(old(db.users), old(db.teams)) ==> MembersAttached(db.users, db.teams)
  {
    if id !in db.teams {
      return NotFound;
    }
    DetachFacts(db.users, db.teams, id);
    db.users := Detached(db.users, id);
    db.teams := db.teams - {id};
    return Ok(());
  }
}
