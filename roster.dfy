/** Semester rosters: the (semester, user) pairs of `roster_members`. Adding counts each
    requested id as added or skipped and never stores a pair twice. */
module Roster {
  import opened Types
  import opened Db
  import opened Query

  /** `RosterActionResult`. */
  datatype Counts = Counts(added: nat, skipped: nat)

  /** The pairs `add_to_roster` means to add: one per requested id of an existing user. */
  function Requested(sid: int, userIds: seq<int>, users: map<int, User>): set<(int, int)> {
    set j | 0 <= j < |userIds| && userIds[j] in users :: (sid, userIds[j])
  }

  /** The filter `User.role != Role.ADMIN`. */
  function NonAdmin(u: User): bool {
    u.role != Admin
  }

  /** The pairs `add_all_to_roster` means to add: one per non-admin user. */
  function AllMembers(sid: int, users: map<int, User>): set<(int, int)> {
    set k | k in users && NonAdmin(users[k]) :: (sid, k)
  }

  lemma RequestedStep(sid: int, userIds: seq<int>, users: map<int, User>, i: int)
    requires 0 <= i < |userIds|
    ensures Requested(sid, userIds[..i + 1], users) ==
            Requested(sid, userIds[..i], users) + (if userIds[i] in users then {(sid, userIds[i])} else {})
  {
    var a, b := userIds[..i], userIds[..i + 1];
    assert forall j :: 0 <= j < i ==> b[j] == a[j];
    forall p | p in Requested(sid, b, users)
      ensures p in Requested(sid, a, users) || (userIds[i] in users && p == (sid, userIds[i]))
    {
      var j :| 0 <= j < |b| && b[j] in users && p == (sid, b[j]);
      if j < i {
        assert a[j] == b[j];
      }
    }
  }

  /** One requested id: a missing user or a stored pair leaves the roster as it is, any
      other id adds one new pair. */
  lemma RosterStep(roster0: set<(int, int)>, roster: set<(int, int)>, sid: int, userIds: seq<int>,
                   users: map<int, User>, i: int)
    requires 0 <= i < |userIds| && roster == roster0 + Requested(sid, userIds[..i], users)
    ensures userIds[i] !in users || (sid, userIds[i]) in roster ==>
      roster == roster0 + Requested(sid, userIds[..i + 1], users)
    ensures userIds[i] in users && (sid, userIds[i]) !in roster ==>
      roster + {(sid, userIds[i])} == roster0 + Requested(sid, userIds[..i + 1], users)
      && |roster + {(sid, userIds[i])}| == |roster| + 1
  {
    RequestedStep(sid, userIds, users, i);
  }

  /** `add_to_roster` (admin only): 404 for a missing semester, adding nothing. Otherwise
      each requested id counts once, as added or as skipped; the roster gains exactly the
      pairs of the requested existing users, and it grows by the number added, so no pair
      is counted as added twice. Other semesters' pairs are untouched. */
  method AddToRoster(db: Store, caller: User, sid: int, userIds: seq<int>) returns (r: Result<Counts>)
    requires caller.role == Admin
    modifies db`roster
    ensures sid !in db.semesters ==> r == NotFound && db.roster == old(db.roster)
    ensures sid in db.semesters ==>
      r.Ok? && r.value.added + r.value.skipped == |userIds|
      && db.roster == old(db.roster) + Requested(sid, userIds, db.users)
      && |db.roster| == |old(db.roster)| + r.value.added
  {
    if sid !in db.semesters {
      return NotFound;
    }
    var added, skipped := 0, 0;
    var i := 0;
    while i < |userIds|
      invariant 0 <= i <= |userIds| && added + skipped == i
      invariant db.roster == old(db.roster) + Requested(sid, userIds[..i], db.users)
      invariant |db.roster| == |old(db.roster)| + added
    {
      RosterStep(old(db.roster), db.roster, sid, userIds, db.users, i);
      var uid := userIds[i];
      if uid !in db.users {
        skipped := skipped + 1;
      } else if (sid, uid) in db.roster {
        skipped := skipped + 1;
      } else {
        db.roster := db.roster + {(sid, uid)};
        added := added + 1;
      }
      i := i + 1;
    }
    assert userIds[..i] == userIds;
    return Ok(Counts(added, skipped));
  }

  /** `add_all_to_roster` (admin only): 404 for a missing semester; otherwise every
      non-admin user counts once, as added or skipped, the roster gains exactly their
      pairs and grows by the number added; no admin is ever added. */
  method AddAllToRoster(db: Store, caller: User, sid: int) returns (r: Result<Counts>)
    requires caller.role == Admin
    modifies db`roster
    ensures sid !in db.semesters ==> r == NotFound && db.roster == old(db.roster)
    ensures sid in db.semesters ==>
      r.Ok? && r.value.added + r.value.skipped == |Where(db.users, NonAdmin)|
      && db.roster == old(db.roster) + AllMembers(sid, db.users)
      && |db.roster| == |old(db.roster)| + r.value.added
    ensures forall k :: k in db.users && db.users[k].role == Admin ==>
      ((sid, k) in db.roster <==> (sid, k) in old(db.roster))
  {
    if sid !in db.semesters {
      return NotFound;
    }
    var members := SelectKeys(db.users, NonAdmin);
    SizeFromSet(members, Where(db.users, NonAdmin));
    forall i | 0 <= i < |members| ensures members[i] in db.users {
      InSetMultiset(members, Where(db.users, NonAdmin), members[i]);
    }
    var counts := AddToRoster(db, caller, sid, members);
    assert Requested(sid, members, db.users) == AllMembers(sid, db.users) by {
      forall p | p in AllMembers(sid, db.users) ensures p in Requested(sid, members, db.users) {
        var k :| k in db.users && NonAdmin(db.users[k]) && p == (sid, k);
        InSetMultiset(members, Where(db.users, NonAdmin), k);
      }
      forall p | p in Requested(sid, members, db.users) ensures p in AllMembers(sid, db.users) {
        var j :| 0 <= j < |members| && members[j] in db.users && p == (sid, members[j]);
        InSetMultiset(members, Where(db.users, NonAdmin), members[j]);
      }
    }
    return counts;
  }

  /** `remove_from_roster` (admin only): 404 when the pair is not on the roster;
      otherwise exactly that pair is removed. */
  method RemoveFromRoster(db: Store, caller: User, sid: int, uid: int) returns (r: Result<()>)
    requires caller.role == Admin
    modifies db`roster
    ensures (sid, uid) !in old(db.roster) ==> r == NotFound && db.roster == old(db.roster)
    ensures (sid, uid) in old(db.roster) ==> r == Ok(()) && db.roster == old(db.roster) - {(sid, uid)}
  {
    if (sid, uid) !in db.roster {
      return NotFound;
    }
    db.roster := db.roster - {(sid, uid)};
    return Ok(());
  }

  /** `get_available_users` (admin only): 404 for a missing semester; otherwise exactly
      the non-admin users not on that semester's roster, each once. */
  method GetAvailableUsers(db: Store, caller: User, sid: int) returns (r: Result<seq<int>>)
    requires caller.role == Admin
    ensures sid !in db.semesters <==> r == NotFound
    ensures sid in db.semesters ==> r.Ok?
    ensures r.Ok? ==> forall k :: k in r.value <==> k in db.users && db.users[k].role != Admin && (sid, k) !in db.roster
    ensures r.Ok? ==> forall i, j :: 0 <= i < j < |r.value| ==> r.value[i] != r.value[j]
  {
    if sid !in db.semesters {
      return NotFound;
    }
    var members := SelectKeys(db.users, NonAdmin);
    var out: seq<int> := [];
    var i := 0;
    while i < |members|
      invariant 0 <= i <= |members|
      invariant forall k :: k in out <==> k in members[..i] && (sid, k) !in db.roster
      invariant forall a, b :: 0 <= a < b < |out| ==> out[a] != out[b]
    {
      if (sid, members[i]) !in db.roster {
        if members[i] in out {
          var a :| 0 <= a < |out| && out[a] == members[i];
          var b :| 0 <= b < i && members[..i][b] == members[i];
          DistinctFromSet(members, Where(db.users, NonAdmin), b, i);
          assert false;
        }
        out := out + [members[i]];
      }
      assert members[..i + 1] == members[..i] + [members[i]];
      i := i + 1;
    }
    forall k ensures k in out <==> k in db.users && db.users[k].role != Admin && (sid, k) !in db.roster {
      assert members[..i] == members;
      InSetMultiset(members, Where(db.users, NonAdmin), k);
    }
    return Ok(out);
  }
}
