/**
 * The bounded depth-first walk over `userReferrals` that collects a user's
 * team.  The source has it twice, as `loadAllNetworkMembers` (pushing into
 * the table's member list) and as `loadTeamMembers` (pushing into a list the
 * caller passes); both are this one walk.
 *
 * `Walk`, `Visit` and `Found` are the specification: the members the walk
 * appends, in the order it appends them.  `LoadTeamMembers` is the walk
 * itself, a recursive method with a loop over the referral keys.
 */
module TeamWalk {
  import opened Store

  /** `{...userData, level: currentLevel + 1, id: referredUserId}` */
  datatype Member = Member(id: Id, user: User, level: int)

  /** The depth budget left; it bounds the recursion even over a cyclic store. */
  function Budget(currentLevel: int, maxLevel: int): nat {
    if currentLevel > maxLevel then 0 else maxLevel - currentLevel + 1
  }

  /** The members a walk from `id` at `currentLevel` appends, in pre-order. */
  function Walk(users: map<Id, User>, refs: map<Id, seq<Referral>>, id: Id, currentLevel: int, maxLevel: int): seq<Member>
    decreases Budget(currentLevel, maxLevel), 1, 0
  {
    if currentLevel > maxLevel || id !in refs then []
    else Visit(users, refs, refs[id], currentLevel, maxLevel)
  }

  /** The members appended while iterating over the keys `kids`, in key order. */
  function Visit(users: map<Id, User>, refs: map<Id, seq<Referral>>, kids: seq<Referral>, currentLevel: int, maxLevel: int): seq<Member>
    requires currentLevel <= maxLevel
    decreases Budget(currentLevel, maxLevel), 0, |kids|
  {
    if kids == [] then []
    else Visit(users, refs, kids[..|kids| - 1], currentLevel, maxLevel)
         + Found(users, refs, kids[|kids| - 1].id, currentLevel, maxLevel)
  }

  /** The members appended for one referred id: nothing when it has no user
      record; otherwise the member itself, then its own subtree. */
  function Found(users: map<Id, User>, refs: map<Id, seq<Referral>>, child: Id, currentLevel: int, maxLevel: int): seq<Member>
    requires currentLevel <= maxLevel
    decreases Budget(currentLevel, maxLevel), 0, 0
  {
    if child in users then
      [Member(child, users[child], currentLevel + 1)] + Walk(users, refs, child, currentLevel + 1, maxLevel)
    else []
  }

  /** `loadTeamMembers(userId, teamMembers, currentLevel, maxLevel)`: the list
      passed by reference is threaded through as `team` in and `acc` out. */
  method LoadTeamMembers(db: Database, userId: Id, team: seq<Member>, currentLevel: int, maxLevel: int)
    returns (acc: seq<Member>)
    ensures acc == team + Walk(db.users, db.userReferrals, userId, currentLevel, maxLevel)
    ensures currentLevel > maxLevel ==> acc == team
    decreases Budget(currentLevel, maxLevel)
  {
    acc := team;
    if currentLevel > maxLevel {
      return;
    }
    if userId in db.userReferrals {
      var referrals := db.userReferrals[userId];
      var i := 0;
      while i < |referrals|
        invariant 0 <= i <= |referrals|
        invariant acc == team + Visit(db.users, db.userReferrals, referrals[..i], currentLevel, maxLevel)
      {
        var referredUserId := referrals[i].id;
        if referredUserId in db.users {
          var userData := db.users[referredUserId];
          acc := acc + [Member(referredUserId, userData, currentLevel + 1)];
          acc := LoadTeamMembers(db, referredUserId, acc, currentLevel + 1, maxLevel);
        }
        assert referrals[..i + 1][..i] == referrals[..i];
        i := i + 1;
      }
      assert referrals[..i] == referrals;
    }
  }

  // ---------------------------------------------------------------------------
  // Levels: every appended member sits exactly one level below the call that
  // found it, so a walk started at `currentLevel` yields levels in
  // currentLevel+1 .. maxLevel+1.

  ghost predicate LevelsWithin(ms: seq<Member>, lo: int, hi: int) {
    forall i :: 0 <= i < |ms| ==> lo <= ms[i].level <= hi
  }

  lemma {:induction false} WalkLevels(users: map<Id, User>, refs: map<Id, seq<Referral>>, id: Id, currentLevel: int, maxLevel: int)
    ensures LevelsWithin(Walk(users, refs, id, currentLevel, maxLevel), currentLevel + 1, maxLevel + 1)
    decreases Budget(currentLevel, maxLevel), 1, 0
  {
    if currentLevel <= maxLevel && id in refs {
      VisitLevels(users, refs, refs[id], currentLevel, maxLevel);
    }
  }

  lemma {:induction false} VisitLevels(users: map<Id, User>, refs: map<Id, seq<Referral>>, kids: seq<Referral>, currentLevel: int, maxLevel: int)
    requires currentLevel <= maxLevel
    ensures LevelsWithin(Visit(users, refs, kids, currentLevel, maxLevel), currentLevel + 1, maxLevel + 1)
    decreases Budget(currentLevel, maxLevel), 0, |kids|
  {
    if kids != [] {
      var front := kids[..|kids| - 1];
      var last := kids[|kids| - 1].id;
      VisitLevels(users, refs, front, currentLevel, maxLevel);
      FoundLevels(users, refs, last, currentLevel, maxLevel);
      ConcatLevels(Visit(users, refs, front, currentLevel, maxLevel), Found(users, refs, last, currentLevel, maxLevel), currentLevel + 1, maxLevel + 1);
    }
  }

  lemma {:induction false} FoundLevels(users: map<Id, User>, refs: map<Id, seq<Referral>>, child: Id, currentLevel: int, maxLevel: int)
    requires currentLevel <= maxLevel
    ensures LevelsWithin(Found(users, refs, child, currentLevel, maxLevel), currentLevel + 1, maxLevel + 1)
    decreases Budget(currentLevel, maxLevel), 0, 0
  {
    if child in users {
      WalkLevels(users, refs, child, currentLevel + 1, maxLevel);
      var below := Walk(users, refs, child, currentLevel + 1, maxLevel);
      ConcatLevels([Member(child, users[child], currentLevel + 1)], below, currentLevel + 1, maxLevel + 1);
    }
  }

  lemma ConcatLevels(a: seq<Member>, b: seq<Member>, lo: int, hi: int)
    requires LevelsWithin(a, lo, hi) && LevelsWithin(b, lo, hi)
    ensures LevelsWithin(a + b, lo, hi)
  {
    forall i | 0 <= i < |a + b| ensures lo <= (a + b)[i].level <= hi {
      if i >= |a| {
        assert (a + b)[i] == b[i - |a|];
      }
    }
  }

  /** The management table's call `(root, 0, 5)` yields levels 1 to 6 only;
      the root itself, at level 0, is never among them. */
  lemma NetworkLevels(users: map<Id, User>, refs: map<Id, seq<Referral>>, root: Id)
    ensures forall m :: m in Walk(users, refs, root, 0, 5) ==> 1 <= m.level <= 6
  {
    WalkLevels(users, refs, root, 0, 5);
  }

  // ---------------------------------------------------------------------------
  // Records: every appended member is a referred id that has a user record,
  // carries that record, and is a key under some `userReferrals/<referrer>`.

  ghost predicate Recorded(users: map<Id, User>, refs: map<Id, seq<Referral>>, ms: seq<Member>) {
    forall i :: 0 <= i < |ms| ==>
      && ms[i].id in users
      && ms[i].user == users[ms[i].id]
      && exists p :: p in refs && HasChild(refs[p], ms[i].id)
  }

  lemma ConcatRecorded(users: map<Id, User>, refs: map<Id, seq<Referral>>, a: seq<Member>, b: seq<Member>)
    requires Recorded(users, refs, a) && Recorded(users, refs, b)
    ensures Recorded(users, refs, a + b)
  {
    forall i | 0 <= i < |a + b|
      ensures (a + b)[i].id in users && (a + b)[i].user == users[(a + b)[i].id]
      ensures exists p :: p in refs && HasChild(refs[p], (a + b)[i].id)
    {
      if i < |a| {
        assert (a + b)[i] == a[i];
      } else {
        assert (a + b)[i] == b[i - |a|];
      }
    }
  }

  lemma {:induction false} WalkRecorded(users: map<Id, User>, refs: map<Id, seq<Referral>>, id: Id, currentLevel: int, maxLevel: int)
    ensures Recorded(users, refs, Walk(users, refs, id, currentLevel, maxLevel))
    decreases Budget(currentLevel, maxLevel), 1, 0
  {
    if currentLevel <= maxLevel && id in refs {
      VisitRecorded(users, refs, id, refs[id], currentLevel, maxLevel);
    }
  }

  lemma {:induction false} VisitRecorded(users: map<Id, User>, refs: map<Id, seq<Referral>>, parent: Id, kids: seq<Referral>, currentLevel: int, maxLevel: int)
    requires currentLevel <= maxLevel
    requires parent in refs && forall k :: 0 <= k < |kids| ==> HasChild(refs[parent], kids[k].id)
    ensures Recorded(users, refs, Visit(users, refs, kids, currentLevel, maxLevel))
    decreases Budget(currentLevel, maxLevel), 0, |kids|
  {
    if kids != [] {
      var front := kids[..|kids| - 1];
      var last := kids[|kids| - 1].id;
      VisitRecorded(users, refs, parent, front, currentLevel, maxLevel);
      FoundRecorded(users, refs, parent, last, currentLevel, maxLevel);
      ConcatRecorded(users, refs, Visit(users, refs, front, currentLevel, maxLevel), Found(users, refs, last, currentLevel, maxLevel));
    }
  }

  lemma {:induction false} FoundRecorded(users: map<Id, User>, refs: map<Id, seq<Referral>>, parent: Id, child: Id, currentLevel: int, maxLevel: int)
    requires currentLevel <= maxLevel
    requires parent in refs && HasChild(refs[parent], child)
    ensures Recorded(users, refs, Found(users, refs, child, currentLevel, maxLevel))
    decreases Budget(currentLevel, maxLevel), 0, 0
  {
    if child in users {
      WalkRecorded(users, refs, child, currentLevel + 1, maxLevel);
      ConcatRecorded(users, refs, [Member(child, users[child], currentLevel + 1)], Walk(users, refs, child, currentLevel + 1, maxLevel));
    }
  }

  /** A referred id without a user record is never appended. */
  lemma OrphansSkipped(users: map<Id, User>, refs: map<Id, seq<Referral>>, root: Id, currentLevel: int, maxLevel: int, orphan: Id)
    requires orphan !in users
    ensures forall m :: m in Walk(users, refs, root, currentLevel, maxLevel) ==> m.id != orphan
  {
    WalkRecorded(users, refs, root, currentLevel, maxLevel);
  }

  /** A root that nobody referred (the usual case: it is no key under any
      `userReferrals/<referrer>`) never appears among its own team. */
  lemma RootNotInTeam(users: map<Id, User>, refs: map<Id, seq<Referral>>, root: Id, currentLevel: int, maxLevel: int)
    requires forall p :: p in refs ==> !HasChild(refs[p], root)
    ensures forall m :: m in Walk(users, refs, root, currentLevel, maxLevel) ==> m.id != root
  {
    WalkRecorded(users, refs, root, currentLevel, maxLevel);
  }

  // ---------------------------------------------------------------------------
  // Orphans: the referral list of an id that has no user record is never read,
  // except when that id is the root of the walk itself.

  lemma {:induction false} WalkIgnoresOrphanList(users: map<Id, User>, refs: map<Id, seq<Referral>>, orphan: Id, list: seq<Referral>, id: Id, currentLevel: int, maxLevel: int)
    requires orphan !in users && orphan != id
    ensures Walk(users, refs[orphan := list], id, currentLevel, maxLevel) == Walk(users, refs, id, currentLevel, maxLevel)
    decreases Budget(currentLevel, maxLevel), 1, 0
  {
    if currentLevel <= maxLevel && id in refs {
      assert refs[orphan := list][id] == refs[id];
      VisitIgnoresOrphanList(users, refs, orphan, list, refs[id], currentLevel, maxLevel);
    }
  }

  lemma {:induction false} VisitIgnoresOrphanList(users: map<Id, User>, refs: map<Id, seq<Referral>>, orphan: Id, list: seq<Referral>, kids: seq<Referral>, currentLevel: int, maxLevel: int)
    requires orphan !in users
    requires currentLevel <= maxLevel
    ensures Visit(users, refs[orphan := list], kids, currentLevel, maxLevel) == Visit(users, refs, kids, currentLevel, maxLevel)
    decreases Budget(currentLevel, maxLevel), 0, |kids|
  {
    if kids != [] {
      VisitIgnoresOrphanList(users, refs, orphan, list, kids[..|kids| - 1], currentLevel, maxLevel);
      var last := kids[|kids| - 1].id;
      if last in users {
        WalkIgnoresOrphanList(users, refs, orphan, list, last, currentLevel + 1, maxLevel);
      }
    }
  }

  // ---------------------------------------------------------------------------
  // Direct members: the members at level currentLevel+1 are exactly the
  // referred ids under the root that have a user record, in key order.

  function AtLevel(ms: seq<Member>, level: int): (r: seq<Id>)
  {
    if ms == [] then []
    else AtLevel(ms[..|ms| - 1], level) + (if ms[|ms| - 1].level == level then [ms[|ms| - 1].id] else [])
  }

  /** The referred ids of `kids` that have a user record, in key order. */
  function WithRecord(users: map<Id, User>, kids: seq<Referral>): seq<Id>
  {
    if kids == [] then []
    else WithRecord(users, kids[..|kids| - 1]) + (if kids[|kids| - 1].id in users then [kids[|kids| - 1].id] else [])
  }

  lemma {:induction false} AtLevelConcat(a: seq<Member>, b: seq<Member>, level: int)
    ensures AtLevel(a + b, level) == AtLevel(a, level) + AtLevel(b, level)
    decreases |b|
  {
    if b == [] {
      assert a + b == a;
    } else {
      var b' := b[..|b| - 1];
      assert (a + b)[..|a + b| - 1] == a + b';
      assert (a + b)[|a + b| - 1] == b[|b| - 1];
      AtLevelConcat(a, b', level);
    }
  }

  lemma {:induction false} AtLevelNone(ms: seq<Member>, level: int)
    requires forall i :: 0 <= i < |ms| ==> ms[i].level != level
    ensures AtLevel(ms, level) == []
    decreases |ms|
  {
    if ms != [] {
      AtLevelNone(ms[..|ms| - 1], level);
    }
  }

  lemma FoundDirect(users: map<Id, User>, refs: map<Id, seq<Referral>>, child: Id, currentLevel: int, maxLevel: int)
    requires currentLevel <= maxLevel
    ensures AtLevel(Found(users, refs, child, currentLevel, maxLevel), currentLevel + 1) == if child in users then [child] else []
  {
    if child in users {
      var me := [Member(child, users[child], currentLevel + 1)];
      var below := Walk(users, refs, child, currentLevel + 1, maxLevel);
      WalkLevels(users, refs, child, currentLevel + 1, maxLevel);
      AtLevelNone(below, currentLevel + 1);
      AtLevelConcat(me, below, currentLevel + 1);
      assert AtLevel(me, currentLevel + 1) == [child] by {
        assert me[..0] == [];
      }
    }
  }

  lemma {:induction false} VisitDirect(users: map<Id, User>, refs: map<Id, seq<Referral>>, kids: seq<Referral>, currentLevel: int, maxLevel: int)
    requires currentLevel <= maxLevel
    ensures AtLevel(Visit(users, refs, kids, currentLevel, maxLevel), currentLevel + 1) == WithRecord(users, kids)
    decreases |kids|
  {
    if kids != [] {
      var front := kids[..|kids| - 1];
      var last := kids[|kids| - 1].id;
      VisitDirect(users, refs, front, currentLevel, maxLevel);
      AtLevelConcat(Visit(users, refs, front, currentLevel, maxLevel), Found(users, refs, last, currentLevel, maxLevel), currentLevel + 1);
      FoundDirect(users, refs, last, currentLevel, maxLevel);
    }
  }

  /** The first level of the walk lists the root's referred ids that have a
      record, in the order of the referral keys. */
  lemma DirectMembers(users: map<Id, User>, refs: map<Id, seq<Referral>>, root: Id, currentLevel: int, maxLevel: int)
    requires currentLevel <= maxLevel && root in refs
    ensures AtLevel(Walk(users, refs, root, currentLevel, maxLevel), currentLevel + 1) == WithRecord(users, refs[root])
  {
    VisitDirect(users, refs, refs[root], currentLevel, maxLevel);
  }

  // ---------------------------------------------------------------------------
  // Two concrete stores.

  function Plain(name: string): User {
    User(name, "", "", Some(0), Some(0), 0, None, "active", false, None)
  }

  function Ref(id: Id): Referral {
    Referral(id, Edge("", "", 0, 1, "active"))
  }

  /** A chain of seven users u0 -> u1 -> ... -> u6 walked as the table walks
      it, from u0 with levels 0 to 5, reaches u6 at level 6: one level past
      `maxLevel`. */
  lemma ChainReachesLevelSix()
    ensures
      var users := map["u1" := Plain("1"), "u2" := Plain("2"), "u3" := Plain("3"),
                       "u4" := Plain("4"), "u5" := Plain("5"), "u6" := Plain("6")];
      var refs := map["u0" := [Ref("u1")], "u1" := [Ref("u2")], "u2" := [Ref("u3")],
                      "u3" := [Ref("u4")], "u4" := [Ref("u5")], "u5" := [Ref("u6")]];
      var team := Walk(users, refs, "u0", 0, 5);
      |team| == 6 && team[5] == Member("u6", Plain("6"), 6)
  {
    var users := map["u1" := Plain("1"), "u2" := Plain("2"), "u3" := Plain("3"),
                     "u4" := Plain("4"), "u5" := Plain("5"), "u6" := Plain("6")];
    var refs := map["u0" := [Ref("u1")], "u1" := [Ref("u2")], "u2" := [Ref("u3")],
                    "u3" := [Ref("u4")], "u4" := [Ref("u5")], "u5" := [Ref("u6")]];
    assert "u6" !in refs;
    assert Walk(users, refs, "u6", 6, 5) == [];
    assert Walk(users, refs, "u5", 5, 5) == [Member("u6", Plain("6"), 6)] by {
      assert [Ref("u6")][..0] == [];
    }
    assert |Walk(users, refs, "u4", 4, 5)| == 2 by {
      assert [Ref("u5")][..0] == [];
    }
    assert |Walk(users, refs, "u3", 3, 5)| == 3 by {
      assert [Ref("u4")][..0] == [];
    }
    assert |Walk(users, refs, "u2", 2, 5)| == 4 by {
      assert [Ref("u3")][..0] == [];
    }
    assert |Walk(users, refs, "u1", 1, 5)| == 5 by {
      assert [Ref("u2")][..0] == [];
    }
    assert Walk(users, refs, "u0", 0, 5) == [Member("u1", Plain("1"), 1)] + Walk(users, refs, "u1", 1, 5) by {
      assert [Ref("u1")][..0] == [];
    }
  }

  /** No cycle detection: with a -> b -> a the walk from a terminates only by
      the depth bound, and a itself shows up in its own team at level 2. */
  lemma CycleRevisitsRoot()
    ensures
      var users := map["a" := Plain("a"), "b" := Plain("b")];
      var refs := map["a" := [Ref("b")], "b" := [Ref("a")]];
      var team := Walk(users, refs, "a", 0, 5);
      |team| == 6 && team[1] == Member("a", Plain("a"), 2)
  {
    var users := map["a" := Plain("a"), "b" := Plain("b")];
    var refs := map["a" := [Ref("b")], "b" := [Ref("a")]];
    assert [Ref("a")][..0] == [] && [Ref("b")][..0] == [];
    assert Walk(users, refs, "a", 6, 5) == [];
    assert |Walk(users, refs, "b", 5, 5)| == 1;
    assert |Walk(users, refs, "a", 4, 5)| == 2;
    assert |Walk(users, refs, "b", 3, 5)| == 3;
    assert |Walk(users, refs, "a", 2, 5)| == 4;
    assert Walk(users, refs, "b", 1, 5) == [Member("a", Plain("a"), 2)] + Walk(users, refs, "a", 2, 5);
    assert Walk(users, refs, "a", 0, 5) == [Member("b", Plain("b"), 1)] + Walk(users, refs, "b", 1, 5);
  }
}
