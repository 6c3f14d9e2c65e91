/**
 * The rank ladder 0..5 and the points award that drives it
 * (`checkTeamRankRequirements`, `checkRankPromotion`, `addPointsToUser`).
 *
 * `NextRank` is the one-step state machine, `Promotion` what one call of
 * `checkRankPromotion` decides against a store, and the methods issue the
 * store writes in the source's order.
 */
module Ranks {
  import opened Store
  import opened TeamWalk

  /** The highest rank; it is terminal. */
  const TopRank := 5
  /** Points that promote rank 0 to rank 1. */
  const MemberThreshold := 100
  /** Qualifying team members needed for every step from rank 1 upwards. */
  const TeamQuorum := 3
  /** The `maxLevel` the team walk is started with. */
  const TeamDepth := 5

  /** `teamMembers.filter(member => (member.rank || 0) >= requiredRank)` */
  function Qualified(team: seq<Member>, requiredRank: int): (q: seq<Member>)
    ensures |q| <= |team|
    ensures forall m :: m in q <==> m in team && RankOf(m.user) >= requiredRank
  {
    if team == [] then []
    else
      var rest := Qualified(team[1..], requiredRank);
      if RankOf(team[0].user) >= requiredRank then [team[0]] + rest else rest
  }

  /** The filter keeps every occurrence of a qualifying member and drops every
      occurrence of the others, so duplicates in the team count. */
  lemma {:induction false} QualifiedCounts(team: seq<Member>, requiredRank: int)
    ensures forall m :: multiset(Qualified(team, requiredRank))[m] == (if RankOf(m.user) >= requiredRank then multiset(team)[m] else 0)
  {
    if team != [] {
      QualifiedCounts(team[1..], requiredRank);
      assert team == [team[0]] + team[1..];
    }
  }

  /** The filter keeps every occurrence: a member listed twice in the team
      counts twice towards the quorum. */
  lemma {:induction false} QualifiedAppend(a: seq<Member>, b: seq<Member>, requiredRank: int)
    ensures Qualified(a + b, requiredRank) == Qualified(a, requiredRank) + Qualified(b, requiredRank)
  {
    if a != [] {
      assert (a + b)[0] == a[0] && (a + b)[1..] == a[1..] + b;
      QualifiedAppend(a[1..], b, requiredRank);
      var x, y := Qualified(a[1..], requiredRank), Qualified(b, requiredRank);
      assert [a[0]] + (x + y) == ([a[0]] + x) + y;
    } else {
      assert a + b == b;
    }
  }

  /** Raising the required rank never lets more members qualify. */
  lemma {:induction false} QualifiedShrinks(team: seq<Member>, lower: int, higher: int)
    requires lower <= higher
    ensures |Qualified(team, higher)| <= |Qualified(team, lower)|
  {
    if team != [] {
      QualifiedShrinks(team[1..], lower, higher);
    }
  }

  /** `checkTeamRankRequirements(userId, targetRank)` on a given store: at
      least three members of the team walked from the user to depth 5 have
      `rank >= targetRank - 1`. */
  predicate TeamQualifies(users: map<Id, User>, refs: map<Id, seq<Referral>>, userId: Id, targetRank: int) {
    |Qualified(Walk(users, refs, userId, 0, TeamDepth), targetRank - 1)| >= TeamQuorum
  }

  method CheckTeamRankRequirements(db: Database, userId: Id, targetRank: int) returns (ok: bool)
    ensures ok <==> |Qualified(Walk(db.users, db.userReferrals, userId, 0, TeamDepth), targetRank - 1)| >= 3
  {
    var teamMembers := LoadTeamMembers(db, userId, [], 0, TeamDepth);
    assert teamMembers == Walk(db.users, db.userReferrals, userId, 0, TeamDepth);
    var requiredRank := targetRank - 1;
    var qualifiedMembers := Qualified(teamMembers, requiredRank);
    ok := |qualifiedMembers| >= TeamQuorum;
  }

  /** One step of the ladder, given whether the team requirement for
      `currentRank + 1` holds. */
  function NextRank(currentRank: int, newPoints: int, teamQualifies: bool): (r: int)
    ensures r == currentRank || r == currentRank + 1
    ensures r == currentRank + 1 <==>
              (currentRank == 0 && newPoints >= MemberThreshold)
              || (1 <= currentRank < TopRank && teamQualifies)
  {
    if currentRank == 0 && newPoints >= MemberThreshold then 1
    else if currentRank >= 1 && currentRank < TopRank && teamQualifies then currentRank + 1
    else currentRank
  }

  /** Ranks on the ladder stay on the ladder, and rank 5 never moves. */
  lemma NextRankOnLadder(currentRank: int, newPoints: int, teamQualifies: bool)
    requires 0 <= currentRank <= TopRank
    ensures 0 <= NextRank(currentRank, newPoints, teamQualifies) <= TopRank
    ensures currentRank == TopRank ==> NextRank(currentRank, newPoints, teamQualifies) == TopRank
  {
  }

  /** More points never undo a promotion from rank 0. */
  lemma NextRankMonotoneInPoints(currentRank: int, p: int, q: int, teamQualifies: bool)
    requires p <= q
    ensures NextRank(currentRank, p, teamQualifies) <= NextRank(currentRank, q, teamQualifies)
  {
  }

  datatype Step = Step(fromRank: int, toRank: int)

  /** What `checkRankPromotion(userId, newPoints)` decides on a store: no
      step when the user has no record or keeps the rank. */
  function Promotion(users: map<Id, User>, refs: map<Id, seq<Referral>>, userId: Id, newPoints: int): (p: Option<Step>)
    ensures p.Some? ==> userId in users && p.value.fromRank == RankOf(users[userId])
                        && p.value.toRank == p.value.fromRank + 1
  {
    if userId !in users then None
    else
      var currentRank := RankOf(users[userId]);
      var teamOk := 1 <= currentRank < TopRank && TeamQualifies(users, refs, userId, currentRank + 1);
      var newRank := NextRank(currentRank, newPoints, teamOk);
      if newRank != currentRank then Some(Step(currentRank, newRank)) else None
  }

  /** The rank table: rank 0 steps on points alone, ranks 1..4 on the team
      alone, rank 5 and anything off the ladder never. */
  lemma PromotionTable(users: map<Id, User>, refs: map<Id, seq<Referral>>, userId: Id, newPoints: int)
    requires userId in users
    ensures var r := RankOf(users[userId]);
      && (r == 0 ==> (Promotion(users, refs, userId, newPoints).Some? <==> newPoints >= 100))
      && (1 <= r <= 4 ==> (Promotion(users, refs, userId, newPoints).Some? <==> TeamQualifies(users, refs, userId, r + 1)))
      && (r >= 5 || r < 0 ==> Promotion(users, refs, userId, newPoints).None?)
  {
  }

  /** A promotion from rank 2 to rank 3 needs three team members of rank 2 or
      more: two are not enough, whatever the points. */
  lemma TwoQualifiedAreNotEnough(users: map<Id, User>, refs: map<Id, seq<Referral>>, userId: Id, newPoints: int)
    requires userId in users && RankOf(users[userId]) == 2
    requires |Qualified(Walk(users, refs, userId, 0, 5), 2)| == 2
    ensures Promotion(users, refs, userId, newPoints).None?
  {
  }

  /** The writes one call of `checkRankPromotion` issues for its decision. */
  function PromotionWrites(userId: Id, p: Option<Step>, now: int): seq<Write> {
    if p.None? then []
    else [SetRank(userId, p.value.toRank), PushPromotion(userId, PromotionEntry(p.value.fromRank, p.value.toRank, now))]
  }

  /** `promotionHistory` after a decision: one entry pushed under the user
      when there is a step, nothing otherwise. */
  function WithPromotionEntry(h: map<Id, seq<PromotionEntry>>, userId: Id, p: Option<Step>, now: int): map<Id, seq<PromotionEntry>> {
    if p.None? then h
    else h[userId := (if userId in h then h[userId] else []) + [PromotionEntry(p.value.fromRank, p.value.toRank, now)]]
  }

  /** The user map after a decision. */
  function WithRank(users: map<Id, User>, userId: Id, p: Option<Step>): map<Id, User> {
    if p.Some? && userId in users then users[userId := users[userId].(rank := Some(p.value.toRank))] else users
  }

  /** `checkRankPromotion(userId, newPoints)`; `now` is the clock reading for
      the history entry.  The decision is returned for the caller's benefit. */
  method CheckRankPromotion(db: Database, userId: Id, newPoints: int, now: int) returns (promoted: Option<Step>)
    modifies db`users, db`promotionHistory, db`log
    ensures promoted == Promotion(old(db.users), old(db.userReferrals), userId, newPoints)
    ensures db.users == WithRank(old(db.users), userId, promoted)
    ensures db.promotionHistory == WithPromotionEntry(old(db.promotionHistory), userId, promoted, now)
    ensures db.log == old(db.log) + PromotionWrites(userId, promoted, now)
  {
    promoted := None;
    if userId !in db.users {
      return;
    }
    var userData := db.users[userId];
    var currentRank := RankOf(userData);
    var newRank := currentRank;
    if currentRank == 0 && newPoints >= MemberThreshold {
      newRank := 1;
    } else if currentRank >= 1 && currentRank < TopRank {
      var hasEnoughTeamMembers := CheckTeamRankRequirements(db, userId, currentRank + 1);
      if hasEnoughTeamMembers {
        newRank := currentRank + 1;
      }
    }
    if newRank != currentRank {
      promoted := Some(Step(currentRank, newRank));
      db.SetRankOf(userId, newRank);
      db.PushPromotionEntry(userId, PromotionEntry(currentRank, newRank, now));
    }
  }

  /** The session of the signed-in operator: `app.currentUser.uid` and `app.userData`. */
  datatype Session = Session(uid: Id, userData: Option<User>)

  predicate IsAdmin(s: Session) {
    s.userData.Some? && s.userData.value.isAdmin
  }

  /** The points form: the user id field, `parseInt` of the amount (`None`
      for NaN) and the reason. */
  datatype PointsForm = PointsForm(userId: Id, amount: Option<int>, reason: string)

  /** `!userId || isNaN(points) || points <= 0` rejects the form. */
  predicate ValidAward(f: PointsForm) {
    f.userId != "" && f.amount.Some? && f.amount.value > 0
  }

  datatype AwardOutcome =
    | NotPermitted
    | InvalidAmount
    | UserNotFound
    | Awarded(total: int, promotion: Option<Step>)

  /** The writes of a successful award, in order: the new total, the history
      entry, then whatever the promotion check writes. */
  function AwardWrites(userId: Id, total: int, entry: PointsEntry, p: Option<Step>, now: int): seq<Write> {
    [SetPoints(userId, total), PushPoints(userId, entry)] + PromotionWrites(userId, p, now)
  }

  /** `pointsHistory` after one pushed entry. */
  function WithPointsEntry(h: map<Id, seq<PointsEntry>>, userId: Id, entry: PointsEntry): map<Id, seq<PointsEntry>> {
    h[userId := (if userId in h then h[userId] else []) + [entry]]
  }

  /** The store after a successful award, before the promotion check. */
  function WithPoints(users: map<Id, User>, userId: Id, total: int): map<Id, User>
    requires userId in users
  {
    users[userId := users[userId].(points := Some(total))]
  }

  /** The part `addPointsToUser` and `adminAddPoints` share once the user
      record has been read: write the total, push the entry, check promotion. */
  method Award(db: Database, userId: Id, entry: PointsEntry, now: int) returns (outcome: AwardOutcome)
    requires entry.points > 0
    modifies db`users, db`pointsHistory, db`promotionHistory, db`log
    ensures old(userId !in db.users) ==> outcome == UserNotFound && unchanged(db)
    ensures old(userId in db.users) ==>
      var total := PointsOf(old(db.users)[userId]) + entry.points;
      var after := WithPoints(old(db.users), userId, total);
      && outcome == Awarded(total, Promotion(after, old(db.userReferrals), userId, total))
      && db.users == WithRank(after, userId, outcome.promotion)
      && db.pointsHistory == WithPointsEntry(old(db.pointsHistory), userId, entry)
      && db.promotionHistory == WithPromotionEntry(old(db.promotionHistory), userId, outcome.promotion, now)
      && db.log == old(db.log) + AwardWrites(userId, total, entry, outcome.promotion, now)
  {
    if userId !in db.users {
      return UserNotFound;
    }
    var userData := db.users[userId];
    var newPoints := PointsOf(userData) + entry.points;
    ghost var refs := db.userReferrals;
    db.SetPointsOf(userId, newPoints);
    ghost var after := db.users;
    assert after == WithPoints(old(db.users), userId, newPoints);
    db.PushPointsEntry(userId, entry);
    ghost var logged := db.log;
    var promoted := CheckRankPromotion(db, userId, newPoints, now);
    assert promoted == Promotion(after, refs, userId, newPoints);
    assert db.log == logged + PromotionWrites(userId, promoted, now);
    outcome := Awarded(newPoints, promoted);
  }

  /** `addPointsToUser` of the management page. */
  method AddPointsToUser(db: Database, session: Session, form: PointsForm, now: int) returns (outcome: AwardOutcome)
    modifies db`users, db`pointsHistory, db`promotionHistory, db`log
    ensures !IsAdmin(session) ==> outcome == NotPermitted
    ensures IsAdmin(session) && !ValidAward(form) ==> outcome == InvalidAmount
    ensures !outcome.Awarded? ==> unchanged(db)
    ensures IsAdmin(session) && ValidAward(form) ==>
      if form.userId !in old(db.users) then outcome == UserNotFound
      else
        var entry := PointsEntry(form.amount.value, form.reason, session.uid, session.userData.value.name, now, false);
        var total := PointsOf(old(db.users)[form.userId]) + form.amount.value;
        var after := WithPoints(old(db.users), form.userId, total);
        && outcome == Awarded(total, Promotion(after, old(db.userReferrals), form.userId, total))
        && db.users == WithRank(after, form.userId, outcome.promotion)
        && db.pointsHistory == WithPointsEntry(old(db.pointsHistory), form.userId, entry)
        && db.promotionHistory == WithPromotionEntry(old(db.promotionHistory), form.userId, outcome.promotion, now)
        && db.log == old(db.log) + AwardWrites(form.userId, total, entry, outcome.promotion, now)
  {
    if !IsAdmin(session) {
      return NotPermitted;
    }
    if !ValidAward(form) {
      return InvalidAmount;
    }
    var entry := PointsEntry(form.amount.value, form.reason, session.uid, session.userData.value.name, now, false);
    outcome := Award(db, form.userId, entry, now);
  }
}
