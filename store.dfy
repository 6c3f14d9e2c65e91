/**
 * The realtime document store the referral front end reads and writes.
 *
 * The store is abstracted as a handful of maps, one per top-level path
 * (`users/`, `userReferrals/`, `referralCodes/`, `pointsHistory/`,
 * `promotionHistory/`).  Every write goes through one method of `Database`
 * and is appended to a ghost log, so that the ORDER in which an operation
 * writes can be stated in its contract.
 */
module Store {

  type Id = string

  datatype Option<T> = None | Some(value: T)

  /** A record under `users/<id>`.  The numeric fields the source reads with
      `|| 0` are optional: a record written by another client may lack them. */
  datatype User = User(
    name: string,
    email: string,
    referralCode: string,
    points: Option<int>,
    rank: Option<int>,
    joinDate: int,
    referredBy: Option<string>,
    status: string,
    isAdmin: bool,
    referralsCount: Option<int>)

  /** `points || 0` */
  function PointsOf(u: User): int {
    if u.points.Some? then u.points.value else 0
  }

  /** `rank || 0` */
  function RankOf(u: User): int {
    if u.rank.Some? then u.rank.value else 0
  }

  /** The snapshot stored under `userReferrals/<referrer>/<referred>`. */
  datatype Edge = Edge(name: string, email: string, joinDate: int, level: int, status: string)

  /** One child of `userReferrals/<referrer>`: its key and its value. */
  datatype Referral = Referral(id: Id, edge: Edge)

  /** An entry pushed under `pointsHistory/<id>`. */
  datatype PointsEntry = PointsEntry(
    points: int,
    reason: string,
    addedBy: Id,
    addedByName: string,
    timestamp: int,
    isAdminAction: bool)

  /** An entry pushed under `promotionHistory/<id>`. */
  datatype PromotionEntry = PromotionEntry(fromRank: int, toRank: int, timestamp: int)

  /** One write issued to the store, in the order it was issued. */
  datatype Write =
    | SetPoints(id: Id, total: int)
    | SetRank(id: Id, rank: int)
    | SetReferralsCount(id: Id, count: int)
    | SetAdmin(id: Id)
    | PutUser(id: Id, user: User)
    | PutCode(code: string, owner: Id)
    | PutReferral(referrer: Id, referred: Id, edge: Edge)
    | PushPoints(id: Id, entry: PointsEntry)
    | PushPromotion(id: Id, promotion: PromotionEntry)

  /** The keys of one `userReferrals/<referrer>` object are distinct. */
  predicate DistinctIds(rs: seq<Referral>) {
    forall i, j :: 0 <= i < j < |rs| ==> rs[i].id != rs[j].id
  }

  /** `set(userReferrals/<referrer>/<r.id>, r.edge)`: a present key keeps its
      place and takes the new value, a new key is added after the others. */
  function PutChild(rs: seq<Referral>, r: Referral): (out: seq<Referral>)
  {
    if rs == [] then [r]
    else if rs[0].id == r.id then [r] + rs[1..]
    else [rs[0]] + PutChild(rs[1..], r)
  }

  predicate HasChild(rs: seq<Referral>, id: Id) {
    exists i :: 0 <= i < |rs| && rs[i].id == id
  }

  lemma {:induction false} PutChildShape(rs: seq<Referral>, r: Referral)
    requires DistinctIds(rs)
    ensures DistinctIds(PutChild(rs, r))
    ensures r in PutChild(rs, r)
    ensures |PutChild(rs, r)| == if HasChild(rs, r.id) then |rs| else |rs| + 1
    ensures forall x :: x in PutChild(rs, r) ==> x == r || (x in rs && x.id != r.id)
    ensures forall x :: x in rs && x.id != r.id ==> x in PutChild(rs, r)
  {
    if rs == [] {
    } else if rs[0].id == r.id {
      assert HasChild(rs, r.id);
      forall x | x in rs[1..] ensures x.id != r.id {
        var k :| 0 <= k < |rs[1..]| && rs[1..][k] == x;
        assert rs[k + 1] == x;
      }
    } else {
      var tail := rs[1..];
      PutChildShape(tail, r);
      assert HasChild(rs, r.id) <==> HasChild(tail, r.id) by {
        if HasChild(rs, r.id) {
          var k :| 0 <= k < |rs| && rs[k].id == r.id;
          assert tail[k - 1].id == r.id;
        }
        if HasChild(tail, r.id) {
          var k :| 0 <= k < |tail| && tail[k].id == r.id;
          assert rs[k + 1].id == r.id;
        }
      }
      var out := PutChild(rs, r);
      assert out == [rs[0]] + PutChild(tail, r);
      forall i, j | 0 <= i < j < |out| ensures out[i].id != out[j].id {
        if i == 0 {
          assert out[j] in PutChild(tail, r);
          if out[j] != r {
            assert out[j] in tail;
            var k :| 0 <= k < |tail| && tail[k] == out[j];
            assert rs[k + 1] == out[j];
          }
        }
      }
      forall x | x in rs && x.id != r.id ensures x in out {
        if x != rs[0] {
          var k :| 0 <= k < |rs| && rs[k] == x;
          assert tail[k - 1] == x;
        }
      }
    }
  }

  /** `Object.keys(snapshot.val()).length` for `userReferrals/<id>`, 0 when
      nothing is stored there. */
  function ReferralsCount(refs: map<Id, seq<Referral>>, id: Id): (n: nat)
    ensures n == 0 <==> id !in refs || refs[id] == []
  {
    if id in refs then |refs[id]| else 0
  }

  /** The keys stored under one referrer, as a set. */
  function KeySet(rs: seq<Referral>): set<Id> {
    if rs == [] then {} else {rs[0].id} + KeySet(rs[1..])
  }

  lemma {:induction false} AbsentKey(rs: seq<Referral>, id: Id)
    requires forall i :: 0 <= i < |rs| ==> rs[i].id != id
    ensures id !in KeySet(rs)
  {
    if rs != [] {
      AbsentKey(rs[1..], id);
    }
  }

  /** With distinct keys, the count is the number of different referred users. */
  lemma {:induction false} CountIsDistinctKeys(rs: seq<Referral>)
    requires DistinctIds(rs)
    ensures |KeySet(rs)| == |rs|
  {
    if rs != [] {
      var tail := rs[1..];
      assert DistinctIds(tail) by {
        forall i, j | 0 <= i < j < |tail| ensures tail[i].id != tail[j].id {
          assert tail[i] == rs[i + 1] && tail[j] == rs[j + 1];
        }
      }
      CountIsDistinctKeys(tail);
      forall i | 0 <= i < |tail| ensures tail[i].id != rs[0].id {
        assert tail[i] == rs[i + 1];
      }
      AbsentKey(tail, rs[0].id);
    }
  }

  /** The Firebase database: one map per top-level path. */
  class Database {
    var users: map<Id, User>
    var userReferrals: map<Id, seq<Referral>>
    var referralCodes: map<string, Id>
    var pointsHistory: map<Id, seq<PointsEntry>>
    var promotionHistory: map<Id, seq<PromotionEntry>>
    /** Every write issued so far, oldest first. */
    ghost var log: seq<Write>

    /** Object keys under one `userReferrals/<referrer>` are unique. */
    ghost predicate Valid()
      reads this
    {
      forall r :: r in userReferrals ==> DistinctIds(userReferrals[r])
    }

    constructor (users: map<Id, User>, userReferrals: map<Id, seq<Referral>>, referralCodes: map<string, Id>)
      requires forall r :: r in userReferrals ==> DistinctIds(userReferrals[r])
      ensures Valid()
      ensures this.users == users && this.userReferrals == userReferrals && this.referralCodes == referralCodes
      ensures pointsHistory == map[] && promotionHistory == map[] && log == []
    {
      this.users := users;
      this.userReferrals := userReferrals;
      this.referralCodes := referralCodes;
      pointsHistory := map[];
      promotionHistory := map[];
      log := [];
    }

    /** `update(users/<id>, {points: total})` */
    method SetPointsOf(id: Id, total: int)
      modifies this`users, this`log
      ensures users == if id in old(users) then old(users)[id := old(users)[id].(points := Some(total))] else old(users)
      ensures log == old(log) + [SetPoints(id, total)]
    {
      if id in users {
        users := users[id := users[id].(points := Some(total))];
      }
      log := log + [SetPoints(id, total)];
    }

    /** `update(users/<id>, {rank: rank})` */
    method SetRankOf(id: Id, rank: int)
      modifies this`users, this`log
      ensures users == if id in old(users) then old(users)[id := old(users)[id].(rank := Some(rank))] else old(users)
      ensures log == old(log) + [SetRank(id, rank)]
    {
      if id in users {
        users := users[id := users[id].(rank := Some(rank))];
      }
      log := log + [SetRank(id, rank)];
    }

    /** `update(users/<id>, {referralsCount: count})` */
    method SetReferralsCountOf(id: Id, count: int)
      modifies this`users, this`log
      ensures users == if id in old(users) then old(users)[id := old(users)[id].(referralsCount := Some(count))] else old(users)
      ensures log == old(log) + [SetReferralsCount(id, count)]
    {
      if id in users {
        users := users[id := users[id].(referralsCount := Some(count))];
      }
      log := log + [SetReferralsCount(id, count)];
    }

    /** `update(users/<id>, {isAdmin: true})` */
    method SetAdminOf(id: Id)
      modifies this`users, this`log
      ensures users == if id in old(users) then old(users)[id := old(users)[id].(isAdmin := true)] else old(users)
      ensures log == old(log) + [SetAdmin(id)]
    {
      if id in users {
        users := users[id := users[id].(isAdmin := true)];
      }
      log := log + [SetAdmin(id)];
    }

    /** `set(users/<id>, user)` */
    method PutUserRecord(id: Id, user: User)
      modifies this`users, this`log
      ensures users == old(users)[id := user]
      ensures log == old(log) + [PutUser(id, user)]
    {
      users := users[id := user];
      log := log + [PutUser(id, user)];
    }

    /** `set(referralCodes/<code>, owner)` */
    method PutReferralCode(code: string, owner: Id)
      modifies this`referralCodes, this`log
      ensures referralCodes == old(referralCodes)[code := owner]
      ensures log == old(log) + [PutCode(code, owner)]
    {
      referralCodes := referralCodes[code := owner];
      log := log + [PutCode(code, owner)];
    }

    /** `set(userReferrals/<referrer>/<referred>, edge)` */
    method PutReferralEdge(referrer: Id, referred: Id, edge: Edge)
      requires Valid()
      modifies this`userReferrals, this`log
      ensures Valid()
      ensures userReferrals == old(userReferrals)[referrer :=
        PutChild(if referrer in old(userReferrals) then old(userReferrals)[referrer] else [], Referral(referred, edge))]
      ensures log == old(log) + [PutReferral(referrer, referred, edge)]
    {
      var children := if referrer in userReferrals then userReferrals[referrer] else [];
      PutChildShape(children, Referral(referred, edge));
      userReferrals := userReferrals[referrer := PutChild(children, Referral(referred, edge))];
      log := log + [PutReferral(referrer, referred, edge)];
    }

    /** `set(push(pointsHistory/<id>), entry)` */
    method PushPointsEntry(id: Id, entry: PointsEntry)
      modifies this`pointsHistory, this`log
      ensures pointsHistory == old(pointsHistory)[id :=
        (if id in old(pointsHistory) then old(pointsHistory)[id] else []) + [entry]]
      ensures log == old(log) + [PushPoints(id, entry)]
    {
      var entries := if id in pointsHistory then pointsHistory[id] else [];
      pointsHistory := pointsHistory[id := entries + [entry]];
      log := log + [PushPoints(id, entry)];
    }

    /** `set(push(promotionHistory/<id>), entry)` */
    method PushPromotionEntry(id: Id, entry: PromotionEntry)
      modifies this`promotionHistory, this`log
      ensures promotionHistory == old(promotionHistory)[id :=
        (if id in old(promotionHistory) then old(promotionHistory)[id] else []) + [entry]]
      ensures log == old(log) + [PushPromotion(id, entry)]
    {
      var entries := if id in promotionHistory then promotionHistory[id] else [];
      promotionHistory := promotionHistory[id := entries + [entry]];
      log := log + [PushPromotion(id, entry)];
    }
  }
}
