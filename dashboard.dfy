/**
 * The dashboard's "recent referrals" table: the signed-in user's direct
 * referrals, newest join date first, at most five of them.
 */
module Dashboard {
  import opened Store

  /** How many rows the table shows. */
  const RecentCount := 5

  /** Newest first: no entry is followed by a later join date. */
  ghost predicate NewestFirst(rs: seq<Referral>) {
    forall i, j :: 0 <= i < j < |rs| ==> rs[i].edge.joinDate >= rs[j].edge.joinDate
  }

  /** `x` placed before the first entry that joined no later than it. */
  function Insert(x: Referral, s: seq<Referral>): (r: seq<Referral>)
    requires NewestFirst(s)
    ensures NewestFirst(r)
    ensures multiset(r) == multiset(s) + multiset{x}
    ensures |r| == |s| + 1
    ensures r[0] == x || (s != [] && r[0] == s[0])
  {
    if s == [] || x.edge.joinDate >= s[0].edge.joinDate then [x] + s
    else
      var rest := Insert(x, s[1..]);
      assert s == [s[0]] + s[1..];
      assert s[0].edge.joinDate >= rest[0].edge.joinDate;
      [s[0]] + rest
  }

  /** `.sort((a, b) => new Date(b[1].joinDate) - new Date(a[1].joinDate))` */
  function SortNewest(rs: seq<Referral>): (r: seq<Referral>)
    ensures NewestFirst(r)
    ensures multiset(r) == multiset(rs)
    ensures |r| == |rs|
  {
    if rs == [] then []
    else
      assert rs == [rs[0]] + rs[1..];
      Insert(rs[0], SortNewest(rs[1..]))
  }

  /** `.slice(0, 5)` */
  function Take(rs: seq<Referral>, n: nat): (r: seq<Referral>)
    ensures |r| == if |rs| < n then |rs| else n
    ensures r == rs[..|r|]
  {
    if |rs| < n then rs else rs[..n]
  }

  /** What `loadRecentReferrals` leaves in the table. */
  datatype RecentView =
    | NotSignedIn
    | NoReferrals
    | Recent(rows: seq<Referral>)

  /** The selection for the signed-in user `currentUser`.  The store keeps
      no empty objects, so an empty list is a missing snapshot. */
  function RecentReferrals(currentUser: Option<Id>, refs: map<Id, seq<Referral>>): (v: RecentView)
    ensures v.NotSignedIn? <==> currentUser.None?
    ensures v.Recent? ==> 1 <= |v.rows| <= RecentCount && NewestFirst(v.rows)
  {
    if currentUser.None? then NotSignedIn
    else if currentUser.value !in refs || refs[currentUser.value] == [] then NoReferrals
    else Recent(Take(SortNewest(refs[currentUser.value]), RecentCount))
  }

  /** With no snapshot the table shows the empty state and no row. */
  lemma NoSnapshotNoRows(uid: Id, refs: map<Id, seq<Referral>>)
    ensures RecentReferrals(Some(uid), refs) == NoReferrals <==> uid !in refs || refs[uid] == []
  {
  }

  /** The selection: `min(5, n)` rows, newest first, each one of the user's
      referrals and none used twice, and no referral left out joined later
      than one shown. */
  lemma RecentSelection(uid: Id, refs: map<Id, seq<Referral>>)
    requires uid in refs && refs[uid] != []
    ensures RecentReferrals(Some(uid), refs).Recent?
    ensures var rows := RecentReferrals(Some(uid), refs).rows;
      var all := refs[uid];
      && |rows| == (if |all| < RecentCount then |all| else RecentCount)
      && NewestFirst(rows)
      && multiset(rows) <= multiset(all)
      && (forall x, y :: x in rows && y in multiset(all) - multiset(rows) ==> x.edge.joinDate >= y.edge.joinDate)
  {
    var all := refs[uid];
    var sorted := SortNewest(all);
    var rows := Take(sorted, RecentCount);
    assert RecentReferrals(Some(uid), refs) == Recent(rows);
    assert rows == sorted[..|rows|];
    CutOfSorted(all, sorted, |rows|);
  }

  /** The first `k` of a newest-first arrangement of `all`: newest first,
      drawn from `all`, and no older than what is left of `all`. */
  lemma CutOfSorted(all: seq<Referral>, sorted: seq<Referral>, k: int)
    requires NewestFirst(sorted) && multiset(sorted) == multiset(all) && 0 <= k <= |sorted|
    ensures NewestFirst(sorted[..k])
    ensures multiset(sorted[..k]) <= multiset(all)
    ensures forall x, y :: x in sorted[..k] && y in multiset(all) - multiset(sorted[..k]) ==> x.edge.joinDate >= y.edge.joinDate
  {
    var rows := sorted[..k];
    var rest := sorted[k..];
    assert sorted == rows + rest;
    assert multiset(all) == multiset(rows) + multiset(rest);
    assert multiset(all) - multiset(rows) == multiset(rest);
    PrefixNoOlder(sorted, k);
  }

  /** In a newest-first list, everything before a cut joined no earlier than
      everything after it. */
  lemma PrefixNoOlder(sorted: seq<Referral>, k: int)
    requires NewestFirst(sorted) && 0 <= k <= |sorted|
    ensures forall x, y :: x in sorted[..k] && y in multiset(sorted[k..]) ==> x.edge.joinDate >= y.edge.joinDate
  {
    forall x, y | x in sorted[..k] && y in multiset(sorted[k..]) ensures x.edge.joinDate >= y.edge.joinDate {
      var i :| 0 <= i < k && sorted[..k][i] == x;
      var j :| 0 <= j < |sorted| - k && sorted[k..][j] == y;
      assert sorted[i] == x && sorted[k + j] == y;
    }
  }

  /** Placing an entry keeps the keys distinct when its key is new. */
  lemma {:induction false} InsertKeepsDistinct(x: Referral, s: seq<Referral>)
    requires NewestFirst(s) && DistinctIds(s)
    requires forall k :: 0 <= k < |s| ==> s[k].id != x.id
    ensures DistinctIds(Insert(x, s))
  {
    if s != [] && x.edge.joinDate < s[0].edge.joinDate {
      var tail := s[1..];
      InsertKeepsDistinct(x, tail);
      var rest := Insert(x, tail);
      assert Insert(x, s) == [s[0]] + rest;
      forall j | 0 <= j < |rest| ensures rest[j].id != s[0].id {
        assert rest[j] in multiset(tail) + multiset{x};
        if rest[j] != x {
          var k :| 0 <= k < |tail| && tail[k] == rest[j];
          assert s[k + 1] == rest[j];
        }
      }
    }
  }

  /** The sort neither duplicates nor merges referrals: distinct keys stay distinct. */
  lemma {:induction false} SortKeepsDistinct(rs: seq<Referral>)
    requires DistinctIds(rs)
    ensures DistinctIds(SortNewest(rs))
  {
    if rs != [] {
      var tail := rs[1..];
      SortKeepsDistinct(tail);
      var sortedTail := SortNewest(tail);
      forall k | 0 <= k < |sortedTail| ensures sortedTail[k].id != rs[0].id {
        assert sortedTail[k] in multiset(tail);
        var i :| 0 <= i < |tail| && tail[i] == sortedTail[k];
        assert rs[i + 1] == sortedTail[k];
      }
      InsertKeepsDistinct(rs[0], sortedTail);
    }
  }

  /** No referral is shown twice. */
  lemma RecentRowsDistinct(uid: Id, refs: map<Id, seq<Referral>>)
    requires uid in refs && refs[uid] != [] && DistinctIds(refs[uid])
    ensures DistinctIds(RecentReferrals(Some(uid), refs).rows)
    ensures forall y :: y in RecentReferrals(Some(uid), refs).rows ==> y in refs[uid]
  {
    var sorted := SortNewest(refs[uid]);
    SortKeepsDistinct(refs[uid]);
    var rows := Take(sorted, RecentCount);
    assert RecentReferrals(Some(uid), refs) == Recent(rows);
    assert forall i :: 0 <= i < |rows| ==> rows[i] == sorted[i];
    forall y | y in rows ensures y in refs[uid] {
      assert y in multiset(sorted);
    }
  }
}
