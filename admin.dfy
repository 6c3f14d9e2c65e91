/**
 * The administrator panel: awarding points, granting the admin flag, and the
 * search box over the users table.
 */
module Admin {
  import opened Store
  import opened Strings
  import opened Ranks

  /** `adminAddPoints`: the copy of the management award that marks its
      history entry as an administrator action.  The panel wires this form
      only after its `init` found an administrator session, hence the
      requires. */
  method AdminAddPoints(db: Database, session: Session, form: PointsForm, now: int) returns (outcome: AwardOutcome)
    requires IsAdmin(session)
    modifies db`users, db`pointsHistory, db`promotionHistory, db`log
    ensures !ValidAward(form) ==> outcome == InvalidAmount
    ensures !outcome.Awarded? ==> unchanged(db)
    ensures ValidAward(form) ==>
      if form.userId !in old(db.users) then outcome == UserNotFound
      else
        var entry := PointsEntry(form.amount.value, form.reason, session.uid, session.userData.value.name, now, true);
        var total := PointsOf(old(db.users)[form.userId]) + form.amount.value;
        var after := WithPoints(old(db.users), form.userId, total);
        && outcome == Awarded(total, Promotion(after, old(db.userReferrals), form.userId, total))
        && db.users == WithRank(after, form.userId, outcome.promotion)
        && db.pointsHistory == WithPointsEntry(old(db.pointsHistory), form.userId, entry)
        && db.promotionHistory == WithPromotionEntry(old(db.promotionHistory), form.userId, outcome.promotion, now)
        && db.log == old(db.log) + AwardWrites(form.userId, total, entry, outcome.promotion, now)
  {
    if !ValidAward(form) {
      return InvalidAmount;
    }
    var entry := PointsEntry(form.amount.value, form.reason, session.uid, session.userData.value.name, now, true);
    outcome := Award(db, form.userId, entry, now);
  }

  /** `makeUserAdmin` of the panel: an empty id is refused; otherwise only
      the `isAdmin` field of that record changes, to true. */
  method MakeUserAdmin(db: Database, userId: Id) returns (ok: bool)
    modifies db`users, db`log
    ensures ok <==> userId != ""
    ensures !ok ==> unchanged(db)
    ensures ok ==> db.log == old(db.log) + [SetAdmin(userId)]
    ensures ok && userId !in old(db.users) ==> db.users == old(db.users)
    ensures ok && userId in old(db.users) ==>
      && userId in db.users
      && db.users[userId] == old(db.users)[userId].(isAdmin := true)
      && forall other :: other != userId ==>
           && (other in db.users <==> other in old(db.users))
           && (other in db.users ==> db.users[other] == old(db.users)[other])
  {
    if userId == "" {
      return false;
    }
    db.SetAdminOf(userId);
    ok := true;
  }

  /** The text of one users-table row: the name cell and the email cell. */
  datatype UserRow = UserRow(name: string, email: string)

  /** The search rule: the lower-cased name or email includes the lower-cased search text. */
  predicate RowMatches(row: UserRow, searchText: string): (ok: bool)
    ensures ok <==> ((exists k :: OccursAt(ToLower(row.name), ToLower(searchText), k))
                  || (exists k :: OccursAt(ToLower(row.email), ToLower(searchText), k)))
  {
    ContainsIffOccurs(ToLower(row.name), ToLower(searchText));
    ContainsIffOccurs(ToLower(row.email), ToLower(searchText));
    Contains(ToLower(row.name), ToLower(searchText)) || Contains(ToLower(row.email), ToLower(searchText))
  }

  /** The display flags `filterUsers` leaves, as written: its loop starts at
      row 1, so row 0 keeps whatever display it had. */
  function FilteredAsWritten(rows: seq<UserRow>, shown: seq<bool>, searchText: string): (r: seq<bool>)
    requires |shown| == |rows|
    ensures |r| == |rows|
  {
    seq(|rows|, i requires 0 <= i < |rows| => if i == 0 then shown[0] else RowMatches(rows[i], searchText))
  }

  /** `filterUsers(searchText)` as written: `rows` are the table's rows
      (the table body holds only user rows) and `shown` their display flags. */
  method FilterUsers(rows: seq<UserRow>, shown: array<bool>, searchText: string)
    requires shown.Length == |rows|
    modifies shown
    ensures shown[..] == FilteredAsWritten(rows, old(shown[..]), searchText)
  {
    var i := 1;
    while i < shown.Length
      invariant 1 <= i <= if shown.Length < 1 then 1 else shown.Length
      invariant forall k :: 1 <= k < i && k < shown.Length ==> shown[k] == RowMatches(rows[k], searchText)
      invariant forall k :: (k == 0 || i <= k) && k < shown.Length ==> shown[k] == old(shown[k])
    {
      shown[i] := RowMatches(rows[i], searchText);
      i := i + 1;
    }
  }

  /** The first user's row survives a search it does not match. */
  lemma FirstRowNeverFiltered()
    ensures var rows := [UserRow("Ali", "ali@example.com")];
      && !RowMatches(rows[0], "zz")
      && FilteredAsWritten(rows, [true], "zz")[0]
  {
    var name := ToLower("Ali");
    var email := ToLower("ali@example.com");
    var zz := ToLower("zz");
    assert zz == "zz";
    assert name == "ali";
    assert email == "ali@example.com";
    MissingCharNotContained(name, zz);
    MissingCharNotContained(email, zz);
  }

  /** The evidently intended filter: every row, row 0 included. */
  method FilterAllUsers(rows: seq<UserRow>, shown: array<bool>, searchText: string)
    requires shown.Length == |rows|
    modifies shown
    ensures forall k :: 0 <= k < shown.Length ==> (shown[k] <==> RowMatches(rows[k], searchText))
  {
    var i := 0;
    while i < shown.Length
      invariant 0 <= i <= shown.Length
      invariant forall k :: 0 <= k < i ==> shown[k] == RowMatches(rows[k], searchText)
    {
      shown[i] := RowMatches(rows[i], searchText);
      i := i + 1;
    }
  }

  /** An empty search matches every row. */
  lemma EmptySearchMatchesAll(row: UserRow)
    ensures RowMatches(row, "")
  {
    ContainsEmpty(ToLower(row.name));
  }

  /** The search ignores the case of the search text. */
  lemma SearchIgnoresCase(row: UserRow, searchText: string)
    ensures RowMatches(row, ToLower(searchText)) == RowMatches(row, searchText)
  {
    ToLowerIdempotent(searchText);
  }
}
