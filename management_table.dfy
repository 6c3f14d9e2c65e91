/**
 * The management page's members table: the filter predicate, the sort
 * comparator and the in-place sort, page slicing, the aggregate statistics,
 * and the `Management` object whose fields hold the table's state.
 */
module ManagementTable {
  import opened Store
  import opened Strings
  import opened TeamWalk

  /** `loadManagementData` walks the whole network to this depth. */
  const NetworkDepth := 5

  // ---------------------------------------------------------------------
  // Filtering
  // ---------------------------------------------------------------------

  /** The five filter inputs.  An empty select or date input is `None` (or
      the empty string), which JavaScript treats as "no filter". */
  datatype Filters = Filters(
    level: Option<int>,
    status: string,
    dateFrom: Option<int>,
    dateTo: Option<int>,
    search: string)

  /** The inputs after `resetFilters` cleared them. */
  const NoFilters := Filters(None, "", None, None, "")

  /** The callback `applyFiltersToMembers` hands to `filter`. */
  predicate Matches(m: Member, f: Filters): (ok: bool)
    ensures f == NoFilters ==> ok
    ensures ok && f.dateFrom.Some? && f.dateTo.Some? ==> f.dateFrom.value <= m.user.joinDate <= f.dateTo.value
    ensures ok && f.level.Some? ==> m.level == f.level.value
  {
    assert ToLower("") == "";
    var searchText := ToLower(f.search);
    && (f.level.Some? ==> m.level == f.level.value)
    && (f.status != "" ==> m.user.status == f.status)
    && (f.dateFrom.Some? ==> !(m.user.joinDate < f.dateFrom.value))
    && (f.dateTo.Some? ==> !(m.user.joinDate > f.dateTo.value))
    && (searchText != "" ==>
          Contains(ToLower(m.user.name), searchText) || Contains(ToLower(m.user.email), searchText))
  }

  /** Lower-casing the search input first changes nothing: the search is
      case-insensitive. */
  lemma MatchesIgnoresSearchCase(m: Member, f: Filters)
    ensures Matches(m, f.(search := ToLower(f.search))) == Matches(m, f)
  {
    ToLowerIdempotent(f.search);
  }

  /** `applyFiltersToMembers(members)`: the members the filter keeps, in order. */
  function ApplyFilters(ms: seq<Member>, f: Filters): (r: seq<Member>)
    ensures |r| <= |ms|
    ensures forall m :: m in r <==> m in ms && Matches(m, f)
  {
    if ms == [] then []
    else (if Matches(ms[0], f) then [ms[0]] else []) + ApplyFilters(ms[1..], f)
  }

  /** With every input cleared, the filter keeps every member. */
  lemma {:induction false} NoFiltersKeepAll(ms: seq<Member>)
    ensures ApplyFilters(ms, NoFilters) == ms
  {
    if ms != [] {
      assert ToLower("") == "";
      assert Matches(ms[0], NoFilters);
      NoFiltersKeepAll(ms[1..]);
      assert ApplyFilters(ms, NoFilters) == [ms[0]] + ApplyFilters(ms[1..], NoFilters);
      assert ms == [ms[0]] + ms[1..];
    }
  }

  /** Filtering a concatenation filters each part. */
  lemma {:induction false} ApplyFiltersAppend(a: seq<Member>, b: seq<Member>, f: Filters)
    ensures ApplyFilters(a + b, f) == ApplyFilters(a, f) + ApplyFilters(b, f)
  {
    if a != [] {
      assert (a + b)[0] == a[0];
      assert (a + b)[1..] == a[1..] + b;
      ApplyFiltersAppend(a[1..], b, f);
    } else {
      assert a + b == b;
    }
  }

  /** Re-applying the same filters to the filtered list changes nothing. */
  lemma {:induction false} ApplyFiltersIdempotent(ms: seq<Member>, f: Filters)
    ensures ApplyFilters(ApplyFilters(ms, f), f) == ApplyFilters(ms, f)
  {
    if ms != [] {
      ApplyFiltersIdempotent(ms[1..], f);
      var rest := ApplyFilters(ms[1..], f);
      if Matches(ms[0], f) {
        assert ApplyFilters(ms, f) == [ms[0]] + rest;
        assert ([ms[0]] + rest)[1..] == rest;
        assert ApplyFilters([ms[0]] + rest, f) == [ms[0]] + ApplyFilters(rest, f);
      } else {
        assert ApplyFilters(ms, f) == rest;
      }
    }
  }

  // ---------------------------------------------------------------------
  // Sorting
  // ---------------------------------------------------------------------

  /** The values of `data-sort` on the table's sort buttons. */
  datatype SortField = Name | Email | Level | JoinDate | Points | Status

  datatype Direction = Asc | Desc

  /** `currentSort`. */
  datatype SortState = SortState(field: SortField, direction: Direction)

  /** A value read from a member for comparison: dates and counters compare
      as numbers, the other fields as strings. */
  datatype Key = Num(n: int) | Text(t: string)

  /** `a[field]`; a join date is compared through its timestamp. */
  function KeyOf(m: Member, field: SortField): Key {
    match field
    case Name => Text(m.user.name)
    case Email => Text(m.user.email)
    case Level => Num(m.level)
    case JoinDate => Num(m.user.joinDate)
    case Points => Num(PointsOf(m.user))
    case Status => Text(m.user.status)
  }

  /** JavaScript's `<` on two values of one field. */
  predicate KeyLess(a: Key, b: Key) {
    match (a, b)
    case (Num(x), Num(y)) => x < y
    case (Text(x), Text(y)) => Less(x, y)
    case _ => false
  }

  /** The comparator `sortMembers` passes to `Array.prototype.sort`. */
  function Compare(a: Member, b: Member, s: SortState): (c: int)
    ensures -1 <= c <= 1
    ensures c < 0 <==> (if s.direction == Asc then KeyLess(KeyOf(a, s.field), KeyOf(b, s.field))
                                             else KeyLess(KeyOf(b, s.field), KeyOf(a, s.field)))
  {
    var valueA := KeyOf(a, s.field);
    var valueB := KeyOf(b, s.field);
    KeyLessAsymmetric(valueA, valueB);
    if KeyLess(valueA, valueB) then (if s.direction == Asc then -1 else 1)
    else if KeyLess(valueB, valueA) then (if s.direction == Asc then 1 else -1)
    else 0
  }

  lemma KeyLessAsymmetric(a: Key, b: Key)
    ensures KeyLess(a, b) ==> !KeyLess(b, a)
  {
    if a.Text? && b.Text? && Less(a.t, b.t) && Less(b.t, a.t) {
      LessTransitive(a.t, b.t, a.t);
      LessIrreflexive(a.t);
    }
  }

  /** Not-less is transitive: equal-or-greater chains compose. */
  lemma KeyNotLessTransitive(a: Key, b: Key, c: Key)
    requires a.Num? == b.Num? == c.Num?
    requires !KeyLess(b, a) && !KeyLess(c, b)
    ensures !KeyLess(c, a)
  {
    if a.Text? && Less(c.t, a.t) {
      LessTotal(a.t, b.t);
      if Less(a.t, b.t) {
        LessTransitive(c.t, a.t, b.t);
      }
    }
  }

  /** The comparator is consistent: swapping its arguments negates it. */
  lemma CompareAntisymmetric(a: Member, b: Member, s: SortState)
    ensures Compare(a, b, s) == -Compare(b, a, s)
  {
    KeyLessAsymmetric(KeyOf(a, s.field), KeyOf(b, s.field));
  }

  /** The comparator is consistent: "not after" is transitive. */
  lemma CompareTransitive(a: Member, b: Member, c: Member, s: SortState)
    requires Compare(a, b, s) <= 0 && Compare(b, c, s) <= 0
    ensures Compare(a, c, s) <= 0
  {
    var ka, kb, kc := KeyOf(a, s.field), KeyOf(b, s.field), KeyOf(c, s.field);
    KeyLessAsymmetric(ka, kb);
    KeyLessAsymmetric(kb, kc);
    KeyLessAsymmetric(ka, kc);
    if s.direction == Asc {
      KeyNotLessTransitive(ka, kb, kc);
    } else {
      KeyNotLessTransitive(kc, kb, ka);
    }
  }

  /** No pair of the list is out of order for the comparator. */
  ghost predicate SortedBy(ms: seq<Member>, s: SortState) {
    forall i, j :: 0 <= i < j < |ms| ==> Compare(ms[i], ms[j], s) <= 0
  }

  /** The page's default order, join date descending, lists the newest first. */
  lemma NewestFirst(ms: seq<Member>)
    requires SortedBy(ms, SortState(JoinDate, Desc))
    ensures forall i, j :: 0 <= i < j < |ms| ==> ms[i].user.joinDate >= ms[j].user.joinDate
  {
    forall i, j | 0 <= i < j < |ms| ensures ms[i].user.joinDate >= ms[j].user.joinDate {
      assert Compare(ms[i], ms[j], SortState(JoinDate, Desc)) <= 0;
    }
  }

  /** Ascending by points lists the fewest points first. */
  lemma FewestPointsFirst(ms: seq<Member>)
    requires SortedBy(ms, SortState(Points, Asc))
    ensures forall i, j :: 0 <= i < j < |ms| ==> PointsOf(ms[i].user) <= PointsOf(ms[j].user)
  {
    forall i, j | 0 <= i < j < |ms| ensures PointsOf(ms[i].user) <= PointsOf(ms[j].user) {
      assert Compare(ms[i], ms[j], SortState(Points, Asc)) <= 0;
    }
  }

  /** Two members in the comparator's order. */
  predicate InOrder(x: Member, y: Member, s: SortState) {
    Compare(x, y, s) <= 0
  }

  /** `sortMembers(members, field, direction)`: `members.sort(comparator)`
      rearranges the array in place. */
  method SortMembers(a: array<Member>, s: SortState)
    modifies a
    ensures SortedBy(a[..], s)
    ensures multiset(a[..]) == multiset(old(a[..]))
  {
    var i := 0;
    while i < a.Length
      invariant 0 <= i <= a.Length
      invariant forall k, l :: 0 <= k < l < i ==> InOrder(a[k], a[l], s)
      invariant multiset(a[..]) == multiset(old(a[..]))
    {
      InsertAt(a, i, s);
      i := i + 1;
    }
  }

  /** One insertion step: `a[i]` moves left past the members after it in
      the order, leaving `a[..i + 1]` sorted. */
  method InsertAt(a: array<Member>, i: int, s: SortState)
    requires 0 <= i < a.Length
    requires forall k, l :: 0 <= k < l < i ==> InOrder(a[k], a[l], s)
    modifies a
    ensures forall k, l :: 0 <= k < l <= i ==> InOrder(a[k], a[l], s)
    ensures multiset(a[..]) == multiset(old(a[..]))
  {
    var j := i;
    while j > 0 && !InOrder(a[j - 1], a[j], s)
      invariant 0 <= j <= i
      invariant forall k, l :: 0 <= k < l <= i && l != j ==> InOrder(a[k], a[l], s)
      invariant forall k, l :: 0 <= k < j < l <= i ==> InOrder(a[k], a[l], s)
      invariant multiset(a[..]) == multiset(old(a[..]))
    {
      CompareAntisymmetric(a[j - 1], a[j], s);
      a[j - 1], a[j] := a[j], a[j - 1];
      j := j - 1;
    }
    forall k | 0 <= k < j ensures InOrder(a[k], a[j], s) {
      CompareTransitive(a[k], a[j - 1], a[j], s);
    }
  }

  /** `toggleSortOrder(button, field)`: the same field flips its direction,
      another field becomes current in ascending order. */
  function Toggled(s: SortState, field: SortField): (t: SortState)
    ensures t.field == field
    ensures s.field == field ==> t.direction != s.direction
    ensures s.field != field ==> t.direction == Asc
  {
    if s.field == field then SortState(field, if s.direction == Asc then Desc else Asc)
    else SortState(field, Asc)
  }

  /** Clicking the current sort button twice restores the order. */
  lemma ToggleTwiceRestores(s: SortState)
    ensures Toggled(Toggled(s, s.field), s.field) == s
  {
  }

  /** Clicking a new field's button twice sorts by it descending. */
  lemma NewFieldTwiceDescends(s: SortState, field: SortField)
    requires s.field != field
    ensures Toggled(Toggled(s, field), field) == SortState(field, Desc)
  {
  }

  // ---------------------------------------------------------------------
  // Paging
  // ---------------------------------------------------------------------

  /** `Math.ceil(n / pageSize)` */
  function TotalPages(n: nat, pageSize: int): (p: nat)
    requires pageSize >= 1
    ensures (p - 1) * pageSize < n <= p * pageSize || (n == 0 && p == 0)
  {
    (n + pageSize - 1) / pageSize
  }

  /** `sorted.slice(startIndex, startIndex + pageSize)` with
      `startIndex = (page - 1) * pageSize`; `slice` clamps to the length. */
  function PageSlice<T>(s: seq<T>, page: int, pageSize: int): (r: seq<T>)
    requires page >= 1 && pageSize >= 1
    ensures |r| <= pageSize
    ensures forall i :: 0 <= i < |r| ==> (page - 1) * pageSize + i < |s| && r[i] == s[(page - 1) * pageSize + i]
    ensures (page - 1) * pageSize < |s| ==> |r| == if |s| < page * pageSize then |s| - (page - 1) * pageSize else pageSize
  {
    var start := (page - 1) * pageSize;
    if start >= |s| then []
    else if start + pageSize <= |s| then s[start..start + pageSize]
    else s[start..]
  }

  /** Pages 1 .. k laid end to end. */
  function FirstPages<T>(s: seq<T>, pageSize: int, k: nat): seq<T>
    requires pageSize >= 1
  {
    if k == 0 then [] else FirstPages(s, pageSize, k - 1) + PageSlice(s, k, pageSize)
  }

  lemma {:induction false} FirstPagesPrefix<T>(s: seq<T>, pageSize: int, k: nat)
    requires pageSize >= 1
    ensures FirstPages(s, pageSize, k) == s[..if k * pageSize <= |s| then k * pageSize else |s|]
  {
    if k > 0 {
      FirstPagesPrefix(s, pageSize, k - 1);
      var start := (k - 1) * pageSize;
      if start < |s| {
        var end := if k * pageSize <= |s| then k * pageSize else |s|;
        assert s[..end] == s[..start] + s[start..end];
      }
    }
  }

  /** Paging loses and repeats nothing: the pages 1 .. `TotalPages` together
      are the sorted list. */
  lemma PagesCoverAll<T>(s: seq<T>, pageSize: int)
    requires pageSize >= 1
    ensures FirstPages(s, pageSize, TotalPages(|s|, pageSize)) == s
  {
    FirstPagesPrefix(s, pageSize, TotalPages(|s|, pageSize));
  }

  /** Every page in 1 .. `TotalPages` shows someone; the pages past it show no one. */
  lemma PageNonEmptyIffInRange<T>(s: seq<T>, page: int, pageSize: int)
    requires page >= 1 && pageSize >= 1
    ensures PageSlice(s, page, pageSize) != [] <==> page <= TotalPages(|s|, pageSize)
  {
    var p := TotalPages(|s|, pageSize);
    if page <= p {
      assert (page - 1) * pageSize <= (p - 1) * pageSize;
    } else {
      assert p * pageSize <= (page - 1) * pageSize;
    }
  }

  /** One rendered row: the running number, the member, its referral count. */
  datatype Row = Row(number: int, member: Member, referrals: nat)

  /** The rows `renderManagementTable` inserts for the current page. */
  function PageRows(refs: map<Id, seq<Referral>>, sorted: seq<Member>, page: int, pageSize: int): (rows: seq<Row>)
    requires page >= 1 && pageSize >= 1
    ensures |rows| == |PageSlice(sorted, page, pageSize)|
    ensures forall i :: 0 <= i < |rows| ==>
      && 1 <= rows[i].number <= |sorted|
      && rows[i].member == sorted[rows[i].number - 1]
      && rows[i].referrals == ReferralsCount(refs, rows[i].member.id)
    ensures forall i :: 0 < i < |rows| ==> rows[i].number == rows[i - 1].number + 1
  {
    var members := PageSlice(sorted, page, pageSize);
    var startIndex := (page - 1) * pageSize;
    seq(|members|, i requires 0 <= i < |members| => Row(startIndex + i + 1, members[i], ReferralsCount(refs, members[i].id)))
  }

  /** What the table body shows. */
  datatype TableView =
    | Blank
    | NoMembers
    | Page(rows: seq<Row>, totalPages: nat)

  // ---------------------------------------------------------------------
  // Statistics
  // ---------------------------------------------------------------------

  datatype Stats = Stats(totalMembers: nat, activeMembers: nat, totalPoints: int)

  function ActiveCount(ms: seq<Member>): (n: nat)
    ensures n <= |ms|
  {
    if ms == [] then 0 else (if ms[0].user.status == "active" then 1 else 0) + ActiveCount(ms[1..])
  }

  function PointsTotal(ms: seq<Member>): int {
    if ms == [] then 0 else PointsOf(ms[0].user) + PointsTotal(ms[1..])
  }

  /** `updateStats`: member count, active count and `reduce` of `points || 0`. */
  function StatsOf(ms: seq<Member>): (st: Stats)
    ensures st.totalMembers == |ms|
    ensures st.activeMembers <= st.totalMembers
  {
    Stats(|ms|, ActiveCount(ms), PointsTotal(ms))
  }

  /** The active count is the number of members the status filter keeps. */
  lemma {:induction false} ActiveCountIsStatusFilter(ms: seq<Member>)
    ensures ActiveCount(ms) == |ApplyFilters(ms, Filters(None, "active", None, None, ""))|
  {
    if ms != [] {
      ActiveCountIsStatusFilter(ms[1..]);
    }
  }

  /** The statistics of two parts of the network add up. */
  lemma {:induction false} StatsAppend(a: seq<Member>, b: seq<Member>)
    ensures StatsOf(a + b) == Stats(|a| + |b|, ActiveCount(a) + ActiveCount(b), PointsTotal(a) + PointsTotal(b))
  {
    if a != [] {
      assert (a + b)[1..] == a[1..] + b;
      StatsAppend(a[1..], b);
      assert ActiveCount(a + b) == (if a[0].user.status == "active" then 1 else 0) + ActiveCount(a[1..] + b);
      assert PointsTotal(a + b) == PointsOf(a[0].user) + PointsTotal(a[1..] + b);
    } else {
      assert a + b == b;
    }
  }

  /** With no negative balances the points total is no less than any one member's points. */
  lemma {:induction false} PointsTotalBounds(ms: seq<Member>)
    requires forall i :: 0 <= i < |ms| ==> PointsOf(ms[i].user) >= 0
    ensures PointsTotal(ms) >= 0
    ensures forall i :: 0 <= i < |ms| ==> PointsOf(ms[i].user) <= PointsTotal(ms)
  {
    if ms != [] {
      PointsTotalBounds(ms[1..]);
      forall i | 1 <= i < |ms| ensures PointsOf(ms[i].user) <= PointsTotal(ms) {
        assert ms[1..][i - 1] == ms[i];
      }
    }
  }

  // ---------------------------------------------------------------------
  // The page object
  // ---------------------------------------------------------------------

  class Management {
    var allMembers: seq<Member>
    var filteredMembers: seq<Member>
    var currentSort: SortState
    var currentPage: int
    var pageSize: int
    var table: TableView
    var stats: Stats

    ghost predicate Valid()
      reads this
    {
      currentPage >= 1 && pageSize >= 1
    }

    /** What `renderManagementTable()` leaves for the current sort, page and
        page size: with no members the empty notice and the previous
        `filteredMembers`; otherwise the filtered members sorted, and the
        current page of them with the page count. */
    ghost predicate Rendered(refs: map<Id, seq<Referral>>, filters: Filters, previous: seq<Member>)
      reads this
    {
      && Valid()
      && if allMembers == [] then table == NoMembers && filteredMembers == previous
      else
        && multiset(filteredMembers) == multiset(ApplyFilters(allMembers, filters))
        && SortedBy(filteredMembers, currentSort)
        && table == Page(PageRows(refs, filteredMembers, currentPage, pageSize),
                         TotalPages(|filteredMembers|, pageSize))
    }

    /** The fields as the constructor sets them, before any data is loaded. */
    constructor ()
      ensures Valid()
      ensures allMembers == [] && filteredMembers == []
      ensures currentSort == SortState(JoinDate, Desc)
      ensures currentPage == 1 && pageSize == 10
      ensures table == Blank && stats == StatsOf([])
    {
      allMembers := [];
      filteredMembers := [];
      currentSort := SortState(JoinDate, Desc);
      currentPage := 1;
      pageSize := 10;
      table := Blank;
      stats := StatsOf([]);
    }

    /** `loadAllNetworkMembers(userId, currentLevel, maxLevel)`: the team walk
        with `allMembers` as its accumulator. */
    method LoadAllNetworkMembers(db: Database, userId: Id, currentLevel: int, maxLevel: int)
      modifies this`allMembers
      ensures allMembers == old(allMembers) + Walk(db.users, db.userReferrals, userId, currentLevel, maxLevel)
    {
      allMembers := LoadTeamMembers(db, userId, allMembers, currentLevel, maxLevel);
    }

    /** `renderManagementTable()`: with no members the table shows the empty
        notice and `filteredMembers` keeps its value; otherwise the filtered
        members are sorted in place, kept as `filteredMembers`, and the
        current page of them is shown. */
    method Render(db: Database, filters: Filters)
      requires Valid()
      modifies this`filteredMembers, this`table
      ensures Rendered(db.userReferrals, filters, old(filteredMembers))
    {
      if |allMembers| == 0 {
        table := NoMembers;
        return;
      }
      var matching := ApplyFilters(allMembers, filters);
      var a := new Member[|matching|](i requires 0 <= i < |matching| => matching[i]);
      assert a[..] == matching;
      SortMembers(a, currentSort);
      filteredMembers := a[..];
      var totalPages := TotalPages(|filteredMembers|, pageSize);
      var startIndex := (currentPage - 1) * pageSize;
      var currentPageMembers := PageSlice(filteredMembers, currentPage, pageSize);
      ghost var expected := PageRows(db.userReferrals, filteredMembers, currentPage, pageSize);
      var rows: seq<Row> := [];
      var i := 0;
      while i < |currentPageMembers|
        invariant 0 <= i <= |currentPageMembers|
        invariant rows == expected[..i]
      {
        var member := currentPageMembers[i];
        var referralsCount := ReferralsCount(db.userReferrals, member.id);
        rows := rows + [Row(startIndex + i + 1, member, referralsCount)];
        i := i + 1;
      }
      assert rows == expected;
      table := Page(rows, totalPages);
    }

    /** `updateStats()` */
    method UpdateStats()
      modifies this`stats
      ensures stats == StatsOf(allMembers)
      ensures stats.activeMembers <= stats.totalMembers == |allMembers|
    {
      stats := StatsOf(allMembers);
    }

    /** `loadManagementData()`: nothing without a signed-in user; otherwise
        the whole network to depth `NetworkDepth`, then the table, then the
        statistics. */
    method LoadManagementData(db: Database, currentUser: Option<Id>, filters: Filters)
      requires Valid()
      modifies this`allMembers, this`filteredMembers, this`table, this`stats
      ensures currentUser.None? ==> unchanged(this)
      ensures currentUser.Some? ==>
        && allMembers == Walk(db.users, db.userReferrals, currentUser.value, 0, NetworkDepth)
        && stats == StatsOf(allMembers)
        && Rendered(db.userReferrals, filters, old(filteredMembers))
    {
      if currentUser.None? {
        return;
      }
      allMembers := [];
      LoadAllNetworkMembers(db, currentUser.value, 0, NetworkDepth);
      Render(db, filters);
      UpdateStats();
    }

    /** `applyFilters()` and `resetFilters()`: back to page 1, then render
        with the inputs as they now stand (all cleared, for a reset). */
    method ApplyFiltersAndRender(db: Database, filters: Filters)
      requires Valid()
      modifies this`currentPage, this`filteredMembers, this`table
      ensures Valid() && currentPage == 1
      ensures Rendered(db.userReferrals, filters, old(filteredMembers))
    {
      currentPage := 1;
      Render(db, filters);
    }

    /** `toggleSortOrder(button, field)` */
    method ToggleSortOrder(db: Database, field: SortField, filters: Filters)
      requires Valid()
      modifies this`currentSort, this`filteredMembers, this`table
      ensures Valid()
      ensures currentSort == Toggled(old(currentSort), field)
      ensures Rendered(db.userReferrals, filters, old(filteredMembers))
    {
      if currentSort.field == field {
        currentSort := currentSort.(direction := if currentSort.direction == Asc then Desc else Asc);
      } else {
        currentSort := SortState(field, Asc);
      }
      Render(db, filters);
    }

    /** `goToPrevPage()`: never below page 1. */
    method GoToPrevPage(db: Database, filters: Filters)
      requires Valid()
      modifies this`currentPage, this`filteredMembers, this`table
      ensures Valid()
      ensures currentPage == if old(currentPage) > 1 then old(currentPage) - 1 else old(currentPage)
      ensures old(currentPage) == 1 ==> unchanged(this)
      ensures old(currentPage) > 1 ==> Rendered(db.userReferrals, filters, old(filteredMembers))
    {
      if currentPage > 1 {
        currentPage := currentPage - 1;
        Render(db, filters);
      }
    }

    /** `goToNextPage()`: never past the last page of `filteredMembers`. */
    method GoToNextPage(db: Database, filters: Filters)
      requires Valid()
      modifies this`currentPage, this`filteredMembers, this`table
      ensures Valid()
      ensures var last := TotalPages(|old(filteredMembers)|, pageSize);
        && currentPage == (if old(currentPage) < last then old(currentPage) + 1 else old(currentPage))
        && (old(currentPage) <= last ==> currentPage <= last)
        && (old(currentPage) < last ==> Rendered(db.userReferrals, filters, old(filteredMembers)))
        && (old(currentPage) >= last ==> unchanged(this))
    {
      var totalPages := TotalPages(|filteredMembers|, pageSize);
      if currentPage < totalPages {
        currentPage := currentPage + 1;
        Render(db, filters);
      }
    }

    /** `changePageSize()`: the new size, back to page 1. */
    method ChangePageSize(db: Database, size: int, filters: Filters)
      requires Valid() && size >= 1
      modifies this`pageSize, this`currentPage, this`filteredMembers, this`table
      ensures Valid() && pageSize == size && currentPage == 1
      ensures Rendered(db.userReferrals, filters, old(filteredMembers))
    {
      pageSize := size;
      currentPage := 1;
      Render(db, filters);
    }
  }
}
