/**
 * The shared `App` object's data rules: the referral code a new account
 * gets, the record written at registration, the referral edge and the
 * referrer's count written for a referred sign-up, and the rank titles.
 */
module App {
  import opened Store
  import opened Ranks

  // ---------------------------------------------------------------------
  // Referral codes
  // ---------------------------------------------------------------------

  /** `characters` in `generateReferralCode`. */
  const Alphabet := "ABCDEFGHIJKLMNOPQRSTUVWXYZ0123456789"

  const CodeLength := 8

  /** A code `generateReferralCode` can produce. */
  predicate IsReferralCode(code: string) {
    |code| == CodeLength && forall i :: 0 <= i < |code| ==> code[i] in Alphabet
  }

  /** Indices `Math.floor(Math.random() * characters.length)` can yield. */
  predicate IsDraws(draws: seq<int>) {
    |draws| == CodeLength && forall i :: 0 <= i < |draws| ==> 0 <= draws[i] < |Alphabet|
  }

  /** The code spelled by a sequence of draws. */
  function CodeFrom(draws: seq<int>): (code: string)
    requires forall i :: 0 <= i < |draws| ==> 0 <= draws[i] < |Alphabet|
    ensures |code| == |draws|
    ensures forall i :: 0 <= i < |draws| ==> code[i] == Alphabet[draws[i]]
  {
    seq(|draws|, i requires 0 <= i < |draws| => Alphabet[draws[i]])
  }

  /** `generateReferralCode()`: eight characters appended one at a time;
      `draws` stands for the eight random indices. */
  method GenerateReferralCode(draws: seq<int>) returns (result: string)
    requires IsDraws(draws)
    ensures IsReferralCode(result)
    ensures result == CodeFrom(draws)
  {
    result := "";
    var i := 0;
    while i < CodeLength
      invariant 0 <= i <= CodeLength
      invariant result == CodeFrom(draws[..i])
    {
      result := result + [Alphabet[draws[i]]];
      i := i + 1;
    }
    assert draws[..CodeLength] == draws;
  }

  /** The position of a character in `Alphabet`. */
  function IndexOf(c: char): (k: int)
    requires c in Alphabet
    ensures 0 <= k < |Alphabet| && Alphabet[k] == c
  {
    IndexFrom(c, 0)
  }

  function IndexFrom(c: char, start: nat): (k: int)
    requires start <= |Alphabet|
    requires c in Alphabet[start..]
    ensures start <= k < |Alphabet| && Alphabet[k] == c
    decreases |Alphabet| - start
  {
    if Alphabet[start] == c then start else IndexFrom(c, start + 1)
  }

  /** The draws that spell a code. */
  function DrawsOf(code: string): (draws: seq<int>)
    requires forall i :: 0 <= i < |code| ==> code[i] in Alphabet
    ensures |draws| == |code|
    ensures forall i :: 0 <= i < |draws| ==> 0 <= draws[i] < |Alphabet|
  {
    seq(|code|, i requires 0 <= i < |code| => IndexOf(code[i]))
  }

  /** Every well-formed code is produced by some draws. */
  lemma EveryCodeIsDrawn(code: string)
    requires IsReferralCode(code)
    ensures IsDraws(DrawsOf(code)) && CodeFrom(DrawsOf(code)) == code
  {
  }

  /** The 36 characters are distinct, so different draws give different codes. */
  lemma DistinctDrawsDistinctCodes(d: seq<int>, e: seq<int>)
    requires IsDraws(d) && IsDraws(e) && d != e
    ensures CodeFrom(d) != CodeFrom(e)
  {
    var i :| 0 <= i < CodeLength && d[i] != e[i];
    DistinctCharacters(d[i], e[i]);
    assert CodeFrom(d)[i] != CodeFrom(e)[i];
  }

  /** Reading a code back yields the draws that spelled it. */
  lemma DrawsRoundTrip(draws: seq<int>)
    requires IsDraws(draws)
    ensures DrawsOf(CodeFrom(draws)) == draws
  {
    var back := DrawsOf(CodeFrom(draws));
    forall i | 0 <= i < |draws| ensures back[i] == draws[i] {
      if back[i] != draws[i] {
        DistinctCharacters(back[i], draws[i]);
      }
    }
  }

  /** The alphabet is the 26 capital letters, then the 10 digits. */
  lemma AlphabetShape(j: int)
    requires 0 <= j < |Alphabet|
    ensures Alphabet[j] as int == if j < 26 then 'A' as int + j else '0' as int + (j - 26)
  {
  }

  lemma DistinctCharacters(j: int, k: int)
    requires 0 <= j < |Alphabet| && 0 <= k < |Alphabet| && j != k
    ensures Alphabet[j] != Alphabet[k]
  {
    AlphabetShape(j);
    AlphabetShape(k);
  }

  // ---------------------------------------------------------------------
  // Rank titles
  // ---------------------------------------------------------------------

  /** The rank-0 title, also the fallback of the lookup. */
  const BeginnerTitle := "مبتدئ"

  /** `getRankTitle(rank)`: the title of ranks 0..5, the rank-0 title otherwise. */
  function RankTitle(rank: int): (title: string)
    ensures title == BeginnerTitle <==> !(1 <= rank <= TopRank)
  {
    match rank
    case 1 => "عضو"
    case 2 => "قائد"
    case 3 => "نائب مدير"
    case 4 => "مدير"
    case 5 => "مدير عام"
    case _ => BeginnerTitle
  }

  /** The six ranks of the ladder have six different titles. */
  lemma RankTitlesDistinct(r: int, s: int)
    requires 0 <= r <= TopRank && 0 <= s <= TopRank && r != s
    ensures RankTitle(r) != RankTitle(s)
  {
  }

  // ---------------------------------------------------------------------
  // Registration
  // ---------------------------------------------------------------------

  /** The registration form's four inputs. */
  datatype RegisterForm = RegisterForm(name: string, email: string, password: string, referralCode: string)

  /** `if (!name || !email || !password)` */
  predicate MissingFields(form: RegisterForm) {
    form.name == "" || form.email == "" || form.password == ""
  }

  /** The record `handleRegister` stores under `users/<uid>`. */
  function NewUserRecord(form: RegisterForm, code: string, now: int): (u: User)
    ensures u.name == form.name && u.email == form.email && u.referralCode == code
    ensures u.referredBy == if form.referralCode == "" then None else Some(form.referralCode)
  {
    User(form.name, form.email, code, Some(0), Some(0), now,
         if form.referralCode == "" then None else Some(form.referralCode), "active", false, None)
  }

  /** A new account starts on the bottom rung: no points, rank 0, the
      beginner's title, active and not an administrator, and the next
      award promotes it only at the member threshold. */
  lemma NewUserStartsAtBottom(form: RegisterForm, code: string, now: int, uid: Id, refs: map<Id, seq<Referral>>, users: map<Id, User>, points: int)
    ensures var u := NewUserRecord(form, code, now);
      && PointsOf(u) == 0 && RankOf(u) == 0 && RankTitle(RankOf(u)) == BeginnerTitle
      && u.status == "active" && !u.isAdmin
      && (Promotion(users[uid := u], refs, uid, points).Some? <==> points >= MemberThreshold)
  {
  }

  /** `getUserIdFromReferralCode(code)`, followed by `if (!referrerId) return`. */
  function Referrer(codes: map<string, Id>, code: string): (r: Option<Id>)
    ensures r.Some? <==> code in codes && codes[code] != ""
    ensures r.Some? ==> r.value == codes[code]
  {
    if code in codes && codes[code] != "" then Some(codes[code]) else None
  }

  /** The children stored under `userReferrals/<referrer>`, none if absent. */
  function Children(refs: map<Id, seq<Referral>>, referrer: Id): seq<Referral> {
    if referrer in refs then refs[referrer] else []
  }

  /** The referral map after `set(userReferrals/<referrer>/<newUserId>, edge)`. */
  function AddEdge(refs: map<Id, seq<Referral>>, referrer: Id, newUserId: Id, edge: Edge): map<Id, seq<Referral>> {
    refs[referrer := PutChild(Children(refs, referrer), Referral(newUserId, edge))]
  }

  /** The snapshot `processReferral` stores for a referred sign-up. */
  function ReferralEdge(name: string, email: string, now: int): Edge {
    Edge(name, email, now, 1, "active")
  }

  /** The user map after `update(users/<id>, {referralsCount: n})`. */
  function WithCount(users: map<Id, User>, id: Id, n: int): map<Id, User> {
    if id in users then users[id := users[id].(referralsCount := Some(n))] else users
  }

  /** A referral adds the new user under the referrer exactly once: the
      count rises by one unless the key was already there, and the other
      referrers' lists are untouched. */
  lemma {:induction false} ReferralCountAfterEdge(refs: map<Id, seq<Referral>>, referrer: Id, newUserId: Id, edge: Edge)
    requires DistinctIds(Children(refs, referrer))
    ensures var after := AddEdge(refs, referrer, newUserId, edge);
      && ReferralsCount(after, referrer)
           == ReferralsCount(refs, referrer) + (if HasChild(Children(refs, referrer), newUserId) then 0 else 1)
      && Referral(newUserId, edge) in after[referrer]
      && DistinctIds(after[referrer])
      && forall p :: p != referrer ==> (p in after <==> p in refs) && (p in refs ==> after[p] == refs[p])
  {
    PutChildShape(Children(refs, referrer), Referral(newUserId, edge));
  }

  /** The writes `processReferral` issues for a referrer it resolved. */
  function ReferralWrites(refs: map<Id, seq<Referral>>, referrer: Id, newUserId: Id, edge: Edge): seq<Write> {
    [PutReferral(referrer, newUserId, edge),
     SetReferralsCount(referrer, ReferralsCount(AddEdge(refs, referrer, newUserId, edge), referrer))]
  }

  /** `updateReferrerStats(referrerId)`: the referrer's `referralsCount`
      becomes the number of keys under its referrals. */
  method UpdateReferrerStats(db: Database, referrerId: Id)
    modifies db`users, db`log
    ensures db.users == WithCount(old(db.users), referrerId, ReferralsCount(db.userReferrals, referrerId))
    ensures db.log == old(db.log) + [SetReferralsCount(referrerId, ReferralsCount(db.userReferrals, referrerId))]
  {
    var referralsCount := ReferralsCount(db.userReferrals, referrerId);
    db.SetReferralsCountOf(referrerId, referralsCount);
  }

  /** `processReferral(code, newUserId, name, email)`: nothing when the code
      resolves to no user; otherwise the edge, then the referrer's count. */
  method ProcessReferral(db: Database, referralCode: string, newUserId: Id, name: string, email: string, now: int)
    requires referralCode != ""
    requires db.Valid()
    modifies db`userReferrals, db`users, db`log
    ensures db.Valid()
    ensures Referrer(old(db.referralCodes), referralCode).None? ==> unchanged(db)
    ensures Referrer(old(db.referralCodes), referralCode).Some? ==>
      var referrer := Referrer(old(db.referralCodes), referralCode).value;
      var edge := ReferralEdge(name, email, now);
      var refs := AddEdge(old(db.userReferrals), referrer, newUserId, edge);
      && db.userReferrals == refs
      && db.users == WithCount(old(db.users), referrer, ReferralsCount(refs, referrer))
      && db.log == old(db.log) + ReferralWrites(old(db.userReferrals), referrer, newUserId, edge)
  {
    var referrerId := Referrer(db.referralCodes, referralCode);
    if referrerId.None? {
      return;
    }
    var edge := ReferralEdge(name, email, now);
    db.PutReferralEdge(referrerId.value, newUserId, edge);
    UpdateReferrerStats(db, referrerId.value);
  }

  datatype RegisterOutcome = FieldsMissing | Registered(code: string)

  /** `handleRegister()` after the account exists: `uid` is the id the
      authentication service assigned and `draws` the random indices of
      the new code.  A missing field stops it before any write; otherwise
      the user record, then the code index, then the referral when a code
      was typed. */
  method Register(db: Database, form: RegisterForm, uid: Id, draws: seq<int>, now: int) returns (outcome: RegisterOutcome)
    requires IsDraws(draws)
    requires db.Valid()
    modifies db`users, db`referralCodes, db`userReferrals, db`log
    ensures db.Valid()
    ensures outcome == FieldsMissing <==> MissingFields(form)
    ensures outcome == FieldsMissing ==> unchanged(db)
    ensures outcome.Registered? ==>
      var code := CodeFrom(draws);
      var record := NewUserRecord(form, code, now);
      var codes := old(db.referralCodes)[code := uid];
      var referrer := if form.referralCode == "" then None else Referrer(codes, form.referralCode);
      var edge := ReferralEdge(form.name, form.email, now);
      && outcome.code == code && IsReferralCode(code)
      && db.referralCodes == codes
      && (referrer.None? ==>
            && db.users == old(db.users)[uid := record]
            && db.userReferrals == old(db.userReferrals)
            && db.log == old(db.log) + [PutUser(uid, record), PutCode(code, uid)])
      && (referrer.Some? ==>
            var refs := AddEdge(old(db.userReferrals), referrer.value, uid, edge);
            && db.userReferrals == refs
            && db.users == WithCount(old(db.users)[uid := record], referrer.value, ReferralsCount(refs, referrer.value))
            && db.log == old(db.log) + [PutUser(uid, record), PutCode(code, uid)]
                         + ReferralWrites(old(db.userReferrals), referrer.value, uid, edge))
      && uid in db.users && db.users[uid].referralCode == code && db.referralCodes[code] == uid
      && PointsOf(db.users[uid]) == 0 && RankOf(db.users[uid]) == 0
  {
    if MissingFields(form) {
      return FieldsMissing;
    }
    var userReferralCode := GenerateReferralCode(draws);
    var record := NewUserRecord(form, userReferralCode, now);
    db.PutUserRecord(uid, record);
    db.PutReferralCode(userReferralCode, uid);
    if form.referralCode != "" {
      ProcessReferral(db, form.referralCode, uid, form.name, form.email, now);
    }
    outcome := Registered(userReferralCode);
  }
}
