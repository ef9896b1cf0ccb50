/**
 * The views of core/views.py as a state machine over one snapshot of the
 * ledger store: for each view, the store it leaves behind and the outcome it
 * reports. The Ledger class (ledger.dfy) performs the same steps in place and
 * is proved to end in exactly these states.
 */
module Transitions {
  import opened Models

  /** The store: registered users, one profile per user, the loan table and the repayment table. */
  datatype Db = Db(
    users: set<UserId>,
    profiles: map<UserId, Profile>,
    loans: seq<Loan>,
    repayments: seq<Repayment>)

  /** Loans strictly below this amount (1000 units) are approved on application. */
  const AutoApproveBelow: Cents := 100_000

  // ---------------------------------------------------------------- queries

  predicate IsLoanOf(l: Loan, user: UserId, s: Status)
  {
    l.borrower == user && l.status == s
  }

  /**
   * `Loan.objects.filter(borrower=user, status__in=['Active', 'Pending']).exists()`:
   * it holds iff the dashboard's `first()` queries find an Active or a Pending loan.
   */
  function HasOpenLoan(loans: seq<Loan>, user: UserId): (r: bool)
    ensures r <==> FirstWithStatus(loans, user, Active).Some? || FirstWithStatus(loans, user, Pending).Some?
  {
    exists i :: 0 <= i < |loans| && loans[i].borrower == user && loans[i].status.IsOpen()
  }

  function FirstWithStatusFrom(loans: seq<Loan>, user: UserId, s: Status, from: nat): (r: Option<LoanId>)
    requires from <= |loans|
    ensures r.Some? ==> from <= r.value < |loans| && IsLoanOf(loans[r.value], user, s)
    ensures r.Some? ==> forall j :: from <= j < r.value ==> !IsLoanOf(loans[j], user, s)
    ensures r.None? ==> forall j :: from <= j < |loans| ==> !IsLoanOf(loans[j], user, s)
    decreases |loans| - from
  {
    if from == |loans| then None
    else if IsLoanOf(loans[from], user, s) then Some(from)
    else FirstWithStatusFrom(loans, user, s, from + 1)
  }

  /**
   * `Loan.objects.filter(borrower=user, status=s).first()`: with no ordering
   * given, `first()` takes the row with the lowest id.
   */
  function FirstWithStatus(loans: seq<Loan>, user: UserId, s: Status): (r: Option<LoanId>)
    ensures r.Some? ==> r.value < |loans| && IsLoanOf(loans[r.value], user, s)
    ensures r.Some? ==> forall j :: 0 <= j < r.value ==> !IsLoanOf(loans[j], user, s)
    ensures r.None? <==> forall j :: 0 <= j < |loans| ==> !IsLoanOf(loans[j], user, s)
  {
    FirstWithStatusFrom(loans, user, s, 0)
  }

  // ---------------------------------------------------------------- profiles

  /** `Profile.objects.get_or_create(user=user)`. */
  function EnsureProfile(db: Db, user: UserId): (r: Db)
    ensures r == db.(profiles := r.profiles)
    ensures r.profiles.Keys == db.profiles.Keys + {user}
    ensures r.profiles[user] == if user in db.profiles then db.profiles[user] else NewProfile
    ensures forall u :: u in db.profiles ==> r.profiles[u] == db.profiles[u]
  {
    if user in db.profiles then db else db.(profiles := db.profiles[user := NewProfile])
  }

  /** The three fields ProfileForm submits. */
  datatype ProfileForm = ProfileForm(
    nationalId: Option<string>,
    phoneNumber: Option<string>,
    monthlyIncome: Option<Cents>)

  /** ProfileForm validation: it accepts exactly the submissions whose profile the columns can hold. */
  predicate ProfileFormValid(f: ProfileForm)
  {
    ProfileFits(Profile(f.nationalId, f.phoneNumber, f.monthlyIncome, true))
  }

  datatype VerifyOutcome = ProfileVerified | ProfileFormInvalid

  /**
   * `verify_profile` on a submitted form: the profile is fetched or created,
   * and a valid form overwrites its three fields and marks it verified.
   */
  function VerifyProfile(db: Db, user: UserId, f: ProfileForm): (r: (Db, VerifyOutcome))
    ensures r.1 == ProfileVerified <==> ProfileFormValid(f)
    ensures r.0 == db.(profiles := r.0.profiles)
    ensures r.0.profiles.Keys == db.profiles.Keys + {user}
    ensures r.0.profiles - {user} == db.profiles - {user}
    ensures r.1 == ProfileVerified ==>
      r.0.profiles[user] == Profile(f.nationalId, f.phoneNumber, f.monthlyIncome, true)
    ensures r.1 == ProfileFormInvalid ==> r.0 == EnsureProfile(db, user)
  {
    var db1 := EnsureProfile(db, user);
    if ProfileFormValid(f) then
      var p := db1.profiles[user].(nationalId := f.nationalId, phoneNumber := f.phoneNumber,
                                   monthlyIncome := f.monthlyIncome, verified := true);
      (db1.(profiles := db1.profiles[user := p]), ProfileVerified)
    else
      (db1, ProfileFormInvalid)
  }

  datatype StaffVerifyOutcome = UserNotFound | UserVerified

  /**
   * `verify_user_admin`: an unknown user is a 404; otherwise the user's profile
   * is fetched or created and marked verified, its other fields kept.
   */
  function VerifyUserAdmin(db: Db, pk: UserId): (r: (Db, StaffVerifyOutcome))
    ensures r.1 == UserVerified <==> pk in db.users
    ensures r.1 == UserNotFound ==> r.0 == db
    ensures r.0 == db.(profiles := r.0.profiles)
    ensures r.1 == UserVerified ==>
      && r.0.profiles.Keys == db.profiles.Keys + {pk}
      && r.0.profiles - {pk} == db.profiles - {pk}
      && r.0.profiles[pk] == EnsureProfile(db, pk).profiles[pk].(verified := true)
  {
    if pk !in db.users then (db, UserNotFound)
    else
      var db1 := EnsureProfile(db, pk);
      (db1.(profiles := db1.profiles[pk := db1.profiles[pk].(verified := true)]), UserVerified)
  }

  // ---------------------------------------------------------------- loans

  datatype ApplyOutcome = MustVerify | OpenLoanExists | LoanFormInvalid | LoanCreated(id: LoanId)

  /** The status a new loan is created in: approved below the threshold, otherwise for review. */
  function InitialStatus(amount: Cents): (s: Status)
    ensures s == Active <==> amount < AutoApproveBelow
    ensures s == Pending <==> amount >= AutoApproveBelow
  {
    if amount < AutoApproveBelow then Active else Pending
  }

  predicate IsVerified(db: Db, user: UserId)
  {
    user in db.profiles && db.profiles[user].verified
  }

  /**
   * `apply_loan` on a submitted form. The profile is fetched or created first;
   * an unverified profile, an open loan of the borrower, or an invalid amount
   * stops the view before anything else is written. `now` is the clock read
   * by Loan.save for the due date, `stampedAt` the one for the creation time.
   */
  function ApplyLoan(db: Db, user: UserId, amount: Cents, termDays: int, now: Instant, stampedAt: Instant): (r: (Db, ApplyOutcome))
    ensures r.1 == MustVerify <==> !IsVerified(db, user)
    ensures r.1 == OpenLoanExists <==> IsVerified(db, user) && HasOpenLoan(db.loans, user)
    ensures r.1.LoanCreated? <==>
      IsVerified(db, user) && !HasOpenLoan(db.loans, user) && FitsAmountField(amount)
    ensures !r.1.LoanCreated? ==> r.0 == EnsureProfile(db, user)
    ensures r.1.LoanCreated? ==>
      && r.1.id == |db.loans|
      && |r.0.loans| == |db.loans| + 1
      && r.0 == db.(loans := db.loans + [r.0.loans[r.1.id]])
    ensures r.1.LoanCreated? ==>
      var l := r.0.loans[r.1.id];
      && l.borrower == user && l.amount == amount && l.termDays == termDays
      && l.status == InitialStatus(amount)
      && l.createdAt == stampedAt
      && l.dueDate == (if termDays != 0 then Some(DateOf(now) + termDays) else None)
  {
    var db1 := EnsureProfile(db, user);
    if !db1.profiles[user].verified then (db1, MustVerify)
    else if HasOpenLoan(db1.loans, user) then (db1, OpenLoanExists)
    else if !FitsAmountField(amount) then (db1, LoanFormInvalid)
    else
      var draft := DraftFromForm(user, amount, termDays).(status := InitialStatus(amount));
      (db1.(loans := db1.loans + [FirstSave(draft, now, stampedAt)]), LoanCreated(|db1.loans|))
  }

  datatype RepayOutcome =
    | NoActiveLoan
    | RepaymentFormInvalid
    | RepaymentAccepted(loan: LoanId)
    | LoanPaidOff(loan: LoanId)

  /**
   * `repay_loan` on a submitted form: a repayment of the borrower's first
   * Active loan is appended, and that loan becomes Paid iff its balance,
   * counting the new repayment, is at most zero. The amount's sign is not checked.
   */
  function RepayLoan(db: Db, user: UserId, amount: Cents, now: Instant): (r: (Db, RepayOutcome))
    ensures r.1 == NoActiveLoan <==> FirstWithStatus(db.loans, user, Active).None?
    ensures r.1 == RepaymentFormInvalid <==>
      FirstWithStatus(db.loans, user, Active).Some? && !FitsAmountField(amount)
    ensures r.1 == NoActiveLoan || r.1 == RepaymentFormInvalid ==> r.0 == db
    ensures r.1.RepaymentAccepted? || r.1.LoanPaidOff? ==>
      var id := r.1.loan;
      var reps := db.repayments + [Repayment(id, amount, now)];
      && FirstWithStatus(db.loans, user, Active) == Some(id)
      && r.0 == db.(repayments := reps, loans := r.0.loans)
      && |r.0.loans| == |db.loans|
      && (forall i :: 0 <= i < |db.loans| && i != id ==> r.0.loans[i] == db.loans[i])
      && r.0.loans[id] == db.loans[id].(status := r.0.loans[id].status)
      && (r.1.LoanPaidOff? <==> Balance(db.loans[id], reps, id) <= 0)
      && r.0.loans[id].status == (if r.1.LoanPaidOff? then Paid else Active)
  {
    match FirstWithStatus(db.loans, user, Active)
    case None => (db, NoActiveLoan)
    case Some(id) =>
      if !FitsAmountField(amount) then (db, RepaymentFormInvalid)
      else
        var db1 := db.(repayments := db.repayments + [Repayment(id, amount, now)]);
        if Balance(db1.loans[id], db1.repayments, id) <= 0 then
          (db1.(loans := db1.loans[id := Resave(db1.loans[id], Paid, now)]), LoanPaidOff(id))
        else
          (db1, RepaymentAccepted(id))
  }

  datatype DecisionOutcome = LoanNotFound | Decided | NotPending

  /** A staff decision: a 404 for an unknown id, the move `to` for a Pending loan, nothing otherwise. */
  function Decide(db: Db, pk: LoanId, to: Status, now: Instant): (r: (Db, DecisionOutcome))
    ensures r.1 == LoanNotFound <==> pk >= |db.loans|
    ensures r.1 == Decided <==> pk < |db.loans| && db.loans[pk].status == Pending
    ensures r.1 != Decided ==> r.0 == db
    ensures r.1 == Decided ==> r.0 == db.(loans := db.loans[pk := db.loans[pk].(status := to)])
  {
    if pk >= |db.loans| then (db, LoanNotFound)
    else if db.loans[pk].status == Pending then
      (db.(loans := db.loans[pk := Resave(db.loans[pk], to, now)]), Decided)
    else (db, NotPending)
  }

  /** `approve_loan`: Pending becomes Active. */
  function ApproveLoan(db: Db, pk: LoanId, now: Instant): (r: (Db, DecisionOutcome))
    ensures r.1 == Decided ==> pk < |r.0.loans| && r.0.loans[pk].status == Active
  {
    Decide(db, pk, Active, now)
  }

  /** `reject_loan`: Pending becomes Rejected. */
  function RejectLoan(db: Db, pk: LoanId, now: Instant): (r: (Db, DecisionOutcome))
    ensures r.1 == Decided ==> pk < |r.0.loans| && r.0.loans[pk].status == Rejected
  {
    Decide(db, pk, Rejected, now)
  }

  // ---------------------------------------------------------------- listing

  /** The `status` query parameter: absent or empty lists every loan. */
  predicate MatchesFilter(l: Loan, filter: Option<string>)
  {
    filter.None? || filter.value == "" || l.status.Name() == filter.value
  }

  /** Filtering by a status's stored name selects exactly the loans in that status. */
  lemma FilterByStatusName(l: Loan, s: Status)
    ensures MatchesFilter(l, Some(s.Name())) <==> l.status == s
  {
    StatusNameInjective(l.status, s);
  }

  /** A non-empty filter that is no status's name selects no loan. */
  lemma FilterByUnknownName(l: Loan, n: string)
    requires n != "" && ParseStatus(n).None?
    ensures !MatchesFilter(l, Some(n))
  {
    StatusNameRoundTrip(l.status);
  }

  /** The ids below `n` of the loans the filter selects, in increasing order. */
  function FilteredIds(loans: seq<Loan>, filter: Option<string>, n: nat): (ids: seq<LoanId>)
    requires n <= |loans|
    ensures forall k :: 0 <= k < |ids| ==> ids[k] < n && MatchesFilter(loans[ids[k]], filter)
    ensures forall i :: 0 <= i < n && MatchesFilter(loans[i], filter) ==> i in ids
    ensures forall a, b :: 0 <= a < b < |ids| ==> ids[a] < ids[b]
  {
    if n == 0 then []
    else FilteredIds(loans, filter, n - 1) + (if MatchesFilter(loans[n - 1], filter) then [n - 1] else [])
  }

  /** `order_by('-created_at')`: newer loans first (ties in either order). */
  predicate NewestFirst(loans: seq<Loan>, ids: seq<LoanId>)
  {
    && (forall k :: 0 <= k < |ids| ==> ids[k] < |loans|)
    && (forall a, b :: 0 <= a < b < |ids| ==> loans[ids[a]].createdAt >= loans[ids[b]].createdAt)
  }

  function InsertNewest(loans: seq<Loan>, sorted: seq<LoanId>, i: LoanId): (r: seq<LoanId>)
    requires i < |loans| && NewestFirst(loans, sorted)
    ensures NewestFirst(loans, r)
    ensures multiset(r) == multiset(sorted) + multiset{i}
  {
    if sorted == [] then [i]
    else if loans[i].createdAt >= loans[sorted[0]].createdAt then [i] + sorted
    else
      var rest := InsertNewest(loans, sorted[1..], i);
      assert sorted == [sorted[0]] + sorted[1..];
      HeadIsNewest(loans, sorted, i, rest);
      [sorted[0]] + rest
  }

  /** The head of a newest-first list is at least as new as anything inserted behind it. */
  lemma HeadIsNewest(loans: seq<Loan>, sorted: seq<LoanId>, i: LoanId, rest: seq<LoanId>)
    requires i < |loans| && NewestFirst(loans, sorted) && sorted != []
    requires loans[i].createdAt < loans[sorted[0]].createdAt
    requires NewestFirst(loans, rest) && multiset(rest) == multiset(sorted[1..]) + multiset{i}
    ensures forall b :: 0 <= b < |rest| ==> loans[sorted[0]].createdAt >= loans[rest[b]].createdAt
  {
    forall b | 0 <= b < |rest|
      ensures loans[sorted[0]].createdAt >= loans[rest[b]].createdAt
    {
      assert rest[b] in multiset(rest);
      if rest[b] != i {
        assert rest[b] in multiset(sorted[1..]);
        var j :| 0 <= j < |sorted[1..]| && sorted[1..][j] == rest[b];
        assert sorted[j + 1] == rest[b];
      }
    }
  }

  function SortNewestFirst(loans: seq<Loan>, ids: seq<LoanId>): (r: seq<LoanId>)
    requires forall k :: 0 <= k < |ids| ==> ids[k] < |loans|
    ensures NewestFirst(loans, r)
    ensures multiset(r) == multiset(ids)
  {
    if ids == [] then []
    else
      assert ids == [ids[0]] + ids[1..];
      InsertNewest(loans, SortNewestFirst(loans, ids[1..]), ids[0])
  }

  /** A strictly increasing sequence holds each of its elements exactly once. */
  lemma {:induction false} IncreasingMeansOnce(ids: seq<LoanId>)
    requires forall a, b :: 0 <= a < b < |ids| ==> ids[a] < ids[b]
    ensures forall x :: multiset(ids)[x] == if x in ids then 1 else 0
  {
    if ids != [] {
      IncreasingMeansOnce(ids[1..]);
      assert ids == [ids[0]] + ids[1..];
      assert ids[0] !in ids[1..];
    }
  }

  /**
   * `admin_loans`: every loan the status filter selects, each exactly once,
   * newest first.
   */
  function AdminLoans(loans: seq<Loan>, filter: Option<string>): (r: seq<LoanId>)
    ensures NewestFirst(loans, r)
    ensures forall i :: 0 <= i < |loans| ==>
      multiset(r)[i] == if MatchesFilter(loans[i], filter) then 1 else 0
    ensures forall k :: 0 <= k < |r| ==> MatchesFilter(loans[r[k]], filter)
  {
    var ids := FilteredIds(loans, filter, |loans|);
    IncreasingMeansOnce(ids);
    var r := SortNewestFirst(loans, ids);
    assert forall k :: 0 <= k < |r| ==> r[k] in multiset(ids);
    r
  }

  /** `?status=<name of s>` lists exactly the loans in status s, each once. */
  lemma AdminLoansByStatus(loans: seq<Loan>, s: Status)
    ensures forall i :: 0 <= i < |loans| ==>
      multiset(AdminLoans(loans, Some(s.Name())))[i] == if loans[i].status == s then 1 else 0
  {
    forall i | 0 <= i < |loans| {
      FilterByStatusName(loans[i], s);
    }
  }

  /** A non-empty `?status=` that names no status lists nothing. */
  lemma AdminLoansUnknownStatus(loans: seq<Loan>, n: string)
    requires n != "" && ParseStatus(n).None?
    ensures AdminLoans(loans, Some(n)) == []
  {
    var r := AdminLoans(loans, Some(n));
    if r != [] {
      FilterByUnknownName(loans[r[0]], n);
    }
  }

  // ---------------------------------------------------------------- invariants

  /** Profiles and loans belong to registered users; repayments reference stored loans. */
  ghost predicate Consistent(db: Db)
  {
    && db.profiles.Keys <= db.users
    && (forall i :: 0 <= i < |db.loans| ==> db.loans[i].borrower in db.users)
    && (forall k :: 0 <= k < |db.repayments| ==> db.repayments[k].loan < |db.loans|)
  }

  /** No borrower holds two loans that are both Pending or Active. */
  ghost predicate OneOpenLoanPerBorrower(loans: seq<Loan>)
  {
    forall i, j :: 0 <= i < j < |loans| && loans[i].borrower == loans[j].borrower ==>
      !(loans[i].status.IsOpen() && loans[j].status.IsOpen())
  }

  /** Only a loan that was Active has ever been repaid, so every repaid loan is Active or Paid. */
  ghost predicate RepaidLoansActiveOrPaid(db: Db)
  {
    forall k :: 0 <= k < |db.repayments| && db.repayments[k].loan < |db.loans| ==>
      db.loans[db.repayments[k].loan].status in {Active, Paid}
  }

  /** A Paid loan owes nothing (overpayment leaves its balance below zero). */
  ghost predicate PaidLoansSettled(db: Db)
  {
    forall i :: 0 <= i < |db.loans| && db.loans[i].status == Paid ==>
      Balance(db.loans[i], db.repayments, i) <= 0
  }

  /** Every stored profile fits its columns. */
  ghost predicate StoredProfilesFit(db: Db)
  {
    forall u :: u in db.profiles ==> ProfileFits(db.profiles[u])
  }

  ghost predicate Invariant(db: Db)
  {
    && Consistent(db)
    && StoredProfilesFit(db)
    && OneOpenLoanPerBorrower(db.loans)
    && RepaidLoansActiveOrPaid(db)
    && PaidLoansSettled(db)
  }
}
