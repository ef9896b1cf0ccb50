/**
 * What the views promise, proved about the state machine of Transitions:
 * the ledger invariants every view keeps, the shape of the status lifecycle,
 * the auto-approval threshold, repayment accounting, and idempotence of the
 * staff actions and of verification.
 */
module Properties {
  import opened Models
  import opened Transitions

  // ---------------------------------------------------------------- lifecycle

  /** One view moves a loan along at most one edge of the status machine. */
  predicate Transition(a: Status, b: Status)
  {
    || a == b
    || (a == Pending && (b == Active || b == Rejected))
    || (a == Active && b == Paid)
  }

  /** Any number of views: the reflexive-transitive closure of Transition. */
  predicate Reachable(a: Status, b: Status)
  {
    a == b || a == Pending || (a == Active && b == Paid)
  }

  /** One view followed by any number of views stays within Reachable. */
  lemma TransitionThenReachable(a: Status, b: Status, c: Status)
    requires Transition(a, b) && Reachable(b, c)
    ensures Reachable(a, c)
  {
  }

  /** Pending is only ever reached from Pending; Paid and Rejected are never left. */
  lemma ReachableShape(a: Status, b: Status)
    requires Reachable(a, b)
    ensures b == Pending ==> a == Pending
    ensures a == Paid || a == Rejected ==> b == a
  {
  }

  /**
   * One view changes stored loans only in their status, along Transition;
   * the loans it adds are open.
   */
  ghost predicate StepEvolves(before: seq<Loan>, after: seq<Loan>)
  {
    && |before| <= |after|
    && (forall i :: 0 <= i < |before| ==>
          after[i] == before[i].(status := after[i].status)
          && Transition(before[i].status, after[i].status))
    && (forall i :: |before| <= i < |after| ==> after[i].status.IsOpen())
  }

  /** Across many views: only statuses change, along Reachable. */
  ghost predicate RunEvolves(before: seq<Loan>, after: seq<Loan>)
  {
    && |before| <= |after|
    && (forall i :: 0 <= i < |before| ==>
          after[i] == before[i].(status := after[i].status)
          && Reachable(before[i].status, after[i].status))
  }

  // ---------------------------------------------------------------- requests

  /** A request to one of the views, with the values its form submits. */
  datatype Request =
    | ShowDashboard(user: UserId)
    | SubmitProfile(user: UserId, form: ProfileForm)
    | StaffVerify(pk: UserId)
    | Apply(user: UserId, amount: Cents, termDays: int, now: Instant, stampedAt: Instant)
    | Repay(user: UserId, amount: Cents, now: Instant)
    | Approve(loanPk: LoanId, now: Instant)
    | Reject(loanPk: LoanId, now: Instant)

  /** The borrower views are behind `login_required`: their user is a registered one. */
  predicate Authenticated(users: set<UserId>, req: Request)
  {
    match req
    case ShowDashboard(u) => u in users
    case SubmitProfile(u, _) => u in users
    case Apply(u, _, _, _, _) => u in users
    case Repay(u, _, _) => u in users
    case _ => true
  }

  function Step(db: Db, req: Request): Db
  {
    match req
    case ShowDashboard(u) => EnsureProfile(db, u)
    case SubmitProfile(u, f) => VerifyProfile(db, u, f).0
    case StaffVerify(pk) => VerifyUserAdmin(db, pk).0
    case Apply(u, amount, term, now, stamp) => ApplyLoan(db, u, amount, term, now, stamp).0
    case Repay(u, amount, now) => RepayLoan(db, u, amount, now).0
    case Approve(pk, now) => ApproveLoan(db, pk, now).0
    case Reject(pk, now) => RejectLoan(db, pk, now).0
  }

  /** The store after the requests are served one after another. */
  function Run(db: Db, reqs: seq<Request>): Db
    decreases |reqs|
  {
    if reqs == [] then db else Run(Step(db, reqs[0]), reqs[1..])
  }

  // ---------------------------------------------------------------- invariants, view by view

  lemma EnsureProfileKeepsInvariant(db: Db, user: UserId)
    requires Invariant(db) && user in db.users
    ensures Invariant(EnsureProfile(db, user))
  {
  }

  lemma VerifyProfileKeepsInvariant(db: Db, user: UserId, f: ProfileForm)
    requires Invariant(db) && user in db.users
    ensures Invariant(VerifyProfile(db, user, f).0)
  {
  }

  lemma VerifyUserAdminKeepsInvariant(db: Db, pk: UserId)
    requires Invariant(db)
    ensures Invariant(VerifyUserAdmin(db, pk).0)
  {
  }

  /** The duplicate-loan gate keeps every borrower to at most one open loan. */
  lemma ApplyKeepsOneOpenLoan(db: Db, user: UserId, amount: Cents, termDays: int, now: Instant, stampedAt: Instant)
    requires OneOpenLoanPerBorrower(db.loans)
    ensures OneOpenLoanPerBorrower(ApplyLoan(db, user, amount, termDays, now, stampedAt).0.loans)
  {
  }

  lemma ApplyLoanKeepsInvariant(db: Db, user: UserId, amount: Cents, termDays: int, now: Instant, stampedAt: Instant)
    requires Invariant(db) && user in db.users
    ensures Invariant(ApplyLoan(db, user, amount, termDays, now, stampedAt).0)
  {
  }

  /** A repayment keeps the ledger consistent, including "Paid means settled" for every loan. */
  lemma RepayLoanKeepsInvariant(db: Db, user: UserId, amount: Cents, now: Instant)
    requires Invariant(db)
    ensures Invariant(RepayLoan(db, user, amount, now).0)
  {
    var r := RepayLoan(db, user, amount, now);
    if r.1.RepaymentAccepted? || r.1.LoanPaidOff? {
      var id := r.1.loan;
      var rep := Repayment(id, amount, now);
      assert r.0.repayments == db.repayments + [rep];
      forall i | 0 <= i < |r.0.loans| && r.0.loans[i].status == Paid
        ensures Balance(r.0.loans[i], r.0.repayments, i) <= 0
      {
        if i != id {
          BalanceOfOtherLoan(db.loans[i], db.repayments, rep, i);
        }
      }
      forall k | 0 <= k < |r.0.repayments| && r.0.repayments[k].loan < |r.0.loans|
        ensures r.0.loans[r.0.repayments[k].loan].status in {Active, Paid}
      {
        if k < |db.repayments| {
          assert r.0.repayments[k] == db.repayments[k];
        }
      }
    }
  }

  /** Approve and reject keep the ledger consistent: a Pending loan has no repayments to disturb. */
  lemma DecideKeepsInvariant(db: Db, pk: LoanId, to: Status, now: Instant)
    requires Invariant(db) && (to == Active || to == Rejected)
    ensures Invariant(Decide(db, pk, to, now).0)
  {
  }

  lemma StepKeepsInvariant(db: Db, req: Request)
    requires Invariant(db) && Authenticated(db.users, req)
    ensures Invariant(Step(db, req)) && Step(db, req).users == db.users
  {
    match req
    case ShowDashboard(u) => EnsureProfileKeepsInvariant(db, u);
    case SubmitProfile(u, f) => VerifyProfileKeepsInvariant(db, u, f);
    case StaffVerify(pk) => VerifyUserAdminKeepsInvariant(db, pk);
    case Apply(u, amount, term, now, stamp) => ApplyLoanKeepsInvariant(db, u, amount, term, now, stamp);
    case Repay(u, amount, now) => RepayLoanKeepsInvariant(db, u, amount, now);
    case Approve(pk, now) => DecideKeepsInvariant(db, pk, Active, now);
    case Reject(pk, now) => DecideKeepsInvariant(db, pk, Rejected, now);
  }

  /** Every store reachable from a consistent one by any sequence of requests is consistent. */
  lemma {:induction false} RunKeepsInvariant(db: Db, reqs: seq<Request>)
    requires Invariant(db)
    requires forall k :: 0 <= k < |reqs| ==> Authenticated(db.users, reqs[k])
    ensures Invariant(Run(db, reqs)) && Run(db, reqs).users == db.users
    decreases |reqs|
  {
    if reqs != [] {
      StepKeepsInvariant(db, reqs[0]);
      RunKeepsInvariant(Step(db, reqs[0]), reqs[1..]);
    }
  }

  /** The empty store a fresh deployment starts from is consistent. */
  lemma EmptyStoreConsistent(users: set<UserId>)
    ensures Invariant(Db(users, map[], [], []))
  {
  }

  // ---------------------------------------------------------------- lifecycle, view by view

  /**
   * Each view moves a loan along one edge at most, never touches a loan's
   * other columns (so the due date is never recomputed), only appends to the
   * repayment table, and never deletes or un-verifies a profile.
   */
  lemma StepEvolvesLoans(db: Db, req: Request)
    requires Authenticated(db.users, req)
    ensures StepEvolves(db.loans, Step(db, req).loans)
    ensures db.repayments <= Step(db, req).repayments
    ensures db.profiles.Keys <= Step(db, req).profiles.Keys
    ensures forall u :: IsVerified(db, u) ==> IsVerified(Step(db, req), u)
  {
  }

  lemma {:induction false} RunEvolvesLoans(db: Db, reqs: seq<Request>)
    requires forall k :: 0 <= k < |reqs| ==> Authenticated(db.users, reqs[k])
    ensures RunEvolves(db.loans, Run(db, reqs).loans)
    ensures db.repayments <= Run(db, reqs).repayments
    ensures Run(db, reqs).users == db.users
    decreases |reqs|
  {
    if reqs != [] {
      var next := Step(db, reqs[0]);
      StepEvolvesLoans(db, reqs[0]);
      assert next.users == db.users;
      RunEvolvesLoans(next, reqs[1..]);
      var last := Run(next, reqs[1..]).loans;
      forall i | 0 <= i < |db.loans|
        ensures last[i] == db.loans[i].(status := last[i].status)
        ensures Reachable(db.loans[i].status, last[i].status)
      {
        TransitionThenReachable(db.loans[i].status, next.loans[i].status, last[i].status);
      }
    }
  }

  /** No sequence of views ever sets a loan back to Pending, and Paid and Rejected are final. */
  lemma NoReturnToPending(db: Db, reqs: seq<Request>, i: LoanId)
    requires forall k :: 0 <= k < |reqs| ==> Authenticated(db.users, reqs[k])
    requires i < |db.loans|
    ensures i < |Run(db, reqs).loans|
    ensures Run(db, reqs).loans[i].status == Pending ==> db.loans[i].status == Pending
    ensures db.loans[i].status in {Paid, Rejected} ==> Run(db, reqs).loans[i].status == db.loans[i].status
  {
    RunEvolvesLoans(db, reqs);
    ReachableShape(db.loans[i].status, Run(db, reqs).loans[i].status);
  }

  /** The due date and creation time of a stored loan never change. */
  lemma DueDateNeverRecomputed(db: Db, reqs: seq<Request>, i: LoanId)
    requires forall k :: 0 <= k < |reqs| ==> Authenticated(db.users, reqs[k])
    requires i < |db.loans|
    ensures i < |Run(db, reqs).loans|
    ensures Run(db, reqs).loans[i].dueDate == db.loans[i].dueDate
    ensures Run(db, reqs).loans[i].createdAt == db.loans[i].createdAt
  {
    RunEvolvesLoans(db, reqs);
  }

  // ---------------------------------------------------------------- loan application

  /** 999.99 is approved on application; 1000.00 goes to review. */
  lemma AutoApprovalThreshold(db: Db, user: UserId, termDays: int, now: Instant, stampedAt: Instant)
    requires IsVerified(db, user) && !HasOpenLoan(db.loans, user)
    ensures ApplyLoan(db, user, 99_999, termDays, now, stampedAt).1 == LoanCreated(|db.loans|)
    ensures ApplyLoan(db, user, 99_999, termDays, now, stampedAt).0.loans[|db.loans|].status == Active
    ensures ApplyLoan(db, user, 100_000, termDays, now, stampedAt).1 == LoanCreated(|db.loans|)
    ensures ApplyLoan(db, user, 100_000, termDays, now, stampedAt).0.loans[|db.loans|].status == Pending
  {
  }

  /**
   * An application from an unverified borrower creates no loan; the only
   * write is the empty profile `get_or_create` makes when there was none.
   */
  lemma UnverifiedApplicationCreatesNoLoan(db: Db, user: UserId, amount: Cents, termDays: int, now: Instant, stampedAt: Instant)
    requires !IsVerified(db, user)
    ensures ApplyLoan(db, user, amount, termDays, now, stampedAt).0.loans == db.loans
    ensures ApplyLoan(db, user, amount, termDays, now, stampedAt).0.repayments == db.repayments
    ensures user in db.profiles ==> ApplyLoan(db, user, amount, termDays, now, stampedAt).0 == db
  {
  }

  /** A borrower with a Pending or Active loan cannot apply again, whatever the amount. */
  lemma OpenLoanBlocksApplication(db: Db, user: UserId, amount: Cents, termDays: int, now: Instant, stampedAt: Instant)
    requires HasOpenLoan(db.loans, user)
    ensures !ApplyLoan(db, user, amount, termDays, now, stampedAt).1.LoanCreated?
    ensures ApplyLoan(db, user, amount, termDays, now, stampedAt).0.loans == db.loans
    ensures ApplyLoan(db, user, amount, termDays, now, stampedAt).0.repayments == db.repayments
  {
  }

  // ---------------------------------------------------------------- repayment

  /** Without an Active loan a repayment writes nothing. */
  lemma RepayWithoutActiveLoan(db: Db, user: UserId, amount: Cents, now: Instant)
    requires forall i :: 0 <= i < |db.loans| ==> !IsLoanOf(db.loans[i], user, Active)
    ensures RepayLoan(db, user, amount, now) == (db, NoActiveLoan)
  {
  }

  /**
   * A loan of 500 repaid with 300 and then 200 stays Active after the first
   * repayment and becomes Paid with the second.
   */
  lemma RepayInTwoInstalments(db: Db, user: UserId, id: LoanId, t1: Instant, t2: Instant)
    requires FirstWithStatus(db.loans, user, Active) == Some(id)
    requires db.loans[id].amount == 50_000 && TotalRepaid(db.repayments, id) == 0
    ensures RepayLoan(db, user, 30_000, t1).1 == RepaymentAccepted(id)
    ensures RepayLoan(db, user, 30_000, t1).0.loans == db.loans
    ensures RepayLoan(RepayLoan(db, user, 30_000, t1).0, user, 20_000, t2).1 == LoanPaidOff(id)
    ensures RepayLoan(RepayLoan(db, user, 30_000, t1).0, user, 20_000, t2).0.loans[id].status == Paid
  {
    var rep1 := Repayment(id, 30_000, t1);
    BalanceAfterRepayment(db.loans[id], db.repayments, rep1);
    var db1 := RepayLoan(db, user, 30_000, t1).0;
    assert db1.loans == db.loans;
    BalanceAfterRepayment(db.loans[id], db1.repayments, Repayment(id, 20_000, t2));
  }

  /** Overpaying still settles the loan (its balance goes below zero). */
  lemma OverpaymentSettles(db: Db, user: UserId, id: LoanId, amount: Cents, now: Instant)
    requires FirstWithStatus(db.loans, user, Active) == Some(id) && FitsAmountField(amount)
    requires amount >= Balance(db.loans[id], db.repayments, id)
    ensures RepayLoan(db, user, amount, now).1 == LoanPaidOff(id)
  {
    BalanceAfterRepayment(db.loans[id], db.repayments, Repayment(id, amount, now));
  }

  /**
   * The amount's sign is not checked: a zero or negative repayment on a loan
   * that still owes is recorded, and the loan stays Active.
   */
  lemma NonPositiveRepaymentRecorded(db: Db, user: UserId, id: LoanId, amount: Cents, now: Instant)
    requires FirstWithStatus(db.loans, user, Active) == Some(id)
    requires -AmountLimit < amount <= 0 && Balance(db.loans[id], db.repayments, id) > 0
    ensures RepayLoan(db, user, amount, now).1 == RepaymentAccepted(id)
    ensures RepayLoan(db, user, amount, now).0.repayments == db.repayments + [Repayment(id, amount, now)]
  {
    BalanceAfterRepayment(db.loans[id], db.repayments, Repayment(id, amount, now));
  }

  // ---------------------------------------------------------------- staff decisions and verification

  /** Approving twice is approving once; the second call reports nothing decided. */
  lemma ApproveIdempotent(db: Db, pk: LoanId, now1: Instant, now2: Instant)
    ensures ApproveLoan(ApproveLoan(db, pk, now1).0, pk, now2).0 == ApproveLoan(db, pk, now1).0
    ensures ApproveLoan(ApproveLoan(db, pk, now1).0, pk, now2).1 != Decided
  {
  }

  lemma RejectIdempotent(db: Db, pk: LoanId, now1: Instant, now2: Instant)
    ensures RejectLoan(RejectLoan(db, pk, now1).0, pk, now2).0 == RejectLoan(db, pk, now1).0
    ensures RejectLoan(RejectLoan(db, pk, now1).0, pk, now2).1 != Decided
  {
  }

  /** Once decided, a loan ignores the opposite decision too. */
  lemma DecisionsAreFinal(db: Db, pk: LoanId, now1: Instant, now2: Instant)
    ensures RejectLoan(ApproveLoan(db, pk, now1).0, pk, now2).1 == Decided ==>
            ApproveLoan(db, pk, now1).1 != Decided
    ensures ApproveLoan(RejectLoan(db, pk, now1).0, pk, now2).0 == RejectLoan(db, pk, now1).0
  {
  }

  /** Staff verification of an already verified user changes nothing. */
  lemma StaffVerifyOfVerifiedUser(db: Db, pk: UserId)
    requires pk in db.users && IsVerified(db, pk)
    ensures VerifyUserAdmin(db, pk).0 == db
  {
  }

  lemma StaffVerifyIdempotent(db: Db, pk: UserId)
    ensures VerifyUserAdmin(VerifyUserAdmin(db, pk).0, pk) == VerifyUserAdmin(db, pk)
  {
    if pk in db.users {
      StaffVerifyOfVerifiedUser(VerifyUserAdmin(db, pk).0, pk);
    }
  }

  /** Submitting the same profile form twice leaves the store as one submission does. */
  lemma VerifyProfileIdempotent(db: Db, user: UserId, f: ProfileForm)
    ensures VerifyProfile(VerifyProfile(db, user, f).0, user, f) == VerifyProfile(db, user, f)
  {
    var once := VerifyProfile(db, user, f);
    var twice := VerifyProfile(once.0, user, f);
    assert twice.0.profiles == once.0.profiles;
  }
}
