/**
 * The views of core/views.py as methods of one in-memory store. Each method
 * performs the view's reads and writes in the view's order and is proved to
 * leave the store in the state Transitions prescribes, with the ledger
 * invariant intact.
 */
module LedgerViews {
  import opened Models
  import opened Transitions
  import Properties

  class Ledger {
    var users: set<UserId>
    var profiles: map<UserId, Profile>
    var loans: seq<Loan>
    var repayments: seq<Repayment>

    /** The store as a value. */
    function Db(): Transitions.Db
      reads this
    {
      Transitions.Db(users, profiles, loans, repayments)
    }

    ghost predicate Valid()
      reads this
    {
      Invariant(Db())
    }

    /** A store holding the registered users and nothing else. */
    constructor (registered: set<UserId>)
      ensures Valid()
      ensures Db() == Transitions.Db(registered, map[], [], [])
    {
      users := registered;
      profiles := map[];
      loans := [];
      repayments := [];
      Properties.EmptyStoreConsistent(registered);
    }

    // ------------------------------------------------------------ Loan.save

    /** Loan.save on a new instance: the row is appended under the next id. */
    method InsertLoan(draft: LoanDraft, now: Instant, stampedAt: Instant) returns (id: LoanId)
      modifies this
      ensures id == old(|loans|)
      ensures loans == old(loans) + [FirstSave(draft, now, stampedAt)]
      ensures users == old(users) && profiles == old(profiles) && repayments == old(repayments)
    {
      id := |loans|;
      loans := loans + [FirstSave(draft, now, stampedAt)];
    }

    /** Loan.save on a stored row whose status was just assigned. */
    method SaveStatus(id: LoanId, status: Status, now: Instant)
      requires id < |loans|
      modifies this
      ensures loans == old(loans)[id := old(loans)[id].(status := status)]
      ensures users == old(users) && profiles == old(profiles) && repayments == old(repayments)
    {
      loans := loans[id := Resave(loans[id], status, now)];
    }

    // ------------------------------------------------------------ profiles

    /** `Profile.objects.get_or_create(user=user)`. */
    method GetOrCreateProfile(user: UserId) returns (p: Profile, created: bool)
      modifies this
      ensures Db() == EnsureProfile(old(Db()), user)
      ensures created == (user !in old(profiles))
      ensures user in profiles && p == profiles[user]
    {
      created := user !in profiles;
      if created {
        profiles := profiles[user := NewProfile];
      }
      p := profiles[user];
    }

    /** `dashboard`: the borrower's profile (made if missing) and their first Active and Pending loans. */
    method Dashboard(user: UserId) returns (p: Profile, active: Option<LoanId>, pending: Option<LoanId>)
      requires Valid() && user in users
      modifies this
      ensures Valid() && Db() == EnsureProfile(old(Db()), user)
      ensures p == profiles[user]
      ensures active == FirstWithStatus(loans, user, Active)
      ensures pending == FirstWithStatus(loans, user, Pending)
    {
      Properties.EnsureProfileKeepsInvariant(Db(), user);
      var created;
      p, created := GetOrCreateProfile(user);
      active := FirstWithStatus(loans, user, Active);
      pending := FirstWithStatus(loans, user, Pending);
    }

    /** `verify_profile` on a submitted form. */
    method VerifyProfile(user: UserId, form: ProfileForm) returns (outcome: VerifyOutcome)
      requires Valid() && user in users
      modifies this
      ensures Valid()
      ensures (Db(), outcome) == Transitions.VerifyProfile(old(Db()), user, form)
    {
      Properties.VerifyProfileKeepsInvariant(Db(), user, form);
      var profile, _ := GetOrCreateProfile(user);
      if !ProfileFormValid(form) {
        return ProfileFormInvalid;
      }
      profile := profile.(nationalId := form.nationalId, phoneNumber := form.phoneNumber,
                          monthlyIncome := form.monthlyIncome);
      profile := profile.(verified := true);
      profiles := profiles[user := profile];
      outcome := ProfileVerified;
    }

    /** `verify_user_admin`. */
    method VerifyUserAdmin(pk: UserId) returns (outcome: StaffVerifyOutcome)
      requires Valid()
      modifies this
      ensures Valid()
      ensures (Db(), outcome) == Transitions.VerifyUserAdmin(old(Db()), pk)
    {
      Properties.VerifyUserAdminKeepsInvariant(Db(), pk);
      if pk !in users {
        return UserNotFound;
      }
      var profile, _ := GetOrCreateProfile(pk);
      profile := profile.(verified := true);
      profiles := profiles[pk := profile];
      outcome := UserVerified;
    }

    // ------------------------------------------------------------ loans

    /** `apply_loan` on a submitted form. */
    method ApplyLoan(user: UserId, amount: Cents, termDays: int, now: Instant, stampedAt: Instant) returns (outcome: ApplyOutcome)
      requires Valid() && user in users
      modifies this
      ensures Valid()
      ensures (Db(), outcome) == Transitions.ApplyLoan(old(Db()), user, amount, termDays, now, stampedAt)
    {
      Properties.ApplyLoanKeepsInvariant(Db(), user, amount, termDays, now, stampedAt);
      var profile, _ := GetOrCreateProfile(user);
      if !profile.verified {
        return MustVerify;
      }
      if HasOpenLoan(loans, user) {
        return OpenLoanExists;
      }
      if !FitsAmountField(amount) {
        return LoanFormInvalid;
      }
      var draft := DraftFromForm(user, amount, termDays);
      if amount < AutoApproveBelow {
        draft := draft.(status := Active);
      } else {
        draft := draft.(status := Pending);
      }
      var id := InsertLoan(draft, now, stampedAt);
      outcome := LoanCreated(id);
    }

    /** `repay_loan` on a submitted form. */
    method RepayLoan(user: UserId, amount: Cents, now: Instant) returns (outcome: RepayOutcome)
      requires Valid()
      modifies this
      ensures Valid()
      ensures (Db(), outcome) == Transitions.RepayLoan(old(Db()), user, amount, now)
    {
      Properties.RepayLoanKeepsInvariant(Db(), user, amount, now);
      var activeLoan := FirstWithStatus(loans, user, Active);
      if activeLoan.None? {
        return NoActiveLoan;
      }
      var id := activeLoan.value;
      if !FitsAmountField(amount) {
        return RepaymentFormInvalid;
      }
      repayments := repayments + [Repayment(id, amount, now)];
      if Balance(loans[id], repayments, id) <= 0 {
        SaveStatus(id, Paid, now);
        outcome := LoanPaidOff(id);
      } else {
        outcome := RepaymentAccepted(id);
      }
    }

    /** `approve_loan`. */
    method ApproveLoan(pk: LoanId, now: Instant) returns (outcome: DecisionOutcome)
      requires Valid()
      modifies this
      ensures Valid()
      ensures (Db(), outcome) == Transitions.ApproveLoan(old(Db()), pk, now)
    {
      Properties.DecideKeepsInvariant(Db(), pk, Active, now);
      if pk >= |loans| {
        return LoanNotFound;
      }
      if loans[pk].status == Pending {
        SaveStatus(pk, Active, now);
        outcome := Decided;
      } else {
        outcome := NotPending;
      }
    }

    /** `reject_loan`. */
    method RejectLoan(pk: LoanId, now: Instant) returns (outcome: DecisionOutcome)
      requires Valid()
      modifies this
      ensures Valid()
      ensures (Db(), outcome) == Transitions.RejectLoan(old(Db()), pk, now)
    {
      Properties.DecideKeepsInvariant(Db(), pk, Rejected, now);
      if pk >= |loans| {
        return LoanNotFound;
      }
      if loans[pk].status == Pending {
        SaveStatus(pk, Rejected, now);
        outcome := Decided;
      } else {
        outcome := NotPending;
      }
    }

    // ------------------------------------------------------------ reads

    /** `admin_loans`: the ids of the loans the filter selects, newest first. */
    method AdminLoans(filter: Option<string>) returns (ids: seq<LoanId>)
      ensures NewestFirst(loans, ids)
      ensures forall i :: 0 <= i < |loans| ==>
        multiset(ids)[i] == if MatchesFilter(loans[i], filter) then 1 else 0
    {
      ids := Transitions.AdminLoans(loans, filter);
    }

    /** The `balance` of a stored loan; a Paid loan owes nothing. */
    method LoanBalance(id: LoanId) returns (b: Cents)
      requires Valid() && id < |loans|
      ensures b == loans[id].amount - TotalRepaid(repayments, id)
      ensures loans[id].status == Paid ==> b <= 0
    {
      b := Balance(loans[id], repayments, id);
    }
  }
}
