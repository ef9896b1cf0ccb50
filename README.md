# Micro-loan ledger: a verified model of the loan lifecycle

This project models the core of a small micro-loan web application. Borrowers
verify a profile, apply for a loan and repay it. Staff verify users and
approve or reject loans waiting for review. The model is one in-memory store
with three tables:

- at most one profile per registered user, created on first access
  (`get_or_create`) and not verified when it is created;
- a loan table, where each loan is Pending, Active, Paid or Rejected and has
  its due date derived once, on first save;
- an append-only repayment table, where each repayment references exactly one
  loan and a loan's balance is its principal less the sum of its repayments.

Money is a whole number of cents, so every amount is exact (`Cents = int`).
Time comes in as parameters, in seconds. The date of an instant `t` is
`t / 86400`. Saving a new loan reads the clock twice: `now` for the due date
and `stampedAt` for the creation time.

Files:

- `models.dfy` (module `Models`): the entities of `core/models.py`. It has
  the status enumeration, the due-date rule of `Loan.save`, `total_repaid`,
  `balance` and the lemmas about them.
- `transitions.dfy` (module `Transitions`): each view of `core/views.py` as a
  pure function from one store value to the next, with the outcome the view
  reports. It also holds the database queries the views make (`exists`,
  `first`, `order_by`, `filter`) and the ledger invariant.
- `properties.dfy` (module `Properties`): what the views promise, proved over
  those functions. It covers the invariant kept by every view and every
  sequence of views, the shape of the status machine, the threshold, the
  repayment accounting and idempotence.
- `ledger.dfy` (module `LedgerViews`): the class `Ledger`. Its fields are the
  three tables and the registered users. Each view is a method that does the
  view's reads and writes in the view's order. Each method is proved to end
  in the state `Transitions` prescribes, with `Valid()` (the invariant)
  preserved.

The ledger invariant (`Transitions.Invariant`) has five parts:

- profiles and loans belong to registered users, and every repayment
  references a stored loan;
- no borrower has two loans that are both Pending or Active;
- only Active or Paid loans have repayments;
- every Paid loan has a balance of zero or less;
- every stored profile fits its columns (`Models.ProfileFits`).

Where a reader might expect stricter behaviour, the model follows the code:

- Repayment amounts are not checked for sign, and overpayment still marks
  the loan Paid.
- A repayment goes to the borrower's first Active loan. It does not take a
  loan id.
- Failed gates report an outcome and write nothing beyond the profile
  `get_or_create` that precedes them. There are no errors.
- The threshold is the constant 1000.
- Principal and monthly income are not checked to be positive.
- `apply_loan` runs the profile `get_or_create` before its verification gate.
  So an application from a user with no profile creates an empty, unverified
  profile, even though no loan is created.
- A loan's total repaid does not depend on the order of its repayment rows
  (`Models.TotalRepaidOrderIndependent`). The store left by a series of
  `repay_loan` calls does depend on their order. Take a 500 loan repaid with
  500 and then 100: the first call makes it Paid, and the second finds no
  Active loan, so 500 is repaid. Repaid with 100 and then 500, it ends Paid
  with 600 repaid.
- The due date comes from one clock read and the creation time from a later
  one. So the due date is the creation date plus the term only when both reads
  fall on the same day. Across midnight it is one day short
  (`Models.DueDateAcrossMidnight`).

## Model

| member | source | states |
|---|---|---|
| `Models.DigitCountBound` | core/models.py:10 | a number has at most k decimal digits iff it is below 10^k |
| `Models.FitsAmountField` | core/models.py:25 | an amount fits a DecimalField(max_digits=10, decimal_places=2) iff its magnitude in cents has at most ten digits |
| `Models.ProfileFits` | core/models.py:8-10 | a profile fits its columns iff the national id has at most 20 characters, the phone number at most 15, and the monthly income at most ten digits in cents |
| `Models.DateOf` | core/models.py:33 | the date of an instant is the day containing it (floor division by 86400) |
| `Models.ParseStatus` | core/models.py:17-22 | a stored status name parses back to the status with that name |
| `Models.StatusNameRoundTrip` | core/models.py:17-22 | every status's stored name parses back to that status |
| `Models.StatusNameInjective` | core/models.py:17-22 | two statuses share a stored name iff they are the same status |
| `Models.DraftFromForm` | core/models.py:27 | an unsaved loan built from the loan form is Pending by default and has no due date |
| `Models.FirstSave` | core/models.py:28-34 | first save of a loan sets the creation time from the second clock read; the due date becomes the first read's date + term when it was unset and the term is non-zero, otherwise it is kept |
| `Models.DueDateAgainstCreation` | core/models.py:28-34 | when the due-date read is no later than the creation read, the due date is at most creation date + term, and equal to it when both reads fall on the same day |
| `Models.DueDateAcrossMidnight` | core/models.py:28-34 | with the due-date read one second before midnight and the creation read at midnight, the due date is creation date + term - 1 |
| `Models.Resave` | core/models.py:32 | saving a loan that already has an id changes only its status, never the due date |
| `Models.ResaveAllKeepsDueDate` | core/models.py:32 | any number of later saves keep the due date and creation time |
| `Models.DueDateDerivedOnce` | core/models.py:28-34 | a loan saved with a non-zero term keeps the due date derived from the first save's clock read, and its creation time, after any number of later saves |
| `Models.TotalRepaid` | core/models.py:39-41 | the sum of the amounts of the loan's repayments; 0 when no repayment references the loan (the `or 0`) |
| `Models.Balance` | core/models.py:43-45 | the balance is at most zero iff the total repaid reaches the principal; with no repayments it is the principal |
| `Models.TotalRepaidConcat` | core/models.py:39-41 | total repaid over two repayment tables is the sum of the two totals |
| `Models.TotalRepaidAppend` | core/models.py:39-41 | appending a repayment raises its own loan's total by its amount and leaves other loans' totals unchanged |
| `Models.TotalRepaidOrderIndependent` | core/models.py:41 | any reordering of the repayment table (the same rows, each as often) gives every loan the same total repaid |
| `Models.BalanceAfterRepayment` | core/models.py:43-45 | a repayment lowers its loan's balance by exactly its amount |
| `Models.BalanceOfOtherLoan` | core/models.py:39-48 | a repayment of one loan leaves the total repaid and balance of every other loan unchanged |
| `Transitions.HasOpenLoan` | core/views.py:77 | a borrower has a Pending or Active loan iff the first-Active or the first-Pending query finds one |
| `Transitions.FirstWithStatus` | core/views.py:104 | the result is the lowest-id loan of the borrower with the status, and None iff there is none |
| `Transitions.EnsureProfile` | core/views.py:39 | get_or_create: afterwards the user has a profile, a new one is the empty unverified profile, existing profiles and all loans and repayments are unchanged |
| `Transitions.VerifyProfile` | core/views.py:53-60 | a valid form sets the user's profile to the submitted fields with verified = true; an invalid form only gets or creates the profile; no other profile, loan or repayment changes |
| `Transitions.VerifyUserAdmin` | core/views.py:181-184 | an unknown user changes nothing; otherwise the user's profile, created if absent, becomes verified with its other fields kept, and nothing else changes |
| `Transitions.InitialStatus` | core/views.py:88-92 | the new loan is Active iff amount < 1000 and Pending iff amount >= 1000 |
| `Transitions.ApplyLoan` | core/views.py:70-95 | a loan is created iff the profile is verified, the borrower has no Pending or Active loan and the amount fits the field; then exactly one loan is appended, owned by the borrower, with the threshold status, the due date from the first clock read and the creation time from the second, and nothing else changes; otherwise only get_or_create happens |
| `Transitions.RepayLoan` | core/views.py:104-123 | with no Active loan nothing changes; otherwise exactly one repayment of the first Active loan is appended, no other loan changes, and that loan becomes Paid iff its balance after the append is <= 0, staying Active otherwise |
| `Transitions.Decide` | core/views.py:158-170 | an unknown id is not found; a Pending loan moves to the target status with nothing else changed; any other status changes nothing |
| `Transitions.ApproveLoan` | core/views.py:158-161 | a decided approval leaves the loan Active |
| `Transitions.RejectLoan` | core/views.py:167-170 | a decided rejection leaves the loan Rejected |
| `Transitions.FilterByStatusName` | core/views.py:193-194 | the filter holding a status's stored name selects a loan iff the loan is in that status |
| `Transitions.FilterByUnknownName` | core/views.py:193-194 | a non-empty filter that is no status's name selects no loan |
| `Transitions.FilteredIds` | core/views.py:193-194 | exactly the ids of the loans the status filter selects, in increasing order |
| `Transitions.InsertNewest` | core/views.py:191 | inserting into a newest-first list keeps it newest-first and adds exactly that id |
| `Transitions.SortNewestFirst` | core/views.py:191 | the result is newest-first and a permutation of the input ids |
| `Transitions.AdminLoans` | core/views.py:190-194 | every loan the filter selects appears exactly once and no other loan appears; newest first; an absent or empty filter selects all |
| `Transitions.AdminLoansByStatus` | core/views.py:190-194 | listing with `status` set to a status's name returns exactly the loans in that status, each once |
| `Transitions.AdminLoansUnknownStatus` | core/views.py:190-194 | listing with a non-empty `status` that names no status returns nothing |
| `Properties.ReachableShape` | core/views.py:159-170 | of the closure of the status transitions: Pending is reached only from Pending, and Paid and Rejected are never left |
| `Properties.EnsureProfileKeepsInvariant` | core/views.py:39 | get_or_create keeps the ledger invariant |
| `Properties.VerifyProfileKeepsInvariant` | core/views.py:53-60 | profile verification keeps the ledger invariant; in particular the form validation lets only profiles that fit their columns be stored |
| `Properties.VerifyUserAdminKeepsInvariant` | core/views.py:181-184 | staff verification keeps the ledger invariant |
| `Properties.ApplyKeepsOneOpenLoan` | core/views.py:76-79 | after an application, each borrower still has at most one Pending or Active loan |
| `Properties.ApplyLoanKeepsInvariant` | core/views.py:70-95 | an application keeps the ledger invariant |
| `Properties.RepayLoanKeepsInvariant` | core/views.py:113-120 | a repayment keeps the ledger invariant, including "every Paid loan has balance <= 0" for every loan |
| `Properties.DecideKeepsInvariant` | core/views.py:159-170 | approval and rejection keep the ledger invariant |
| `Properties.StepKeepsInvariant` | core/views.py:36-194 | every view keeps the ledger invariant and the set of users |
| `Properties.RunKeepsInvariant` | core/views.py:36-194 | any sequence of views from a consistent store ends in a consistent store |
| `Properties.EmptyStoreConsistent` | core/models.py:6-50 | the empty store satisfies the ledger invariant |
| `Properties.StepEvolvesLoans` | core/views.py:36-194 | one view moves each loan along at most one edge of the status machine and changes nothing else about it; new loans are open; repayments are only appended; profiles are never removed or un-verified |
| `Properties.RunEvolvesLoans` | core/views.py:36-194 | across any sequence of views, stored loans change only in status, along the reachable transitions, and the repayment table only grows |
| `Properties.NoReturnToPending` | core/views.py:159-170 | no sequence of views returns a loan to Pending; Paid and Rejected loans keep their status |
| `Properties.DueDateNeverRecomputed` | core/models.py:31-34 | no sequence of views changes a stored loan's due date or creation time |
| `Properties.AutoApprovalThreshold` | core/views.py:88-93 | applying for 999.99 creates an Active loan; applying for 1000.00 creates a Pending one |
| `Properties.UnverifiedApplicationCreatesNoLoan` | core/views.py:70-74 | an unverified borrower's application creates no loan or repayment and, when the profile exists, changes nothing |
| `Properties.OpenLoanBlocksApplication` | core/views.py:76-79 | a borrower with a Pending or Active loan gets no new loan, whatever the amount |
| `Properties.RepayWithoutActiveLoan` | core/views.py:104-108 | with no Active loan, a repayment changes nothing and reports that there is none |
| `Properties.RepayInTwoInstalments` | core/views.py:113-123 | a 500 loan repaid with 300 stays Active, and the following 200 makes it Paid |
| `Properties.OverpaymentSettles` | core/views.py:118-119 | a repayment at least equal to the balance makes the loan Paid |
| `Properties.NonPositiveRepaymentRecorded` | core/models.py:49 | a zero or negative repayment on a loan still owing is recorded and the loan stays Active |
| `Properties.ApproveIdempotent` | core/views.py:159-161 | approving twice leaves the store as approving once, and the second call decides nothing |
| `Properties.RejectIdempotent` | core/views.py:168-170 | rejecting twice leaves the store as rejecting once, and the second call decides nothing |
| `Properties.DecisionsAreFinal` | core/views.py:159-170 | once a loan is approved it cannot then be rejected, and an approval after a rejection changes nothing |
| `Properties.StaffVerifyOfVerifiedUser` | core/views.py:182-184 | staff verification of an already verified user changes nothing |
| `Properties.StaffVerifyIdempotent` | core/views.py:180-184 | staff verification twice equals staff verification once |
| `Properties.VerifyProfileIdempotent` | core/views.py:53-60 | submitting the same profile form twice equals submitting it once |
| `LedgerViews.Ledger.constructor` | core/models.py:6-50 | a store holding the registered users and empty tables satisfies the invariant |
| `LedgerViews.Ledger.InsertLoan` | core/models.py:31-34 | a first save appends the saved loan under the next id and changes nothing else |
| `LedgerViews.Ledger.SaveStatus` | core/models.py:31-34 | re-saving a stored loan changes only its status |
| `LedgerViews.Ledger.GetOrCreateProfile` | core/views.py:53 | the store after it is the get_or_create of the store before, and the returned profile is the stored one |
| `LedgerViews.Ledger.Dashboard` | core/views.py:37-49 | gets or creates the profile and returns the borrower's first Active and first Pending loan; invariant kept |
| `LedgerViews.Ledger.VerifyProfile` | core/views.py:52-66 | the new store and outcome are those of `Transitions.VerifyProfile`; invariant kept |
| `LedgerViews.Ledger.VerifyUserAdmin` | core/views.py:180-186 | the new store and outcome are those of `Transitions.VerifyUserAdmin`; invariant kept |
| `LedgerViews.Ledger.ApplyLoan` | core/views.py:69-100 | the new store and outcome are those of `Transitions.ApplyLoan`; invariant kept |
| `LedgerViews.Ledger.RepayLoan` | core/views.py:103-129 | the new store and outcome are those of `Transitions.RepayLoan`; invariant kept |
| `LedgerViews.Ledger.ApproveLoan` | core/views.py:157-163 | the new store and outcome are those of `Transitions.ApproveLoan`; invariant kept |
| `LedgerViews.Ledger.RejectLoan` | core/views.py:166-172 | the new store and outcome are those of `Transitions.RejectLoan`; invariant kept |
| `LedgerViews.Ledger.AdminLoans` | core/views.py:189-194 | returns every loan the filter selects exactly once and no other, newest first |
| `LedgerViews.Ledger.LoanBalance` | core/models.py:43-45 | a stored loan's balance is its amount less the total of its repayments, and at most zero when the loan is Paid |

## Left out

- HTTP handling is not modelled: requests, `render`, `redirect` and the
  `messages` framework. Each view's message becomes the outcome value it
  returns.
- The `login_required` and `staff_member_required` decorators are not
  modelled. A borrower view requires its user to be registered
  (`Properties.Authenticated`). Staff views accept any caller.
- A GET of `verify_profile`, `apply_loan` or `repay_loan` only renders a
  form. Its only write is the profile `get_or_create` in the first two,
  which `Ledger.Dashboard` and `Transitions.EnsureProfile` model. Only form
  submissions are modelled.
- Form parsing is not modelled: non-numeric input, missing fields, and more
  than two decimal places. Operations take parsed values, with amounts in
  cents. Form validation is modelled only for the digit bound of the
  decimal fields and the widths of the two text columns.
- `term_days` is an unbounded integer. The database integer range depends
  on the backend. A date beyond the Python date range (year 9999) raises,
  and that error is not modelled.
- `register`, `register_admin`, the registration forms and the
  `createstaff` command are not modelled. They manage credentials. The set
  of registered users is fixed when a `Ledger` is constructed.
- `admin_dashboard` and `admin_users` are display-only listings and are not
  modelled. `admin_dashboard` also names `Repayment`, which `core/views.py`
  never imports.
- The Django admin registration, form widgets and URL routing are not
  modelled. The legacy copies under `rilakin/core` are not part of this
  model.
- `__str__` of the three models is not modelled.
- Concurrency, transactions and locking are not modelled. The code has
  none. Each view is one atomic step.
- The wall clock is read through parameters (`now`, `stampedAt`), and persistence is the in-memory
  store.
- Loan ids are positions in the loan table, starting at 0. The database
  assigns ids from 1. Only their order matters to `first()`.
- Ties in `created_at` come back in an order the database chooses.
  `Transitions.AdminLoans` fixes one order, and its contract allows any
  newest-first order.
- Cascading deletes are not modelled. The core never deletes a user, loan or
  repayment.
