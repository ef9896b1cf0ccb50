/**
 * The three stored entities of the micro-loan ledger (core/models.py):
 * Profile, Loan and Repayment, with the values derived from them
 * (the due date set by Loan.save, total_repaid and balance).
 *
 * Money is held as a whole number of cents: every amount in the source is a
 * DecimalField with two decimal places, so cents are exact.
 */
module Models {

  datatype Option<T> = None | Some(value: T)

  /** Primary key of a registered user account. */
  type UserId = nat
  /** Primary key of a loan: its position in the loan table. */
  type LoanId = nat
  /** An amount of money in hundredths of the currency unit. */
  type Cents = int
  /** A calendar date, as a day number. */
  type Day = int
  /** A point in time, in seconds (UTC). */
  type Instant = int

  const SecondsPerDay: int := 86400

  /** The calendar date of an instant (`timezone.now().date()`). */
  function DateOf(t: Instant): (d: Day)
    ensures d * SecondsPerDay <= t < (d + 1) * SecondsPerDay
  {
    t / SecondsPerDay
  }

  /** The number of decimal digits of `n` (0 is written with one digit). */
  function DigitCount(n: nat): (d: nat)
    ensures d >= 1
  {
    if n < 10 then 1 else 1 + DigitCount(n / 10)
  }

  function Pow10(k: nat): (p: nat)
    ensures p >= 1
  {
    if k == 0 then 1 else 10 * Pow10(k - 1)
  }

  /** A number has at most `k` digits iff it is below 10^k. */
  lemma {:induction false} DigitCountBound(n: nat, k: nat)
    requires k >= 1
    ensures DigitCount(n) <= k <==> n < Pow10(k)
    decreases k
  {
    if n >= 10 && k > 1 {
      DigitCountBound(n / 10, k - 1);
      assert n / 10 < Pow10(k - 1) <==> n < 10 * Pow10(k - 1);
    }
  }

  /**
   * The money fields are DecimalField(max_digits=10, decimal_places=2). The
   * digits after the point are the cents, so a value fits iff its magnitude in
   * cents has at most ten digits, that is iff it is below 10^10.
   */
  const MaxDigits: nat := 10
  const AmountLimit: Cents := 10_000_000_000

  function FitsAmountField(c: Cents): (r: bool)
    ensures r <==> DigitCount(if c < 0 then -c else c) <= MaxDigits
  {
    DigitCountBound(if c < 0 then -c else c, MaxDigits);
    assert Pow10(5) == 100_000;
    assert Pow10(10) == 100_000 * Pow10(5);
    -AmountLimit < c < AmountLimit
  }

  // ---------------------------------------------------------------- Profile

  /** Column widths of the two optional text fields of a profile. */
  const NationalIdMaxLength: nat := 20
  const PhoneNumberMaxLength: nat := 15

  /** One profile per user (the OneToOneField is the key of the profile map). */
  datatype Profile = Profile(
    nationalId: Option<string>,
    phoneNumber: Option<string>,
    monthlyIncome: Option<Cents>,
    verified: bool)

  /**
   * A profile its columns can hold: the national id and phone number within
   * their max_length, the monthly income within the digits of its DecimalField.
   */
  function ProfileFits(p: Profile): (r: bool)
    ensures r <==>
      && (p.nationalId.Some? ==> |p.nationalId.value| <= NationalIdMaxLength)
      && (p.phoneNumber.Some? ==> |p.phoneNumber.value| <= PhoneNumberMaxLength)
      && (p.monthlyIncome.Some? ==>
            DigitCount(if p.monthlyIncome.value < 0 then -p.monthlyIncome.value else p.monthlyIncome.value)
              <= MaxDigits)
  {
    && (p.nationalId.Some? ==> |p.nationalId.value| <= NationalIdMaxLength)
    && (p.phoneNumber.Some? ==> |p.phoneNumber.value| <= PhoneNumberMaxLength)
    && (p.monthlyIncome.Some? ==> FitsAmountField(p.monthlyIncome.value))
  }

  /** The profile `get_or_create` makes: every optional field empty, not verified. */
  const NewProfile: Profile := Profile(None, None, None, false)

  // ---------------------------------------------------------------- Loan

  /** The four STATUS_CHOICES; the column stores the name. */
  datatype Status = Pending | Active | Paid | Rejected
  {
    function Name(): (n: string)
      ensures |n| <= 10  // max_length of the status column
    {
      match this
      case Pending => "Pending"
      case Active => "Active"
      case Paid => "Paid"
      case Rejected => "Rejected"
    }

    /** Open loans are the ones `status__in=['Active', 'Pending']` selects. */
    predicate IsOpen()
    {
      this == Pending || this == Active
    }
  }

  /** The status a new Loan instance has before anything assigns one. */
  const DefaultStatus: Status := Pending

  /** The status whose stored name is `n`, if any. */
  function ParseStatus(n: string): (r: Option<Status>)
    ensures r.Some? ==> r.value.Name() == n
  {
    if n == "Pending" then Some(Pending)
    else if n == "Active" then Some(Active)
    else if n == "Paid" then Some(Paid)
    else if n == "Rejected" then Some(Rejected)
    else None
  }

  /** A stored loan row. */
  datatype Loan = Loan(
    borrower: UserId,
    amount: Cents,
    termDays: int,
    status: Status,
    createdAt: Instant,
    dueDate: Option<Day>)

  /** A Loan instance that has not been saved yet: it has no id and no creation time. */
  datatype LoanDraft = LoanDraft(
    borrower: UserId,
    amount: Cents,
    termDays: int,
    status: Status,
    dueDate: Option<Day>)

  /** The instance `LoanForm.save(commit=False)` builds for a borrower. */
  function DraftFromForm(borrower: UserId, amount: Cents, termDays: int): (d: LoanDraft)
    ensures d.status == Pending && d.dueDate.None?
    ensures d.borrower == borrower && d.amount == amount && d.termDays == termDays
  {
    LoanDraft(borrower, amount, termDays, DefaultStatus, None)
  }

  /**
   * The guard of Loan.save: the due date is derived only for an instance that
   * has no id yet, has no due date, and has a non-zero term.
   */
  function SaveDueDate(hasId: bool, dueDate: Option<Day>, termDays: int, today: Day): Option<Day>
  {
    if !hasId && dueDate.None? && termDays != 0 then Some(today + termDays) else dueDate
  }

  /**
   * Loan.save on a new instance. The clock is read twice: `now` when the due
   * date is derived, then `stampedAt` when the row is inserted and its
   * auto_now_add creation time is filled in.
   */
  function FirstSave(d: LoanDraft, now: Instant, stampedAt: Instant): (l: Loan)
    ensures l.borrower == d.borrower && l.amount == d.amount && l.termDays == d.termDays
    ensures l.status == d.status && l.createdAt == stampedAt
    ensures d.dueDate.None? && d.termDays != 0 ==> l.dueDate == Some(DateOf(now) + d.termDays)
    ensures d.dueDate.Some? || d.termDays == 0 ==> l.dueDate == d.dueDate
  {
    Loan(d.borrower, d.amount, d.termDays, d.status, stampedAt,
         SaveDueDate(false, d.dueDate, d.termDays, DateOf(now)))
  }

  /**
   * The due date is the creation date plus the term when both clock reads fall
   * on the same day, and can be a day short of it when they straddle midnight.
   */
  lemma DueDateAgainstCreation(d: LoanDraft, now: Instant, stampedAt: Instant)
    requires d.dueDate.None? && d.termDays != 0 && now <= stampedAt
    ensures FirstSave(d, now, stampedAt).dueDate.value <= DateOf(stampedAt) + d.termDays
    ensures DateOf(now) == DateOf(stampedAt) ==>
      FirstSave(d, now, stampedAt).dueDate == Some(DateOf(stampedAt) + d.termDays)
  {
  }

  /** One second before midnight and midnight itself: the due date falls a day short. */
  lemma DueDateAcrossMidnight(d: LoanDraft)
    requires d.dueDate.None? && d.termDays != 0
    ensures FirstSave(d, 86399, 86400).dueDate == Some(DateOf(FirstSave(d, 86399, 86400).createdAt) + d.termDays - 1)
  {
  }

  /**
   * Loan.save on a stored row after its status was assigned: the row already
   * has an id, so neither the due date nor the creation time is recomputed.
   */
  function Resave(l: Loan, status: Status, now: Instant): (r: Loan)
    ensures r == l.(status := status)
  {
    l.(status := status, dueDate := SaveDueDate(true, l.dueDate, l.termDays, DateOf(now)))
  }

  // ---------------------------------------------------------------- Repayment

  /** One entry of the append-only repayment table; it references exactly one loan. */
  datatype Repayment = Repayment(loan: LoanId, amount: Cents, paidAt: Instant)

  /** What one repayment contributes to the total of loan `id`. */
  function Share(r: Repayment, id: LoanId): Cents
  {
    if r.loan == id then r.amount else 0
  }

  /**
   * `total_repaid`: the sum of the amounts of the repayments of loan `id`
   * (0 when there are none).
   */
  function TotalRepaid(reps: seq<Repayment>, id: LoanId): (t: Cents)
    ensures (forall k :: 0 <= k < |reps| ==> reps[k].loan != id) ==> t == 0
  {
    if reps == [] then 0 else Share(reps[0], id) + TotalRepaid(reps[1..], id)
  }

  /** `balance`: the principal less everything repaid on the loan. */
  function Balance(l: Loan, reps: seq<Repayment>, id: LoanId): (b: Cents)
    ensures b <= 0 <==> TotalRepaid(reps, id) >= l.amount
    ensures (forall k :: 0 <= k < |reps| ==> reps[k].loan != id) ==> b == l.amount
  {
    l.amount - TotalRepaid(reps, id)
  }

  // ---------------------------------------------------------------- lemmas

  lemma StatusNameRoundTrip(s: Status)
    ensures ParseStatus(s.Name()) == Some(s)
  {
  }

  /** Distinct statuses are stored under distinct names. */
  lemma StatusNameInjective(s: Status, t: Status)
    ensures s.Name() == t.Name() <==> s == t
  {
    StatusNameRoundTrip(s);
    StatusNameRoundTrip(t);
  }

  /** The total over a concatenation of tables is the sum of the totals. */
  lemma {:induction false} TotalRepaidConcat(a: seq<Repayment>, b: seq<Repayment>, id: LoanId)
    ensures TotalRepaid(a + b, id) == TotalRepaid(a, id) + TotalRepaid(b, id)
  {
    if a == [] {
      assert a + b == b;
    } else {
      assert (a + b)[1..] == a[1..] + b;
      TotalRepaidConcat(a[1..], b, id);
    }
  }

  /** Appending one repayment changes the total of its own loan by its amount and no other. */
  lemma TotalRepaidAppend(reps: seq<Repayment>, r: Repayment, id: LoanId)
    ensures TotalRepaid(reps + [r], id)
         == TotalRepaid(reps, id) + (if r.loan == id then r.amount else 0)
  {
    TotalRepaidConcat(reps, [r], id);
    assert [r][1..] == [];
  }

  /** Taking one repayment out of the table takes its share out of the total. */
  lemma TotalRepaidRemove(b: seq<Repayment>, j: nat, id: LoanId)
    requires j < |b|
    ensures TotalRepaid(b, id) == Share(b[j], id) + TotalRepaid(b[..j] + b[j + 1..], id)
  {
    assert b == b[..j] + ([b[j]] + b[j + 1..]);
    TotalRepaidConcat(b[..j], [b[j]] + b[j + 1..], id);
    TotalRepaidConcat(b[..j], b[j + 1..], id);
    assert ([b[j]] + b[j + 1..])[1..] == b[j + 1..];
  }

  /**
   * The total is a sum over the repayment table as a bag: any reordering of the
   * table (the same repayments, each as often) has the same total.
   */
  lemma {:induction false} TotalRepaidOrderIndependent(a: seq<Repayment>, b: seq<Repayment>, id: LoanId)
    requires multiset(a) == multiset(b)
    ensures TotalRepaid(a, id) == TotalRepaid(b, id)
    decreases |a|
  {
    if a == [] {
      assert |b| == |multiset(b)|;
    } else {
      assert a[0] in multiset(b);
      var j :| 0 <= j < |b| && b[j] == a[0];
      var rest := b[..j] + b[j + 1..];
      assert multiset(b) == multiset(rest) + multiset{b[j]} by {
        assert b == b[..j] + [b[j]] + b[j + 1..];
      }
      assert multiset(a) == multiset{a[0]} + multiset(a[1..]) by {
        assert a == [a[0]] + a[1..];
      }
      assert multiset(a[1..]) == multiset(a) - multiset{a[0]};
      assert multiset(rest) == multiset(b) - multiset{b[j]};
      TotalRepaidOrderIndependent(a[1..], rest, id);
      TotalRepaidRemove(b, j, id);
    }
  }

  /** A repayment of a loan moves that loan's balance down by its amount. */
  lemma BalanceAfterRepayment(l: Loan, reps: seq<Repayment>, r: Repayment)
    ensures Balance(l, reps + [r], r.loan) == Balance(l, reps, r.loan) - r.amount
  {
    TotalRepaidAppend(reps, r, r.loan);
  }

  /** A repayment of one loan leaves the balance of every other loan as it was. */
  lemma BalanceOfOtherLoan(l: Loan, reps: seq<Repayment>, r: Repayment, id: LoanId)
    requires r.loan != id
    ensures TotalRepaid(reps + [r], id) == TotalRepaid(reps, id)
    ensures Balance(l, reps + [r], id) == Balance(l, reps, id)
  {
    TotalRepaidAppend(reps, r, id);
  }

  /** The due date is derived on the first save and kept by every later save. */
  lemma DueDateDerivedOnce(d: LoanDraft, now: Instant, stampedAt: Instant, later: seq<(Status, Instant)>)
    requires d.dueDate.None? && d.termDays != 0
    ensures ResaveAll(FirstSave(d, now, stampedAt), later).dueDate == Some(DateOf(now) + d.termDays)
    ensures ResaveAll(FirstSave(d, now, stampedAt), later).createdAt == stampedAt
  {
    ResaveAllKeepsDueDate(FirstSave(d, now, stampedAt), later);
  }

  /** A row saved again once per element of `saves`, each time with a new status. */
  function ResaveAll(l: Loan, saves: seq<(Status, Instant)>): Loan
    decreases |saves|
  {
    if saves == [] then l else ResaveAll(Resave(l, saves[0].0, saves[0].1), saves[1..])
  }

  lemma {:induction false} ResaveAllKeepsDueDate(l: Loan, saves: seq<(Status, Instant)>)
    ensures ResaveAll(l, saves).dueDate == l.dueDate
    ensures ResaveAll(l, saves).createdAt == l.createdAt
    decreases |saves|
  {
    if saves != [] {
      ResaveAllKeepsDueDate(Resave(l, saves[0].0, saves[0].1), saves[1..]);
    }
  }
}
