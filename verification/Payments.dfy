/** Payment and receipt plans of studio-finance.ts, fed back on themselves over whole runs. */
module Payments {
  import opened Numbers

  /** The notes of the inserted rows: money paid before the ledger existed, and new money. */
  datatype Note = Earlier | New
  datatype Row = Row(amount: int, note: Note)
  datatype Plan = Plan(inserts: seq<Row>, paid: int)

  function Total(rows: seq<Row>): int {
    if rows == [] then 0 else Total(rows[..|rows| - 1]) + rows[|rows| - 1].amount
  }

  function PaymentPlan(recorded: int, ledger: int, incoming: int): Plan {
    var known := Max(0, ledger);
    var gap := Max(0, recorded) - known;
    var catchUp := if gap > 0 then [Row(gap, Earlier)] else [];
    var added := if incoming > 0 then [Row(incoming, New)] else [];
    Plan(catchUp + added, known + Max(0, gap) + Max(0, incoming))
  }

  /** `paymentPlan`, step by step. */
  method ComputePaymentPlan(recorded: int, ledger: int, incoming: int) returns (plan: Plan)
    ensures plan == PaymentPlan(recorded, ledger, incoming)
  {
    var inserts: seq<Row> := [];
    var paid := Max(0, ledger);
    var gap := Max(0, recorded) - paid;
    if gap > 0 {
      inserts := inserts + [Row(gap, Earlier)];
      paid := paid + gap;
    }
    if incoming > 0 {
      inserts := inserts + [Row(incoming, New)];
      paid := paid + incoming;
    }
    plan := Plan(inserts, paid);
  }

  function ReceiptPlan(recorded: int, ledger: int, deposit: int, depositRowExists: bool): Plan {
    if deposit <= 0 || depositRowExists then PaymentPlan(recorded, ledger, 0)
    else if recorded - ledger >= deposit then PaymentPlan(recorded, ledger, 0)
    else PaymentPlan(recorded, ledger, deposit)
  }

  function CountEarlier(rows: seq<Row>): nat {
    if rows == [] then 0
    else CountEarlier(rows[..|rows| - 1]) + (if rows[|rows| - 1].note == Earlier then 1 else 0)
  }

  /**
   * The balance is the larger of the two records plus the new money; the ledger catches up to it exactly
   * when it was not negative.
   */
  lemma PlanShape(recorded: int, ledger: int, incoming: int)
    ensures var plan := PaymentPlan(recorded, ledger, incoming);
            && plan.paid == Max(0, Max(recorded, ledger)) + Max(0, incoming)
            && (forall row :: row in plan.inserts ==> row.amount > 0)
            && CountEarlier(plan.inserts) == (if Max(0, recorded) > Max(0, ledger) then 1 else 0)
            && (ledger + Total(plan.inserts) == plan.paid <==> ledger >= 0)
  {
    hide Total, CountEarlier;
    var gap := Max(0, recorded) - Max(0, ledger);
    MaybeRow(Row(gap, Earlier), gap > 0);
    MaybeRow(Row(incoming, New), incoming > 0);
    CountEarlierConcat(if gap > 0 then [Row(gap, Earlier)] else [], if incoming > 0 then [Row(incoming, New)] else []);
  }

  /** What the rows of one kind add up to. */
  function TotalOf(rows: seq<Row>, note: Note): int {
    if rows == [] then 0
    else TotalOf(rows[..|rows| - 1], note) + (if rows[|rows| - 1].note == note then rows[|rows| - 1].amount else 0)
  }

  /**
   * The rows noted as earlier make up what the ledger lacked, the others are the new money; earlier money
   * comes first.
   */
  lemma PlanRows(recorded: int, ledger: int, incoming: int)
    ensures var rows := PaymentPlan(recorded, ledger, incoming).inserts;
            var had, lacked := if ledger > 0 then ledger else 0, if recorded > 0 then recorded else 0;
            && TotalOf(rows, Earlier) == (if lacked > had then lacked - had else 0)
            && TotalOf(rows, New) == (if incoming > 0 then incoming else 0)
            && forall i, j :: 0 <= i < j < |rows| ==> rows[i].note == Earlier && rows[j].note == New
  {
    hide TotalOf;
    var had, lacked := Max(0, ledger), Max(0, recorded);
    var earlier, added := Row(lacked - had, Earlier), Row(incoming, New);
    TotalOfNone();
    TotalOfOne(earlier);
    TotalOfOne(added);
    TotalOfTwo(earlier, added);
    assert [earlier] + [] == [earlier] && [] + [added] == [added];
    assert PaymentPlan(recorded, ledger, incoming).inserts ==
        (if lacked > had then [earlier] else []) + (if incoming > 0 then [added] else []);
  }

  lemma TotalOfNone()
    ensures forall note :: TotalOf([], note) == 0
  {
  }

  lemma TotalOfOne(row: Row)
    ensures forall note :: TotalOf([row], note) == if row.note == note then row.amount else 0
  {
    assert [row][..0] == [];
  }

  lemma TotalOfTwo(a: Row, b: Row)
    ensures forall note :: TotalOf([a] + [b], note) == TotalOf([a], note) + TotalOf([b], note)
  {
    assert ([a] + [b])[..1] == [a] && [b][..0] == [];
  }

  /** A row that is inserted or not. */
  lemma MaybeRow(row: Row, inserted: bool)
    ensures var rows := if inserted then [row] else [];
            && Total(rows) == (if inserted then row.amount else 0)
            && CountEarlier(rows) == (if inserted && row.note == Earlier then 1 else 0)
  {
    assert [row][..0] == [];
  }

  /** The stored balance, the sum of the ledger, and the ledger's rows so far. */
  datatype Books = Books(recorded: int, ledger: int, rows: seq<Row>)

  function Pay(b: Books, incoming: int): Books {
    var plan := PaymentPlan(b.recorded, b.ledger, incoming);
    Books(plan.paid, b.ledger + Total(plan.inserts), b.rows + plan.inserts)
  }

  function PayAll(b: Books, incomings: seq<int>): Books {
    if incomings == [] then b else Pay(PayAll(b, incomings[..|incomings| - 1]), incomings[|incomings| - 1])
  }

  function Positives(incomings: seq<int>): (sum: int)
    ensures sum >= 0
  {
    if incomings == [] then 0
    else Positives(incomings[..|incomings| - 1]) + Max(0, incomings[|incomings| - 1])
  }

  lemma {:induction false} CountEarlierConcat(a: seq<Row>, b: seq<Row>)
    ensures CountEarlier(a + b) == CountEarlier(a) + CountEarlier(b)
    ensures Total(a + b) == Total(a) + Total(b)
  {
    if b == [] {
      assert a + b == a;
    } else {
      CountEarlierConcat(a, b[..|b| - 1]);
      assert (a + b)[..|a + b| - 1] == a + b[..|b| - 1];
    }
  }

  /**
   * Any run of payments ends at the larger record plus the positive payments. After every one the
   * ledger equals the balance; all rows are positive and at most one of them catches up.
   */
  lemma {:induction false} PaymentRun(recorded: int, ledger: int, incomings: seq<int>)
    requires recorded >= 0 && ledger >= 0 && incomings != []
    ensures var b := PayAll(Books(recorded, ledger, []), incomings);
            && b.recorded == b.ledger == Max(recorded, ledger) + Positives(incomings)
            && b.ledger == ledger + Total(b.rows)
            && (forall row :: row in b.rows ==> row.amount > 0)
            && CountEarlier(b.rows) == (if recorded > ledger then 1 else 0)
  {
    hide PaymentPlan;
    var k := |incomings| - 1;
    var front, x := incomings[..k], incomings[k];
    var start := Books(recorded, ledger, []);
    var b := PayAll(start, front);
    PlanShape(b.recorded, b.ledger, x);
    CountEarlierConcat(b.rows, PaymentPlan(b.recorded, b.ledger, x).inserts);
    if k == 0 {
      assert b == start;
    } else {
      PaymentRun(recorded, ledger, front);
    }
  }

  // Receipts.

  /** `payment_status` of a request. */
  datatype Status = NotRequired | ProposalPending | AwaitingPayment | Submitted | Rejected | Expired | Approved

  datatype Verdict = Propose | Book | TurnDown

  /**
   * What the handlers of writes.ts do to one request. A payment is `named` when staff note it as the
   * deposit; a receipt comes in time or after the hold has run out. A handler that throws changes nothing.
   */
  datatype Event =
    | Payment(amount: int, named: bool)
    | Reconcile
    | Offer(verdict: Verdict, deposit: int)
    | Accept
    | Submit(inTime: bool)
    | Lapse
    | Decide(approved: bool)
    | Cancel
    | Unlink

  /** `depositRow`: some ledger row bears the deposit's note; `linked`: the request holds a booking. */
  datatype Desk = Desk(books: Books, deposit: int, depositRow: bool, status: Status, booked: bool, linked: bool)

  /** A plan carried out; its new row is stored as the deposit or as something else. */
  function Carried(d: Desk, plan: Plan, named: bool): Desk {
    d.(books := Books(plan.paid, d.books.ledger + Total(plan.inserts), d.books.rows + plan.inserts),
       depositRow := d.depositRow || (named && exists row :: row in plan.inserts && row.note == New))
  }

  predicate HoldOpen(status: Status) {
    status == AwaitingPayment || status == Rejected
  }

  /** The approval of a receipt that is waiting for review. */
  predicate Approves(d: Desk, e: Event) {
    e == Decide(true) && d.status == Submitted && d.linked
  }

  function Handle(d: Desk, e: Event): Desk {
    match e
    case Payment(amount, named) => Carried(d, PaymentPlan(d.books.recorded, d.books.ledger, amount), named)
    case Reconcile => if d.books.ledger > d.books.recorded then d.(books := d.books.(recorded := d.books.ledger)) else d
    case Offer(verdict, deposit) =>
      if d.booked || (verdict == Propose && (d.status == Submitted || HoldOpen(d.status))) then d
      else d.(deposit := deposit, status := if verdict == Propose then ProposalPending else NotRequired,
              booked := verdict == Book, linked := false)
    case Accept => if d.status == ProposalPending then d.(status := AwaitingPayment, linked := true) else d
    case Submit(inTime) =>
      if !HoldOpen(d.status) then d
      else if inTime then d.(status := Submitted)
      else d.(status := Expired, linked := false)
    case Lapse => if HoldOpen(d.status) then d.(status := Expired, linked := false) else d
    case Decide(approved) =>
      if d.status != Submitted then d
      else if !approved then d.(status := Rejected)
      else if !d.linked then d
      else
        var plan := ReceiptPlan(d.books.recorded, d.books.ledger, d.deposit, d.depositRow);
        Carried(d, plan, true).(status := Approved, booked := true)
    case Cancel => d.(status := NotRequired, booked := false, linked := false)
    case Unlink => d.(linked := false)
  }

  function HandleAll(d: Desk, events: seq<Event>): Desk {
    if events == [] then d else Handle(HandleAll(d, events[..|events| - 1]), events[|events| - 1])
  }

  /** What a payment brings in. */
  function Incoming(e: Event): (sum: int)
    ensures sum >= 0
  {
    match e case Payment(amount, _) => Max(0, amount) case _ => 0
  }

  function Paid(events: seq<Event>): (sum: int)
    ensures sum >= 0
  {
    if events == [] then 0 else Paid(events[..|events| - 1]) + Incoming(events[|events| - 1])
  }

  /**
   * An approval counts the deposit when there is one, no row bears its note, and the balance exceeds the
   * ledger by less.
   */
  predicate Counts(d: Desk, e: Event) {
    Approves(d, e) && d.deposit > 0 && !d.depositRow && d.books.recorded - d.books.ledger < d.deposit
  }

  function DepositsCounted(d: Desk, events: seq<Event>): (n: nat) {
    if events == [] then 0
    else
      var c, e := HandleAll(d, events[..|events| - 1]), events[|events| - 1];
      DepositsCounted(d, events[..|events| - 1]) + (if Counts(c, e) then 1 else 0)
  }

  function DepositMoney(d: Desk, events: seq<Event>): int {
    if events == [] then 0
    else
      var c, e := HandleAll(d, events[..|events| - 1]), events[|events| - 1];
      DepositMoney(d, events[..|events| - 1]) + (if Counts(c, e) then c.deposit else 0)
  }

  predicate Sane(b: Books) {
    b.recorded >= 0 && b.ledger >= 0
  }

  function Worth(b: Books): int {
    Max(b.recorded, b.ledger)
  }

  predicate NamesDeposit(e: Event) {
    e.Payment? && e.named && e.amount > 0
  }

  predicate SomeNamed(events: seq<Event>) {
    exists e :: e in events && NamesDeposit(e)
  }

  lemma SomeNamedSnoc(events: seq<Event>)
    requires events != []
    ensures SomeNamed(events) <==> SomeNamed(events[..|events| - 1]) || NamesDeposit(events[|events| - 1])
  {
    assert events == events[..|events| - 1] + [events[|events| - 1]];
  }

  lemma NoneNamed()
    ensures !SomeNamed([])
  {
  }

  /**
   * An approval adds the deposit exactly when there is one, no row holds it, and the balance exceeds the
   * ledger by less.
   */
  lemma ApprovalAdds(recorded: int, ledger: int, deposit: int, depositRow: bool)
    requires recorded >= 0 && ledger >= 0
    ensures ReceiptPlan(recorded, ledger, deposit, depositRow).paid == Max(recorded, ledger)
              + (if deposit > 0 && !depositRow && recorded - ledger < deposit then deposit else 0)
  {
    PlanShape(recorded, ledger, 0);
    PlanShape(recorded, ledger, deposit);
  }

  lemma NewRows(recorded: int, ledger: int, incoming: int)
    ensures (exists row :: row in PaymentPlan(recorded, ledger, incoming).inserts && row.note == New) <==> incoming > 0
  {
    if incoming > 0 {
      assert Row(incoming, New) in PaymentPlan(recorded, ledger, incoming).inserts;
    }
  }

  /** A plan brings balance and ledger together at the larger of the two plus the new money. */
  lemma PlanCarried(d: Desk, incoming: int, named: bool)
    requires Sane(d.books)
    ensures var c := Carried(d, PaymentPlan(d.books.recorded, d.books.ledger, incoming), named);
            && c.books.recorded == c.books.ledger == Worth(d.books) + Max(0, incoming)
            && (c.depositRow <==> d.depositRow || (named && incoming > 0))
  {
    hide PaymentPlan;
    PlanShape(d.books.recorded, d.books.ledger, incoming);
    NewRows(d.books.recorded, d.books.ledger, incoming);
  }

  /** What one event does to the money, whatever the state of the request. */
  lemma HandleMoney(d: Desk, e: Event)
    requires Sane(d.books)
    ensures var c := Handle(d, e);
            && Sane(c.books)
            && Worth(c.books) == Worth(d.books) + Incoming(e) + (if Counts(d, e) then d.deposit else 0)
            && (c.depositRow <==> d.depositRow || NamesDeposit(e) || Counts(d, e))
            && (e.Payment? || Approves(d, e) || d.books.recorded == d.books.ledger ==>
                c.books.recorded == c.books.ledger)
  {
    hide PaymentPlan, Carried;
    match e {
      case Payment(amount, named) => PlanCarried(d, amount, named);
      case Decide(true) => PlanCarried(d, if Counts(d, e) then d.deposit else 0, true);
      case _ =>
    }
  }

  /**
   * Over any run on one request, the balance or the ledger, whichever is larger, grows by exactly the
   * payments and the deposits that approvals count; and at most one approval of the whole run counts
   * one, none once a row bears the deposit's note.
   */
  lemma {:induction false} ReceiptRun(d: Desk, events: seq<Event>)
    requires Sane(d.books)
    ensures var c := HandleAll(d, events);
            && Sane(c.books)
            && Worth(c.books) == Worth(d.books) + Paid(events) + DepositMoney(d, events)
            && DepositsCounted(d, events) <= 1
            && (DepositsCounted(d, events) == 0 ==> DepositMoney(d, events) == 0)
            && (d.depositRow ==> DepositsCounted(d, events) == 0)
            && (c.depositRow <==> d.depositRow || DepositsCounted(d, events) == 1 || SomeNamed(events))
            && (d.books.recorded == d.books.ledger ==> c.books.recorded == c.books.ledger)
  {
    hide Handle, Counts, Incoming, NamesDeposit, SomeNamed, Worth, Sane;
    if events == [] {
      NoneNamed();
    }
    if events != [] {
      var k := |events| - 1;
      var c, e := HandleAll(d, events[..k]), events[k];
      ReceiptRun(d, events[..k]);
      HandleMoney(c, e);
      SomeNamedSnoc(events);
      assert Counts(c, e) ==> !c.depositRow by {
        CountsNeedsNoRow(c, e);
      }
    }
  }

  lemma CountsNeedsNoRow(d: Desk, e: Event)
    ensures Counts(d, e) ==> !d.depositRow
  {
  }

  /** Once the deposit is a row of the ledger, no run of any events ever adds a deposit again. */
  lemma DepositNeverAddedAgain(d: Desk, events: seq<Event>)
    requires d.depositRow && Sane(d.books)
    ensures HandleAll(d, events).depositRow && Worth(HandleAll(d, events).books) == Worth(d.books) + Paid(events)
  {
    hide HandleAll, DepositMoney, DepositsCounted, Paid;
    ReceiptRun(d, events);
  }

  // One approval for each receipt.

  function One(b: bool): nat {
    if b then 1 else 0
  }

  function Approvals(d: Desk, events: seq<Event>): nat {
    if events == [] then 0
    else
      var c, e := HandleAll(d, events[..|events| - 1]), events[|events| - 1];
      Approvals(d, events[..|events| - 1]) + One(Approves(c, e))
  }

  /** The receipts that were taken in for review. */
  function Submissions(d: Desk, events: seq<Event>): nat {
    if events == [] then 0
    else
      var c, e := HandleAll(d, events[..|events| - 1]), events[|events| - 1];
      Submissions(d, events[..|events| - 1]) + One(e == Submit(true) && HoldOpen(c.status))
  }

  function Cancels(events: seq<Event>): nat {
    if events == [] then 0 else Cancels(events[..|events| - 1]) + One(events[|events| - 1] == Cancel)
  }

  /** What these count: all cancellations, and some of the receipts sent in time and of the approvals. */
  lemma {:induction false} CountsAre(d: Desk, events: seq<Event>)
    ensures Cancels(events) == multiset(events)[Cancel]
    ensures Submissions(d, events) <= multiset(events)[Submit(true)]
    ensures Approvals(d, events) <= multiset(events)[Decide(true)]
  {
    hide Handle, HandleAll, HoldOpen;
    if events != [] {
      var k := |events| - 1;
      CountsAre(d, events[..k]);
      assert events == events[..k] + [events[k]];
    }
  }

  /** A booked request has its receipt approved, or needs none. */
  predicate BookedStatus(d: Desk) {
    d.booked ==> d.status == Approved || d.status == NotRequired
  }

  /**
   * Each submitted receipt is approved at most once; and without a cancellation, at most one receipt
   * of a request is, and none once it is booked. The second half is about requests whose status
   * follows from being booked: a later session is stored as booked with the status of its parent.
   */
  lemma {:induction false} ReceiptApprovedOnce(d: Desk, events: seq<Event>)
    ensures var c := HandleAll(d, events);
            && Approvals(d, events) + One(c.status == Submitted) <= Submissions(d, events) + One(d.status == Submitted)
            && (BookedStatus(d) ==>
                  BookedStatus(c) && Approvals(d, events) + One(d.booked) <= Cancels(events) + One(c.booked))
  {
    hide Handle, Approves, BookedStatus, HoldOpen, One;
    if events != [] {
      var k := |events| - 1;
      ReceiptApprovedOnce(d, events[..k]);
      HandleStatus(HandleAll(d, events[..k]), events[k]);
    }
  }

  /** One event: an approval uses up a submitted receipt, and only on a request that is not booked. */
  lemma HandleStatus(d: Desk, e: Event)
    ensures var c := Handle(d, e); var approved := One(Approves(d, e));
            && approved + One(c.status == Submitted)
                 <= One(d.status == Submitted) + One(e == Submit(true) && HoldOpen(d.status))
            && (BookedStatus(d) ==> BookedStatus(c) && approved + One(d.booked) <= One(c.booked) + One(e == Cancel))
  {
    hide PaymentPlan, ReceiptPlan, Total;
  }

  // The deposit already in the balance.

  /** Balance and ledger were brought together: money was paid in, or a receipt approved. */
  predicate Met(d: Desk, events: seq<Event>) {
    SomePayment(events) || Approvals(d, events) > 0
  }

  predicate SomePayment(events: seq<Event>) {
    exists e :: e in events && e.Payment?
  }

  lemma SomePaymentSnoc(front: seq<Event>, e: Event)
    ensures SomePayment(front + [e]) <==> SomePayment(front) || e.Payment?
  {
    assert e in front + [e];
  }

  lemma NoPayment()
    ensures !SomePayment([])
  {
  }

  /** By how much the balance exceeds the ledger. */
  function Gap(b: Books): int {
    b.recorded - b.ledger
  }

  /** One event leaves the gap, or closes it: any gap with money or an approval, a negative one with a reconcile. */
  lemma HandleGap(d: Desk, e: Event)
    requires Sane(d.books)
    ensures var c := Handle(d, e);
            && Sane(c.books)
            && (e.Payment? || Approves(d, e) ==> Gap(c.books) == 0)
            && (Gap(c.books) == Gap(d.books) || (Gap(d.books) < 0 && Gap(c.books) == 0) || e.Payment? || Approves(d, e))
  {
    hide PaymentPlan, Carried;
    match e {
      case Payment(amount, named) => PlanCarried(d, amount, named);
      case Decide(true) => PlanCarried(d, if Counts(d, e) then d.deposit else 0, true);
      case _ =>
    }
  }

  lemma {:induction false} GapRun(d: Desk, events: seq<Event>)
    requires Sane(d.books)
    ensures var c := HandleAll(d, events);
            && Sane(c.books)
            && (Met(d, events) ==> Gap(c.books) == 0)
            && (!Met(d, events) ==> Gap(c.books) == Gap(d.books) || (Gap(d.books) < 0 && Gap(c.books) == 0))
  {
    hide Handle, Approves, Sane, SomePayment;
    if events == [] {
      assert !SomePayment(events) by {
        NoPayment();
      }
    } else {
      var front, e := events[..|events| - 1], events[|events| - 1];
      assert events == front + [e];
      GapRun(d, front);
      HandleGap(HandleAll(d, front), e);
      SomePaymentSnoc(front, e);
    }
  }

  /**
   * An approval must not add the deposit if it is already in the balance. After any run, from any
   * balance and ledger, it adds the deposit exactly when no row bears the deposit's note (none at the
   * start, no payment noted so, no earlier approval that counted one) and either money was paid in or
   * a receipt approved since, or the balance exceeded the ledger by less than the deposit at the start.
   */
  lemma ApprovalAfterRun(d: Desk, events: seq<Event>)
    requires Sane(d.books)
    requires Approves(HandleAll(d, events), Decide(true)) && HandleAll(d, events).deposit > 0
    ensures var c := HandleAll(d, events); var after := Handle(c, Decide(true)).books;
            var adds := && !d.depositRow && DepositsCounted(d, events) == 0 && !SomeNamed(events)
                        && (Met(d, events) || Gap(d.books) < c.deposit);
            after.recorded == after.ledger == Worth(c.books) + (if adds then c.deposit else 0)
  {
    hide HandleAll, Handle, DepositMoney, DepositsCounted, Paid, NamesDeposit, SomeNamed, Met;
    ReceiptRun(d, events);
    GapRun(d, events);
    HandleMoney(HandleAll(d, events), Decide(true));
  }

  /**
   * A receipt on an open hold goes to review; turned down, it may be sent again; approved, the request is
   * booked. One that comes after the hold has run out expires the request instead.
   */
  lemma ReceiptPath(d: Desk)
    requires HoldOpen(d.status) && d.linked
    ensures var tried := HandleAll(d, [Submit(true), Decide(false)]);
            && tried == d.(status := Rejected)
            && HoldOpen(tried.status)
            && var done := HandleAll(d, [Submit(true), Decide(false), Submit(true), Decide(true)]);
               done.status == Approved && done.booked
    ensures HandleAll(d, [Submit(false)]) == d.(status := Expired, linked := false)
    ensures HandleAll(d, [Lapse]) == d.(status := Expired, linked := false)
  {
    hide HandleAll, ReceiptPlan, Total;
    var again := d.(status := Rejected);
    HandleOne(d, Submit(false));
    HandleOne(d, Lapse);
    HandleFirst(d, Submit(true), [Decide(false)]);
    HandleOne(d.(status := Submitted), Decide(false));
    assert [Submit(true)] + [Decide(false)] == [Submit(true), Decide(false)];
    HandleSteps(d, [Submit(true), Decide(false)], [Submit(true), Decide(true)]);
    assert [Submit(true), Decide(false)] + [Submit(true), Decide(true)]
        == [Submit(true), Decide(false), Submit(true), Decide(true)];
    HandleFirst(again, Submit(true), [Decide(true)]);
    HandleOne(d.(status := Submitted), Decide(true));
    assert [Submit(true)] + [Decide(true)] == [Submit(true), Decide(true)];
  }

  /** An offer opens a hold once it is accepted; while one is open, under review or booked, no other can be proposed. */
  lemma OfferPath(d: Desk, deposit: int)
    ensures d.booked || d.status == Submitted || d.status == AwaitingPayment || d.status == Rejected ==>
              Handle(d, Offer(Propose, deposit)) == d
    ensures !d.booked && d.status != Submitted && d.status != AwaitingPayment && d.status != Rejected ==>
              HandleAll(d, [Offer(Propose, deposit), Accept]) ==
                d.(deposit := deposit, status := AwaitingPayment, linked := true)
    ensures d.status != ProposalPending ==> Handle(d, Accept) == d
    ensures d.booked ==> Handle(d, Offer(Book, deposit)) == Handle(d, Offer(TurnDown, deposit)) == d
    ensures !d.booked ==>
              && Handle(d, Offer(Book, deposit)) == d.(deposit := deposit, status := NotRequired, booked := true,
                  linked := false)
              && Handle(d, Offer(TurnDown, deposit)) == d.(deposit := deposit, status := NotRequired, linked := false)
  {
    hide HandleAll;
    HandleFirst(d, Offer(Propose, deposit), [Accept]);
    HandleOne(Handle(d, Offer(Propose, deposit)), Accept);
    assert [Offer(Propose, deposit)] + [Accept] == [Offer(Propose, deposit), Accept];
  }

  /** A cancelled request can be offered anew; a receipt whose booking is gone cannot be approved. */
  lemma CancelPath(d: Desk, deposit: int)
    ensures HandleAll(d, [Cancel, Offer(Propose, deposit), Accept]) ==
              d.(deposit := deposit, status := AwaitingPayment, booked := false, linked := true)
    ensures !Handle(d, Cancel).booked && !Handle(d, Cancel).linked && Handle(d, Cancel).books == d.books
    ensures d.status == Submitted ==> HandleAll(d, [Unlink, Decide(true)]) == d.(linked := false)
  {
    hide HandleAll, ReceiptPlan, Total;
    HandleFirst(d, Cancel, [Offer(Propose, deposit), Accept]);
    assert [Cancel] + [Offer(Propose, deposit), Accept] == [Cancel, Offer(Propose, deposit), Accept];
    OfferPath(Handle(d, Cancel), deposit);
    HandleFirst(d, Unlink, [Decide(true)]);
    HandleOne(Handle(d, Unlink), Decide(true));
    assert [Unlink] + [Decide(true)] == [Unlink, Decide(true)];
  }

  /** Reconciling raises a balance that lags behind the ledger, and changes nothing else. */
  lemma Reconciled(d: Desk)
    ensures Handle(d, Reconcile) == d.(books := d.books.(recorded := Worth(d.books)))
    ensures Worth(d.books) == if d.books.ledger > d.books.recorded then d.books.ledger else d.books.recorded
  {
  }

  const NewRequest := Desk(Books(0, 0, []), 0, false, NotRequired, false, false)

  /** A run from a new request to a deposit paid at the desk, and on to the approval of its receipt. */
  function PaidAtDesk(deposit: int, named: bool): seq<Event> {
    [Offer(Propose, deposit), Accept, Payment(deposit, named), Submit(true), Decide(true)]
  }

  lemma {:induction false} HandleSteps(d: Desk, events: seq<Event>, more: seq<Event>)
    ensures HandleAll(d, events + more) == HandleAll(HandleAll(d, events), more)
  {
    hide Handle;
    if more == [] {
      assert events + more == events;
    } else {
      HandleSteps(d, events, more[..|more| - 1]);
      assert (events + more)[..|events + more| - 1] == events + more[..|more| - 1];
    }
  }

  lemma HandleOne(d: Desk, e: Event)
    ensures HandleAll(d, [e]) == Handle(d, e)
  {
    assert [e][..0] == [];
  }

  /** One event at a time. */
  lemma HandleFirst(d: Desk, e: Event, more: seq<Event>)
    ensures HandleAll(d, [e] + more) == HandleAll(Handle(d, e), more)
  {
    HandleOne(d, e);
    HandleSteps(d, [e], more);
  }

  /** A deposit that staff record under any other note before they approve its receipt is counted twice. */
  lemma DepositCountedTwice(deposit: int, named: bool)
    requires deposit > 0
    ensures HandleAll(NewRequest, PaidAtDesk(deposit, named)).books.recorded == if named then deposit else 2 * deposit
  {
    hide PaymentPlan, Carried, HandleAll;
    var c := NewRequest.(deposit := deposit, status := AwaitingPayment, linked := true);
    var paid := Handle(c, Payment(deposit, named));
    PlanCarried(c, deposit, named);
    assert paid.status == AwaitingPayment && paid.linked && paid.deposit == deposit by {
      KeepsStatus(c, deposit, named);
    }
    HandleMoney(paid.(status := Submitted), Decide(true));
    var events := PaidAtDesk(deposit, named);
    HandleFirst(NewRequest, events[0], events[1..]);
    HandleFirst(Handle(NewRequest, events[0]), Accept, events[2..]);
    HandleFirst(c, events[2], events[3..]);
    HandleFirst(paid, Submit(true), [Decide(true)]);
    HandleOne(paid.(status := Submitted), Decide(true));
    assert events == [events[0]] + events[1..] && events[1..] == [Accept] + events[2..];
    assert events[2..] == [events[2]] + events[3..] && events[3..] == [Submit(true)] + [Decide(true)];
  }

  lemma KeepsStatus(d: Desk, amount: int, named: bool)
    ensures var c := Handle(d, Payment(amount, named));
            c.status == d.status && c.linked == d.linked && c.deposit == d.deposit
  {
    hide PaymentPlan;
  }
}
