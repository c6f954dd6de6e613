/** The monthly statement of studio-finance.ts: one line per customer, with no money lost between the lines. */
module Statements {
  import opened Numbers
  import opened Text
  import opened OrderedMap
  import opened StudioFinance

  datatype NamedJob = NamedJob(job: Job, name: string)
  datatype Payment = Payment(who: string, amount: real, name: string)
  datatype Account = Account(name: string, jobs: seq<Job>, monthPaid: int)
  datatype Line = Line(who: string, name: string, price: int, paid: int, paidThisMonth: int, remaining: int)

  /** How names are shown, recognised as titled, and collated; any functions will do. */
  datatype Names = Names(display: string -> string, titled: string -> bool, collate: (string, string) -> int)

  type Accounts = seq<Entry<string, Account>>

  function Received(p: Payment): int {
    Max(0, Round(p.amount))
  }

  function AccountOf(m: Accounts, who: string): Account {
    match Get(m, who) case None => Account("", [], 0) case Some(a) => a
  }

  /** The name part of `touch`. */
  function Renamed(names: Names, a: Account, name: string): Account {
    var clean := names.display(name);
    if clean != "" && (a.name == "" || names.titled(a.name)) then a.(name := clean) else a
  }

  function WithJob(names: Names, m: Accounts, j: NamedJob): Accounts {
    var a := Renamed(names, AccountOf(m, j.job.who), j.name);
    Put(m, j.job.who, a.(jobs := a.jobs + [j.job]))
  }

  function WithPayment(names: Names, m: Accounts, p: Payment): Accounts {
    var a := Renamed(names, AccountOf(m, p.who), p.name);
    Put(m, p.who, a.(monthPaid := a.monthPaid + Received(p)))
  }

  function JobAccounts(names: Names, jobs: seq<NamedJob>): Accounts {
    if jobs == [] then [] else WithJob(names, JobAccounts(names, jobs[..|jobs| - 1]), jobs[|jobs| - 1])
  }

  function ByWho(names: Names, jobs: seq<NamedJob>, payments: seq<Payment>): Accounts {
    if payments == [] then JobAccounts(names, jobs)
    else WithPayment(names, ByWho(names, jobs, payments[..|payments| - 1]), payments[|payments| - 1])
  }

  predicate HasMonthJob(jobs: seq<Job>) {
    exists job :: job in jobs && job.inMonth
  }

  /** A customer gets a line for a job of the month or money received in it. */
  predicate Shown(a: Account) {
    HasMonthJob(a.jobs) || a.monthPaid > 0
  }

  function LineOf(who: string, a: Account): Line {
    var price, open := SumBy(Grouped(a.jobs), PriceOf), OpenReceivable(a.jobs, false);
    Line(who, if a.name != "" then a.name else "بدون نام", price, price - open, a.monthPaid, open)
  }

  function LinesOf(m: Accounts): seq<Line> {
    if m == [] then []
    else LinesOf(m[..|m| - 1]) + (if Shown(m[|m| - 1].value) then [LineOf(m[|m| - 1].key, m[|m| - 1].value)] else [])
  }

  /** The comparison of the final sort. */
  function Compare(names: Names, a: Line, b: Line): int {
    if a.paidThisMonth != b.paidThisMonth then b.paidThisMonth - a.paidThisMonth else names.collate(a.name, b.name)
  }

  function Inserted(names: Names, sorted: seq<Line>, x: Line): (r: seq<Line>)
    ensures multiset(r) == multiset(sorted) + multiset{x}
  {
    if sorted == [] || Compare(names, sorted[|sorted| - 1], x) <= 0 then sorted + [x]
    else
      var last := sorted[|sorted| - 1];
      assert sorted == sorted[..|sorted| - 1] + [last];
      Inserted(names, sorted[..|sorted| - 1], x) + [last]
  }

  /** A stable sort. */
  function Sorted(names: Names, lines: seq<Line>): (r: seq<Line>)
    ensures multiset(r) == multiset(lines)
  {
    if lines == [] then []
    else
      assert lines == lines[..|lines| - 1] + [lines[|lines| - 1]];
      Inserted(names, Sorted(names, lines[..|lines| - 1]), lines[|lines| - 1])
  }

  predicate Descending(lines: seq<Line>) {
    forall i, j :: 0 <= i < j < |lines| ==> lines[i].paidThisMonth >= lines[j].paidThisMonth
  }

  lemma CompareIsPaid(names: Names, a: Line, b: Line)
    ensures if Compare(names, a, b) <= 0 then a.paidThisMonth >= b.paidThisMonth else b.paidThisMonth >= a.paidThisMonth
  {
  }

  lemma DescendingSnoc(front: seq<Line>, last: Line)
    requires Descending(front) && forall l :: l in front ==> l.paidThisMonth >= last.paidThisMonth
    ensures Descending(front + [last])
  {
  }

  lemma DescendingFront(lines: seq<Line>)
    requires Descending(lines) && lines != []
    ensures Descending(lines[..|lines| - 1])
    ensures forall l :: l in lines ==> l.paidThisMonth >= lines[|lines| - 1].paidThisMonth
  {
  }

  lemma InsertedFrom(names: Names, front: seq<Line>, x: Line)
    ensures forall l :: l in Inserted(names, front, x) ==> l == x || l in front
  {
    hide Inserted;
    forall l | l in Inserted(names, front, x)
      ensures l == x || l in front
    {
      assert l in multiset(Inserted(names, front, x));
    }
  }

  lemma {:induction false} InsertedDescending(names: Names, sorted: seq<Line>, x: Line)
    requires Descending(sorted)
    ensures Descending(Inserted(names, sorted, x))
  {
    hide Compare, Descending;
    if sorted == [] {
      DescendingSnoc(sorted, x) by {
        NothingDescending();
      }
    } else {
      var front, last := sorted[..|sorted| - 1], sorted[|sorted| - 1];
      CompareIsPaid(names, last, x);
      DescendingFront(sorted);
      if Compare(names, last, x) <= 0 {
        DescendingSnoc(sorted, x);
      } else {
        InsertedDescending(names, front, x);
        InsertedFrom(names, front, x);
        assert forall l :: l in front ==> l in sorted;
        DescendingSnoc(Inserted(names, front, x), last);
      }
    }
  }

  lemma NothingDescending()
    ensures Descending([])
  {
  }

  /** The lines come with the most paid this month first. */
  lemma {:induction false} SortedDescending(names: Names, lines: seq<Line>)
    ensures Descending(Sorted(names, lines))
  {
    if lines != [] {
      SortedDescending(names, lines[..|lines| - 1]);
      InsertedDescending(names, Sorted(names, lines[..|lines| - 1]), lines[|lines| - 1]);
    }
  }

  /** `monthCustomerLines`. */
  method MonthCustomerLines(names: Names, jobs: seq<NamedJob>, payments: seq<Payment>) returns (lines: seq<Line>)
    ensures lines == Sorted(names, LinesOf(ByWho(names, jobs, payments)))
  {
    hide WithJob, WithPayment, Shown, Grouped, Sorted, SumBy;
    var byWho: Accounts := [];
    for i := 0 to |jobs|
      invariant byWho == JobAccounts(names, jobs[..i])
    {
      byWho := WithJob(names, byWho, jobs[i]);
      assert jobs[..i + 1][..i] == jobs[..i];
    }
    assert jobs[..|jobs|] == jobs;
    for i := 0 to |payments|
      invariant byWho == ByWho(names, jobs, payments[..i])
    {
      byWho := WithPayment(names, byWho, payments[i]);
      assert payments[..i + 1][..i] == payments[..i];
    }
    assert payments[..|payments|] == payments;
    lines := [];
    for i := 0 to |byWho|
      invariant lines == LinesOf(byWho[..i])
    {
      var who, row := byWho[i].key, byWho[i].value;
      assert byWho[..i + 1][..i] == byWho[..i];
      if Shown(row) {
        var totals := AccountTotals(row.jobs);
        var name := if row.name != "" then row.name else "بدون نام";
        lines := lines + [Line(who, name, totals.price, totals.paid, row.monthPaid, totals.remaining)];
      }
    }
    assert byWho[..|byWho|] == byWho;
    lines := Sorted(names, lines);
  }

  // Sums over accounts and over lines.

  function SumLines(lines: seq<Line>, f: Line -> int): int {
    if lines == [] then 0 else SumLines(lines[..|lines| - 1], f) + f(lines[|lines| - 1])
  }

  function PaidThisMonthOf(l: Line): int {
    l.paidThisMonth
  }

  function RemainingOf(l: Line): int {
    l.remaining
  }

  function MonthPaidOf(a: Account): int {
    a.monthPaid
  }

  function OpenOfAccount(a: Account): int {
    OpenReceivable(a.jobs, false)
  }

  function OpenMonthOfAccount(a: Account): int {
    OpenReceivable(a.jobs, true)
  }

  lemma {:induction false} SumLinesWithout(lines: seq<Line>, f: Line -> int, i: nat)
    requires i < |lines|
    ensures SumLines(lines, f) == SumLines(lines[..i] + lines[i + 1..], f) + f(lines[i])
  {
    var k := |lines| - 1;
    if i == k {
      assert lines[..i] + lines[i + 1..] == lines[..k];
    } else {
      SumLinesWithout(lines[..k], f, i);
      var rest := lines[..i] + lines[i + 1..];
      assert rest[..k - 1] == lines[..k][..i] + lines[..k][i + 1..];
    }
  }

  lemma WithoutOne(a: seq<Line>, b: seq<Line>, i: nat)
    requires a != [] && i < |b| && multiset(a) == multiset(b) && b[i] == a[|a| - 1]
    ensures multiset(a[..|a| - 1]) == multiset(b[..i] + b[i + 1..])
  {
    assert a == a[..|a| - 1] + [a[|a| - 1]];
    assert b == b[..i] + [b[i]] + b[i + 1..];
    assert multiset(a) == multiset(a[..|a| - 1]) + multiset{b[i]};
    var rest := b[..i] + b[i + 1..];
    assert multiset(b) == multiset(rest) + multiset{b[i]};
    assert multiset(a[..|a| - 1]) == multiset(a) - multiset{b[i]};
    assert multiset(rest) == multiset(b) - multiset{b[i]};
  }

  /** Sorting does not change a sum. */
  lemma {:induction false} SumLinesPermuted(a: seq<Line>, b: seq<Line>, f: Line -> int)
    requires multiset(a) == multiset(b)
    ensures SumLines(a, f) == SumLines(b, f)
  {
    if a == [] {
      assert |multiset(b)| == 0;
    } else {
      var k := |a| - 1;
      assert a[k] in multiset(b) by {
        assert a[k] in a;
      }
      var i :| 0 <= i < |b| && b[i] == a[k];
      SumLinesWithout(b, f, i);
      WithoutOne(a, b, i);
      SumLinesPermuted(a[..k], b[..i] + b[i + 1..], f);
    }
  }

  lemma {:induction false} SumBySnoc<V>(m: seq<Entry<string, V>>, f: V -> int)
    requires m != []
    ensures SumBy(m, f) == SumBy(m[..|m| - 1], f) + f(m[|m| - 1].value)
  {
    if |m| > 1 {
      SumBySnoc(m[1..], f);
      assert m[1..][..|m| - 2] == m[..|m| - 1][1..];
    }
  }

  /** What the accounts without a line still owe. */
  function HiddenOpen(a: Account): int {
    if Shown(a) then 0 else OpenOfAccount(a)
  }

  predicate Sane(m: Accounts) {
    forall e :: e in m ==> e.value.monthPaid >= 0
  }

  /** Lines carry all the month's money, and all the open money except that of customers without a line. */
  lemma {:induction false} LinesCarry(m: Accounts)
    requires Sane(m)
    ensures SumLines(LinesOf(m), PaidThisMonthOf) == SumBy(m, MonthPaidOf)
    ensures SumLines(LinesOf(m), RemainingOf) + SumBy(m, HiddenOpen) == SumBy(m, OpenOfAccount)
    ensures SumBy(m, OpenMonthOfAccount) <= SumLines(LinesOf(m), RemainingOf)
    ensures SumBy(m, HiddenOpen) >= 0
    ensures SumBy(m, HiddenOpen) == 0 <==> forall e :: e in m ==> HiddenOpen(e.value) == 0
  {
    hide OpenReceivable, Shown, LineOf, LinesOf, SumLines, SumBy;
    if m == [] {
      NoAccounts();
    } else {
      var k := |m| - 1;
      var a := m[k].value;
      LinesCarry(m[..k]);
      SumBySnoc(m, MonthPaidOf);
      SumBySnoc(m, OpenOfAccount);
      SumBySnoc(m, OpenMonthOfAccount);
      SumBySnoc(m, HiddenOpen);
      AccountFigures(m[k].key, a);
      assert m == m[..k] + [m[k]];
      LinesSnoc(m, PaidThisMonthOf);
      LinesSnoc(m, RemainingOf);
    }
  }

  lemma NoAccounts()
    ensures forall f: Line -> int :: SumLines(LinesOf([]), f) == 0
    ensures forall f: Account -> int :: SumBy<string, Account>([], f) == 0
  {
  }

  lemma LinesSnoc(m: Accounts, f: Line -> int)
    requires m != []
    ensures var k := |m| - 1;
            SumLines(LinesOf(m), f) == SumLines(LinesOf(m[..k]), f)
                                       + (if Shown(m[k].value) then f(LineOf(m[k].key, m[k].value)) else 0)
  {
    hide LineOf, Shown;
    var k := |m| - 1;
    var front, x := LinesOf(m[..k]), LineOf(m[k].key, m[k].value);
    assert (front + [x])[..|front|] == front;
    assert front + [] == front;
  }

  lemma AccountFigures(who: string, a: Account)
    requires a.monthPaid >= 0
    ensures LineOf(who, a).paidThisMonth == a.monthPaid && LineOf(who, a).remaining == OpenOfAccount(a)
    ensures !Shown(a) ==> a.monthPaid == 0 && OpenMonthOfAccount(a) == 0
    ensures 0 <= OpenMonthOfAccount(a) <= OpenOfAccount(a)
  {
    hide Grouped;
    MonthWithinAll(Grouped(a.jobs));
    if !HasMonthJob(a.jobs) {
      NoMonthDesigns(a.jobs);
      NoMonthOpen(Grouped(a.jobs));
    }
  }

  lemma {:induction false} MonthWithinAll(m: Designs)
    ensures 0 <= SumBy(m, OpenInMonth) <= SumBy(m, OpenOf)
  {
    if m != [] {
      MonthWithinAll(m[1..]);
    }
  }

  lemma {:induction false} NoMonthDesigns(rows: seq<Job>)
    requires !HasMonthJob(rows)
    ensures forall e :: e in Grouped(rows) ==> !e.value.inMonth
  {
    hide DesignKey;
    if rows != [] {
      var k := |rows| - 1;
      NoMonthDesigns(rows[..k]);
      assert rows[k] in rows;
      var m, row := Grouped(rows[..k]), rows[k];
      GetFinds(m, DesignKey(row));
      var current := match Get(m, DesignKey(row)) case None => Blank(row.who) case Some(d) => d;
      PutMembers(m, DesignKey(row), Counted(current, row));
    }
  }

  lemma {:induction false} NoMonthOpen(m: Designs)
    requires forall e :: e in m ==> !e.value.inMonth
    ensures SumBy(m, OpenInMonth) == 0
  {
    if m != [] {
      assert m[0] in m;
      NoMonthOpen(m[1..]);
    }
  }

  // Payments.

  function SumReceived(payments: seq<Payment>): int {
    if payments == [] then 0 else SumReceived(payments[..|payments| - 1]) + Received(payments[|payments| - 1])
  }

  lemma {:induction false} JobAccountsPaid(names: Names, jobs: seq<NamedJob>)
    ensures SumBy(JobAccounts(names, jobs), MonthPaidOf) == 0
    ensures forall e :: e in JobAccounts(names, jobs) ==> e.value.monthPaid == 0
  {
    if jobs != [] {
      var k := |jobs| - 1;
      JobAccountsPaid(names, jobs[..k]);
      var m, j := JobAccounts(names, jobs[..k]), jobs[k];
      GetFinds(m, j.job.who);
      var a := Renamed(names, AccountOf(m, j.job.who), j.name);
      var v := a.(jobs := a.jobs + [j.job]);
      PutMembers(m, j.job.who, v);
      SumPut(m, MonthPaidOf, j.job.who, v);
    }
  }

  lemma ReceivedPositive(p: Payment)
    ensures Received(p) >= 0
  {
  }

  lemma RenamedKeeps(names: Names, a: Account, name: string)
    ensures Renamed(names, a, name).jobs == a.jobs && Renamed(names, a, name).monthPaid == a.monthPaid
  {
  }

  lemma {:induction false} AccountsPaid(names: Names, jobs: seq<NamedJob>, payments: seq<Payment>)
    ensures Sane(ByWho(names, jobs, payments))
    ensures SumBy(ByWho(names, jobs, payments), MonthPaidOf) == SumReceived(payments)
  {
    hide Put, Received, Renamed, SumBy;
    if payments == [] {
      JobAccountsPaid(names, jobs);
    } else {
      var k := |payments| - 1;
      AccountsPaid(names, jobs, payments[..k]);
      var m, p := ByWho(names, jobs, payments[..k]), payments[k];
      GetFinds(m, p.who);
      var a := Renamed(names, AccountOf(m, p.who), p.name);
      var v := a.(monthPaid := a.monthPaid + Received(p));
      ReceivedPositive(p);
      RenamedKeeps(names, AccountOf(m, p.who), p.name);
      PutMembers(m, p.who, v);
      SumPut(m, MonthPaidOf, p.who, v);
    }
  }

  // Open money, split by customer.

  function JobsIn(jobs: seq<NamedJob>): (rows: seq<Job>)
    ensures |rows| == |jobs|
  {
    seq(|jobs|, i requires 0 <= i < |jobs| => jobs[i].job)
  }

  function JobsOf(rows: seq<Job>, who: string): seq<Job> {
    if rows == [] then []
    else JobsOf(rows[..|rows| - 1], who) + (if rows[|rows| - 1].who == who then [rows[|rows| - 1]] else [])
  }

  /** No two customers share a design key. */
  predicate KeysTellCustomers(rows: seq<Job>) {
    forall a, b :: a in rows && b in rows && DesignKey(a) == DesignKey(b) ==> a.who == b.who
  }

  /** It is enough that no customer's `who` contains the separator. */
  lemma NoPipeTellsCustomers(rows: seq<Job>)
    requires forall row :: row in rows ==> '|' !in row.who
    ensures KeysTellCustomers(rows)
  {
    hide Norm;
    forall a, b | a in rows && b in rows && DesignKey(a) == DesignKey(b)
      ensures a.who == b.who
    {
      var x, y := Norm(a.style) + "|" + Norm(a.placement), Norm(b.style) + "|" + Norm(b.placement);
      assert DesignKey(a) == a.who + ['|'] + x && DesignKey(b) == b.who + ['|'] + y;
      IndexOfAfter(a.who, '|', x);
      IndexOfAfter(b.who, '|', y);
      assert a.who == DesignKey(a)[..|a.who|] && b.who == DesignKey(b)[..|b.who|];
    }
  }

  /** A customer's own rows decide the customer's designs. */
  lemma {:induction false} OwnRowsDecide(rows: seq<Job>, row: Job)
    requires KeysTellCustomers(rows + [row])
    ensures Get(Grouped(JobsOf(rows, row.who)), DesignKey(row)) == Get(Grouped(rows), DesignKey(row))
  {
    hide DesignKey, Counted, Put;
    DesignIsFold(rows, DesignKey(row));
    DesignIsFold(JobsOf(rows, row.who), DesignKey(row));
    OwnRows(rows, row);
  }

  lemma JobsOfSnoc(rows: seq<Job>, last: Job, who: string)
    ensures JobsOf(rows + [last], who) == if last.who == who then JobsOf(rows, who) + [last] else JobsOf(rows, who)
  {
    assert (rows + [last])[..|rows|] == rows;
  }

  lemma OfDesignSnoc(rows: seq<Job>, last: Job, key: string)
    ensures OfDesign(rows + [last], key) ==
              if DesignKey(last) == key then OfDesign(rows, key) + [last] else OfDesign(rows, key)
  {
    hide DesignKey;
    assert (rows + [last])[..|rows|] == rows;
  }

  lemma KeysOfShorter(front: seq<Job>, last: Job, row: Job)
    requires KeysTellCustomers(front + [last] + [row])
    ensures KeysTellCustomers(front + [row]) && (DesignKey(last) == DesignKey(row) ==> last.who == row.who)
  {
    hide DesignKey;
    var rows := front + [last] + [row];
    assert last in rows && row in rows;
    assert forall a :: a in front + [row] ==> a in rows;
  }

  lemma NoOwnRows(who: string, key: string)
    ensures JobsOf([], who) == [] && OfDesign([], key) == []
  {
  }

  lemma {:induction false} OwnRows(rows: seq<Job>, row: Job)
    requires KeysTellCustomers(rows + [row])
    ensures OfDesign(JobsOf(rows, row.who), DesignKey(row)) == OfDesign(rows, DesignKey(row))
  {
    hide DesignKey, JobsOf, OfDesign, KeysTellCustomers;
    if rows == [] {
      NoOwnRows(row.who, DesignKey(row));
    } else {
      var front, last := rows[..|rows| - 1], rows[|rows| - 1];
      assert rows == front + [last];
      KeysOfShorter(front, last, row);
      OwnRows(front, row);
      JobsOfSnoc(front, last, row.who);
      OfDesignSnoc(front, last, DesignKey(row));
      OfDesignSnoc(JobsOf(front, row.who), last, DesignKey(row));
    }
  }

  /** The sum of a figure over one list of designs grows by what the last row's design gains. */
  function Gain(rows: seq<Job>, row: Job, g: Design -> int): int {
    var got := Get(Grouped(rows), DesignKey(row));
    var current := match got case None => Blank(row.who) case Some(d) => d;
    g(Counted(current, row)) - (match got case None => 0 case Some(d) => g(d))
  }

  lemma GroupedGain(rows: seq<Job>, row: Job, g: Design -> int)
    ensures SumBy(Grouped(rows + [row]), g) == SumBy(Grouped(rows), g) + Gain(rows, row, g)
  {
    hide DesignKey, Counted, Put;
    assert (rows + [row])[..|rows|] == rows;
    var m := Grouped(rows);
    var current := match Get(m, DesignKey(row)) case None => Blank(row.who) case Some(d) => d;
    SumPut(m, g, DesignKey(row), Counted(current, row));
  }

  lemma {:induction false} AccountJobs(names: Names, jobs: seq<NamedJob>, who: string)
    ensures AccountOf(JobAccounts(names, jobs), who).jobs == JobsOf(JobsIn(jobs), who)
  {
    hide Put, Renamed;
    if jobs != [] {
      var k := |jobs| - 1;
      AccountJobs(names, jobs[..k], who);
      var m, j := JobAccounts(names, jobs[..k]), jobs[k];
      var a := Renamed(names, AccountOf(m, j.job.who), j.name);
      RenamedKeeps(names, AccountOf(m, j.job.who), j.name);
      PutGet(m, j.job.who, a.(jobs := a.jobs + [j.job]), who);
      assert JobsIn(jobs)[..k] == JobsIn(jobs[..k]);
    }
  }

  /** Splitting the jobs by customer and summing each account gives the sum over all jobs. */
  lemma {:induction false} SplitByCustomer(names: Names, jobs: seq<NamedJob>, g: Design -> int, h: Account -> int)
    requires KeysTellCustomers(JobsIn(jobs))
    requires forall a: Account :: h(a) == SumBy(Grouped(a.jobs), g)
    ensures SumBy(JobAccounts(names, jobs), h) == SumBy(Grouped(JobsIn(jobs)), g)
  {
    hide DesignKey, Counted, Put, Grouped;
    if jobs == [] {
      NoDesigns();
    } else {
      var k := |jobs| - 1;
      var m, j := JobAccounts(names, jobs[..k]), jobs[k];
      var rows := JobsIn(jobs[..k]);
      assert JobsIn(jobs) == rows + [j.job];
      SplitByCustomer(names, jobs[..k], g, h);
      AccountJobs(names, jobs[..k], j.job.who);
      var a := Renamed(names, AccountOf(m, j.job.who), j.name);
      SumPut(m, h, j.job.who, a.(jobs := a.jobs + [j.job]));
      GroupedGain(rows, j.job, g);
      GroupedGain(a.jobs, j.job, g);
      OwnRowsDecide(rows, j.job);
      NoDesigns();
    }
  }

  lemma NoDesigns()
    ensures Grouped([]) == [] && forall g: Design -> int :: SumBy(Grouped([]), g) == 0
  {
  }

  lemma {:induction false} PaymentsKeepJobs(names: Names, jobs: seq<NamedJob>, payments: seq<Payment>,
      g: Design -> int, h: Account -> int)
    requires forall a: Account :: h(a) == SumBy(Grouped(a.jobs), g)
    ensures SumBy(ByWho(names, jobs, payments), h) == SumBy(JobAccounts(names, jobs), h)
  {
    hide Grouped, Put, Received, SumBy;
    if payments != [] {
      var k := |payments| - 1;
      PaymentsKeepJobs(names, jobs, payments[..k], g, h);
      var m, p := ByWho(names, jobs, payments[..k]), payments[k];
      var a := Renamed(names, AccountOf(m, p.who), p.name);
      SumPut(m, h, p.who, a.(monthPaid := a.monthPaid + Received(p)));
      NoDesigns();
    }
  }

  // The statement conserves money.

  /** The month's money on the lines is all the money received in the month. */
  lemma StatementCarriesPayments(names: Names, jobs: seq<NamedJob>, payments: seq<Payment>)
    ensures var lines := Sorted(names, LinesOf(ByWho(names, jobs, payments)));
            SumLines(lines, PaidThisMonthOf) == SumReceived(payments)
  {
    hide LinesOf, ByWho, Sorted;
    var m := ByWho(names, jobs, payments);
    AccountsPaid(names, jobs, payments);
    LinesCarry(m);
    SumLinesPermuted(Sorted(names, LinesOf(m)), LinesOf(m), PaidThisMonthOf);
  }

  /**
   * The open money on the lines lies between the month's receivable and the whole one, and equals
   * the whole one exactly when no customer without a line owes anything.
   */
  lemma StatementCarriesOpenMoney(names: Names, jobs: seq<NamedJob>, payments: seq<Payment>)
    requires KeysTellCustomers(JobsIn(jobs))
    ensures var m := ByWho(names, jobs, payments); var open := SumLines(Sorted(names, LinesOf(m)), RemainingOf);
            && OpenReceivable(JobsIn(jobs), true) <= open <= OpenReceivable(JobsIn(jobs), false)
            && (open == OpenReceivable(JobsIn(jobs), false) <==>
                  forall e :: e in m && !Shown(e.value) ==> OpenOfAccount(e.value) == 0)
  {
    hide LinesOf, ByWho, Sorted, Grouped, Shown;
    var m := ByWho(names, jobs, payments);
    AccountsPaid(names, jobs, payments);
    LinesCarry(m);
    SumLinesPermuted(Sorted(names, LinesOf(m)), LinesOf(m), RemainingOf);
    SplitByCustomer(names, jobs, OpenOf, OpenOfAccount);
    SplitByCustomer(names, jobs, OpenInMonth, OpenMonthOfAccount);
    PaymentsKeepJobs(names, jobs, payments, OpenOf, OpenOfAccount);
    PaymentsKeepJobs(names, jobs, payments, OpenInMonth, OpenMonthOfAccount);
  }

  // Customers whose keys run together.

  /** A job of the month of which nothing is paid. */
  predicate Unpaid(row: Job, price: int) {
    Base(row) && row.inMonth && row.price == price > 0 && row.paid == 0
  }

  /** One unpaid job: one design, fully owed. */
  lemma OneJobOwed(row: Job, price: int)
    requires Unpaid(row, price)
    ensures Grouped([row]) == [Entry(DesignKey(row), Design(row.who, price, 0, true))]
    ensures OpenReceivable([row], false) == price
  {
    hide DesignKey;
    assert [row][..0] == [];
    var designs := [Entry(DesignKey(row), Design(row.who, price, 0, true))];
    assert Grouped([row]) == Folded([], row) == designs;
    assert designs[1..] == [];
    assert SumBy(designs, OpenOf) == OpenOf(designs[0].value) == price;
  }

  lemma SharedDesignOwed(a: Job, b: Job, price: int)
    requires DesignKey(a) == DesignKey(b) && Unpaid(a, price) && Unpaid(b, price)
    ensures OpenReceivable([a, b], false) == price
  {
    hide DesignKey;
    OneJobOwed(a, price);
    assert [a, b][..1] == [a];
  }

  /**
   * Any two customers whose keys run together share one design: both lines owe the price, but all jobs
   * together owe it once.
   */
  lemma SharedKeyCountsTwice(names: Names, a: Job, b: Job, price: int)
    requires DesignKey(a) == DesignKey(b) && a.who != b.who && Unpaid(a, price) && Unpaid(b, price)
    ensures var jobs := [NamedJob(a, ""), NamedJob(b, "")];
            && OpenReceivable(JobsIn(jobs), false) == price
            && OpenOnLines(names, jobs, []) == 2 * price
  {
    hide DesignKey, Renamed, Grouped, OpenReceivable;
    var jobs := [NamedJob(a, ""), NamedJob(b, "")];
    OneJobOwed(a, price);
    OneJobOwed(b, price);
    assert JobsIn(jobs) == [a, b];
    SharedDesignOwed(a, b, price);
    var blank := Account("", [], 0);
    RenamedKeeps(names, blank, "");
    var x, y := Renamed(names, blank, "").(jobs := [a]), Renamed(names, blank, "").(jobs := [b]);
    TwoAccounts(names, jobs[0], jobs[1], x, y);
    TwoLines(a.who, x, b.who, y, price);
    SumLinesPermuted(Sorted(names, LinesOf(ByWho(names, jobs, []))), LinesOf(ByWho(names, jobs, [])), RemainingOf);
  }

  /** The open money of the whole statement. */
  function OpenOnLines(names: Names, jobs: seq<NamedJob>, payments: seq<Payment>): int {
    SumLines(Sorted(names, LinesOf(ByWho(names, jobs, payments))), RemainingOf)
  }

  /** Jobs of the same customers, styles and placements, with any amounts. */
  predicate Drawn(rows: seq<Job>, jobs: seq<NamedJob>) {
    forall j :: j in jobs ==> exists r :: r in rows && SameDesign(r, j.job)
  }

  predicate SameDesign(r: Job, job: Job) {
    r.who == job.who && r.style == job.style && r.placement == job.placement
  }

  predicate WithinReceivable(names: Names, jobs: seq<NamedJob>, payments: seq<Payment>) {
    OpenOnLines(names, jobs, payments) <= OpenReceivable(JobsIn(jobs), false)
  }

  /**
   * Whatever the amounts, the lines show no more than is owed exactly when the design keys keep the
   * customers apart.
   */
  lemma LinesWithinReceivable(names: Names, rows: seq<Job>)
    ensures KeysTellCustomers(rows) <==>
              forall jobs, payments :: Drawn(rows, jobs) ==> WithinReceivable(names, jobs, payments)
  {
    hide DesignKey, OpenOnLines, OpenReceivable;
    if KeysTellCustomers(rows) {
      forall jobs, payments | Drawn(rows, jobs)
        ensures WithinReceivable(names, jobs, payments)
      {
        DrawnKeys(rows, jobs);
        StatementWithin(names, jobs, payments);
      }
    } else {
      var a, b :| a in rows && b in rows && DesignKey(a) == DesignKey(b) && a.who != b.who;
      var x, y := a.(price := 1, paid := 0, continuation := false, followUp := false, closed := false, inMonth := true),
                  b.(price := 1, paid := 0, continuation := false, followUp := false, closed := false, inMonth := true);
      SameDesignSameKey(a, x);
      SameDesignSameKey(b, y);
      SharedKeyCountsTwice(names, x, y, 1);
      var jobs := [NamedJob(x, ""), NamedJob(y, "")];
      assert Drawn(rows, jobs) && !WithinReceivable(names, jobs, []);
    }
  }

  lemma StatementWithin(names: Names, jobs: seq<NamedJob>, payments: seq<Payment>)
    requires KeysTellCustomers(JobsIn(jobs))
    ensures WithinReceivable(names, jobs, payments)
  {
    hide KeysTellCustomers, OpenReceivable;
    StatementCarriesOpenMoney(names, jobs, payments);
  }

  lemma SameDesignSameKey(r: Job, job: Job)
    requires SameDesign(r, job)
    ensures DesignKey(r) == DesignKey(job)
  {
  }

  lemma DrawnKeys(rows: seq<Job>, jobs: seq<NamedJob>)
    requires KeysTellCustomers(rows) && Drawn(rows, jobs)
    ensures KeysTellCustomers(JobsIn(jobs))
  {
    hide DesignKey;
    forall a, b | a in JobsIn(jobs) && b in JobsIn(jobs) && DesignKey(a) == DesignKey(b)
      ensures a.who == b.who
    {
      var i :| 0 <= i < |jobs| && jobs[i].job == a;
      var k :| 0 <= k < |jobs| && jobs[k].job == b;
      assert jobs[i] in jobs && jobs[k] in jobs;
      var r :| r in rows && SameDesign(r, a);
      var q :| q in rows && SameDesign(q, b);
      SameDesignSameKey(r, a);
      SameDesignSameKey(q, b);
    }
  }

  /** Two such customers: "a|b" with style "c", and "a" with style "b" and placement "c|". */
  lemma CrossedKeys()
    ensures var a := Job("a|b", "c", "", 100, 0, false, false, false, true);
            DesignKey(a) == DesignKey(a.(who := "a", style := "b", placement := "c|"))
  {
    assert Trim("c", JsSpace) == "c" && Trim("b", JsSpace) == "b";
    assert Trim("c|", JsSpace) == "c|" && Trim("", JsSpace) == "";
    assert Norm("c") == "c" && Norm("b") == "b" && Norm("c|") == "c|" && Norm("") == "";
    assert "a|b" + "|" + "c" + "|" + "" == "a|b|c|" == "a" + "|" + "b" + "|" + "c|";
  }

  lemma TwoAccounts(names: Names, j: NamedJob, k: NamedJob, x: Account, y: Account)
    requires j.job.who != k.job.who
    requires x == Renamed(names, Account("", [], 0), j.name).(jobs := [j.job])
    requires y == Renamed(names, Account("", [], 0), k.name).(jobs := [k.job])
    ensures ByWho(names, [j, k], []) == [Entry(j.job.who, x), Entry(k.job.who, y)]
  {
    hide Renamed;
    var blank := Account("", [], 0);
    RenamedKeeps(names, blank, j.name);
    RenamedKeeps(names, blank, k.name);
    assert [j, k][..1] == [j] && [j][..0] == [];
    assert [] + [j.job] == [j.job] && [] + [k.job] == [k.job];
    assert JobAccounts(names, []) == [];
    assert JobAccounts(names, [j]) == WithJob(names, [], j) == [Entry(j.job.who, x)];
    assert JobAccounts(names, [j, k]) == WithJob(names, [Entry(j.job.who, x)], k);
    var one := [Entry(j.job.who, x)];
    assert one[1..] == [];
    assert Get(one, k.job.who) == None;
    assert Put(one, k.job.who, y) == [one[0]] + Put([], k.job.who, y);
  }

  lemma TwoLines(v: string, x: Account, w: string, y: Account, price: int)
    requires Shown(x) && Shown(y) && OpenReceivable(x.jobs, false) == OpenReceivable(y.jobs, false) == price
    ensures SumLines(LinesOf([Entry(v, x), Entry(w, y)]), RemainingOf) == 2 * price
  {
    hide Shown, LineOf, OpenReceivable, SumLines;
    var m := [Entry(v, x), Entry(w, y)];
    assert m[..1] == [m[0]] && m[..1][..0] == [];
    assert LinesOf(m[..1]) == [] + [LineOf(v, x)];
    assert LinesOf(m) == [LineOf(v, x), LineOf(w, y)];
    SumOfTwo(LineOf(v, x), LineOf(w, y));
    LineOwes(v, x);
    LineOwes(w, y);
  }

  lemma LineOwes(who: string, a: Account)
    ensures RemainingOf(LineOf(who, a)) == OpenReceivable(a.jobs, false)
  {
    hide OpenReceivable, SumBy, Grouped;
  }

  lemma SumOfTwo(a: Line, b: Line)
    ensures SumLines([a, b], RemainingOf) == RemainingOf(a) + RemainingOf(b)
  {
    hide RemainingOf;
    assert [a, b][..1] == [a] && [a][..0] == [];
    assert SumLines([a], RemainingOf) == RemainingOf(a);
  }
}
