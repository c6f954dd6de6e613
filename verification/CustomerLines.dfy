/** The monthly statement line by line: who gets one, what it shows, and under which name. */
module CustomerLines {
  import opened Numbers
  import opened Text
  import opened OrderedMap
  import opened StudioFinance
  import opened Statements

  /** What a payment brings in: its amount rounded, half up, and nothing when that is negative. */
  lemma ReceivedIs(p: Payment)
    ensures p.amount == p.amount.Floor as real ==> Received(p) == if p.amount > 0.0 then p.amount.Floor else 0
    ensures p.amount < 0.5 ==> Received(p) == 0
    ensures p.amount >= 0.5 ==> -0.5 < Received(p) as real - p.amount <= 0.5
  {
  }

  function TotalAmount(payments: seq<Payment>): real {
    if payments == [] then 0.0 else TotalAmount(payments[..|payments| - 1]) + payments[|payments| - 1].amount
  }

  lemma {:induction false} WholeAmounts(payments: seq<Payment>)
    requires forall p :: p in payments ==> p.amount >= 0.0 && p.amount == p.amount.Floor as real
    ensures SumReceived(payments) as real == TotalAmount(payments)
  {
    if payments != [] {
      var front, last := payments[..|payments| - 1], payments[|payments| - 1];
      assert payments == front + [last];
      WholeAmounts(front);
      assert last in payments;
      ReceivedIs(last);
    }
  }

  /** For whole amounts that are not negative the lines carry exactly the sum of the amounts. */
  lemma StatementCarriesAmounts(names: Names, jobs: seq<NamedJob>, payments: seq<Payment>)
    requires forall p :: p in payments ==> p.amount >= 0.0 && p.amount == p.amount.Floor as real
    ensures SumLines(Sorted(names, LinesOf(ByWho(names, jobs, payments))), PaidThisMonthOf) as real ==
        TotalAmount(payments)
  {
    hide ByWho, LinesOf, Sorted, SumLines;
    WholeAmounts(payments);
    StatementCarriesPayments(names, jobs, payments);
  }

  // One customer.

  /** What one customer paid in the month. */
  function PaidBy(payments: seq<Payment>, who: string): int {
    if payments == [] then 0
    else
      var p := payments[|payments| - 1];
      PaidBy(payments[..|payments| - 1], who) + (if p.who == who && Round(p.amount) > 0 then Round(p.amount) else 0)
  }

  /** The names one customer was entered under, as displayed, jobs before payments; empty ones are not names. */
  function NamesIn(names: Names, entries: seq<(string, string)>, who: string): seq<string> {
    if entries == [] then []
    else
      var (w, name) := entries[|entries| - 1];
      NamesIn(names, entries[..|entries| - 1], who)
      + (if w == who && names.display(name) != "" then [names.display(name)] else [])
  }

  function Entries(jobs: seq<NamedJob>, payments: seq<Payment>): (e: seq<(string, string)>)
    ensures |e| == |jobs| + |payments|
  {
    seq(|jobs| + |payments|, i requires 0 <= i < |jobs| + |payments| =>
      if i < |jobs| then (jobs[i].job.who, jobs[i].name) else (payments[i - |jobs|].who, payments[i - |jobs|].name))
  }

  /** The first name that is no mere title wins; while there is none, the latest name. */
  function ChosenName(names: Names, heard: seq<string>): string {
    if heard == [] then ""
    else if !names.titled(heard[0]) then heard[0]
    else if |heard| == 1 then heard[0]
    else ChosenName(names, heard[1..])
  }

  lemma {:induction false} ChosenSnoc(names: Names, heard: seq<string>, name: string)
    requires name != "" && forall n :: n in heard ==> n != ""
    ensures var old' := ChosenName(names, heard);
            ChosenName(names, heard + [name]) == if old' == "" || names.titled(old') then name else old'
    ensures heard != [] ==> ChosenName(names, heard) != ""
  {
    if heard == [] {
      assert heard + [name] == [name];
    } else if |heard| == 1 {
      assert heard[0] in heard && (heard + [name])[1..] == [name];
    } else {
      assert heard[0] in heard && forall n :: n in heard[1..] ==> n in heard;
      ChosenSnoc(names, heard[1..], name);
      assert (heard + [name])[1..] == heard[1..] + [name];
    }
  }

  lemma {:induction false} NamesAreNames(names: Names, entries: seq<(string, string)>, who: string)
    ensures forall n :: n in NamesIn(names, entries, who) ==> n != ""
  {
    if entries != [] {
      NamesAreNames(names, entries[..|entries| - 1], who);
    }
  }

  lemma NamesSnoc(names: Names, front: seq<(string, string)>, w: string, name: string, who: string)
    ensures NamesIn(names, front + [(w, name)], who) ==
              if w == who && names.display(name) != "" then NamesIn(names, front, who) + [names.display(name)]
              else NamesIn(names, front, who)
  {
    assert (front + [(w, name)])[..|front|] == front;
  }

  /** Hearing one more entry about a customer. */
  lemma RenamedIs(names: Names, a: Account, front: seq<(string, string)>, name: string, who: string)
    requires a.name == ChosenName(names, NamesIn(names, front, who))
    ensures Renamed(names, a, name).name == ChosenName(names, NamesIn(names, front + [(who, name)], who))
  {
    hide NamesIn, ChosenName;
    var heard := NamesIn(names, front, who);
    NamesSnoc(names, front, who, name, who);
    NamesAreNames(names, front, who);
    if names.display(name) != "" {
      ChosenSnoc(names, heard, names.display(name));
    }
  }

  lemma JobEntries(front: seq<NamedJob>, j: NamedJob)
    ensures Entries(front + [j], []) == Entries(front, []) + [(j.job.who, j.name)]
  {
  }

  lemma PaymentEntries(jobs: seq<NamedJob>, front: seq<Payment>, p: Payment)
    ensures Entries(jobs, front + [p]) == Entries(jobs, front) + [(p.who, p.name)]
  {
  }

  lemma {:induction false} JobsAccount(names: Names, jobs: seq<NamedJob>, who: string)
    ensures var a := AccountOf(JobAccounts(names, jobs), who);
            a.monthPaid == 0 && a.name == ChosenName(names, NamesIn(names, Entries(jobs, []), who))
  {
    hide Put, Renamed, NamesIn, ChosenName, Entries, Get;
    if jobs == [] {
      NothingHeard(names, who);
    } else {
      var front, j := jobs[..|jobs| - 1], jobs[|jobs| - 1];
      assert jobs == front + [j];
      JobsAccount(names, front, who);
      JobsAccount(names, front, j.job.who);
      var m := JobAccounts(names, front);
      var old' := AccountOf(m, j.job.who);
      var a := Renamed(names, old', j.name);
      PutGet(m, j.job.who, a.(jobs := a.jobs + [j.job]), who);
      JobEntries(front, j);
      RenamedIs(names, old', Entries(front, []), j.name, j.job.who);
      RenamedKeeps(names, old', j.name);
      NamesSnoc(names, Entries(front, []), j.job.who, j.name, who);
    }
  }

  lemma NothingHeard(names: Names, who: string)
    ensures Entries([], []) == [] && NamesIn(names, [], who) == [] && ChosenName(names, []) == ""
    ensures AccountOf(JobAccounts(names, []), who) == Account("", [], 0)
  {
  }

  /** What the statement knows of a customer: the customer's own jobs, payments and names. */
  lemma {:induction false} AccountIs(names: Names, jobs: seq<NamedJob>, payments: seq<Payment>, who: string)
    ensures var a := AccountOf(ByWho(names, jobs, payments), who);
            && a.jobs == JobsOf(JobsIn(jobs), who) && a.monthPaid == PaidBy(payments, who)
            && a.name == ChosenName(names, NamesIn(names, Entries(jobs, payments), who))
  {
    hide Put, Renamed, NamesIn, ChosenName, Entries, Get, JobsOf, JobsIn, Round;
    if payments == [] {
      AccountJobs(names, jobs, who);
      JobsAccount(names, jobs, who);
    } else {
      var front, p := payments[..|payments| - 1], payments[|payments| - 1];
      assert payments == front + [p];
      AccountIs(names, jobs, front, who);
      AccountIs(names, jobs, front, p.who);
      var m := ByWho(names, jobs, front);
      var old' := AccountOf(m, p.who);
      var a := Renamed(names, old', p.name);
      PutGet(m, p.who, a.(monthPaid := a.monthPaid + Received(p)), who);
      PaymentEntries(jobs, front, p);
      RenamedIs(names, old', Entries(jobs, front), p.name, p.who);
      RenamedKeeps(names, old', p.name);
      NamesSnoc(names, Entries(jobs, front), p.who, p.name, who);
    }
  }

  lemma {:induction false} LinesAre(m: Accounts, l: Line)
    ensures l in LinesOf(m) <==> exists e :: e in m && Shown(e.value) && l == LineOf(e.key, e.value)
  {
    hide Shown, LineOf;
    if m != [] {
      var front, last := m[..|m| - 1], m[|m| - 1];
      assert m == front + [last];
      LinesAre(front, l);
    }
  }

  lemma {:induction false} AccountsDistinct(names: Names, jobs: seq<NamedJob>, payments: seq<Payment>)
    ensures Distinct(ByWho(names, jobs, payments))
    decreases |payments|, |jobs|
  {
    hide Put, Renamed, Distinct;
    if payments != [] {
      var front, p := payments[..|payments| - 1], payments[|payments| - 1];
      AccountsDistinct(names, jobs, front);
      var a := Renamed(names, AccountOf(ByWho(names, jobs, front), p.who), p.name);
      PutDistinct(ByWho(names, jobs, front), p.who, a.(monthPaid := a.monthPaid + Received(p)));
    } else if jobs != [] {
      var front, j := jobs[..|jobs| - 1], jobs[|jobs| - 1];
      AccountsDistinct(names, front, []);
      var a := Renamed(names, AccountOf(JobAccounts(names, front), j.job.who), j.name);
      PutDistinct(JobAccounts(names, front), j.job.who, a.(jobs := a.jobs + [j.job]));
    } else {
      NoAccounts();
    }
  }

  lemma NoAccounts()
    ensures Distinct<string, Account>([])
  {
  }

  /** Two lines of one statement are of two customers, and the sorting neither adds nor loses a line. */
  lemma SortedHolds(names: Names, lines: seq<Line>, l: Line)
    ensures l in Sorted(names, lines) <==> l in lines
  {
    hide Sorted;
    assert l in multiset(Sorted(names, lines)) <==> l in multiset(lines);
  }

  /**
   * A customer has a line exactly with a job of the month or money received in it; the line shows the
   * customer's own price, what of it is paid and what is open, what came in this month, and the first
   * name that is no mere title, or else the latest, or a stand-in when none was ever given.
   */
  lemma LineOfCustomer(names: Names, jobs: seq<NamedJob>, payments: seq<Payment>, who: string)
    ensures var lines := Sorted(names, LinesOf(ByWho(names, jobs, payments)));
            var own, heard := JobsOf(JobsIn(jobs), who), NamesIn(names, Entries(jobs, payments), who);
            var price := SumBy(Grouped(own), PriceOf);
            var line := Line(who, if heard == [] then "بدون نام" else ChosenName(names, heard), price,
                             price - OpenReceivable(own, false), PaidBy(payments, who), OpenReceivable(own, false));
            forall l :: l in lines && l.who == who <==>
                          l == line && ((exists job :: job in own && job.inMonth) || PaidBy(payments, who) > 0)
  {
    hide ByWho, Grouped, Sorted, LinesOf, JobsOf, JobsIn, NamesIn, Entries, ChosenName, Distinct, Get, OpenReceivable;
    hide SumBy, PaidBy;
    var m := ByWho(names, jobs, payments);
    var heard := NamesIn(names, Entries(jobs, payments), who);
    AccountIs(names, jobs, payments, who);
    AccountsDistinct(names, jobs, payments);
    NamesAreNames(names, Entries(jobs, payments), who);
    NameIsGiven(names, heard);
    GetFinds(m, who);
    forall l
      ensures l in Sorted(names, LinesOf(m)) <==> exists e :: e in m && Shown(e.value) && l == LineOf(e.key, e.value)
    {
      SortedHolds(names, LinesOf(m), l);
      LinesAre(m, l);
    }
    forall e | e in m && e.key == who
      ensures e.value == AccountOf(m, who)
    {
      DistinctGet(m, e);
    }
  }

  lemma NameIsGiven(names: Names, heard: seq<string>)
    requires forall n :: n in heard ==> n != ""
    ensures ChosenName(names, heard) == "" <==> heard == []
  {
    if heard != [] {
      assert heard[0] in heard;
      ChosenSnoc(names, heard, heard[0]);
    }
  }

  // Order.

  /** `localeCompare` orders names: of two, one is not behind the other, and it is transitive. */
  ghost predicate Orders(collate: (string, string) -> int) {
    && (forall a, b :: collate(a, b) > 0 ==> collate(b, a) <= 0)
    && (forall a, b, c :: collate(a, b) <= 0 && collate(b, c) <= 0 ==> collate(a, c) <= 0)
  }

  /** More money first; for equal money, by name. */
  predicate NotBehind(names: Names, a: Line, b: Line) {
    a.paidThisMonth > b.paidThisMonth || (a.paidThisMonth == b.paidThisMonth && names.collate(a.name, b.name) <= 0)
  }

  predicate Arranged(names: Names, lines: seq<Line>) {
    forall i, j :: 0 <= i < j < |lines| ==> NotBehind(names, lines[i], lines[j])
  }

  lemma CompareArranges(names: Names, a: Line, b: Line)
    requires Orders(names.collate)
    ensures Compare(names, a, b) <= 0 <==> NotBehind(names, a, b)
    ensures Compare(names, a, b) > 0 ==> NotBehind(names, b, a)
  {
  }

  lemma NotBehindChains(names: Names, a: Line, b: Line, c: Line)
    requires Orders(names.collate) && NotBehind(names, a, b) && NotBehind(names, b, c)
    ensures NotBehind(names, a, c)
  {
  }

  lemma ArrangedSnoc(names: Names, front: seq<Line>, last: Line)
    requires Arranged(names, front) && forall l :: l in front ==> NotBehind(names, l, last)
    ensures Arranged(names, front + [last])
  {
    hide NotBehind;
  }

  lemma ArrangedFront(names: Names, front: seq<Line>, last: Line)
    requires Arranged(names, front + [last])
    ensures Arranged(names, front)
    ensures forall l :: l in front ==> NotBehind(names, l, last)
  {
    hide NotBehind;
    var lines := front + [last];
    assert forall i :: 0 <= i < |front| ==> lines[i] == front[i];
    assert lines[|front|] == last;
  }

  lemma {:induction false} InsertedArranged(names: Names, sorted: seq<Line>, x: Line)
    requires Orders(names.collate) && Arranged(names, sorted)
    ensures Arranged(names, Inserted(names, sorted, x))
  {
    hide Compare, NotBehind, Arranged, Orders;
    if sorted == [] {
      ArrangedSnoc(names, sorted, x) by {
        NothingArranged(names);
      }
    } else {
      var front, last := sorted[..|sorted| - 1], sorted[|sorted| - 1];
      CompareArranges(names, last, x);
      assert sorted == front + [last];
      ArrangedFront(names, front, last);
      if Compare(names, last, x) <= 0 {
        forall l | l in sorted
          ensures NotBehind(names, l, x)
        {
          if l in front {
            NotBehindChains(names, l, last, x);
          }
        }
        ArrangedSnoc(names, sorted, x);
      } else {
        InsertedArranged(names, front, x);
        InsertedFrom(names, front, x);
        ArrangedSnoc(names, Inserted(names, front, x), last);
      }
    }
  }

  lemma NothingArranged(names: Names)
    ensures Arranged(names, [])
  {
  }

  /** The lines of a statement come with the most paid this month first, equal ones by name. */
  lemma {:induction false} SortedArranged(names: Names, lines: seq<Line>)
    requires Orders(names.collate)
    ensures Arranged(names, Sorted(names, lines))
  {
    hide Arranged, Inserted, Orders;
    if lines == [] {
      NothingArranged(names);
    } else {
      SortedArranged(names, lines[..|lines| - 1]);
      InsertedArranged(names, Sorted(names, lines[..|lines| - 1]), lines[|lines| - 1]);
    }
  }
}
