/** Open balances, customer statements and payment plans of studio-finance.ts. Money is whole tomans. */
module StudioFinance {
  import opened Numbers
  import opened Text
  import opened OrderedMap

  datatype Job = Job(
    who: string, style: string, placement: string, price: int, paid: int,
    continuation: bool, followUp: bool, closed: bool, inMonth: bool)

  datatype Design = Design(who: string, price: int, paid: int, inMonth: bool)

  function Norm(s: string): string {
    Lower(Trim(s, JsSpace))
  }

  function DesignKey(row: Job): string {
    row.who + "|" + Norm(row.style) + "|" + Norm(row.placement)
  }

  /** A first, uncorrected booking of a design: its price and what was paid are both counted. */
  predicate Base(row: Job) {
    !row.continuation && !row.followUp && !row.closed
  }

  /** One row folded into its design. */
  function Counted(d: Design, row: Job): Design {
    var d1 := if Base(row) then d.(price := Max(d.price, row.price)) else d;
    var d2 := if row.continuation then d1.(price := Max(d1.price, row.price)) else d1;
    var d3 := if Base(row) then d2.(paid := Max(d2.paid, row.paid)) else d2;
    var d4 := if row.continuation then d3.(paid := d3.paid + Max(0, row.paid)) else d3;
    if row.inMonth then d4.(inMonth := true) else d4
  }

  function Blank(who: string): Design {
    Design(who, 0, 0, false)
  }

  type Designs = seq<Entry<string, Design>>

  function Folded(m: Designs, row: Job): Designs {
    var current := match Get(m, DesignKey(row)) case None => Blank(row.who) case Some(d) => d;
    Put(m, DesignKey(row), Counted(current, row))
  }

  function Grouped(rows: seq<Job>): Designs {
    if rows == [] then [] else Folded(Grouped(rows[..|rows| - 1]), rows[|rows| - 1])
  }

  /** `groupedDesigns`. */
  method GroupedDesigns(rows: seq<Job>) returns (designs: seq<Design>)
    ensures designs == Values(Grouped(rows))
  {
    hide Norm, DesignKey, Put, Get, Max;
    var grouped: Designs := [];
    for i := 0 to |rows|
      invariant grouped == Grouped(rows[..i])
    {
      var row := rows[i];
      var key := DesignKey(row);
      var known := Get(grouped, key);
      var current := if known.Some? then known.value else Design(row.who, 0, 0, false);
      if !row.continuation && !row.followUp && !row.closed {
        current := current.(price := Max(current.price, row.price));
      }
      if row.continuation {
        current := current.(price := Max(current.price, row.price));
      }
      if !row.followUp && !row.continuation && !row.closed {
        current := current.(paid := Max(current.paid, row.paid));
      }
      if row.continuation {
        current := current.(paid := current.paid + Max(0, row.paid));
      }
      if row.inMonth {
        current := current.(inMonth := true);
      }
      grouped := Put(grouped, key, current);
      assert rows[..i + 1][..i] == rows[..i];
    }
    assert rows[..|rows|] == rows;
    designs := Values(grouped);
  }

  // The design of a key is the fold of its own rows.

  function OfDesign(rows: seq<Job>, key: string): seq<Job> {
    if rows == [] then []
    else
      OfDesign(rows[..|rows| - 1], key) + (if DesignKey(rows[|rows| - 1]) == key then [rows[|rows| - 1]] else [])
  }

  /** All rows of one design folded in order. */
  function Balance(rows: seq<Job>): Design
    requires rows != []
  {
    var k := |rows| - 1;
    Counted(if k == 0 then Blank(rows[0].who) else Balance(rows[..k]), rows[k])
  }

  lemma {:induction false} DesignIsFold(rows: seq<Job>, key: string)
    ensures Get(Grouped(rows), key) == var own := OfDesign(rows, key); if own == [] then None else Some(Balance(own))
  {
    hide DesignKey, Counted, Put;
    if rows != [] {
      var k := |rows| - 1;
      var front, row := rows[..k], rows[k];
      DesignIsFold(front, key);
      var m := Grouped(front);
      var current := match Get(m, DesignKey(row)) case None => Blank(row.who) case Some(d) => d;
      PutGet(m, DesignKey(row), Counted(current, row), key);
      if DesignKey(row) == key {
        var own := OfDesign(front, key);
        assert (own + [row])[..|own|] == own;
      } else {
        assert OfDesign(rows, key) == OfDesign(front, key);
      }
    }
  }

  // Bounds on one design.

  /** M: the largest base payment, or 0. */
  function BaseMax(rows: seq<Job>): (m: int)
    ensures m >= 0
  {
    if rows == [] then 0
    else
      var m, last := BaseMax(rows[..|rows| - 1]), rows[|rows| - 1];
      if Base(last) then Max(m, last.paid) else m
  }

  /** S: what the continuation rows add up to. */
  function ContinuationSum(rows: seq<Job>): (s: int)
    ensures s >= 0
  {
    if rows == [] then 0
    else
      var s, last := ContinuationSum(rows[..|rows| - 1]), rows[|rows| - 1];
      if last.continuation then s + Max(0, last.paid) else s
  }

  /** The largest counted price: a maximum over the base and continuation rows, at least 0. */
  lemma {:induction false} PriceIsMaximum(rows: seq<Job>)
    requires rows != []
    ensures Balance(rows).price >= 0
    ensures forall i :: 0 <= i < |rows| && (Base(rows[i]) || rows[i].continuation) ==>
        rows[i].price <= Balance(rows).price
    ensures Balance(rows).price == 0
         || exists i :: 0 <= i < |rows| && (Base(rows[i]) || rows[i].continuation)
                        && rows[i].price == Balance(rows).price
  {
    hide Max;
    var k := |rows| - 1;
    CountedPrice(if k == 0 then Blank(rows[0].who) else Balance(rows[..k]), rows[k]);
    hide Counted;
    if k > 0 {
      var front := rows[..k];
      PriceIsMaximum(front);
      assert forall i :: 0 <= i < k ==> front[i] == rows[i];
    }
  }

  lemma CountedPrice(d: Design, row: Job)
    ensures Counted(d, row).price == if Base(row) || row.continuation then Max(d.price, row.price) else d.price
    ensures Max(d.price, row.price) == if d.price >= row.price then d.price else row.price
  {
  }

  /** The payment of row i and all continuations after it. */
  function PaidFrom(rows: seq<Job>, i: nat): int
    requires i < |rows|
  {
    rows[i].paid + ContinuationSum(rows[i + 1..])
  }

  lemma PaidFromFront(rows: seq<Job>, i: nat)
    requires i + 1 < |rows|
    ensures var k := |rows| - 1;
            PaidFrom(rows, i) == PaidFrom(rows[..k], i) + (if rows[k].continuation then Max(0, rows[k].paid) else 0)
  {
    var k := |rows| - 1;
    assert rows[i + 1..][..k - i - 1] == rows[..k][i + 1..];
  }

  /**
   * What is paid, exactly and for any row order: the best of "all continuations" and "one base
   * payment and the continuations after it".
   */
  lemma {:induction false} PaidIsBestStart(rows: seq<Job>)
    requires rows != []
    ensures Balance(rows).paid >= ContinuationSum(rows)
    ensures forall i: nat :: i < |rows| && Base(rows[i]) ==> Balance(rows).paid >= PaidFrom(rows, i)
    ensures Balance(rows).paid == ContinuationSum(rows)
         || exists i: nat :: i < |rows| && Base(rows[i]) && Balance(rows).paid == PaidFrom(rows, i)
  {
    var k := |rows| - 1;
    assert PaidFrom(rows, k) == rows[k].paid by {
      assert rows[k + 1..] == [];
    }
    hide PaidFrom;
    forall i: nat | i < k
      ensures PaidFrom(rows, i) == PaidFrom(rows[..k], i) + (if rows[k].continuation then Max(0, rows[k].paid) else 0)
    {
      PaidFromFront(rows, i);
    }
    if k > 0 {
      PaidIsBestStart(rows[..k]);
      assert forall i: nat :: i < k ==> rows[..k][i] == rows[i];
    }
  }

  lemma {:induction false} BaseMaxIs(rows: seq<Job>)
    ensures forall i :: 0 <= i < |rows| && Base(rows[i]) ==> rows[i].paid <= BaseMax(rows)
    ensures BaseMax(rows) == 0 || exists i :: 0 <= i < |rows| && Base(rows[i]) && rows[i].paid == BaseMax(rows)
  {
    if rows != [] {
      var k := |rows| - 1;
      BaseMaxIs(rows[..k]);
      if BaseMax(rows[..k]) != 0 {
        var i :| 0 <= i < k && Base(rows[..k][i]) && rows[..k][i].paid == BaseMax(rows[..k]);
        assert rows[i] == rows[..k][i];
      }
    }
  }

  lemma {:induction false} ContinuationSuffix(rows: seq<Job>, i: nat)
    requires i <= |rows|
    ensures ContinuationSum(rows[i..]) <= ContinuationSum(rows)
    ensures (forall j :: 0 <= j < i ==> !rows[j].continuation) ==> ContinuationSum(rows[i..]) == ContinuationSum(rows)
    decreases |rows|
  {
    if i < |rows| {
      var k := |rows| - 1;
      ContinuationSuffix(rows[..k], i);
      assert rows[i..][..k - i] == rows[..k][i..];
    } else if rows != [] {
      var k := |rows| - 1;
      ContinuationSuffix(rows[..k], k);
      assert rows[..k][k..] == [];
    }
  }

  /** For any row order, max(M, S) <= paid <= M + S; with the base rows first, paid is M + S. */
  lemma PaidBounds(rows: seq<Job>)
    requires rows != []
    ensures Max(BaseMax(rows), ContinuationSum(rows)) <= Balance(rows).paid <= BaseMax(rows) + ContinuationSum(rows)
    ensures (forall i, j :: 0 <= i < j < |rows| && Base(rows[j]) ==> !rows[i].continuation)
        ==> Balance(rows).paid == BaseMax(rows) + ContinuationSum(rows)
  {
    hide Balance, PaidFrom, BaseMax, ContinuationSum, Base;
    PaidIsBestStart(rows);
    BaseMaxIs(rows);
    forall i: nat | i < |rows|
      ensures rows[i].paid <= PaidFrom(rows, i) <= rows[i].paid + ContinuationSum(rows)
      ensures (forall j :: 0 <= j < i ==> !rows[j].continuation) && Base(rows[i])
          ==> PaidFrom(rows, i) == rows[i].paid + ContinuationSum(rows)
    {
      PaidFromBounds(rows, i);
    }
  }

  lemma PaidFromBounds(rows: seq<Job>, i: nat)
    requires i < |rows|
    ensures rows[i].paid <= PaidFrom(rows, i) <= rows[i].paid + ContinuationSum(rows)
    ensures (forall j :: 0 <= j < i ==> !rows[j].continuation) && Base(rows[i])
        ==> PaidFrom(rows, i) == rows[i].paid + ContinuationSum(rows)
  {
    hide ContinuationSum;
    ContinuationSuffix(rows, i + 1);
  }

  // Totals.

  function OpenOf(d: Design): int {
    Max(0, d.price - Min(d.price, d.paid))
  }

  function PriceOf(d: Design): int {
    d.price
  }

  function PaidOf(d: Design): int {
    d.paid
  }

  /** What of the payments goes towards the price. */
  function AppliedOf(d: Design): int {
    if d.paid >= d.price then d.price else d.paid
  }

  function OpenInMonth(d: Design): int {
    if d.inMonth then OpenOf(d) else 0
  }

  function OpenReceivable(rows: seq<Job>, monthOnly: bool): int {
    SumBy(Grouped(rows), if monthOnly then OpenInMonth else OpenOf)
  }

  function SumOf(designs: seq<Design>, f: Design -> int): int {
    if designs == [] then 0 else SumOf(designs[..|designs| - 1], f) + f(designs[|designs| - 1])
  }

  lemma {:induction false} SumOfFront(d: Design, rest: seq<Design>, f: Design -> int)
    ensures SumOf([d] + rest, f) == f(d) + SumOf(rest, f)
  {
    if rest == [] {
      assert [d] + rest == [d];
      assert [d][..0] == [];
    } else {
      var k := |rest| - 1;
      SumOfFront(d, rest[..k], f);
      assert ([d] + rest)[..k + 1] == [d] + rest[..k];
    }
  }

  lemma {:induction false} SumOfValues(m: Designs, f: Design -> int)
    ensures SumOf(Values(m), f) == SumBy(m, f)
  {
    if m != [] {
      SumOfValues(m[1..], f);
      SumOfFront(m[0].value, Values(m[1..]), f);
      assert Values(m) == [m[0].value] + Values(m[1..]);
    }
  }

  /** `openReceivable`. */
  method ComputeOpenReceivable(rows: seq<Job>, monthOnly: bool) returns (total: int)
    ensures total == OpenReceivable(rows, monthOnly)
  {
    hide Grouped, Values;
    var designs := GroupedDesigns(rows);
    ghost var f := if monthOnly then OpenInMonth else OpenOf;
    total := 0;
    for i := 0 to |designs|
      invariant total == SumOf(designs[..i], f)
    {
      var row := designs[i];
      if !monthOnly || row.inMonth {
        total := total + Max(0, row.price - Min(row.price, row.paid));
      }
      assert designs[..i + 1][..i] == designs[..i];
    }
    assert designs[..|designs|] == designs;
    SumOfValues(Grouped(rows), f);
  }

  datatype Totals = Totals(price: int, paid: int, remaining: int, settled: bool)

  /** `accountTotals`: what is applied and what is open make up the price, and the open part is the receivable. */
  method AccountTotals(rows: seq<Job>) returns (t: Totals)
    ensures t.price == SumBy(Grouped(rows), PriceOf)
    ensures t.paid == SumBy(Grouped(rows), AppliedOf)
    ensures t.paid + t.remaining == t.price
    ensures t.remaining == OpenReceivable(rows, false) && t.remaining >= 0
    ensures t.settled <==> t.price > 0 && OpenReceivable(rows, false) == 0
  {
    var designs := GroupedDesigns(rows);
    hide Grouped, Values;
    var price, paid, remaining := 0, 0, 0;
    for i := 0 to |designs|
      invariant price == SumOf(designs[..i], PriceOf)
      invariant paid == SumOf(designs[..i], AppliedOf)
      invariant paid + remaining == price
      invariant remaining == SumOf(designs[..i], OpenOf) && remaining >= 0
    {
      var row := designs[i];
      var applied := Min(row.price, row.paid);
      price := price + row.price;
      paid := paid + applied;
      remaining := remaining + (row.price - applied);
      assert designs[..i + 1][..i] == designs[..i];
    }
    assert designs[..|designs|] == designs;
    SumOfValues(Grouped(rows), PriceOf);
    SumOfValues(Grouped(rows), AppliedOf);
    SumOfValues(Grouped(rows), OpenOf);
    t := Totals(price, paid, remaining, price > 0 && remaining == 0);
  }
}
