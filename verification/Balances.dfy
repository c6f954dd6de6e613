/** What the grouped balances mean row by row: how payments reduce what is open, and what makes two rows one design. */
module Balances {
  import opened Numbers
  import opened Text
  import opened OrderedMap
  import opened StudioFinance

  /** What is open of one design: its price less what was paid, never below nothing. */
  function OpenPart(rows: seq<Job>): int
    requires rows != []
  {
    var d := Balance(rows);
    if d.paid >= d.price then 0 else d.price - d.paid
  }

  lemma OpenOfIs(rows: seq<Job>)
    requires rows != []
    ensures OpenOf(Balance(rows)) == OpenPart(rows)
  {
    hide Balance;
  }

  lemma MonthOfMore(rows: seq<Job>, row: Job)
    ensures Balance(rows + [row]).inMonth <==> row.inMonth || (rows != [] && Balance(rows).inMonth)
  {
    hide Max;
    assert (rows + [row])[..|rows|] == rows;
  }

  /** A design is of the month when one of its rows is. */
  lemma {:induction false} MonthOfDesign(rows: seq<Job>)
    requires rows != []
    ensures Balance(rows).inMonth <==> exists row :: row in rows && row.inMonth
  {
    hide Balance;
    var front, last := rows[..|rows| - 1], rows[|rows| - 1];
    assert rows == front + [last];
    MonthOfMore(front, last);
    if front != [] {
      MonthOfDesign(front);
    }
  }

  /**
   * One more row of a design. A follow-up or a closed row that continues nothing counts for neither price
   * nor payment; a continuation raises the price to its own and adds its payment; any other row raises both.
   */
  lemma OneMoreRow(rows: seq<Job>, row: Job)
    requires rows != []
    ensures var d, e := Balance(rows), Balance(rows + [row]);
            && (!row.continuation && (row.followUp || row.closed) ==> e.price == d.price && e.paid == d.paid)
            && (row.continuation || (!row.followUp && !row.closed) ==>
                  e.price == if row.price > d.price then row.price else d.price)
            && (row.continuation ==> e.paid == d.paid + if row.paid > 0 then row.paid else 0)
            && (!row.continuation && !row.followUp && !row.closed ==>
                  e.paid == if row.paid > d.paid then row.paid else d.paid)
  {
    assert (rows + [row])[..|rows|] == rows;
  }

  /** The first row starts from nothing. */
  lemma FirstRow(row: Job)
    ensures var e := Balance([row]);
            && e.who == row.who
            && (!row.continuation && (row.followUp || row.closed) ==> e.price == 0 && e.paid == 0)
            && (row.continuation || (!row.followUp && !row.closed) ==>
                  && e.price == (if row.price > 0 then row.price else 0)
                  && e.paid == if row.paid > 0 then row.paid else 0)
  {
    assert [row][..0] == [];
  }

  // One design at a time.

  function Others(rows: seq<Job>, key: string): seq<Job> {
    if rows == [] then []
    else Others(rows[..|rows| - 1], key) + (if DesignKey(rows[|rows| - 1]) == key then [] else [rows[|rows| - 1]])
  }

  lemma {:induction false} RemovePut<V>(m: seq<Entry<string, V>>, k: string, v: V, j: string)
    requires Distinct(m)
    ensures Remove(Put(m, k, v), j) == if j == k then Remove(m, k) else Put(Remove(m, j), k, v)
  {
    if m == [] {
      assert [Entry(k, v)][1..] == [];
    } else {
      var rest := m[1..];
      if m[0].key == k {
        assert Put(m, k, v)[1..] == rest;
      } else {
        RemovePut(rest, k, v, j);
        assert Put(m, k, v)[1..] == Put(rest, k, v);
        assert Remove(m, j) == if m[0].key == j then rest else [m[0]] + Remove(rest, j);
        if m[0].key != j {
          assert ([m[0]] + Remove(rest, j))[1..] == Remove(rest, j);
        }
      }
    }
  }

  lemma {:induction false} GroupedDistinct(rows: seq<Job>)
    ensures Distinct(Grouped(rows))
  {
    hide DesignKey, Counted, Put, Distinct;
    if rows == [] {
      NothingDistinct();
    } else {
      var front, row := rows[..|rows| - 1], rows[|rows| - 1];
      GroupedDistinct(front);
      var current := match Get(Grouped(front), DesignKey(row)) case None => Blank(row.who) case Some(d) => d;
      PutDistinct(Grouped(front), DesignKey(row), Counted(current, row));
    }
  }

  lemma NothingDistinct()
    ensures Distinct<string, Design>([])
  {
  }

  lemma GroupedSnoc(front: seq<Job>, row: Job)
    ensures Grouped(front + [row]) == Folded(Grouped(front), row)
  {
    hide Folded;
    assert (front + [row])[..|front|] == front;
  }

  lemma OthersSnoc(front: seq<Job>, row: Job, key: string)
    ensures Others(front + [row], key) == if DesignKey(row) == key then Others(front, key)
        else Others(front, key) + [row]
  {
    hide DesignKey;
    assert (front + [row])[..|front|] == front;
  }

  /** Without the rows of one design the other designs are as they were. */
  lemma {:induction false} GroupedOthers(rows: seq<Job>, key: string)
    ensures Grouped(Others(rows, key)) == Remove(Grouped(rows), key)
  {
    if rows != [] {
      hide DesignKey, Counted, Put, Remove, Distinct, Grouped, Others, Get;
      var front, row := rows[..|rows| - 1], rows[|rows| - 1];
      assert rows == front + [row];
      GroupedOthers(front, key);
      GroupedDistinct(front);
      GroupedSnoc(front, row);
      OthersSnoc(front, row, key);
      GroupedSnoc(Others(front, key), row);
      var m := Grouped(front);
      var current := match Get(m, DesignKey(row)) case None => Blank(row.who) case Some(d) => d;
      RemovePut(m, DesignKey(row), Counted(current, row), key);
      RemoveGet(m, key, DesignKey(row));
    }
  }

  lemma {:induction false} SumRemove(m: Designs, f: Design -> int, k: string)
    ensures SumBy(Remove(m, k), f) == SumBy(m, f) - FigureAt(m, k, f)
  {
    if m != [] && m[0].key != k {
      SumRemove(m[1..], f, k);
      assert ([m[0]] + Remove(m[1..], k))[1..] == Remove(m[1..], k);
    }
  }

  /** What a design adds to the receivable: its open part, when it counts. */
  function Share(own: seq<Job>, monthOnly: bool): int {
    if own == [] || (monthOnly && forall row :: row in own ==> !row.inMonth) then 0 else OpenPart(own)
  }

  /**
   * The receivable taken apart: the open part of one design, counted for the month when one of its rows is
   * of the month, and the receivable of the other designs' rows.
   */
  lemma ReceivableSplits(rows: seq<Job>, key: string, monthOnly: bool)
    ensures OpenReceivable(rows, monthOnly) ==
              Share(OfDesign(rows, key), monthOnly) + OpenReceivable(Others(rows, key), monthOnly)
  {
    hide Grouped, OpenOf, DesignKey, Balance, OpenPart, OfDesign, Others, SumBy, Remove;
    var f := if monthOnly then OpenInMonth else OpenOf;
    var own := OfDesign(rows, key);
    GroupedOthers(rows, key);
    SumRemove(Grouped(rows), f, key);
    DesignIsFold(rows, key);
    if own != [] {
      OpenOfIs(own);
      MonthOfDesign(own);
    }
  }

  lemma NothingOpen(monthOnly: bool)
    ensures OpenReceivable([], monthOnly) == 0
  {
  }

  lemma {:induction false} OneDesignRows(rows: seq<Job>, key: string)
    requires forall row :: row in rows ==> DesignKey(row) == key
    ensures OfDesign(rows, key) == rows && Others(rows, key) == []
  {
    hide DesignKey;
    if rows != [] {
      var front, row := rows[..|rows| - 1], rows[|rows| - 1];
      assert rows == front + [row];
      OneDesignRows(front, key);
    }
  }

  /** Rows of one design: the price less the payments is open, and in the month only if a row is of the month. */
  lemma OneDesignOpen(rows: seq<Job>, monthOnly: bool)
    requires rows != [] && forall row :: row in rows ==> DesignKey(row) == DesignKey(rows[0])
    ensures OpenReceivable(rows, monthOnly) ==
              if monthOnly && forall row :: row in rows ==> !row.inMonth then 0
              else if Balance(rows).paid >= Balance(rows).price then 0
              else Balance(rows).price - Balance(rows).paid
  {
    hide DesignKey, OpenReceivable, Balance;
    OneDesignRows(rows, DesignKey(rows[0]));
    ReceivableSplits(rows, DesignKey(rows[0]), monthOnly);
    NothingOpen(monthOnly);
  }

  /** A single open booking: what is paid of it is no longer open. */
  lemma OneJobOpen(row: Job)
    requires Base(row) && row.price >= 0 && row.paid >= 0
    ensures OpenReceivable([row], false) == if row.paid >= row.price then 0 else row.price - row.paid
  {
    hide DesignKey, OpenReceivable;
    OneDesignOpen([row], false);
    assert [row][..0] == [];
  }

  // Settled accounts.

  lemma {:induction false} SumIsZero(m: Designs)
    ensures SumBy(m, OpenOf) >= 0
    ensures SumBy(m, OpenOf) == 0 <==> forall e :: e in m ==> e.value.paid >= e.value.price
  {
    if m != [] {
      SumIsZero(m[1..]);
      assert m == [m[0]] + m[1..];
    }
  }

  /** Nothing is open exactly when each design of the rows is paid in full. */
  lemma SettledExactly(rows: seq<Job>)
    ensures OpenReceivable(rows, false) == 0 <==>
              forall row :: row in rows ==>
                var own := OfDesign(rows, DesignKey(row)); own != [] && Balance(own).paid >= Balance(own).price
  {
    hide Grouped, DesignKey, Balance, OfDesign, OpenOf;
    var m := Grouped(rows);
    SumIsZero(m);
    GroupedDistinct(rows);
    forall e | e in m
      ensures exists row :: row in rows && DesignKey(row) == e.key
      ensures OfDesign(rows, e.key) != [] && e.value == Balance(OfDesign(rows, e.key)) && e.value.price >= 0
    {
      DistinctGet(m, e);
      DesignIsFold(rows, e.key);
      PriceIsMaximum(OfDesign(rows, e.key));
      KeyHasRow(rows, e.key);
    }
    forall row | row in rows
      ensures OfDesign(rows, DesignKey(row)) != []
      ensures exists e :: e in m && e.key == DesignKey(row)
    {
      RowHasKey(rows, row);
      DesignIsFold(rows, DesignKey(row));
      GetFinds(m, DesignKey(row));
    }
  }

  lemma {:induction false} KeyHasRow(rows: seq<Job>, key: string)
    requires OfDesign(rows, key) != []
    ensures exists row :: row in rows && DesignKey(row) == key
  {
    hide DesignKey;
    var front, last := rows[..|rows| - 1], rows[|rows| - 1];
    assert rows == front + [last];
    if DesignKey(last) != key {
      KeyHasRow(front, key);
    } else {
      assert last in rows;
    }
  }

  lemma {:induction false} RowHasKey(rows: seq<Job>, row: Job)
    requires row in rows
    ensures OfDesign(rows, DesignKey(row)) != []
  {
    hide DesignKey;
    var front, last := rows[..|rows| - 1], rows[|rows| - 1];
    assert rows == front + [last];
    if last != row {
      RowHasKey(front, row);
    }
  }

  /** What is applied of the payments is at most what was paid, and all of it exactly when no design is overpaid. */
  lemma {:induction false} AppliedAtMostPaid(m: Designs)
    ensures SumBy(m, AppliedOf) <= SumBy(m, PaidOf)
    ensures SumBy(m, AppliedOf) == SumBy(m, PaidOf) <==> forall e :: e in m ==> e.value.paid <= e.value.price
  {
    if m != [] {
      AppliedAtMostPaid(m[1..]);
      assert m == [m[0]] + m[1..];
    }
  }

  // What makes two rows one design.

  /** Rows are of one design exactly when customer, style and placement agree, case and outer white space aside. */
  lemma SameDesignKey(a: Job, b: Job)
    requires '|' !in a.who && '|' !in b.who && '|' !in Norm(a.style) && '|' !in Norm(b.style)
    ensures DesignKey(a) == DesignKey(b) <==>
              a.who == b.who && Norm(a.style) == Norm(b.style) && Norm(a.placement) == Norm(b.placement)
  {
    hide Norm;
    KeyParts(a);
    KeyParts(b);
  }

  lemma KeyParts(a: Job)
    requires '|' !in a.who && '|' !in Norm(a.style)
    ensures var rest := Norm(a.style) + ['|'] + Norm(a.placement);
            && IndexOf(DesignKey(a), '|') == |a.who| && DesignKey(a)[..|a.who|] == a.who
            && DesignKey(a)[|a.who| + 1..] == rest
            && IndexOf(rest, '|') == |Norm(a.style)| && rest[..|Norm(a.style)|] == Norm(a.style)
            && rest[|Norm(a.style)| + 1..] == Norm(a.placement)
  {
    hide Norm, IndexOf;
    var rest := Norm(a.style) + ['|'] + Norm(a.placement);
    assert DesignKey(a) == a.who + ['|'] + rest;
    IndexOfAfter(a.who, '|', rest);
    IndexOfAfter(Norm(a.style), '|', Norm(a.placement));
  }

  /** Case and outer white space do not count. */
  lemma NormIgnores(pre: string, s: string, post: string)
    requires forall c :: c in pre || c in post ==> JsSpace(c)
    ensures Norm(pre + s + post) == Norm(s) && Norm(Lower(s)) == Norm(s)
  {
    hide JsSpace;
    TrimOuter(pre, s, post, JsSpace);
    TrimLower(s);
  }

  /** And nothing else changes: a text in small letters without outer white space is compared as it is. */
  lemma NormKeeps(s: string)
    requires s != "" && !JsSpace(s[0]) && !JsSpace(s[|s| - 1]) && forall c :: c in s ==> !('A' <= c <= 'Z')
    ensures Norm(s) == s && Norm("") == ""
  {
    hide JsSpace;
    TrimOuter("", s, "", JsSpace);
    assert forall i :: 0 <= i < |s| ==> s[i] in s;
    assert Lower(s) == s;
  }

  lemma TrimLower(s: string)
    ensures Trim(Lower(s), JsSpace) == Lower(Trim(s, JsSpace)) && Lower(Lower(s)) == Lower(s)
  {
    hide JsSpace;
    LowerTwice(s);
    TrimLeftLower(s);
    TrimRightLower(TrimLeft(s, JsSpace));
  }

  lemma LetterCase(c: char)
    ensures 'A' <= c <= 'Z' ==> !JsSpace(c) && !JsSpace(c + 32 as char) && !('A' <= c + 32 as char <= 'Z')
  {
  }

  lemma LowerTwice(s: string)
    ensures Lower(Lower(s)) == Lower(s)
    ensures forall i :: 0 <= i < |s| ==> (JsSpace(Lower(s)[i]) <==> JsSpace(s[i]))
  {
    hide JsSpace;
    forall i | 0 <= i < |s|
      ensures Lower(Lower(s))[i] == Lower(s)[i] && (JsSpace(Lower(s)[i]) <==> JsSpace(s[i]))
    {
      LetterCase(s[i]);
    }
  }

  lemma {:induction false} TrimLeftLower(s: string)
    ensures TrimLeft(Lower(s), JsSpace) == Lower(TrimLeft(s, JsSpace))
  {
    hide JsSpace;
    LowerTwice(s);
    if s != "" && JsSpace(s[0]) {
      TrimLeftLower(s[1..]);
      assert Lower(s)[1..] == Lower(s[1..]);
    }
  }

  lemma {:induction false} TrimRightLower(s: string)
    ensures TrimRight(Lower(s), JsSpace) == Lower(TrimRight(s, JsSpace))
  {
    hide JsSpace;
    LowerTwice(s);
    if s != "" && JsSpace(s[|s| - 1]) {
      TrimRightLower(s[..|s| - 1]);
      assert Lower(s)[..|s| - 1] == Lower(s[..|s| - 1]);
    }
  }
}
