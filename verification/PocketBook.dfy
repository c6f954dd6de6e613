/** The merge of a server download into the phone's bookings (pocket-book.ts). */
module PocketBook {
  import opened Text
  import opened OrderedMap

  datatype Booking = Booking(
    id: string, day: string, name: string, phone: string, style: string, placement: string, time: string,
    note: string, price: nat, size: string, photo: string, serverId: Option<string>, pinned: bool)

  datatype Incoming = Incoming(
    serverId: string, day: string, time: string, name: string, phone: string, style: string, placement: string)

  /** `row.serverId` read as a truth value. */
  predicate FromServer(row: Booking) {
    row.serverId.Some? && row.serverId.value != ""
  }

  function ServerKey(serverId: string): string {
    "server:" + serverId
  }

  type Rows = seq<Entry<string, Booking>>

  predicate Listed(incoming: seq<Incoming>, serverId: string) {
    exists item :: item in incoming && item.serverId == serverId
  }

  // The three loops as they stand.

  function FirstPass(local: seq<Booking>): Rows {
    if local == [] then []
    else
      var next, row := FirstPass(local[..|local| - 1]), local[|local| - 1];
      if !FromServer(row) then Put(next, row.id, row)
      else if row.pinned then Put(next, ServerKey(row.serverId.value), row)
      else next
  }

  function SecondPass(next: Rows, local: seq<Booking>): Rows {
    if local == [] then next
    else
      var done, row := SecondPass(next, local[..|local| - 1]), local[|local| - 1];
      if FromServer(row) && row.pinned then Put(done, ServerKey(row.serverId.value), row) else done
  }

  /** `local.find((row) => row.serverId === id)`. */
  function Existing(local: seq<Booking>, serverId: string): Option<Booking> {
    if local == [] then None
    else if local[0].serverId == Some(serverId) then Some(local[0])
    else Existing(local[1..], serverId)
  }

  function Placed(local: seq<Booking>, item: Incoming): Booking {
    match Existing(local, item.serverId)
    case None => Booking("srv-" + item.serverId, item.day, item.name, item.phone, item.style, item.placement, item.time,
                         "", 0, "", "", Some(item.serverId), false)
    case Some(row) => Booking(if row.id != "" then row.id else "srv-" + item.serverId,
                              item.day, item.name, item.phone, item.style, item.placement, item.time,
                              row.note, row.price, row.size, row.photo, Some(item.serverId), false)
  }

  function ThirdPass(next: Rows, local: seq<Booking>, incoming: seq<Incoming>): Rows {
    if incoming == [] then next
    else
      var done, item := ThirdPass(next, local, incoming[..|incoming| - 1]), incoming[|incoming| - 1];
      var existing := Existing(local, item.serverId);
      if existing.Some? && existing.value.pinned then done
      else Put(done, ServerKey(item.serverId), Placed(local, item))
  }

  function Downloaded(local: seq<Booking>, incoming: seq<Incoming>): seq<Booking> {
    Values(ThirdPass(SecondPass(FirstPass(local), local), local, incoming))
  }

  /** `applyDownload`. */
  method ApplyDownload(local: seq<Booking>, incoming: seq<Incoming>) returns (rows: seq<Booking>)
    ensures rows == Downloaded(local, incoming)
  {
    var next: Rows := [];
    for i := 0 to |local|
      invariant next == FirstPass(local[..i])
    {
      var row := local[i];
      assert local[..i + 1][..i] == local[..i];
      if !FromServer(row) {
        next := Put(next, row.id, row);
      } else if row.pinned || !Listed(incoming, row.serverId.value) {
        if row.pinned {
          next := Put(next, ServerKey(row.serverId.value), row);
        }
      }
    }
    assert local[..|local|] == local;
    for i := 0 to |local|
      invariant next == SecondPass(FirstPass(local), local[..i])
    {
      var row := local[i];
      assert local[..i + 1][..i] == local[..i];
      if FromServer(row) && row.pinned {
        next := Put(next, ServerKey(row.serverId.value), row);
      }
    }
    for i := 0 to |incoming|
      invariant next == ThirdPass(SecondPass(FirstPass(local), local), local, incoming[..i])
    {
      assert incoming[..i + 1][..i] == incoming[..i];
      var existing := Existing(local, incoming[i].serverId);
      if !(existing.Some? && existing.value.pinned) {
        next := Put(next, ServerKey(incoming[i].serverId), Placed(local, incoming[i]));
      }
    }
    assert incoming[..|incoming|] == incoming;
    rows := Values(next);
  }

  /** With nothing sent, one row stays exactly when it is of the phone alone, an empty job id included, or pinned. */
  lemma NothingSent(row: Booking)
    ensures Downloaded([row], []) ==
              if row.serverId == None || row.serverId == Some("") || row.pinned then [row] else []
  {
    assert [row][..0] == [];
    assert FirstPass([]) == [];
    var first := FirstPass([row]);
    assert first == if !FromServer(row) then [Entry(row.id, row)]
                    else if row.pinned then [Entry(ServerKey(row.serverId.value), row)] else [];
    assert SecondPass(first, []) == first;
    assert SecondPass(first, [row]) == first;
  }

  /** A lone unpinned row is refreshed by its job: what the server knows is as sent, what the phone added stays. */
  lemma RowRefreshed(row: Booking, item: Incoming)
    requires row.serverId == Some(item.serverId) && item.serverId != "" && !row.pinned
    ensures Downloaded([row], [item]) ==
              [row.(id := if row.id == "" then "srv-" + item.serverId else row.id, day := item.day, time := item.time,
               name := item.name, phone := item.phone, style := item.style, placement := item.placement)]
  {
    assert [row][..0] == [] && [item][..0] == [];
    assert FirstPass([]) == [] && FirstPass([row]) == [];
    assert SecondPass([], []) == [] && SecondPass([], [row]) == [];
    assert ThirdPass([], [row], []) == [];
    assert Existing([row], item.serverId) == Some(row);
  }

  // The invariant of a phone, and what the merge comes to under it.

  predicate RowOk(row: Booking) {
    match row.serverId
    case None => "local-" <= row.id
    case Some(id) =>
      id != "" && row.id == "srv-" + id
      && (!row.pinned ==> row.note == "" && row.price == 0 && row.size == "" && row.photo == "")
  }

  predicate WellFormed(rows: seq<Booking>) {
    && (forall i :: 0 <= i < |rows| ==> RowOk(rows[i]))
    && (forall i, j :: 0 <= i < j < |rows| ==> rows[i].id != rows[j].id)
  }

  /** The server names its jobs. */
  predicate Named(incoming: seq<Incoming>) {
    forall item :: item in incoming ==> item.serverId != ""
  }

  /** Rows no download may change: phone-only ones and pinned ones. */
  predicate Protected(row: Booking) {
    !FromServer(row) || row.pinned
  }

  function Kept(local: seq<Booking>): seq<Booking> {
    if local == [] then []
    else Kept(local[..|local| - 1]) + (if Protected(local[|local| - 1]) then [local[|local| - 1]] else [])
  }

  function KeyOf(row: Booking): string {
    if FromServer(row) then ServerKey(row.serverId.value) else row.id
  }

  function Keyed(rows: seq<Booking>): Rows {
    if rows == [] then [] else Keyed(rows[..|rows| - 1]) + [Entry(KeyOf(rows[|rows| - 1]), rows[|rows| - 1])]
  }

  /** A server job as the phone first stores it. */
  function Fresh(item: Incoming): Booking {
    Booking("srv-" + item.serverId, item.day, item.name, item.phone, item.style, item.placement, item.time,
            "", 0, "", "", Some(item.serverId), false)
  }

  predicate PinnedIn(rows: seq<Booking>, serverId: string) {
    exists row :: row in rows && row.serverId == Some(serverId) && row.pinned
  }

  /** The last job sent under an id. */
  function LastOf(incoming: seq<Incoming>, serverId: string): Option<Incoming> {
    if incoming == [] then None
    else if incoming[|incoming| - 1].serverId == serverId then Some(incoming[|incoming| - 1])
    else LastOf(incoming[..|incoming| - 1], serverId)
  }

  /** The server's part: one fresh row per job that is not pinned, the last one sent winning. */
  function FreshRows(kept: seq<Booking>, incoming: seq<Incoming>): Rows {
    if incoming == [] then []
    else
      var done, item := FreshRows(kept, incoming[..|incoming| - 1]), incoming[|incoming| - 1];
      if PinnedIn(kept, item.serverId) then done else Put(done, ServerKey(item.serverId), Fresh(item))
  }

  lemma {:induction false} KeptHolds(local: seq<Booking>, row: Booking)
    ensures row in Kept(local) <==> row in local && Protected(row)
  {
    if local != [] {
      var k := |local| - 1;
      KeptHolds(local[..k], row);
      assert local == local[..k] + [local[k]];
    }
  }

  lemma {:induction false} KeptWellFormed(local: seq<Booking>)
    requires WellFormed(local)
    ensures WellFormed(Kept(local))
  {
    hide RowOk, Protected;
    if local != [] {
      var k := |local| - 1;
      KeptWellFormed(local[..k]);
      var kept := Kept(local[..k]);
      forall i | 0 <= i < |kept|
        ensures kept[i].id != local[k].id
      {
        KeptHolds(local[..k], kept[i]);
        var j :| 0 <= j < k && local[j] == kept[i];
      }
    }
  }

  lemma {:induction false} KeyedHolds(rows: seq<Booking>, e: Entry<string, Booking>)
    ensures e in Keyed(rows) <==> e.value in rows && e.key == KeyOf(e.value)
    ensures |Keyed(rows)| == |rows| && forall i :: 0 <= i < |rows| ==> Keyed(rows)[i] == Entry(KeyOf(rows[i]), rows[i])
  {
    if rows != [] {
      var k := |rows| - 1;
      KeyedHolds(rows[..k], e);
      assert rows == rows[..k] + [rows[k]];
    }
  }

  /** Well-formed rows have different map keys. */
  lemma KeysDiffer(a: Booking, b: Booking)
    requires RowOk(a) && RowOk(b) && a.id != b.id
    ensures KeyOf(a) != KeyOf(b)
  {
    if a.serverId.Some? && b.serverId.Some? {
      var x, y := a.serverId.value, b.serverId.value;
      assert ServerKey(x)[7..] == x && ServerKey(y)[7..] == y;
    } else if a.serverId.Some? {
      assert KeyOf(a)[0] == 's' && KeyOf(b)[0] == 'l';
    } else if b.serverId.Some? {
      assert KeyOf(b)[0] == 's' && KeyOf(a)[0] == 'l';
    }
  }

  lemma KeyOfIs(row: Booking)
    ensures KeyOf(row) == if FromServer(row) then ServerKey(row.serverId.value) else row.id
  {
  }

  lemma {:induction false} FirstPassKeeps(local: seq<Booking>)
    requires WellFormed(local)
    ensures FirstPass(local) == Keyed(Kept(local))
  {
    hide RowOk, KeyOf;
    if local != [] {
      var k := |local| - 1;
      var row := local[k];
      KeyOfIs(row);
      FirstPassKeeps(local[..k]);
      if Protected(row) {
        var done := Keyed(Kept(local[..k]));
        NewKey(local, k);
        assert done + [] == done;
        PutBehind(done, [], KeyOf(row), row);
        assert (Kept(local[..k]) + [row])[..|Kept(local[..k])|] == Kept(local[..k]);
      } else {
        assert Kept(local) == Kept(local[..k]);
      }
    }
  }

  lemma NewKey(local: seq<Booking>, k: nat)
    requires WellFormed(local) && k < |local|
    ensures forall e :: e in Keyed(Kept(local[..k])) ==> e.key != KeyOf(local[k])
  {
    hide KeyOf, RowOk;
    forall e | e in Keyed(Kept(local[..k]))
      ensures e.key != KeyOf(local[k])
    {
      KeyedHolds(Kept(local[..k]), e);
      KeptHolds(local[..k], e.value);
      var j :| 0 <= j < k && local[j] == e.value;
      KeysDiffer(local[j], local[k]);
    }
  }

  lemma KeyedDistinct(rows: seq<Booking>)
    requires WellFormed(rows)
    ensures Distinct(Keyed(rows))
  {
    forall i, j | 0 <= i < j < |Keyed(rows)|
      ensures Keyed(rows)[i].key != Keyed(rows)[j].key
    {
      KeyedHolds(rows, Keyed(rows)[i]);
      KeysDiffer(rows[i], rows[j]);
    }
  }

  lemma {:induction false} SecondPassKeeps(whole: seq<Booking>, n: nat)
    requires WellFormed(whole) && n <= |whole|
    ensures SecondPass(Keyed(Kept(whole)), whole[..n]) == Keyed(Kept(whole))
  {
    if n > 0 {
      SecondPassKeeps(whole, n - 1);
      assert whole[..n][..n - 1] == whole[..n - 1];
      var row := whole[n - 1];
      if FromServer(row) && row.pinned {
        KeptHolds(whole, row);
        KeptWellFormed(whole);
        KeyedDistinct(Kept(whole));
        KeyedHolds(Kept(whole), Entry(KeyOf(row), row));
        DistinctGet(Keyed(Kept(whole)), Entry(KeyOf(row), row));
        PutSame(Keyed(Kept(whole)), KeyOf(row), row);
      }
    }
  }

  lemma {:induction false} ExistingIs(local: seq<Booking>, serverId: string)
    ensures match Existing(local, serverId)
            case None => forall row :: row in local ==> row.serverId != Some(serverId)
            case Some(row) => row in local && row.serverId == Some(serverId)
  {
    if local != [] {
      ExistingIs(local[1..], serverId);
      assert local == [local[0]] + local[1..];
    }
  }

  /** A server job is skipped exactly when a pinned row holds it, and is otherwise stored as new. */
  lemma ExistingPinned(local: seq<Booking>, item: Incoming)
    requires WellFormed(local) && item.serverId != ""
    ensures var e := Existing(local, item.serverId);
            && ((e.Some? && e.value.pinned) <==> PinnedIn(Kept(local), item.serverId))
            && (!(e.Some? && e.value.pinned) ==> Placed(local, item) == Fresh(item))
  {
    ExistingIs(local, item.serverId);
    var e := Existing(local, item.serverId);
    if e.Some? && e.value.pinned {
      KeptHolds(local, e.value);
    }
    if PinnedIn(Kept(local), item.serverId) {
      var row :| row in Kept(local) && row.serverId == Some(item.serverId) && row.pinned;
      KeptHolds(local, row);
      var i :| 0 <= i < |local| && local[i] == row;
      var j :| 0 <= j < |local| && local[j] == e.value;
      assert local[i].id == local[j].id;
    }
  }

  lemma {:induction false} ThirdPassAdds(local: seq<Booking>, incoming: seq<Incoming>)
    requires WellFormed(local) && Named(incoming)
    ensures ThirdPass(Keyed(Kept(local)), local, incoming) == Keyed(Kept(local)) + FreshRows(Kept(local), incoming)
  {
    var kept := Kept(local);
    if incoming == [] {
      assert Keyed(kept) + [] == Keyed(kept);
    } else {
      var k := |incoming| - 1;
      var item := incoming[k];
      ThirdPassAdds(local, incoming[..k]);
      ExistingPinned(local, item);
      if !PinnedIn(kept, item.serverId) {
        forall e | e in Keyed(kept)
          ensures e.key != ServerKey(item.serverId)
        {
          KeyedHolds(kept, e);
          KeptHolds(local, e.value);
          var row := e.value;
          var j :| 0 <= j < |local| && local[j] == row;
          if FromServer(row) {
            assert ServerKey(row.serverId.value)[7..] == row.serverId.value;
            assert ServerKey(item.serverId)[7..] == item.serverId;
          } else {
            assert row.id[0] == 'l' && ServerKey(item.serverId)[0] == 's';
          }
        }
        PutBehind(Keyed(kept), FreshRows(kept, incoming[..k]), ServerKey(item.serverId), Fresh(item));
      }
    }
  }

  /** On a well-formed phone the merge keeps the protected rows in their order and appends the server's fresh ones. */
  lemma MergeIs(local: seq<Booking>, incoming: seq<Incoming>)
    requires WellFormed(local) && Named(incoming)
    ensures Downloaded(local, incoming) == Kept(local) + Values(FreshRows(Kept(local), incoming))
  {
    hide FirstPass, SecondPass, ThirdPass, FreshRows, Keyed, Kept;
    FirstPassKeeps(local);
    SecondPassKeeps(local, |local|);
    assert local[..|local|] == local;
    ThirdPassAdds(local, incoming);
    ValuesOfBoth(Kept(local), FreshRows(Kept(local), incoming));
  }

  lemma ValuesOfBoth(kept: seq<Booking>, rest: Rows)
    ensures Values(Keyed(kept) + rest) == kept + Values(rest)
  {
    forall i | 0 <= i < |kept|
      ensures |Keyed(kept)| == |kept| && Keyed(kept)[i].value == kept[i]
    {
      KeyedHolds(kept, Entry(KeyOf(kept[i]), kept[i]));
    }
    assert kept == [] ==> Keyed(kept) == [];
  }

  lemma {:induction false} FreshRowsHold(kept: seq<Booking>, incoming: seq<Incoming>, serverId: string)
    requires Named(incoming)
    ensures var got := Get(FreshRows(kept, incoming), ServerKey(serverId));
            && (got.Some? <==> LastOf(incoming, serverId).Some? && !PinnedIn(kept, serverId))
            && (got.Some? ==> got.value == Fresh(LastOf(incoming, serverId).value))
            && (Listed(incoming, serverId) <==> LastOf(incoming, serverId).Some?)
    ensures forall e :: e in FreshRows(kept, incoming) ==>
              exists item :: item in incoming && e == Entry(ServerKey(item.serverId), Fresh(item)) &&
                  !PinnedIn(kept, item.serverId)
    ensures Distinct(FreshRows(kept, incoming))
  {
    if incoming != [] {
      var k := |incoming| - 1;
      var done, item := FreshRows(kept, incoming[..k]), incoming[k];
      assert incoming == incoming[..k] + [item];
      FreshRowsHold(kept, incoming[..k], serverId);
      if !PinnedIn(kept, item.serverId) {
        PutGet(done, ServerKey(item.serverId), Fresh(item), ServerKey(serverId));
        PutDistinct(done, ServerKey(item.serverId), Fresh(item));
        PutMembers(done, ServerKey(item.serverId), Fresh(item));
        assert ServerKey(serverId)[7..] == serverId && ServerKey(item.serverId)[7..] == item.serverId;
      }
    }
  }

  /** The rows after a download: the protected ones as they were, and each other job as sent. */
  lemma DownloadHolds(local: seq<Booking>, incoming: seq<Incoming>, row: Booking)
    requires WellFormed(local) && Named(incoming)
    ensures row in Downloaded(local, incoming) ==>
              || (row in local && Protected(row))
              || exists item :: item in incoming && row == Fresh(item) && !PinnedIn(local, item.serverId)
    ensures row in local && Protected(row) ==> row in Downloaded(local, incoming)
  {
    MergeIs(local, incoming);
    KeptHolds(local, row);
    var added := FreshRows(Kept(local), incoming);
    if row in Values(added) {
      var i :| 0 <= i < |added| && added[i].value == row;
      FreshRowsHold(Kept(local), incoming, "");
      assert added[i] in added;
      var item :| item in incoming && added[i] == Entry(ServerKey(item.serverId), Fresh(item)) &&
          !PinnedIn(Kept(local), item.serverId);
      KeptPins(local, item.serverId);
    }
  }

  lemma KeptPins(local: seq<Booking>, serverId: string)
    ensures PinnedIn(Kept(local), serverId) <==> PinnedIn(local, serverId)
  {
    forall row {
      KeptHolds(local, row);
    }
  }

  /** Downloads keep the phone well-formed. */
  lemma DownloadWellFormed(local: seq<Booking>, incoming: seq<Incoming>)
    requires WellFormed(local) && Named(incoming)
    ensures WellFormed(Downloaded(local, incoming))
  {
    var kept := Kept(local);
    var added := FreshRows(kept, incoming);
    MergeIs(local, incoming);
    KeptWellFormed(local);
    FreshRowsHold(kept, incoming, "");
    forall i | 0 <= i < |added|
      ensures RowOk(added[i].value) && added[i].value.serverId.Some? && added[i].key == KeyOf(added[i].value)
      ensures forall j :: 0 <= j < |kept| ==> kept[j].id != added[i].value.id
    {
      assert added[i] in added;
      var item :| item in incoming && added[i] == Entry(ServerKey(item.serverId), Fresh(item)) &&
          !PinnedIn(kept, item.serverId);
      forall j | 0 <= j < |kept|
        ensures kept[j].id != added[i].value.id
      {
        KeptHolds(local, kept[j]);
        assert kept[j] in kept;
        if kept[j].serverId.Some? {
          assert kept[j].id[4..] == kept[j].serverId.value && added[i].value.id[4..] == item.serverId;
        } else {
          assert kept[j].id[0] == 'l' && added[i].value.id[0] == 's';
        }
      }
    }
    forall i, j | 0 <= i < j < |added|
      ensures added[i].value.id != added[j].value.id
    {
      var a, b := added[i].value, added[j].value;
      assert added[i].key != added[j].key;
      assert a.id[4..] == a.serverId.value && b.id[4..] == b.serverId.value;
    }
  }

  /** The last job sent under an id is the one that no later one of that id follows. */
  lemma {:induction false} LastOfIs(incoming: seq<Incoming>, serverId: string)
    ensures match LastOf(incoming, serverId)
            case None => forall item :: item in incoming ==> item.serverId != serverId
            case Some(last) => exists i :: 0 <= i < |incoming| && incoming[i] == last && last.serverId == serverId
                                 && forall j :: i < j < |incoming| ==> incoming[j].serverId != serverId
  {
    if incoming != [] && incoming[|incoming| - 1].serverId != serverId {
      LastOfIs(incoming[..|incoming| - 1], serverId);
      assert incoming == incoming[..|incoming| - 1] + [incoming[|incoming| - 1]];
    }
  }

  /** The row shows the job as the server sent it, unpinned and with nothing added on the phone. */
  predicate AsSent(row: Booking, item: Incoming) {
    && row.serverId == Some(item.serverId) && row.id == "srv-" + item.serverId
    && row.day == item.day && row.time == item.time && row.name == item.name && row.phone == item.phone
    && row.style == item.style && row.placement == item.placement
    && row.note == "" && row.price == 0 && row.size == "" && row.photo == "" && !row.pinned
  }

  /** After a download every job sent is on the phone exactly once: pinned as it was, or as it was last sent. */
  lemma EveryJobOnce(local: seq<Booking>, incoming: seq<Incoming>, serverId: string)
    requires WellFormed(local) && Named(incoming) && Listed(incoming, serverId)
    ensures var rows := Downloaded(local, incoming);
            exists i :: 0 <= i < |rows| && rows[i].serverId == Some(serverId)
              && (forall j :: 0 <= j < |rows| && rows[j].serverId == Some(serverId) ==> j == i)
              && if PinnedIn(local, serverId) then rows[i] in local && rows[i].pinned
                 else LastOf(incoming, serverId).Some? && AsSent(rows[i], LastOf(incoming, serverId).value)
  {
    var rows, kept := Downloaded(local, incoming), Kept(local);
    MergeIs(local, incoming);
    DownloadWellFormed(local, incoming);
    var added := FreshRows(kept, incoming);
    FreshRowsHold(kept, incoming, serverId);
    KeptPins(local, serverId);
    var row: Booking;
    if PinnedIn(kept, serverId) {
      row :| row in kept && row.serverId == Some(serverId) && row.pinned;
      KeptHolds(local, row);
    } else {
      GetFinds(added, ServerKey(serverId));
      var e := Entry(ServerKey(serverId), Get(added, ServerKey(serverId)).value);
      var item :| item in incoming && e == Entry(ServerKey(item.serverId), Fresh(item));
      assert ServerKey(serverId)[7..] == serverId && ServerKey(item.serverId)[7..] == item.serverId;
      row := e.value;
      var k :| 0 <= k < |added| && added[k] == e;
      assert Values(added)[k] == row;
    }
    assert row in rows;
    var i :| 0 <= i < |rows| && rows[i] == row;
    forall j | 0 <= j < |rows| && rows[j].serverId == Some(serverId)
      ensures j == i
    {
      assert rows[j].id == rows[i].id;
    }
  }

  lemma {:induction false} KeptAll(kept: seq<Booking>)
    requires forall row :: row in kept ==> Protected(row)
    ensures Kept(kept) == kept
  {
    hide Protected;
    if kept != [] {
      var k := |kept| - 1;
      KeptAll(kept[..k]);
      assert kept == kept[..k] + [kept[k]];
    }
  }

  lemma {:induction false} KeptOfMerge(kept: seq<Booking>, rest: seq<Booking>)
    requires forall row :: row in kept ==> Protected(row)
    requires forall row :: row in rest ==> !Protected(row)
    ensures Kept(kept + rest) == kept
  {
    hide Protected;
    if rest == [] {
      assert kept + rest == kept;
      KeptAll(kept);
    } else {
      var k := |rest| - 1;
      KeptOfMerge(kept, rest[..k]);
      assert (kept + rest)[..|kept| + k] == kept + rest[..k];
      assert rest[k] in rest;
    }
  }

  /** What a download does depends only on the phone's own rows: earlier downloads leave no trace. */
  lemma HistoryIndependent(local: seq<Booking>, first: seq<Incoming>, second: seq<Incoming>)
    requires WellFormed(local) && Named(first) && Named(second)
    ensures Downloaded(Downloaded(local, first), second) == Downloaded(local, second)
  {
    var kept := Kept(local);
    MergeIs(local, first);
    DownloadWellFormed(local, first);
    MergeIs(Downloaded(local, first), second);
    MergeIs(local, second);
    var added := FreshRows(kept, first);
    FreshRowsHold(kept, first, "");
    forall row | row in kept
      ensures Protected(row)
    {
      KeptHolds(local, row);
    }
    forall row | row in Values(added)
      ensures !Protected(row)
    {
      var i :| 0 <= i < |added| && Values(added)[i] == row;
      assert added[i] in added;
    }
    KeptOfMerge(kept, Values(added));
  }

  /** The same download twice changes nothing more. */
  lemma DownloadIdempotent(local: seq<Booking>, incoming: seq<Incoming>)
    requires WellFormed(local) && Named(incoming)
    ensures Downloaded(Downloaded(local, incoming), incoming) == Downloaded(local, incoming)
  {
    HistoryIndependent(local, incoming, incoming);
  }
}
