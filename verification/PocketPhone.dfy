/**
 * The phone page of studio.pocket.tsx: its handlers as steps, and what every run of them keeps.
 * A download is two steps, because it merges into the rows it saw before it waited for the server.
 */
module PocketPhone {
  import opened Text
  import opened PocketBook

  datatype Draft = Draft(
    id: string, name: string, phone: string, style: string, placement: string, time: string,
    note: string, price: string, size: string, photo: string)

  /** `seen` holds the rows captured by a download that is still waiting. */
  datatype State = State(
    rows: seq<Booking>, selected: string, draft: Option<Draft>, movingId: string, seen: Option<seq<Booking>>)

  datatype Action =
    | OpenDay(key: string)
    | EditDraft(draft: Option<Draft>)
    | StartMove(id: string)
    | SaveDraft(newId: string)
    | RemoveRow(id: string, confirmed: bool)
    | StartDownload
    | FinishDownload(incoming: seq<Incoming>)
    | FailDownload
    | Reopen(stored: seq<Booking>, today: string)

  function Find(rows: seq<Booking>, id: string): Option<Booking> {
    if rows == [] then None else if rows[0].id == id then Some(rows[0]) else Find(rows[1..], id)
  }

  function Moved(rows: seq<Booking>, id: string, day: string): seq<Booking> {
    seq(|rows|, i requires 0 <= i < |rows| =>
      if rows[i].id == id then rows[i].(day := day, pinned := true) else rows[i])
  }

  function Replaced(rows: seq<Booking>, id: string, row: Booking): seq<Booking> {
    seq(|rows|, i requires 0 <= i < |rows| => if rows[i].id == id then row else rows[i])
  }

  function Without(rows: seq<Booking>, id: string): seq<Booking> {
    if rows == [] then [] else (if rows[0].id == id then [] else [rows[0]]) + Without(rows[1..], id)
  }

  /** The row a draft turns into. */
  function RowOfDraft(s: State, d: Draft, newId: string): Booking {
    var found := Find(s.rows, d.id);
    Booking(
      if d.id != "" then d.id else newId, s.selected,
      Trim(d.name, JsSpace), Trim(d.phone, JsSpace), Trim(d.style, JsSpace), Trim(d.placement, JsSpace), d.time,
      Trim(d.note, JsSpace), ValueOf(OnlyDigits(d.price)), Trim(d.size, JsSpace), d.photo,
      match found case None => None case Some(row) => row.serverId, true)
  }

  function Step(s: State, a: Action): State {
    match a
    case OpenDay(key) =>
      if s.movingId != "" then
        if Find(s.rows, s.movingId).None? then s.(movingId := "")
        else s.(rows := Moved(s.rows, s.movingId, key), selected := key, movingId := "")
      else s.(selected := key, draft := None)
    case EditDraft(draft) => s.(draft := draft)
    case StartMove(id) => s.(movingId := id)
    case SaveDraft(newId) =>
      if s.draft.None? || |Trim(s.draft.value.name, JsSpace)| < 2 then s
      else
        var d := s.draft.value;
        var row := RowOfDraft(s, d, newId);
        s.(rows := if d.id != "" then Replaced(s.rows, d.id, row) else s.rows + [row], draft := None)
    case RemoveRow(id, confirmed) => if confirmed then s.(rows := Without(s.rows, id)) else s
    case StartDownload => if s.seen.Some? then s else s.(seen := Some(s.rows))
    case FinishDownload(incoming) =>
      if s.seen.None? then s else s.(rows := Downloaded(s.seen.value, incoming), seen := None)
    case FailDownload => s.(seen := None)
    case Reopen(stored, today) => State(stored, today, None, "", None)
  }

  /** The page object: its fields are replaced by the handlers. */
  class Phone {
    var rows: seq<Booking>
    var selected: string
    var draft: Option<Draft>
    var movingId: string
    var seen: Option<seq<Booking>>

    function Current(): State
      reads this
    {
      State(rows, selected, draft, movingId, seen)
    }

    /** A page that has just been opened. */
    constructor (stored: seq<Booking>, today: string)
      ensures Current() == State(stored, today, None, "", None)
    {
      rows, selected, draft, movingId, seen := stored, today, None, "", None;
    }

    method PressDay(key: string)
      modifies this
      ensures Current() == Step(old(Current()), OpenDay(key))
    {
      if movingId != "" {
        var current := Find(rows, movingId);
        if current.None? {
          movingId := "";
          return;
        }
        rows := Moved(rows, movingId, key);
        selected := key;
        movingId := "";
        return;
      }
      selected := key;
      draft := None;
    }

    method PressSave(newId: string)
      modifies this
      ensures Current() == Step(old(Current()), SaveDraft(newId))
    {
      if draft.None? {
        return;
      }
      var name := Trim(draft.value.name, JsSpace);
      if |name| < 2 {
        return;
      }
      var nextRow := RowOfDraft(State(rows, selected, draft, movingId, seen), draft.value, newId);
      if draft.value.id != "" {
        rows := Replaced(rows, draft.value.id, nextRow);
      } else {
        rows := rows + [nextRow];
      }
      draft := None;
    }

    method PressRemove(id: string, confirmed: bool)
      modifies this
      ensures Current() == Step(old(Current()), RemoveRow(id, confirmed))
    {
      if !confirmed {
        return;
      }
      rows := Without(rows, id);
    }

    method AskServer()
      requires seen.None?
      modifies this
      ensures Current() == Step(old(Current()), StartDownload)
    {
      seen := Some(rows);
    }

    method ServerAnswered(incoming: seq<Incoming>)
      requires seen.Some?
      modifies this
      ensures Current() == Step(old(Current()), FinishDownload(incoming))
    {
      var next := ApplyDownload(seen.value, incoming);
      rows := next;
      seen := None;
    }
  }

  // Runs.

  predicate HasId(rows: seq<Booking>, id: string) {
    exists row :: row in rows && row.id == id
  }

  /**
   * What the phone relies on: `newPocketId` is new, the server names its jobs, and a page opened again
   * finds the same rows in some order.
   */
  predicate Allowed(s: State, a: Action) {
    match a
    case SaveDraft(newId) => "local-" <= newId && !HasId(s.rows, newId)
    case FinishDownload(incoming) => Named(incoming)
    case Reopen(stored, _) => multiset(stored) == multiset(s.rows)
    case _ => true
  }

  predicate Good(s: State) {
    WellFormed(s.rows) && (s.seen.Some? ==> WellFormed(s.seen.value))
  }

  function After(s: State, actions: seq<Action>): State {
    if actions == [] then s else Step(After(s, actions[..|actions| - 1]), actions[|actions| - 1])
  }

  predicate Run(s: State, actions: seq<Action>) {
    forall i :: 0 <= i < |actions| ==> Allowed(After(s, actions[..i]), actions[i])
  }

  lemma {:induction false} FindIs(rows: seq<Booking>, id: string)
    ensures match Find(rows, id)
            case None => !HasId(rows, id)
            case Some(row) => row in rows && row.id == id
  {
    if rows != [] {
      FindIs(rows[1..], id);
      assert rows == [rows[0]] + rows[1..];
    }
  }

  lemma {:induction false} WithoutIs(rows: seq<Booking>, id: string)
    requires WellFormed(rows)
    ensures WellFormed(Without(rows, id))
    ensures forall row :: row in Without(rows, id) <==> row in rows && row.id != id
  {
    if rows != [] {
      WithoutIs(rows[1..], id);
      assert rows == [rows[0]] + rows[1..];
      var rest := Without(rows[1..], id);
      forall i | 0 <= i < |rest|
        ensures rest[i].id != rows[0].id
      {
        assert rest[i] in rows[1..];
      }
    }
  }

  lemma MovedWellFormed(rows: seq<Booking>, id: string, day: string)
    requires WellFormed(rows)
    ensures WellFormed(Moved(rows, id, day))
  {
  }

  lemma ReplacedWellFormed(rows: seq<Booking>, id: string, row: Booking)
    requires WellFormed(rows) && row.id == id && (HasId(rows, id) ==> RowOk(row))
    ensures WellFormed(Replaced(rows, id, row))
  {
    hide RowOk;
    forall i | 0 <= i < |rows|
      ensures RowOk(Replaced(rows, id, row)[i]) && Replaced(rows, id, row)[i].id == rows[i].id
    {
      assert rows[i] in rows;
    }
  }

  lemma AppendedWellFormed(rows: seq<Booking>, row: Booking)
    requires WellFormed(rows) && RowOk(row) && !HasId(rows, row.id)
    ensures WellFormed(rows + [row])
  {
    hide RowOk;
    assert forall i :: 0 <= i < |rows| ==> rows[i] in rows;
  }

  lemma SavedWellFormed(s: State, d: Draft, newId: string)
    requires WellFormed(s.rows) && "local-" <= newId && !HasId(s.rows, newId)
    ensures var row := RowOfDraft(s, d, newId);
            WellFormed(if d.id != "" then Replaced(s.rows, d.id, row) else s.rows + [row])
  {
    hide Trim, OnlyDigits, ValueOf, Replaced, Find;
    var row := RowOfDraft(s, d, newId);
    FindIs(s.rows, d.id);
    if d.id != "" {
      ReplacedWellFormed(s.rows, d.id, row);
    } else {
      assert forall row :: row in s.rows ==> RowOk(row) && row.id != "";
      AppendedWellFormed(s.rows, row);
    }
  }

  lemma {:induction false} RowOnce(rows: seq<Booking>, row: Booking)
    requires WellFormed(rows)
    ensures multiset(rows)[row] <= 1
  {
    if rows != [] {
      RowOnce(rows[1..], row);
      assert rows == [rows[0]] + rows[1..];
      assert row == rows[0] ==> row !in rows[1..];
    }
  }

  lemma RowTwice(rows: seq<Booking>, i: nat, j: nat)
    requires i < j < |rows| && rows[i] == rows[j]
    ensures multiset(rows)[rows[i]] >= 2
  {
    assert rows == rows[..i] + [rows[i]] + rows[i + 1..j] + [rows[j]] + rows[j + 1..];
  }

  /** The order in which the rows are read back does not matter. */
  lemma PermutedWellFormed(rows: seq<Booking>, stored: seq<Booking>)
    requires WellFormed(rows) && multiset(stored) == multiset(rows)
    ensures WellFormed(stored) && forall row :: row in stored <==> row in rows
  {
    forall row
      ensures row in stored <==> row in rows
    {
      assert row in multiset(stored) <==> row in multiset(rows);
    }
    forall i, j | 0 <= i < j < |stored| && stored[i].id == stored[j].id
      ensures false
    {
      assert stored[i] in rows && stored[j] in rows;
      RowOnce(rows, stored[i]);
      RowTwice(stored, i, j);
    }
    assert forall i :: 0 <= i < |stored| ==> stored[i] in rows;
  }

  /** Every step keeps the phone well-formed: ids unique, server rows named after their job, unpinned ones bare. */
  lemma StepKeepsGood(s: State, a: Action)
    requires Good(s) && Allowed(s, a)
    ensures Good(Step(s, a))
  {
    hide WellFormed, RowOfDraft, Replaced, Moved, Downloaded, Trim;
    match a {
      case OpenDay(key) => MovedWellFormed(s.rows, s.movingId, key);
      case SaveDraft(newId) =>
        if s.draft.Some? {
          SavedWellFormed(s, s.draft.value, newId);
        }
      case RemoveRow(id, confirmed) => WithoutIs(s.rows, id);
      case FinishDownload(incoming) =>
        if s.seen.Some? {
          DownloadWellFormed(s.seen.value, incoming);
        }
      case Reopen(stored, _) => PermutedWellFormed(s.rows, stored);
      case _ =>
    }
  }

  lemma {:induction false} RunKeepsGood(s: State, actions: seq<Action>)
    requires Good(s) && Run(s, actions)
    ensures Good(After(s, actions))
  {
    if actions != [] {
      var k := |actions| - 1;
      ShorterRun(s, actions, k);
      RunKeepsGood(s, actions[..k]);
      StepKeepsGood(After(s, actions[..k]), actions[k]);
    }
  }

  lemma ShorterRun(s: State, actions: seq<Action>, k: nat)
    requires Run(s, actions) && k <= |actions|
    ensures Run(s, actions[..k])
  {
    forall i | 0 <= i < k
      ensures Allowed(After(s, actions[..k][..i]), actions[..k][i])
    {
      assert actions[..k][..i] == actions[..i];
    }
  }

  /**
   * Wherever a run leads from a well-formed phone, a download forgets the downloads before it, and
   * repeating it changes nothing.
   */
  lemma ReachableDownloads(s: State, actions: seq<Action>, first: seq<Incoming>, second: seq<Incoming>)
    requires Good(s) && Run(s, actions) && Named(first) && Named(second)
    ensures var rows := After(s, actions).rows;
            && Downloaded(Downloaded(rows, first), second) == Downloaded(rows, second)
            && Downloaded(Downloaded(rows, second), second) == Downloaded(rows, second)
  {
    hide Downloaded, After;
    RunKeepsGood(s, actions);
    HistoryIndependent(After(s, actions).rows, first, second);
    DownloadIdempotent(After(s, actions).rows, second);
  }

  const EmptyPhone := State([], "", None, "", None)

  /** In particular on every phone that started empty. */
  lemma EmptyPhoneDownloads(actions: seq<Action>, first: seq<Incoming>, second: seq<Incoming>)
    requires Run(EmptyPhone, actions) && Named(first) && Named(second)
    ensures var rows := After(EmptyPhone, actions).rows;
            && WellFormed(rows)
            && Downloaded(Downloaded(rows, first), second) == Downloaded(rows, second)
  {
    hide Downloaded, After, Run;
    RunKeepsGood(EmptyPhone, actions);
    ReachableDownloads(EmptyPhone, actions, first, second);
  }

  /** The user edits, moves or removes the row with this id. */
  predicate Touches(s: State, a: Action, id: string) {
    match a
    case OpenDay(_) => s.movingId == id
    case SaveDraft(_) => s.draft.Some? && s.draft.value.id == id
    case RemoveRow(other, _) => other == id
    case _ => false
  }

  predicate Untouched(s: State, actions: seq<Action>, id: string) {
    forall i :: 0 <= i < |actions| ==> !Touches(After(s, actions[..i]), actions[i], id)
  }

  /** On the phone, out of reach of downloads, and known to the download that is waiting, if any. */
  predicate Secure(s: State, row: Booking) {
    Protected(row) && row in s.rows && (s.seen.Some? ==> row in s.seen.value)
  }

  lemma StepKeepsRow(s: State, a: Action, row: Booking)
    requires Good(s) && Allowed(s, a) && Secure(s, row) && !Touches(s, a, row.id)
    ensures Secure(Step(s, a), row)
  {
    var k :| 0 <= k < |s.rows| && s.rows[k] == row;
    match a {
      case OpenDay(key) =>
        assert Moved(s.rows, s.movingId, key)[k] == row;
      case SaveDraft(newId) =>
        if s.draft.Some? {
          var next := RowOfDraft(s, s.draft.value, newId);
          assert Replaced(s.rows, s.draft.value.id, next)[k] == row;
        }
      case RemoveRow(id, confirmed) => WithoutIs(s.rows, id);
      case FinishDownload(incoming) =>
        if s.seen.Some? {
          DownloadHolds(s.seen.value, incoming, row);
        }
      case Reopen(stored, _) => PermutedWellFormed(s.rows, stored);
      case _ =>
    }
  }

  /** Phone edits survive syncing: a secure row stays exactly as it is until the user touches it again. */
  lemma {:induction false} EditsSurvive(s: State, actions: seq<Action>, row: Booking)
    requires Good(s) && Run(s, actions) && Secure(s, row) && Untouched(s, actions, row.id)
    ensures Secure(After(s, actions), row)
  {
    if actions != [] {
      var k := |actions| - 1;
      ShorterRun(s, actions, k);
      forall i | 0 <= i < k
        ensures !Touches(After(s, actions[..k][..i]), actions[..k][i], row.id)
      {
        assert actions[..k][..i] == actions[..i];
      }
      EditsSurvive(s, actions[..k], row);
      RunKeepsGood(s, actions[..k]);
      StepKeepsRow(After(s, actions[..k]), actions[k], row);
    }
  }

  /** The row says what was typed, outer white space aside, and its price is the digits of the price field. */
  predicate FromDraft(row: Booking, d: Draft) {
    && row.name == Trim(d.name, JsSpace) && row.phone == Trim(d.phone, JsSpace)
    && row.style == Trim(d.style, JsSpace) && row.placement == Trim(d.placement, JsSpace)
    && row.note == Trim(d.note, JsSpace) && row.size == Trim(d.size, JsSpace)
    && row.time == d.time && row.photo == d.photo
    && row.price == ValueOf(OnlyDigits(d.price))
  }

  lemma SameRow(rows: seq<Booking>, a: Booking, b: Booking)
    requires WellFormed(rows) && a in rows && b in rows && a.id == b.id
    ensures a == b && a.id != ""
  {
  }

  /**
   * A saved draft is on the phone as typed, on the selected day and pinned, exactly when it is new or
   * its row is still there; the draft of a row that is gone is dropped. Without a download waiting
   * the saved row is secure.
   */
  lemma SavedRow(s: State, newId: string)
    requires Good(s) && Allowed(s, SaveDraft(newId)) && s.draft.Some? && |Trim(s.draft.value.name, JsSpace)| >= 2
    ensures var t, row := Step(s, SaveDraft(newId)), RowOfDraft(s, s.draft.value, newId);
            var present := s.draft.value.id == "" || HasId(s.rows, s.draft.value.id);
            && (row in t.rows <==> present)
            && row.pinned && row.day == s.selected && t.draft == None
            && FromDraft(row, s.draft.value)
            && row.id == (if s.draft.value.id != "" then s.draft.value.id else newId)
            && (s.draft.value.id == "" ==> row.serverId == None)
            && (forall other :: other in s.rows && other.id == s.draft.value.id ==> row.serverId == other.serverId)
            && (forall other :: other in s.rows && other.id != row.id ==> other in t.rows)
            && (present && s.seen.None? ==> Secure(t, row))
            && (!present ==> t.rows == s.rows)
  {
    hide Trim, OnlyDigits, ValueOf, Downloaded;
    var d := s.draft.value;
    var row := RowOfDraft(s, d, newId);
    FindIs(s.rows, d.id);
    forall other | other in s.rows && other.id == d.id
      ensures row.serverId == other.serverId && d.id != ""
    {
      SameRow(s.rows, other, Find(s.rows, d.id).value);
    }
    forall other | other in s.rows && other.id != row.id
      ensures other in Step(s, SaveDraft(newId)).rows
    {
      var k :| 0 <= k < |s.rows| && s.rows[k] == other;
      assert d.id != "" ==> Replaced(s.rows, d.id, row)[k] == other;
    }
    if d.id != "" {
      if HasId(s.rows, d.id) {
        var old' :| old' in s.rows && old'.id == d.id;
        var k :| 0 <= k < |s.rows| && s.rows[k] == old';
        assert Replaced(s.rows, d.id, row)[k] == row;
      } else {
        assert Replaced(s.rows, d.id, row) == s.rows;
        assert row.id == d.id;
      }
    }
  }

  /** A draft without a name of two letters is not saved. */
  lemma ShortName(s: State, newId: string)
    requires s.draft.None? || |Trim(s.draft.value.name, JsSpace)| < 2
    ensures Step(s, SaveDraft(newId)) == s
  {
    hide Trim;
  }

  /** What is typed and saved as a new booking lies on the selected day, as typed, behind the rows there were. */
  lemma TypedAndSaved(s: State, d: Draft, newId: string)
    requires d.id == "" && |Trim(d.name, JsSpace)| >= 2
    ensures var t := Step(Step(s, EditDraft(Some(d))), SaveDraft(newId));
            && |t.rows| == |s.rows| + 1 && t.rows[..|s.rows|] == s.rows
            && FromDraft(t.rows[|s.rows|], d)
            && t.rows[|s.rows|].id == newId && t.rows[|s.rows|].day == s.selected && t.rows[|s.rows|].pinned
  {
    hide Trim, OnlyDigits, ValueOf, Find;
  }

  /** Removing takes exactly the row of that id away, once confirmed. */
  lemma RemovedRow(s: State, id: string)
    requires Good(s)
    ensures Step(s, RemoveRow(id, false)) == s
    ensures var t := Step(s, RemoveRow(id, true));
            && (forall row :: row in t.rows <==> row in s.rows && row.id != id)
            && t == s.(rows := t.rows)
  {
    WithoutIs(s.rows, id);
  }

  /**
   * Without a move under way, a press on a day selects it and closes the draft; a move of a row that is
   * gone is given up. A page opened again selects today, with nothing under way.
   */
  lemma SelectedDay(s: State, key: string)
    ensures forall stored ::
              var t := Step(s, Reopen(stored, key));
              t.rows == stored && t.selected == key && t.draft.None? && t.movingId == "" && t.seen.None?
    ensures s.movingId == "" ==> Step(s, OpenDay(key)) == s.(selected := key, draft := None)
    ensures s.movingId != "" && !HasId(s.rows, s.movingId) ==> Step(s, OpenDay(key)) == s.(movingId := "")
  {
    FindIs(s.rows, s.movingId);
  }

  /** A download that is started and fails leaves the phone as it was; one that is answered merges into what it saw. */
  lemma DownloadSteps(s: State, incoming: seq<Incoming>)
    requires s.seen.None?
    ensures Step(Step(s, StartDownload), FailDownload) == s
    ensures Step(Step(s, StartDownload), FinishDownload(incoming)) == s.(rows := Downloaded(s.rows, incoming))
  {
    hide Downloaded;
  }

  /** A moved row lies on its new day, pinned, and is otherwise as it was. */
  lemma MovedRow(s: State, key: string, row: Booking)
    requires Good(s) && row in s.rows && row.id == s.movingId && s.movingId != ""
    ensures var t, moved := Step(s, OpenDay(key)), row.(day := key, pinned := true);
            && moved in t.rows && (s.seen.None? ==> Secure(t, moved))
            && t.selected == key && t.movingId == ""
            && (forall other :: other in s.rows && other.id != row.id ==> other in t.rows)
  {
    FindIs(s.rows, s.movingId);
    forall other | other in s.rows && other.id != row.id
      ensures other in Step(s, OpenDay(key)).rows
    {
      var j :| 0 <= j < |s.rows| && s.rows[j] == other;
      assert Moved(s.rows, s.movingId, key)[j] == other;
    }
    var k :| 0 <= k < |s.rows| && s.rows[k] == row;
    assert Moved(s.rows, s.movingId, key)[k] == row.(day := key, pinned := true);
  }

  /** A download that ends keeps a protected row exactly when it had seen that very row at its start. */
  lemma FinishKeepsSeen(s: State, incoming: seq<Incoming>, row: Booking)
    requires Good(s) && Named(incoming) && s.seen.Some? && Protected(row)
    ensures row in Step(s, FinishDownload(incoming)).rows <==> row in s.seen.value
  {
    DownloadHolds(s.seen.value, incoming, row);
  }

  lemma AfterOneMore(s: State, actions: seq<Action>, a: Action)
    ensures After(s, actions + [a]) == Step(After(s, actions), a)
  {
    hide Step;
    assert (actions + [a])[..|actions|] == actions;
  }

  lemma RunOneMore(s: State, actions: seq<Action>, a: Action)
    requires Run(s, actions) && Allowed(After(s, actions), a)
    ensures Run(s, actions + [a])
  {
    hide After, Allowed;
    var longer := actions + [a];
    forall i | 0 <= i < |longer|
      ensures Allowed(After(s, longer[..i]), longer[i])
    {
      if i < |actions| {
        assert longer[..i] == actions[..i];
      } else {
        assert longer[..i] == actions;
      }
    }
  }

  function MoveWhileWaiting(id: string, day: string): seq<Action> {
    [StartDownload, StartMove(id), OpenDay(day)]
  }

  /** Up to the answer, the move is on the phone; the waiting download still holds the rows from before it. */
  lemma MovedWhileWaiting(s: State, row: Booking, day: string)
    requires Good(s) && s.seen.None? && row in s.rows
    ensures var actions := MoveWhileWaiting(row.id, day); var t := After(s, actions);
            && Run(s, actions)
            && t.seen == Some(s.rows) && row.(day := day, pinned := true) in t.rows
  {
    hide WellFormed, Moved, Downloaded;
    var s1 := s.(seen := Some(s.rows));
    var s2 := s1.(movingId := row.id);
    IdsAreNames(s.rows, row);
    AfterOneMore(s, [], StartDownload);
    RunOneMore(s, [], StartDownload);
    assert [] + [StartDownload] == [StartDownload];
    AfterOneMore(s, [StartDownload], StartMove(row.id));
    RunOneMore(s, [StartDownload], StartMove(row.id));
    assert [StartDownload] + [StartMove(row.id)] == [StartDownload, StartMove(row.id)];
    AfterOneMore(s, [StartDownload, StartMove(row.id)], OpenDay(day));
    RunOneMore(s, [StartDownload, StartMove(row.id)], OpenDay(day));
    assert [StartDownload, StartMove(row.id)] + [OpenDay(day)] == MoveWhileWaiting(row.id, day);
    MovedRow(s2, day, row);
    FindIs(s2.rows, row.id);
  }

  lemma IdsAreNames(rows: seq<Booking>, row: Booking)
    requires WellFormed(rows) && row in rows
    ensures row.id != "" && forall day :: day != row.day ==> row.(day := day, pinned := true) !in rows
  {
  }

  /**
   * Any move of a protected row while a download waits is lost: the row is back on its old day when the
   * answer arrives.
   */
  lemma MoveDuringDownloadLost(s: State, row: Booking, day: string, incoming: seq<Incoming>)
    requires Good(s) && s.seen.None? && row in s.rows && Protected(row) && day != row.day && Named(incoming)
    ensures var before := MoveWhileWaiting(row.id, day); var moved := row.(day := day, pinned := true);
            var actions := before + [FinishDownload(incoming)];
            && Run(s, actions) && moved in After(s, before).rows
            && moved !in After(s, actions).rows && row in After(s, actions).rows
  {
    hide WellFormed, After, Run, Downloaded, MoveWhileWaiting;
    var before := MoveWhileWaiting(row.id, day);
    MovedWhileWaiting(s, row, day);
    IdsAreNames(s.rows, row);
    RunKeepsGood(s, before);
    AfterOneMore(s, before, FinishDownload(incoming));
    RunOneMore(s, before, FinishDownload(incoming));
    FinishKeepsSeen(After(s, before), incoming, row);
    FinishKeepsSeen(After(s, before), incoming, row.(day := day, pinned := true));
  }
}
