/**
 * The embedded-database start of db.ts: module instances share one database slot and one chain of
 * migration passes. Every awaited point is a separate event, so a run is any interleaving of
 * callers, module instances, successes and failures.
 */
module Migrations {
  import opened Text

  // The plan of a pass.

  predicate NoRepeats(names: seq<string>) {
    forall i, j :: 0 <= i < j < |names| ==> names[i] != names[j]
  }

  /** `pendingMigrations`: the globbed files, in their fixed order, whose name is not done. */
  function Pending(files: seq<string>, done: seq<string>): (plan: seq<string>)
    ensures forall name :: name in plan <==> name in files && name !in done
  {
    if files == [] then []
    else (if files[0] in done then [] else [files[0]]) + Pending(files[1..], done)
  }

  lemma {:induction false} PendingNoRepeats(files: seq<string>, done: seq<string>)
    requires NoRepeats(files)
    ensures NoRepeats(Pending(files, done))
  {
    if files != [] {
      PendingNoRepeats(files[1..], done);
      var rest := Pending(files[1..], done);
      forall i | 0 <= i < |rest|
        ensures rest[i] != files[0]
      {
        assert rest[i] in files[1..];
      }
    }
  }

  lemma {:induction false} PendingAgain(files: seq<string>, done: seq<string>, more: seq<string>)
    ensures Pending(files, done + more) == Pending(Pending(files, done), more)
  {
    if files != [] {
      PendingAgain(files[1..], done, more);
      var plan, rest := Pending(files, done), Pending(files[1..], done);
      assert files[0] !in done ==> plan[1..] == rest;
      assert files[0] in done ==> plan == rest;
    }
  }

  lemma {:induction false} PendingIgnores(files: seq<string>, other: string, more: seq<string>)
    requires other !in files
    ensures Pending(files, [other] + more) == Pending(files, more)
  {
    if files != [] {
      PendingIgnores(files[1..], other, more);
    }
  }

  lemma {:induction false} NothingDone(plan: seq<string>)
    ensures Pending(plan, []) == plan
  {
    if plan != [] {
      NothingDone(plan[1..]);
    }
  }

  lemma FirstOfPlan(plan: seq<string>)
    requires plan != [] && NoRepeats(plan)
    ensures NoRepeats(plan[1..]) && plan[0] !in plan[1..]
  {
  }

  lemma {:induction false} PendingPrefix(plan: seq<string>, k: nat)
    requires NoRepeats(plan) && k <= |plan|
    ensures Pending(plan, plan[..k]) == plan[k..]
  {
    hide NoRepeats;
    if k == 0 {
      assert plan[..0] == [];
      NothingDone(plan);
    } else {
      var rest := plan[1..];
      var done := rest[..k - 1];
      FirstOfPlan(plan);
      PendingPrefix(rest, k - 1);
      PendingIgnores(rest, plan[0], done);
      assert plan[..k] == [plan[0]] + done;
      assert Pending(plan, plan[..k]) == Pending(rest, [plan[0]] + done);
    }
  }

  /** After the first k files of a plan, what is pending is the rest of that plan. */
  lemma PendingResumes(files: seq<string>, done: seq<string>, k: nat)
    requires NoRepeats(files) && k <= |Pending(files, done)|
    ensures Pending(files, done + Pending(files, done)[..k]) == Pending(files, done)[k..]
  {
    PendingAgain(files, done, Pending(files, done)[..k]);
    PendingNoRepeats(files, done);
    PendingPrefix(Pending(files, done), k);
  }

  // One pass by itself.

  class Database {
    var applied: seq<string>
    var recorded: seq<string>

    constructor ()
      ensures applied == [] && recorded == []
    {
      applied, recorded := [], [];
    }

    /** Apply and record one file, or neither; a name already recorded breaks the primary key. */
    method Transaction(name: string, breaks: bool) returns (ok: bool)
      modifies this
      ensures ok <==> !breaks && name !in old(recorded)
      ensures applied == old(applied) + (if ok then [name] else [])
      ensures recorded == old(recorded) + (if ok then [name] else [])
    {
      if breaks || name in recorded {
        return false;
      }
      applied := applied + [name];
      recorded := recorded + [name];
      ok := true;
    }

    /** `migrate`: `breakAt` is the place in the plan where a file fails, if one does. */
    method Migrate(files: seq<string>, breakAt: nat) returns (ok: bool)
      requires NoRepeats(files)
      modifies this
      ensures var plan := Pending(files, old(recorded));
              var k := if breakAt < |plan| then breakAt else |plan|;
              && (ok <==> breakAt >= |plan|)
              && applied == old(applied) + plan[..k] && recorded == old(recorded) + plan[..k]
    {
      hide Pending, NoRepeats;
      var plan := Pending(files, recorded);
      PendingNoRepeats(files, recorded);
      assert plan[..0] == [];
      for i := 0 to |plan|
        invariant i <= breakAt
        invariant applied == old(applied) + plan[..i] && recorded == old(recorded) + plan[..i]
      {
        NotYet(plan, i, old(recorded));
        assert plan[..i + 1] == plan[..i] + [plan[i]];
        var done := Transaction(plan[i], i == breakAt);
        if !done {
          return false;
        }
      }
      assert plan[..|plan|] == plan;
      ok := true;
    }
  }

  lemma NotYet(plan: seq<string>, i: nat, before: seq<string>)
    requires i < |plan| && NoRepeats(plan) && forall name :: name in plan ==> name !in before
    ensures plan[i] !in before + plan[..i]
  {
    assert plan[i] in plan;
  }

  // All passes together.

  /** What the open transaction of a pass holds: nothing, a file's statements, and then its name. */
  datatype Stage = Idle | Executed(file: string) | Inserted(file: string, name: string)

  datatype Status =
    | Queued
    | Reading
    | Unread
    | Applying(base: seq<string>, plan: seq<string>, next: nat, stage: Stage)
    | Done(base: seq<string>, plan: seq<string>)
    | Failed(base: seq<string>, plan: seq<string>, next: nat)

  /** `owner` is the module instance that queued the pass; `prev` the pass it is chained after. */
  datatype Pass = Pass(owner: nat, files: seq<string>, prev: Option<nat>, status: Status)

  /** `sqlPromise` of a module instance: null, waiting for the database, waiting for its pass, or resolved. */
  datatype Memo = Null | OnDatabase(attempt: nat) | OnPass(pass: nat) | Ready

  datatype Instance = Instance(files: seq<string>, memo: Memo)

  /** `__pgliteInstance__`. */
  datatype Slot = Absent | Starting(attempt: nat) | Open(attempt: nat)

  datatype State = State(
    instances: seq<Instance>, slot: Slot, attempts: nat, passes: seq<Pass>, chain: Option<nat>,
    applied: seq<string>, recorded: seq<string>)

  datatype Event =
    | NewInstance(files: seq<string>)
    | Call(m: nat)
    | OpenDone
    | OpenFail
    | Enqueue(m: nat)
    | Reject(m: nat)
    | Start(i: nat)
    | Read(i: nat)
    | ReadFail(i: nat)
    | Exec(i: nat)
    | Insert(i: nat)
    | Commit(i: nat)
    | Break(i: nat)
    | Finish(i: nat)
    | Settle(m: nat)

  predicate Settled(p: Pass) {
    p.status.Unread? || p.status.Done? || p.status.Failed?
  }

  /** The pass is at work on the next file of its plan. */
  predicate AtWork(s: State, i: nat) {
    i < |s.passes| && s.passes[i].status.Applying? && s.passes[i].status.next < |s.passes[i].status.plan|
  }

  predicate Enabled(s: State, e: Event) {
    match e
    case NewInstance(files) => NoRepeats(files)
    case Call(m) => m < |s.instances| && s.instances[m].memo == Null
    case OpenDone => s.slot.Starting?
    case OpenFail => s.slot.Starting?
    case Enqueue(m) => m < |s.instances| && s.instances[m].memo.OnDatabase?
                       && s.slot == Open(s.instances[m].memo.attempt)
    case Reject(m) => m < |s.instances| && s.instances[m].memo.OnDatabase?
                      && s.slot != Open(s.instances[m].memo.attempt) && s.slot != Starting(s.instances[m].memo.attempt)
    case Start(i) => i < |s.passes| && s.passes[i].status.Queued?
                     && (s.passes[i].prev.Some? ==>
                           s.passes[i].prev.value < |s.passes| && Settled(s.passes[s.passes[i].prev.value]))
    case Read(i) => i < |s.passes| && s.passes[i].status.Reading?
    case ReadFail(i) => i < |s.passes| && s.passes[i].status.Reading?
    case Exec(i) => AtWork(s, i) && s.passes[i].status.stage.Idle?
    case Insert(i) => AtWork(s, i) && s.passes[i].status.stage.Executed?
    case Commit(i) => AtWork(s, i) && s.passes[i].status.stage.Inserted?
    case Break(i) => AtWork(s, i)
    case Finish(i) => i < |s.passes| && s.passes[i].status.Applying? && s.passes[i].status.stage == Idle
                      && s.passes[i].status.next == |s.passes[i].status.plan|
    case Settle(m) => m < |s.instances| && s.instances[m].memo.OnPass? && s.instances[m].memo.pass < |s.passes|
                      && Settled(s.passes[s.instances[m].memo.pass])
  }

  function WithMemo(s: State, m: nat, memo: Memo): State
    requires m < |s.instances|
  {
    s.(instances := s.instances[m := s.instances[m].(memo := memo)])
  }

  function WithStatus(s: State, i: nat, status: Status): State
    requires i < |s.passes|
  {
    s.(passes := s.passes[i := s.passes[i].(status := status)])
  }

  function Effect(s: State, e: Event): State
    requires Enabled(s, e)
  {
    match e
    case NewInstance(files) => s.(instances := s.instances + [Instance(files, Null)])
    case Call(m) =>
      if s.slot.Absent?
      then WithMemo(s.(slot := Starting(s.attempts), attempts := s.attempts + 1), m, OnDatabase(s.attempts))
      else WithMemo(s, m, OnDatabase(s.slot.attempt))
    case OpenDone => s.(slot := Open(s.slot.attempt))
    case OpenFail => s.(slot := Absent)
    case Enqueue(m) =>
      var t := s.(passes := s.passes + [Pass(m, s.instances[m].files, s.chain, Queued)], chain := Some(|s.passes|));
      WithMemo(t, m, OnPass(|s.passes|))
    case Reject(m) => WithMemo(s, m, Null)
    case Start(i) => WithStatus(s, i, Reading)
    case Read(i) => WithStatus(s, i, Applying(s.recorded, Pending(s.passes[i].files, s.recorded), 0, Idle))
    case ReadFail(i) => WithStatus(s, i, Unread)
    case Exec(i) =>
      var st := s.passes[i].status;
      WithStatus(s, i, st.(stage := Executed(st.plan[st.next])))
    case Insert(i) =>
      var st := s.passes[i].status;
      if st.plan[st.next] in s.recorded then WithStatus(s, i, Failed(st.base, st.plan, st.next))
      else WithStatus(s, i, st.(stage := Inserted(st.stage.file, st.plan[st.next])))
    case Commit(i) =>
      var st := s.passes[i].status;
      WithStatus(s, i, st.(next := st.next + 1, stage := Idle))
        .(applied := s.applied + [st.stage.file], recorded := s.recorded + [st.stage.name])
    case Break(i) =>
      var st := s.passes[i].status;
      WithStatus(s, i, Failed(st.base, st.plan, st.next))
    case Finish(i) => WithStatus(s, i, Done(s.passes[i].status.base, s.passes[i].status.plan))
    case Settle(m) => WithMemo(s, m, if s.passes[s.instances[m].memo.pass].status.Done? then Ready else Null)
  }

  const Boot := State([], Absent, 0, [], None, [], [])

  /** A run from the start of the process; an event that cannot happen yet changes nothing. */
  function After(events: seq<Event>): State {
    if events == [] then Boot
    else
      var s, e := After(events[..|events| - 1]), events[|events| - 1];
      if Enabled(s, e) then Effect(s, e) else s
  }

  // The invariant.

  /** What a pass has put into the database so far. */
  function Share(p: Pass): seq<string> {
    match p.status
    case Applying(_, plan, next, _) => if next <= |plan| then plan[..next] else []
    case Done(_, plan) => plan
    case Failed(_, plan, next) => if next <= |plan| then plan[..next] else []
    case _ => []
  }

  function History(passes: seq<Pass>): seq<string> {
    if passes == [] then [] else History(passes[..|passes| - 1]) + Share(passes[|passes| - 1])
  }

  /** An open transaction holds the next file of the plan, and its own name. */
  predicate StageFits(plan: seq<string>, next: nat, stage: Stage) {
    match stage
    case Idle => true
    case Executed(file) => next < |plan| && file == plan[next]
    case Inserted(file, name) => next < |plan| && file == name == plan[next]
  }

  /** A pass that has read the table knows what was there, and plans exactly what was missing. */
  predicate PlannedFrom(p: Pass, before: seq<string>) {
    match p.status
    case Applying(base, plan, next, stage) =>
      base == before && plan == Pending(p.files, base) && next <= |plan| && StageFits(plan, next, stage)
    case Done(base, plan) => base == before && plan == Pending(p.files, base)
    case Failed(base, plan, next) => base == before && plan == Pending(p.files, base) && next < |plan|
    case _ => true
  }

  predicate Chained(s: State) {
    && s.chain == (if s.passes == [] then None else Some(|s.passes| - 1))
    && (forall i :: 0 <= i < |s.passes| ==> s.passes[i].prev == if i == 0 then None else Some(i - 1))
    && (forall i, j :: 0 <= i < j < |s.passes| && !s.passes[j].status.Queued? ==> Settled(s.passes[i]))
  }

  predicate Plans(passes: seq<Pass>) {
    forall i :: 0 <= i < |passes| ==> PlannedFrom(passes[i], History(passes[..i])) && NoRepeats(passes[i].files)
  }

  predicate Recorded(s: State) {
    && s.applied == s.recorded == History(s.passes)
    && NoRepeats(s.recorded)
    && Plans(s.passes)
  }

  predicate MemoOk(s: State, m: nat)
    requires m < |s.instances|
  {
    match s.instances[m].memo
    case Null => true
    case OnDatabase(k) => k < s.attempts
    case OnPass(i) => i < |s.passes| && s.passes[i].owner == m && s.passes[i].files == s.instances[m].files
    case Ready => forall name :: name in s.instances[m].files ==> name in s.recorded
  }

  predicate Memos(s: State) {
    && (forall m :: 0 <= m < |s.instances| ==> MemoOk(s, m) && NoRepeats(s.instances[m].files))
    && (s.slot.Absent? || s.slot.attempt < s.attempts)
  }

  predicate Inv(s: State) {
    Chained(s) && Recorded(s) && Memos(s)
  }

  lemma {:induction false} HistorySplit(passes: seq<Pass>, i: nat)
    requires i < |passes|
    requires forall j :: i < j < |passes| ==> Share(passes[j]) == []
    ensures History(passes) == History(passes[..i]) + Share(passes[i])
  {
    hide Share;
    var k := |passes| - 1;
    if i < k {
      var front := passes[..k];
      assert Share(passes[k]) == [];
      HistorySplit(front, i);
      assert front[..i] == passes[..i];
    }
  }

  lemma {:induction false} HistoryGrows(passes: seq<Pass>, i: nat)
    requires i <= |passes|
    ensures History(passes[..i]) <= History(passes)
  {
    if i < |passes| {
      var k := |passes| - 1;
      HistoryGrows(passes[..k], i);
      assert passes[..k][..i] == passes[..i];
    } else {
      assert passes[..i] == passes;
    }
  }

  /** The database holds what the unsettled pass found plus its share. */
  lemma RecordedDuring(s: State, i: nat)
    requires Chained(s) && Recorded(s) && i < |s.passes| && !s.passes[i].status.Queued? && !Settled(s.passes[i])
    ensures s.recorded == History(s.passes[..i]) + Share(s.passes[i])
    ensures forall j :: i < j < |s.passes| ==> s.passes[j].status.Queued?
  {
    HistorySplit(s.passes, i);
  }

  lemma StatusKeepsPlans(passes: seq<Pass>, i: nat, status: Status)
    requires Plans(passes) && i < |passes|
    requires forall j :: i < j < |passes| ==> passes[j].status.Queued?
    requires PlannedFrom(passes[i].(status := status), History(passes[..i]))
    ensures Plans(passes[i := passes[i].(status := status)])
  {
    hide History, Pending, NoRepeats, Share;
    var changed := passes[i := passes[i].(status := status)];
    forall j | 0 <= j < |passes|
      ensures PlannedFrom(changed[j], History(changed[..j])) && NoRepeats(changed[j].files)
    {
      if j <= i {
        assert changed[..j] == passes[..j];
      }
    }
  }

  /** Changing the status of the pass at work, with the database following its share, keeps the records. */
  lemma StatusKeepsRecorded(s: State, t: State, i: nat, status: Status)
    requires Recorded(s) && i < |s.passes|
    requires forall j :: i < j < |s.passes| ==> s.passes[j].status.Queued?
    requires t.passes == s.passes[i := s.passes[i].(status := status)]
    requires PlannedFrom(t.passes[i], History(s.passes[..i]))
    requires t.applied == t.recorded == History(s.passes[..i]) + Share(t.passes[i]) && NoRepeats(t.recorded)
    ensures Recorded(t)
  {
    hide History, Pending, NoRepeats, PlannedFrom;
    StatusKeepsPlans(s.passes, i, status);
    HistorySplit(t.passes, i);
    assert t.passes[..i] == s.passes[..i];
  }

  lemma MemosKept(s: State, t: State)
    requires Memos(s) && t.instances == s.instances && t.slot == s.slot && t.attempts == s.attempts
    requires |t.passes| == |s.passes|
    requires forall i :: 0 <= i < |s.passes| ==>
               t.passes[i].owner == s.passes[i].owner && t.passes[i].files == s.passes[i].files
    requires s.recorded <= t.recorded
    ensures Memos(t)
  {
    forall m | 0 <= m < |t.instances|
      ensures MemoOk(t, m)
    {
      assert MemoOk(s, m);
    }
  }

  /** The events of one pass. */
  predicate OfPass(e: Event, i: nat) {
    || e == Start(i) || e == Read(i) || e == ReadFail(i) || e == Exec(i)
    || e == Insert(i) || e == Commit(i) || e == Break(i) || e == Finish(i)
  }

  lemma PlanFits(files: seq<string>, base: seq<string>, k: nat)
    requires k < |Pending(files, base)| && NoRepeats(files) && NoRepeats(base + Pending(files, base)[..k])
    ensures var plan := Pending(files, base);
            plan[k] !in base + plan[..k] && plan[..k + 1] == plan[..k] + [plan[k]]
            && NoRepeats(base + plan[..k] + [plan[k]])
  {
    PendingNoRepeats(files, base);
    var plan := Pending(files, base);
    assert plan[k] in plan;
  }

  /** The pass whose event it is stands between settled passes and queued ones. */
  lemma PassStands(s: State, e: Event, i: nat)
    requires Chained(s) && Recorded(s) && Enabled(s, e) && OfPass(e, i)
    ensures i < |s.passes| && (forall j :: i < j < |s.passes| ==> s.passes[j].status.Queued?)
    ensures s.recorded == History(s.passes[..i]) + Share(s.passes[i])
    ensures PlannedFrom(s.passes[i], History(s.passes[..i])) && NoRepeats(s.passes[i].files)
  {
    hide History, Pending, NoRepeats, PlannedFrom;
    if e.Start? {
      HistorySplit(s.passes, i);
    } else {
      RecordedDuring(s, i);
    }
  }

  lemma ReadKeepsRecorded(s: State, i: nat)
    requires Chained(s) && Recorded(s) && Enabled(s, Read(i))
    ensures Recorded(Effect(s, Read(i)))
  {
    hide History, Pending, NoRepeats, Chained;
    PassStands(s, Read(i), i);
    var t, before := Effect(s, Read(i)), History(s.passes[..i]);
    assert before + [] == before && t.passes[i].status.plan[..0] == [];
    StatusKeepsRecorded(s, t, i, t.passes[i].status);
  }

  lemma CommitKeepsRecorded(s: State, i: nat)
    requires Chained(s) && Recorded(s) && Enabled(s, Commit(i))
    ensures Recorded(Effect(s, Commit(i)))
  {
    hide History, Pending, NoRepeats, Chained;
    PassStands(s, Commit(i), i);
    var t, before, st := Effect(s, Commit(i)), History(s.passes[..i]), s.passes[i].status;
    PlanFits(s.passes[i].files, st.base, st.next);
    assert before + st.plan[..st.next] + [st.plan[st.next]] == before + (st.plan[..st.next] + [st.plan[st.next]]);
    StatusKeepsRecorded(s, t, i, t.passes[i].status);
  }

  /** The other events leave the share of the pass as it was. */
  lemma StillShares(s: State, e: Event, i: nat)
    requires Enabled(s, e) && OfPass(e, i) && !e.Read? && !e.Commit? && i < |s.passes|
    requires PlannedFrom(s.passes[i], History(s.passes[..i]))
    ensures var p := Effect(s, e).passes[i];
            Share(p) == Share(s.passes[i]) && PlannedFrom(p, History(s.passes[..i]))
  {
    hide History, Pending;
    if e.Finish? {
      var st := s.passes[i].status;
      assert st.plan[..|st.plan|] == st.plan;
    }
  }

  lemma OthersKeepRecorded(s: State, e: Event, i: nat)
    requires Chained(s) && Recorded(s) && Enabled(s, e) && OfPass(e, i) && !e.Read? && !e.Commit?
    ensures Recorded(Effect(s, e))
  {
    hide History, Pending, NoRepeats, Chained, PlannedFrom, Share;
    PassStands(s, e, i);
    StillShares(s, e, i);
    var t := Effect(s, e);
    StatusKeepsRecorded(s, t, i, t.passes[i].status);
  }

  lemma PassKeepsRecorded(s: State, e: Event, i: nat)
    requires Chained(s) && Recorded(s) && Enabled(s, e) && OfPass(e, i)
    ensures Recorded(Effect(s, e)) && s.recorded <= Effect(s, e).recorded
  {
    hide Chained, Recorded;
    if e.Read? {
      ReadKeepsRecorded(s, i);
    } else if e.Commit? {
      CommitKeepsRecorded(s, i);
    } else {
      OthersKeepRecorded(s, e, i);
    }
  }

  lemma PassKeepsInv(s: State, e: Event, i: nat)
    requires Inv(s) && Enabled(s, e) && OfPass(e, i)
    ensures Inv(Effect(s, e))
  {
    hide Recorded, Memos, Chained;
    PassKeepsRecorded(s, e, i);
    MemosKept(s, Effect(s, e));
    PassKeepsChain(s, e, i);
  }

  /** Only the first unsettled pass leaves the queue or changes. */
  lemma PassKeepsChain(s: State, e: Event, i: nat)
    requires Chained(s) && Enabled(s, e) && OfPass(e, i)
    ensures Chained(Effect(s, e))
  {
    hide Pending;
    var t := Effect(s, e);
    assert i < |s.passes| && !Settled(s.passes[i]) && !t.passes[i].status.Queued?;
    assert t.passes == s.passes[i := t.passes[i]] && t.passes[i].prev == s.passes[i].prev && t.chain == s.chain;
    StatusKeepsChain(s, t, i) by {
      if e.Start? && i > 0 {
        assert s.passes[i].prev == Some(i - 1);
      }
    }
  }

  lemma StatusKeepsChain(s: State, t: State, i: nat)
    requires Chained(s) && i < |s.passes| && !Settled(s.passes[i])
    requires s.passes[i].status.Queued? ==> i == 0 || Settled(s.passes[i - 1])
    requires |t.passes| == |s.passes| && t.passes == s.passes[i := t.passes[i]]
    requires t.passes[i].prev == s.passes[i].prev && t.chain == s.chain
    ensures Chained(t)
  {
    forall j, k | 0 <= j < k < |t.passes| && !t.passes[k].status.Queued?
      ensures Settled(t.passes[j])
    {
      if k == i && s.passes[i].status.Queued? && j < i - 1 {
        assert !s.passes[i - 1].status.Queued?;
      }
    }
  }

  lemma QueuedAddsNothing(p: Pass)
    requires p.status.Queued?
    ensures Share(p) == []
  {
  }

  lemma QueuedKeepsRecorded(s: State, t: State, p: Pass)
    requires Recorded(s) && p.status.Queued? && NoRepeats(p.files)
    requires t.passes == s.passes + [p] && t.applied == s.applied && t.recorded == s.recorded
    ensures Recorded(t)
  {
    hide Pending, NoRepeats, Share;
    assert t.passes[..|s.passes|] == s.passes;
    QueuedAddsNothing(p);
    forall i | 0 <= i < |t.passes|
      ensures PlannedFrom(t.passes[i], History(t.passes[..i])) && NoRepeats(t.passes[i].files)
    {
      if i < |s.passes| {
        assert t.passes[..i] == s.passes[..i];
      }
    }
  }

  lemma EnqueueKeepsInv(s: State, m: nat)
    requires Inv(s) && Enabled(s, Enqueue(m))
    ensures Inv(Effect(s, Enqueue(m)))
  {
    hide Recorded, NoRepeats;
    var t := Effect(s, Enqueue(m));
    assert MemoOk(s, m);
    QueuedKeepsRecorded(s, t, t.passes[|s.passes|]);
    forall n | 0 <= n < |t.instances|
      ensures MemoOk(t, n)
    {
      assert MemoOk(s, n);
    }
  }

  /** A resolved pass leaves every file of its module instance recorded. */
  lemma DoneMeansAll(s: State, i: nat)
    requires Chained(s) && Recorded(s) && i < |s.passes| && s.passes[i].status.Done?
    ensures forall name :: name in s.passes[i].files ==> name in s.recorded
  {
    hide NoRepeats;
    var before, p := History(s.passes[..i]), s.passes[i];
    HistoryGrows(s.passes, i + 1);
    assert s.passes[..i + 1][..i] == s.passes[..i];
    assert PlannedFrom(p, before);
    forall name | name in p.files
      ensures name in s.recorded
    {
      assert name in before || name in p.status.plan;
      assert name in History(s.passes[..i + 1]);
    }
  }

  lemma MemoKeepsInv(s: State, e: Event)
    requires Inv(s) && Enabled(s, e)
    requires e.NewInstance? || e.Call? || e.OpenDone? || e.OpenFail? || e.Reject? || e.Settle?
    ensures Inv(Effect(s, e))
  {
    hide Recorded, NoRepeats;
    var t := Effect(s, e);
    assert Recorded(t) by {
      SameRecords(s, t);
    }
    if e.Settle? {
      var i := s.instances[e.m].memo.pass;
      assert MemoOk(s, e.m);
      if s.passes[i].status.Done? {
        DoneMeansAll(s, i);
      }
    }
    forall m | 0 <= m < |t.instances|
      ensures MemoOk(t, m)
    {
      if m < |s.instances| {
        assert MemoOk(s, m);
      }
    }
  }

  lemma SameRecords(s: State, t: State)
    requires Recorded(s) && t.passes == s.passes && t.applied == s.applied && t.recorded == s.recorded
    ensures Recorded(t)
  {
  }

  lemma EffectKeepsInv(s: State, e: Event)
    requires Inv(s) && Enabled(s, e)
    ensures Inv(Effect(s, e))
  {
    hide Inv, Enabled, Effect;
    match e {
      case Enqueue(m) => EnqueueKeepsInv(s, m);
      case Start(i) => PassKeepsInv(s, e, i);
      case Read(i) => PassKeepsInv(s, e, i);
      case ReadFail(i) => PassKeepsInv(s, e, i);
      case Exec(i) => PassKeepsInv(s, e, i);
      case Insert(i) => PassKeepsInv(s, e, i);
      case Commit(i) => PassKeepsInv(s, e, i);
      case Break(i) => PassKeepsInv(s, e, i);
      case Finish(i) => PassKeepsInv(s, e, i);
      case _ => MemoKeepsInv(s, e);
    }
  }

  /** The invariant holds after every run. */
  lemma {:induction false} RunKeepsInv(events: seq<Event>)
    ensures Inv(After(events))
  {
    hide Inv, Enabled, Effect;
    if events == [] {
      BootInv();
    } else {
      RunKeepsInv(events[..|events| - 1]);
      var s, e := After(events[..|events| - 1]), events[|events| - 1];
      if Enabled(s, e) {
        EffectKeepsInv(s, e);
      }
    }
  }

  lemma BootInv()
    ensures Inv(Boot)
  {
  }

  // What every run promises.

  /** Over every interleaving and every failure, at most one migration pass is active. */
  lemma OnePassAtATime(events: seq<Event>, i: nat, j: nat)
    requires i < |After(events).passes| && j < |After(events).passes|
    requires var p := After(events).passes[i].status; p.Reading? || p.Applying?
    requires var p := After(events).passes[j].status; p.Reading? || p.Applying?
    ensures i == j
  {
    hide After, Recorded, Memos;
    RunKeepsInv(events);
  }

  /** Each file commits at most once, and the applied files are the recorded names, at every step. */
  lemma AppliedOnceAndRecorded(events: seq<Event>)
    ensures var names := After(events).applied;
            && names == After(events).recorded
            && forall i, j :: 0 <= i < j < |names| ==> names[i] != names[j]
  {
    hide After, Chained, Memos;
    RunKeepsInv(events);
  }

  /** No pass ever inserts a name that is already recorded, so the primary key never poisons a start. */
  lemma InsertNeverClashes(events: seq<Event>, i: nat)
    requires Enabled(After(events), Insert(i))
    ensures var st := After(events).passes[i].status; st.plan[st.next] !in After(events).recorded
  {
    hide After, Memos, History, Pending, NoRepeats;
    RunKeepsInv(events);
    var s := After(events);
    RecordedDuring(s, i);
    PlanFits(s.passes[i].files, s.passes[i].status.base, s.passes[i].status.next);
  }

  /** A failed pass leaves exactly the first `next` files of its plan on top of what it found. */
  lemma FailureLeavesPrefix(events: seq<Event>, i: nat)
    requires i < |After(events).passes| && After(events).passes[i].status.Failed?
    ensures var s := After(events); var st := s.passes[i].status;
            && st.plan == Pending(s.passes[i].files, st.base) && st.next < |st.plan|
            && History(s.passes[..i]) == st.base
            && History(s.passes[..i + 1]) == st.base + st.plan[..st.next]
            && History(s.passes[..i + 1]) <= s.applied
  {
    hide After, Memos, NoRepeats;
    RunKeepsInv(events);
    var s := After(events);
    assert PlannedFrom(s.passes[i], History(s.passes[..i]));
    assert s.passes[..i + 1][..i] == s.passes[..i];
    HistoryGrows(s.passes, i + 1);
  }

  /**
   * A later pass over the same files resumes where the failed one stopped: whatever other passes did in
   * between, it plans the rest of the failed plan without what they have committed meanwhile.
   */
  lemma NextPassResumes(events: seq<Event>, i: nat, j: nat)
    requires i < j < |After(events).passes| && After(events).passes[i].status.Failed?
    requires var p := After(events).passes[j];
             p.files == After(events).passes[i].files && (p.status.Applying? || p.status.Done? || p.status.Failed?)
    ensures var a, b := After(events).passes[i].status, After(events).passes[j].status;
            && a.next <= |a.plan| && a.base + a.plan[..a.next] <= b.base
            && b.plan == Pending(a.plan[a.next..], b.base[|a.base| + a.next..])
            && (b.base == a.base + a.plan[..a.next] ==> b.plan == a.plan[a.next..])
  {
    hide After, Memos, NoRepeats, History, Pending, Share;
    RunKeepsInv(events);
    FailureLeavesPrefix(events, i);
    var s := After(events);
    var a, b, files := s.passes[i].status, s.passes[j].status, s.passes[i].files;
    assert PlannedFrom(s.passes[j], History(s.passes[..j]));
    HistoryGrows(s.passes[..j], i + 1);
    assert s.passes[..j][..i + 1] == s.passes[..i + 1];
    var left, more := a.base + a.plan[..a.next], b.base[|a.base| + a.next..];
    assert b.base == left + more;
    PendingResumes(files, a.base, a.next);
    PendingAgain(files, left, more);
    NothingDone(a.plan[a.next..]);
  }

  /** A module instance whose client has resolved has its whole schema in the database. */
  lemma ReadyHasSchema(events: seq<Event>, m: nat)
    requires m < |After(events).instances| && After(events).instances[m].memo.Ready?
    ensures forall name :: name in After(events).instances[m].files ==> name in After(events).applied
  {
    hide After, Chained;
    RunKeepsInv(events);
    assert MemoOk(After(events), m);
  }

  /** An event that carries waiting work forward, without a new caller and without a new failure. */
  predicate Forward(e: Event) {
    !e.NewInstance? && !e.Call? && !e.OpenFail? && !e.ReadFail? && !e.Break?
  }

  predicate Waiting(s: State) {
    || (exists m :: 0 <= m < |s.instances| && (s.instances[m].memo.OnDatabase? || s.instances[m].memo.OnPass?))
    || (exists i :: 0 <= i < |s.passes| && !Settled(s.passes[i]))
  }

  /** A failure never wedges the chain: while anything waits, some forward event can happen. */
  lemma NeverWedged(events: seq<Event>)
    requires Waiting(After(events))
    ensures exists e :: Forward(e) && Enabled(After(events), e)
  {
    hide After, Recorded;
    RunKeepsInv(events);
    var s := After(events);
    if exists i :: 0 <= i < |s.passes| && !Settled(s.passes[i]) {
      PassCanMove(s);
    } else {
      var m: nat :| m < |s.instances| && (s.instances[m].memo.OnDatabase? || s.instances[m].memo.OnPass?);
      assert MemoOk(s, m);
      match s.instances[m].memo {
        case OnPass(i) => assert Forward(Settle(m)) && Enabled(s, Settle(m));
        case OnDatabase(k) =>
          if s.slot == Open(k) {
            assert Forward(Enqueue(m)) && Enabled(s, Enqueue(m));
          } else if s.slot == Starting(k) {
            assert Forward(OpenDone) && Enabled(s, OpenDone);
          } else {
            assert Forward(Reject(m)) && Enabled(s, Reject(m));
          }
      }
    }
  }

  /** The first unsettled pass follows only settled ones. */
  lemma {:induction false} FirstUnsettled(s: State, i: nat) returns (j: nat)
    requires i < |s.passes| && !Settled(s.passes[i])
    ensures j < |s.passes| && !Settled(s.passes[j]) && (j > 0 ==> Settled(s.passes[j - 1]))
  {
    if i > 0 && !Settled(s.passes[i - 1]) {
      j := FirstUnsettled(s, i - 1);
    } else {
      j := i;
    }
  }

  lemma PassCanMove(s: State)
    requires Inv(s) && exists i :: 0 <= i < |s.passes| && !Settled(s.passes[i])
    ensures exists e :: Forward(e) && Enabled(s, e)
  {
    hide Inv, Enabled, Forward;
    var i: nat :| i < |s.passes| && !Settled(s.passes[i]);
    var j := FirstUnsettled(s, i);
    var e := NextEvent(s, j);
    PassMoves(s, j);
  }

  /** What an unsettled pass does next when nothing fails. */
  function NextEvent(s: State, i: nat): Event
    requires i < |s.passes|
  {
    match s.passes[i].status
    case Queued => Start(i)
    case Reading => Read(i)
    case Applying(_, plan, next, stage) =>
      if stage.Executed? then Insert(i) else if stage.Inserted? then Commit(i)
      else if next < |plan| then Exec(i) else Finish(i)
    case _ => Finish(i)
  }

  lemma PassMoves(s: State, i: nat)
    requires Inv(s) && i < |s.passes| && !Settled(s.passes[i]) && (i > 0 ==> Settled(s.passes[i - 1]))
    ensures Forward(NextEvent(s, i)) && Enabled(s, NextEvent(s, i))
  {
    hide Memos, History, Pending, NoRepeats;
    assert PlannedFrom(s.passes[i], History(s.passes[..i]));
  }

  // Every start comes to an end.

  function PassWork(p: Pass): int {
    match p.status
    case Queued => 3 * |p.files| + 3
    case Reading => 3 * |p.files| + 2
    case Applying(_, plan, next, stage) =>
      3 * (|plan| - next) + (match stage case Idle => 1 case Executed(_) => 0 case Inserted(_, _) => -1)
    case _ => 0
  }

  function MemoWork(x: Instance): int {
    match x.memo
    case OnDatabase(_) => 3 * |x.files| + 5
    case OnPass(_) => 1
    case _ => 0
  }

  function Sum(xs: seq<int>): int {
    if xs == [] then 0 else Sum(xs[..|xs| - 1]) + xs[|xs| - 1]
  }

  function PassWorks(s: State): seq<int> {
    seq(|s.passes|, i requires 0 <= i < |s.passes| => PassWork(s.passes[i]))
  }

  function MemoWorks(s: State): seq<int> {
    seq(|s.instances|, m requires 0 <= m < |s.instances| => MemoWork(s.instances[m]))
  }

  /** A bound on the events still to come from the calls made so far. */
  function Work(s: State): int {
    Sum(PassWorks(s)) + Sum(MemoWorks(s)) + (if s.slot.Starting? then 1 else 0)
  }

  lemma {:induction false} SumUpdate(xs: seq<int>, i: nat, x: int)
    requires i < |xs|
    ensures Sum(xs[i := x]) == Sum(xs) - xs[i] + x
  {
    var k := |xs| - 1;
    if i < k {
      SumUpdate(xs[..k], i, x);
      assert xs[i := x][..k] == xs[..k][i := x];
    } else {
      assert xs[i := x][..k] == xs[..k];
    }
  }

  lemma {:induction false} SumNonNegative(xs: seq<int>)
    requires forall i :: 0 <= i < |xs| ==> xs[i] >= 0
    ensures Sum(xs) >= 0
  {
    if xs != [] {
      SumNonNegative(xs[..|xs| - 1]);
    }
  }

  lemma WorkBounded(s: State)
    requires Inv(s)
    ensures Work(s) >= 0
  {
    hide Chained, Memos, Pending, History, NoRepeats;
    forall i | 0 <= i < |s.passes|
      ensures PassWork(s.passes[i]) >= 0
    {
      assert PlannedFrom(s.passes[i], History(s.passes[..i]));
    }
    SumNonNegative(PassWorks(s));
    SumNonNegative(MemoWorks(s));
  }

  lemma {:induction false} PendingShorter(files: seq<string>, done: seq<string>)
    ensures |Pending(files, done)| <= |files|
  {
    if files != [] {
      PendingShorter(files[1..], done);
    }
  }

  lemma PassWorkShrinks(s: State, e: Event, i: nat)
    requires Enabled(s, e) && OfPass(e, i)
    ensures Work(Effect(s, e)) < Work(s)
  {
    hide Pending, Sum, PassWork, MemoWork;
    var t := Effect(s, e);
    OwnWorkShrinks(s, e, i);
    assert t.passes == s.passes[i := t.passes[i]] && t.instances == s.instances && t.slot == s.slot;
    SumUpdate(PassWorks(s), i, PassWork(t.passes[i]));
    assert PassWorks(t) == PassWorks(s)[i := PassWork(t.passes[i])];
    assert MemoWorks(t) == MemoWorks(s);
  }

  lemma OwnWorkShrinks(s: State, e: Event, i: nat)
    requires Enabled(s, e) && OfPass(e, i)
    ensures PassWork(Effect(s, e).passes[i]) < PassWork(s.passes[i])
  {
    hide Pending;
    if e.Read? {
      PendingShorter(s.passes[i].files, s.recorded);
    }
  }

  lemma MemoWorkShrinks(s: State, e: Event)
    requires Enabled(s, e) && (e.OpenDone? || e.OpenFail? || e.Enqueue? || e.Reject? || e.Settle?)
    ensures Work(Effect(s, e)) < Work(s)
  {
    var t := Effect(s, e);
    if e.OpenDone? || e.OpenFail? {
      assert PassWorks(t) == PassWorks(s) && MemoWorks(t) == MemoWorks(s);
    } else {
      SumUpdate(MemoWorks(s), e.m, MemoWork(t.instances[e.m]));
      assert MemoWorks(t) == MemoWorks(s)[e.m := MemoWork(t.instances[e.m])];
      if e.Enqueue? {
        assert PassWorks(t)[..|s.passes|] == PassWorks(s);
      } else {
        assert PassWorks(t) == PassWorks(s);
      }
    }
  }

  /** Every event but a new module or a new call uses up work, failures included. */
  lemma WorkShrinks(s: State, e: Event)
    requires Enabled(s, e) && !e.NewInstance? && !e.Call?
    ensures Work(Effect(s, e)) < Work(s)
  {
    hide Enabled, Effect, Work;
    match e {
      case Start(i) => PassWorkShrinks(s, e, i);
      case Read(i) => PassWorkShrinks(s, e, i);
      case ReadFail(i) => PassWorkShrinks(s, e, i);
      case Exec(i) => PassWorkShrinks(s, e, i);
      case Insert(i) => PassWorkShrinks(s, e, i);
      case Commit(i) => PassWorkShrinks(s, e, i);
      case Break(i) => PassWorkShrinks(s, e, i);
      case Finish(i) => PassWorkShrinks(s, e, i);
      case _ => MemoWorkShrinks(s, e);
    }
  }

  predicate SettlesWith(events: seq<Event>, more: seq<Event>) {
    (forall e :: e in more ==> Forward(e)) && !Waiting(After(events + more))
  }

  /** From any point of any run, forward events alone bring every caller and every pass to rest. */
  lemma EveryStartSettles(events: seq<Event>)
    ensures exists more :: SettlesWith(events, more)
  {
    var more := Settling(events);
  }

  lemma {:induction false} Settling(events: seq<Event>) returns (more: seq<Event>)
    ensures SettlesWith(events, more)
    decreases Work(After(events))
  {
    hide Enabled, Effect, Work, Waiting, Forward, Inv;
    more := [];
    if Waiting(After(events)) {
      NeverWedged(events);
      var e :| Forward(e) && Enabled(After(events), e);
      RunKeepsInv(events);
      WorkBounded(After(events));
      RunKeepsInv(events + [e]);
      WorkBounded(After(events + [e]));
      assert (events + [e])[..|events|] == events;
      ForwardShrinks(After(events), e);
      var rest := Settling(events + [e]);
      more := [e] + rest;
      assert events + more == events + [e] + rest;
    } else {
      assert events + [] == events;
    }
  }

  lemma ForwardShrinks(s: State, e: Event)
    requires Forward(e) && Enabled(s, e)
    ensures Work(Effect(s, e)) < Work(s)
  {
    hide Enabled, Effect, Work;
    WorkShrinks(s, e);
  }
}
