/** What becomes of the callers of getSql: who resolves, who is rejected, and how often the database is opened. */
module MigrationOutcomes {
  import opened Migrations

  /** Nothing fails: not the database, not the reading of the table, and no file. */
  predicate Smooth(events: seq<Event>) {
    forall e :: e in events ==> !e.OpenFail? && !e.ReadFail? && !e.Break?
  }

  /** A call of module instance m took effect. */
  predicate Called(events: seq<Event>, m: nat) {
    events != [] &&
    var front, e := events[..|events| - 1], events[|events| - 1];
    Called(front, m) || (e == Call(m) && Enabled(After(front), e))
  }

  lemma AfterSnoc(front: seq<Event>, e: Event)
    ensures After(front + [e]) == if Enabled(After(front), e) then Effect(After(front), e) else After(front)
    ensures forall m: nat :: Called(front + [e], m) <==>
              Called(front, m) || (e == Call(m) && Enabled(After(front), e))
  {
    hide Enabled, Effect;
    assert (front + [e])[..|front|] == front;
  }

  /** One attempt at the database at most, nobody waiting for another, and no failed pass. */
  predicate Healthy(s: State) {
    && s.attempts <= 1
    && (s.slot.Absent? ==> s.attempts == 0)
    && (forall m :: 0 <= m < |s.instances| && s.instances[m].memo.OnDatabase? ==>
          !s.slot.Absent? && s.slot.attempt == s.instances[m].memo.attempt)
    && (forall i :: 0 <= i < |s.passes| ==> !s.passes[i].status.Failed? && !s.passes[i].status.Unread?)
  }

  /** The row that a pass is about to insert is not there yet. */
  predicate Fresh(s: State, e: Event)
    requires Enabled(s, e)
  {
    e.Insert? ==> var st := s.passes[e.i].status; st.plan[st.next] !in s.recorded
  }

  lemma EffectHealthy(s: State, e: Event)
    requires Inv(s) && Healthy(s) && Enabled(s, e) && Fresh(s, e) && !e.OpenFail? && !e.ReadFail? && !e.Break?
    ensures var t := Effect(s, e);
            && Healthy(t) && !e.Reject? && |t.instances| >= |s.instances|
            && forall m :: 0 <= m < |s.instances| && (s.instances[m].memo != Null || e == Call(m)) ==>
                 t.instances[m].memo != Null
  {
    hide Chained, Recorded, Pending;
  }

  /** Without failures the database is opened at most once, and nobody who called is ever rejected. */
  lemma {:induction false} SmoothRun(events: seq<Event>, m: nat)
    requires Smooth(events)
    ensures Healthy(After(events))
    ensures Called(events, m) ==> m < |After(events).instances| && After(events).instances[m].memo != Null
  {
    hide Enabled, Effect, Inv, Healthy, Called;
    if events == [] {
      assert Healthy(Boot) by {
        BootHealthy();
      }
      assert !Called([], m) by {
        NobodyCalled(m);
      }
    } else {
      var front, e := events[..|events| - 1], events[|events| - 1];
      assert events == front + [e];
      SmoothRun(front, m);
      RunKeepsInv(front);
      AfterSnoc(front, e);
      if Enabled(After(front), e) {
        assert Fresh(After(front), e) by {
          if e.Insert? {
            InsertNeverClashes(front, e.i);
          }
        }
        EffectHealthy(After(front), e);
        CallHasInstance(After(front), e, m);
      }
    }
  }

  lemma BootHealthy()
    ensures Healthy(Boot)
  {
  }

  lemma NobodyCalled(m: nat)
    ensures !Called([], m)
  {
  }

  lemma CallHasInstance(s: State, e: Event, m: nat)
    requires Enabled(s, e)
    ensures e == Call(m) ==> m < |s.instances|
  {
  }

  /** Everyone who called is served: the forward events end with a client for each, its schema applied. */
  lemma SmoothStartsResolve(events: seq<Event>)
    requires Smooth(events)
    ensures exists more :: SettlesWith(events, more) && AllServed(events, more)
  {
    var more := Settling(events);
    forall m: nat | Called(events, m)
      ensures m < |After(events + more).instances| && After(events + more).instances[m].memo.Ready?
      ensures forall name :: name in After(events + more).instances[m].files ==> name in After(events + more).applied
    {
      Served(events, more, m);
    }
    assert AllServed(events, more);
  }

  predicate Serves(s: State, m: nat) {
    && m < |s.instances| && s.instances[m].memo.Ready?
    && forall name :: name in s.instances[m].files ==> name in s.applied
  }

  ghost predicate AllServed(events: seq<Event>, more: seq<Event>) {
    forall m: nat :: Called(events, m) ==> Serves(After(events + more), m)
  }

  lemma Served(events: seq<Event>, more: seq<Event>, m: nat)
    requires Smooth(events) && SettlesWith(events, more) && Called(events, m)
    ensures Serves(After(events + more), m)
  {
    hide After, Called;
    assert forall e :: e in events + more ==> e in events || e in more;
    assert Smooth(events + more);
    StillCalled(events, more, m);
    SmoothRun(events + more, m);
    ReadyHasSchema(events + more, m) by {
      assert !Waiting(After(events + more));
    }
  }

  lemma {:induction false} StillCalled(events: seq<Event>, more: seq<Event>, m: nat)
    requires Called(events, m)
    ensures Called(events + more, m)
  {
    if more == [] {
      assert events + more == events;
    } else {
      StillCalled(events, more[..|more| - 1], m);
      assert (events + more)[..|events + more| - 1] == events + more[..|more| - 1];
    }
  }

  // With failures.

  /** How a settled pass answers those who wait for it. */
  function Outcome(p: Pass): Memo {
    if p.status.Done? then Ready else Null
  }

  /** Instance m still waits for pass i, or the pass is settled and has answered. */
  predicate Answered(s: State, m: nat, i: nat) {
    && m < |s.instances| && i < |s.passes|
    && (s.instances[m].memo == OnPass(i) || (Settled(s.passes[i]) && s.instances[m].memo == Outcome(s.passes[i])))
  }

  lemma EffectAnswers(s: State, e: Event, m: nat, i: nat)
    requires Enabled(s, e) && Answered(s, m, i) && e != Call(m)
    ensures Answered(Effect(s, e), m, i)
  {
    hide Pending;
  }

  /**
   * The pass decides: an instance that waits for one is resolved by it when it is done, and rejected when
   * it could not read the table or a file failed; and so it stays until the instance is called again.
   */
  lemma {:induction false} PassDecides(events: seq<Event>, more: seq<Event>, m: nat, i: nat)
    requires m < |After(events).instances| && After(events).instances[m].memo == OnPass(i)
    requires Call(m) !in more
    ensures var t := After(events + more);
            && m < |t.instances| && i < |t.passes|
            && (t.instances[m].memo == OnPass(i)
                || (t.passes[i].status.Done? && t.instances[m].memo == Ready)
                || ((t.passes[i].status.Failed? || t.passes[i].status.Unread?) && t.instances[m].memo == Null))
  {
    AnsweredLater(events, more, m, i);
  }

  lemma {:induction false} AnsweredLater(events: seq<Event>, more: seq<Event>, m: nat, i: nat)
    requires m < |After(events).instances| && After(events).instances[m].memo == OnPass(i)
    requires Call(m) !in more
    ensures Answered(After(events + more), m, i)
  {
    hide Enabled, Effect, Inv;
    if more == [] {
      assert events + more == events;
      RunKeepsInv(events);
      WaitsForSome(After(events), m);
    } else {
      var front, e := more[..|more| - 1], more[|more| - 1];
      assert e in more && forall x :: x in front ==> x in more;
      AnsweredLater(events, front, m, i);
      assert events + more == (events + front) + [e];
      AfterSnoc(events + front, e);
      if Enabled(After(events + front), e) {
        EffectAnswers(After(events + front), e, m, i);
      }
    }
  }

  lemma WaitsForSome(s: State, m: nat)
    requires Inv(s) && m < |s.instances| && s.instances[m].memo.OnPass?
    ensures s.instances[m].memo.pass < |s.passes|
  {
    hide Chained, Recorded;
    assert MemoOk(s, m);
  }

  /** A database that has opened is kept: no later event closes it or opens another. */
  lemma {:induction false} OpenStays(events: seq<Event>, more: seq<Event>)
    requires After(events).slot.Open?
    ensures After(events + more).slot == After(events).slot && After(events + more).attempts == After(events).attempts
  {
    hide Enabled, Effect;
    if more == [] {
      assert events + more == events;
    } else {
      var front, e := more[..|more| - 1], more[|more| - 1];
      OpenStays(events, front);
      assert events + more == (events + front) + [e];
      AfterSnoc(events + front, e);
      if Enabled(After(events + front), e) {
        SlotStep(After(events + front), e);
      }
    }
  }

  /** What an event does to the slot: a new attempt only when it is empty, and it empties only when one fails. */
  lemma SlotStep(s: State, e: Event)
    requires Enabled(s, e)
    ensures var t := Effect(s, e);
            && (s.slot.Open? ==> t.slot == s.slot)
            && (t.attempts != s.attempts ==>
                  s.slot.Absent? && t.attempts == s.attempts + 1 && t.slot == Starting(s.attempts))
            && (t.slot.Absent? && !s.slot.Absent? ==> e.OpenFail?)
  {
    hide Pending;
  }

  function Failures(events: seq<Event>): nat {
    if events == [] then 0
    else Failures(events[..|events| - 1]) + (if events[|events| - 1].OpenFail? then 1 else 0)
  }

  /** However many instances call, the database is opened at most once more than opening it has failed. */
  lemma {:induction false} OpenedOnce(events: seq<Event>)
    ensures After(events).attempts <= Failures(events) + (if After(events).slot.Absent? then 0 else 1)
  {
    hide Enabled, Effect;
    if events != [] {
      var front, e := events[..|events| - 1], events[|events| - 1];
      OpenedOnce(front);
      if Enabled(After(front), e) {
        SlotStep(After(front), e);
      }
    }
  }

  /**
   * Who waits for attempt k has not got past it, and nobody ever will: the attempt is over and others have
   * begun, or will.
   */
  predicate Stranded(s: State, m: nat, k: nat) {
    && k < s.attempts && (s.slot.Absent? || s.slot.attempt != k)
    && m < |s.instances| && (s.instances[m].memo == OnDatabase(k) || s.instances[m].memo == Null)
  }

  lemma EffectStrands(s: State, e: Event, m: nat, k: nat)
    requires Enabled(s, e) && Stranded(s, m, k) && e != Call(m)
    ensures Stranded(Effect(s, e), m, k)
  {
    hide Pending;
  }

  /** When the database fails to open, those who wait for it are rejected, if anything, until they call again. */
  lemma {:induction false} FailureRejects(events: seq<Event>, more: seq<Event>, m: nat)
    requires Enabled(After(events), OpenFail) && Call(m) !in more
    requires var s := After(events); m < |s.instances| && s.instances[m].memo == OnDatabase(s.slot.attempt)
    ensures Stranded(After(events + [OpenFail] + more), m, After(events).slot.attempt)
  {
    var k := After(events).slot.attempt;
    hide Enabled, Effect;
    if more == [] {
      assert events + [OpenFail] + more == events + [OpenFail];
      AfterSnoc(events, OpenFail);
      RunKeepsInv(events);
      FailStrands(After(events), m);
    } else {
      var front, e := more[..|more| - 1], more[|more| - 1];
      assert e in more && forall x :: x in front ==> x in more;
      FailureRejects(events, front, m);
      assert events + [OpenFail] + more == (events + [OpenFail] + front) + [e];
      AfterSnoc(events + [OpenFail] + front, e);
      if Enabled(After(events + [OpenFail] + front), e) {
        EffectStrands(After(events + [OpenFail] + front), e, m, k);
      }
    }
  }

  lemma FailStrands(s: State, m: nat)
    requires Inv(s) && Enabled(s, OpenFail) && m < |s.instances| && s.instances[m].memo == OnDatabase(s.slot.attempt)
    ensures Stranded(Effect(s, OpenFail), m, s.slot.attempt)
  {
    hide Chained, Recorded, NoRepeats;
    assert MemoOk(s, m);
  }

  predicate Once(files: seq<string>) {
    forall i, j :: 0 <= i < j < |files| ==> files[i] != files[j]
  }

  /** The files of the module instances that were loaded, in order; a list that names a file twice is none. */
  function Loaded(events: seq<Event>): seq<seq<string>> {
    if events == [] then []
    else
      var e := events[|events| - 1];
      Loaded(events[..|events| - 1]) + (if e.NewInstance? && Once(e.files) then [e.files] else [])
  }

  /** Each loaded module instance is there with its own files, and no other. */
  lemma {:induction false} InstancesAre(events: seq<Event>)
    ensures |After(events).instances| == |Loaded(events)|
    ensures forall m :: 0 <= m < |Loaded(events)| ==> After(events).instances[m].files == Loaded(events)[m]
  {
    hide Pending;
    if events != [] {
      InstancesAre(events[..|events| - 1]);
    }
  }

  /** A call of an instance that has nothing under way joins the attempt at the database; any other changes nothing. */
  lemma CallIsMemoized(events: seq<Event>, m: nat)
    requires m < |After(events).instances|
    ensures var s, t := After(events), After(events + [Call(m)]);
            if s.instances[m].memo != Null then t == s
            else
              && m < |t.instances| && !t.slot.Absent? && t.instances[m].memo == OnDatabase(t.slot.attempt)
              && t.passes == s.passes && t.applied == s.applied && (!s.slot.Absent? ==> t.slot == s.slot)
  {
    assert (events + [Call(m)])[..|events|] == events;
  }
}
