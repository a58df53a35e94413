/**
 Which account-lifecycle events are lost. The reconciler selects rows without
 `queued_at` only, so a recorded row depends on its jobs alone, and no job is run
 again after its last attempt or when its worker died in one.
 */
module AbandonedEvents {
  import FreshNames
  import opened LifecycleOutbox

  predicate HasJobToDo(s: State, o: RowId) {
    exists j: JobId :: j < |s.jobs| && s.jobs[j] == Job(o, Todo)
  }

  /** Recorded as queued, not delivered, and every job that was deferred for it has been given up. */
  predicate IsAbandoned(s: State, o: RowId) {
    && o in s.rows && s.rows[o].queuedBy.Some? && s.rows[o].deliveredBy.None?
    && forall j: JobId :: j < |s.jobs| && s.jobs[j].row == o ==> s.jobs[j].status.GivenUp?
  }

  lemma UndeliveredJobs(s: State, o: RowId)
    requires Inv(s) && o in s.rows && s.rows[o].deliveredBy.None?
    ensures !IsPending(s.rows[o]) && !HasJobToDo(s, o) <==> IsAbandoned(s, o)
  {
    forall j: JobId | j < |s.jobs| && s.jobs[j].row == o && !HasJobToDo(s, o)
      ensures s.jobs[j].status.GivenUp?
    {
      assert JobOk(s, j);
      assert s.jobs[j] == Job(o, s.jobs[j].status);
    }
  }

  /** An undelivered row is neither selected by the reconciler nor waits in the queue if and only if it
      is abandoned. */
  lemma NeitherPendingNorQueuedIffAbandoned(ss: seq<State>, evs: seq<Event>, n: nat, o: RowId)
    requires IsRun(ss, evs) && n <= |evs| && o in ss[n].rows && ss[n].rows[o].deliveredBy.None?
    ensures !IsPending(ss[n].rows[o]) && !HasJobToDo(ss[n], o) <==> IsAbandoned(ss[n], o)
  {
    RunInv(ss, evs, n);
    UndeliveredJobs(ss[n], o);
  }

  lemma AbandonedStep(s: State, ev: Event, o: RowId)
    requires Inv(s) && Enabled(s, ev) && IsAbandoned(s, o)
    ensures IsAbandoned(Next(s, ev), o)
  {
    assert RowOk(s, o);
    RecordsStay(s, ev, o);
    if ev.Defer? || ev.Commit? || ev.RollBack? {
      assert CallerOk(s, ev.c);
    }
  }

  /** A row is abandoned by the last attempt of one of its jobs, which is not tried again, or by a commit that
      records it after all its jobs were given up, and by nothing else. */
  lemma AbandonedBy(s: State, ev: Event, o: RowId)
    requires Inv(s) && Enabled(s, ev) && o in s.rows && !IsAbandoned(s, o) && IsAbandoned(Next(s, ev), o)
    ensures (&& ev.Run? && !ev.marked && !ev.again && s.jobs[ev.j].row == o && s.jobs[ev.j].status.Todo?)
            || (ev.Commit? && s.callers[ev.c].row == o && !HasJobToDo(s, o))
  {
    UndeliveredJobs(s, o);
    assert RowOk(s, o);
    JobsStay(s, ev);
    hide Inv;
    forall j: JobId | j < |s.jobs| && s.jobs[j].row == o && !(ev.Run? && j == ev.j)
      ensures s.jobs[j].status.GivenUp?
    {
      assert Next(s, ev).jobs[j] == s.jobs[j];
    }
  }

  lemma JobsStay(s: State, ev: Event)
    requires Enabled(s, ev)
    ensures |s.jobs| <= |Next(s, ev).jobs|
    ensures forall j: JobId :: j < |s.jobs| && !(ev.Run? && j == ev.j) ==> Next(s, ev).jobs[j] == s.jobs[j]
    ensures ev.Run? ==> Next(s, ev).jobs[ev.j].row == s.jobs[ev.j].row
    ensures ev.Defer? ==> |Next(s, ev).jobs| == |s.jobs| + 1 && Next(s, ev).jobs[|s.jobs|].status.Todo?
  {
  }

  /** Nothing that callers, workers and the reconciler do brings an abandoned row back. */
  lemma {:induction false} AbandonedForever(ss: seq<State>, evs: seq<Event>, i: nat, n: nat, o: RowId)
    requires IsPath(ss, evs) && Inv(ss[0]) && i <= n <= |evs| && IsAbandoned(ss[i], o)
    ensures IsAbandoned(ss[n], o)
    decreases n
  {
    if i < n {
      AbandonedForever(ss, evs, i, n - 1, o);
      PathInv(ss, evs, n - 1);
      assert StepAt(ss, evs, n - 1);
      AbandonedStep(ss[n - 1], evs[n - 1], o);
    }
  }

  // ---- what can still be delivered --------------------------------------------------------

  predicate IsDelivered(s: State, o: RowId) {
    o in s.rows && s.rows[o].deliveredBy.Some?
  }

  ghost predicate Delivers(ss: seq<State>, evs: seq<Event>, o: RowId) {
    IsPath(ss, evs) && IsDelivered(ss[|evs|], o)
  }

  /** Some continuation delivers the row. */
  ghost predicate CanBeDelivered(s: State, o: RowId) {
    exists ss, evs :: Delivers(ss, evs, o) && ss[0] == s
  }

  lemma AlreadyDelivered(s: State, o: RowId)
    requires IsDelivered(s, o)
    ensures CanBeDelivered(s, o)
  {
    assert Delivers([s], [], o);
  }

  lemma AfterOneStep(s: State, ev: Event, o: RowId)
    requires Enabled(s, ev) && CanBeDelivered(Next(s, ev), o)
    ensures CanBeDelivered(s, o)
  {
    var ss, evs :| Delivers(ss, evs, o) && ss[0] == Next(s, ev);
    var ss', evs' := [s] + ss, [ev] + evs;
    forall i | 0 <= i < |evs'|
      ensures StepAt(ss', evs', i)
    {
      if i > 0 {
        assert StepAt(ss, evs, i - 1);
      }
    }
    assert Delivers(ss', evs', o);
  }

  lemma JobDelivers(s: State, o: RowId, j: JobId)
    requires o in s.rows && s.rows[o].locked.None? && j < |s.jobs| && s.jobs[j] == Job(o, Todo)
    ensures CanBeDelivered(s, o)
  {
    AlreadyDelivered(Next(s, Run(j, true, false)), o);
    AfterOneStep(s, Run(j, true, false), o);
  }

  lemma FreeRowDelivers(s: State, o: RowId)
    requires IsFree(s, o)
    ensures CanBeDelivered(s, o)
  {
    hide CanBeDelivered;
    var c := FreshNames.Fresh(s.callers.Keys);
    assert c !in s.callers;
    var s1 := Next(s, Select(c, o));
    var s2 := Next(s1, Defer(c, true));
    var s3 := Next(s2, Commit(c, true));
    JobDelivers(s3, o, |s.jobs|);
    AfterOneStep(s2, Commit(c, true), o);
    AfterOneStep(s1, Defer(c, true), o);
    AfterOneStep(s, Select(c, o), o);
  }

  lemma LockedRowDelivers(s: State, o: RowId)
    requires Inv(s) && o in s.rows && s.rows[o].locked.Some?
    ensures CanBeDelivered(s, o)
  {
    hide CanBeDelivered;
    var c := s.rows[o].locked.value;
    assert RowOk(s, o);
    FreeRowDelivers(Next(s, RollBack(c)), o);
    AfterOneStep(s, RollBack(c), o);
  }

  /** An undelivered event can still be delivered if and only if its row is not abandoned. */
  lemma LostIffAbandoned(ss: seq<State>, evs: seq<Event>, n: nat, o: RowId)
    requires IsRun(ss, evs) && n <= |evs| && o in ss[n].rows && ss[n].rows[o].deliveredBy.None?
    ensures CanBeDelivered(ss[n], o) <==> !IsAbandoned(ss[n], o)
  {
    var s := ss[n];
    RunInv(ss, evs, n);
    if IsAbandoned(s, o) {
      if CanBeDelivered(s, o) {
        var ss', evs' :| Delivers(ss', evs', o) && ss'[0] == s;
        AbandonedForever(ss', evs', 0, |evs'|, o);
      }
    } else if s.rows[o].locked.Some? {
      LockedRowDelivers(s, o);
    } else {
      UndeliveredJobs(s, o);
      if HasJobToDo(s, o) {
        var j: JobId :| j < |s.jobs| && s.jobs[j] == Job(o, Todo);
        JobDelivers(s, o, j);
      } else {
        FreeRowDelivers(s, o);
      }
    }
  }

  /** It happens: an event is queued, its job fails for the last time, and the row is lost. */
  lemma GivenUpJobLosesItsEvent() returns (ss: seq<State>, evs: seq<Event>)
    ensures IsRun(ss, evs) && IsAbandoned(ss[|evs|], 0) && !CanBeDelivered(ss[|evs|], 0)
  {
    var s0 := State(map[], [], map[]);
    var s1 := Next(s0, Create(0));
    var s2 := Next(s1, Select(0, 0));
    var s3 := Next(s2, Defer(0, true));
    var s4 := Next(s3, Commit(0, true));
    var s5 := Next(s4, Run(0, false, false));
    ss := [s0, s1, s2, s3, s4, s5];
    evs := [Create(0), Select(0, 0), Defer(0, true), Commit(0, true), Run(0, false, false)];
    forall i | 0 <= i < |evs|
      ensures StepAt(ss, evs, i)
    {
      assert i == 0 || i == 1 || i == 2 || i == 3 || i == 4;
    }
    LostIffAbandoned(ss, evs, 5, 0);
  }
}
