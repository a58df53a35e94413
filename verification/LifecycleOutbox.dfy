/**
 The account-lifecycle outbox: creators and the periodic reconciler hand rows to
 the worker queue, workers deliver them. One event per statement or commit; the
 queue has its own connection, so a deferred job survives the rollback of the
 transaction that deferred it. `lost` is history.
 */
module LifecycleOutbox {
  import opened Options

  type RowId = nat
  type CallerId = nat
  type JobId = nat

  /** `queuedBy` stands for `queued_at` and `deliveredBy` for `delivered_at`, each with who set it.
      `lost` counts the jobs whose transaction did not commit. */
  datatype Row = Row(queuedBy: Option<CallerId>, deliveredBy: Option<JobId>, locked: Option<CallerId>, lost: nat)

  /** `GivenUp` is a job that nothing runs again: its last attempt failed, or its worker died during an
      attempt, since stalled jobs are not retried. */
  datatype JobStatus = Todo | Succeeded | GivenUp

  datatype Job = Job(row: RowId, status: JobStatus)

  datatype Pc = AtDefer | AtCommit(job: JobId) | Returned(answer: Option<JobId>)

  /** One call of `queue_account_lifecycle_event`. */
  datatype Caller = Caller(row: RowId, pc: Pc)

  datatype State = State(rows: map<RowId, Row>, jobs: seq<Job>, callers: map<CallerId, Caller>)

  datatype Event =
    | Create(o: RowId)
    | Select(c: CallerId, o: RowId)
    | Defer(c: CallerId, ack: bool)             // `ack` is false when the job is there but the answer is lost
    | Commit(c: CallerId, ack: bool)            // likewise when the commit took effect
    | RollBack(c: CallerId)                     // an exception or a crash before the commit
    | Run(j: JobId, marked: bool, again: bool)  // one attempt of the worker

  function Unlocked(row: Row): Row {
    row.(locked := None)
  }

  predicate IsFree(s: State, o: RowId) {
    o in s.rows && s.rows[o].queuedBy.None? && s.rows[o].locked.None?
  }

  predicate Enabled(s: State, ev: Event) {
    match ev
    case Create(o) => o !in s.rows
    case Select(c, _) => c !in s.callers
    case Defer(c, _) => c in s.callers && s.callers[c].row in s.rows && s.callers[c].pc.AtDefer?
    case Commit(c, _) => c in s.callers && s.callers[c].row in s.rows && s.callers[c].pc.AtCommit?
    case RollBack(c) => c in s.callers && s.callers[c].row in s.rows && !s.callers[c].pc.Returned?
    case Run(j, marked, _) =>
      && j < |s.jobs| && s.jobs[j].status.Todo? && s.jobs[j].row in s.rows
      && (marked ==> s.rows[s.jobs[j].row].locked.None?)  // the update waits for the row lock
  }

  function Next(s: State, ev: Event): State
    requires Enabled(s, ev)
  {
    match ev
    case Create(o) => s.(rows := s.rows[o := Row(None, None, None, 0)])
    case Select(c, o) =>
      if IsFree(s, o)
      then s.(rows := s.rows[o := s.rows[o].(locked := Some(c))], callers := s.callers[c := Caller(o, AtDefer)])
      else s.(callers := s.callers[c := Caller(o, Returned(None))])
    case Defer(c, ack) =>
      var o := s.callers[c].row;
      var row := s.rows[o];
      State(if ack then s.rows else s.rows[o := Unlocked(row).(lost := row.lost + 1)],
            s.jobs + [Job(o, Todo)],
            s.callers[c := Caller(o, if ack then AtCommit(|s.jobs|) else Returned(None))])
    case Commit(c, ack) =>
      var o := s.callers[c].row;
      s.(rows := s.rows[o := Unlocked(s.rows[o]).(queuedBy := Some(c))],
         callers := s.callers[c := Caller(o, Returned(if ack then Some(s.callers[c].pc.job) else None))])
    case RollBack(c) =>
      var o := s.callers[c].row;
      var lost := if s.callers[c].pc.AtCommit? then 1 else 0;
      s.(rows := s.rows[o := Unlocked(s.rows[o]).(lost := s.rows[o].lost + lost)],
         callers := s.callers[c := Caller(o, Returned(None))])
    case Run(j, marked, again) =>
      var o := s.jobs[j].row;
      if marked
      then
        var row := s.rows[o];
        s.(rows := s.rows[o := if row.deliveredBy.None? then row.(deliveredBy := Some(j)) else row],
           jobs := s.jobs[j := Job(o, Succeeded)])
      else s.(jobs := s.jobs[j := Job(o, if again then Todo else GivenUp)])
  }

  ghost predicate Initial(s: State) {
    s == State(map[], [], map[])
  }

  // ---- invariant --------------------------------------------------------------------------

  function JobsOf(jobs: seq<Job>, o: RowId): set<JobId> {
    set j: JobId | j < |jobs| && jobs[j].row == o
  }

  /** The holder of the row's lock has deferred and not committed. */
  predicate InDoubt(s: State, o: RowId)
    requires o in s.rows
  {
    s.rows[o].locked.Some? && s.rows[o].locked.value in s.callers && s.callers[s.rows[o].locked.value].pc.AtCommit?
  }

  function Count(b: bool): nat {
    if b then 1 else 0
  }

  predicate Counted(s: State, o: RowId)
    requires o in s.rows
  {
    |JobsOf(s.jobs, o)| == Count(s.rows[o].queuedBy.Some?) + Count(InDoubt(s, o)) + s.rows[o].lost
  }

  predicate RowOk(s: State, o: RowId)
    requires o in s.rows
  {
    var row := s.rows[o];
    && (row.locked.Some? ==>
          var c := row.locked.value;
          row.queuedBy.None? && c in s.callers && s.callers[c].row == o && !s.callers[c].pc.Returned?)
    && (row.deliveredBy.Some? ==>
          var j := row.deliveredBy.value;
          j < |s.jobs| && s.jobs[j] == Job(o, Succeeded))
  }

  predicate CallerOk(s: State, c: CallerId)
    requires c in s.callers
  {
    var caller := s.callers[c];
    match caller.pc
    case AtDefer => caller.row in s.rows && s.rows[caller.row].locked == Some(c)
    case AtCommit(j) =>
      && caller.row in s.rows && s.rows[caller.row].locked == Some(c)
      && j < |s.jobs| && s.jobs[j].row == caller.row
    case Returned(None) => true
    case Returned(Some(j)) =>
      caller.row in s.rows && s.rows[caller.row].queuedBy == Some(c) && j < |s.jobs| && s.jobs[j].row == caller.row
  }

  predicate JobOk(s: State, j: JobId)
    requires j < |s.jobs|
  {
    s.jobs[j].row in s.rows && (s.jobs[j].status.Succeeded? ==> s.rows[s.jobs[j].row].deliveredBy.Some?)
  }

  ghost predicate Inv(s: State) {
    && (forall o <- s.rows :: RowOk(s, o))
    && (forall o <- s.rows :: Counted(s, o))
    && (forall c <- s.callers :: CallerOk(s, c))
    && (forall j: JobId :: j < |s.jobs| ==> JobOk(s, j))
  }

  lemma JobsAppended(jobs: seq<Job>, job: Job, o: RowId)
    ensures |JobsOf(jobs + [job], o)| == |JobsOf(jobs, o)| + Count(job.row == o)
  {
    var more := JobsOf(jobs + [job], o);
    if job.row == o {
      assert more == JobsOf(jobs, o) + {|jobs|};
    } else {
      assert more == JobsOf(jobs, o);
    }
  }

  lemma JobsUpdated(jobs: seq<Job>, j: JobId, job: Job, o: RowId)
    requires j < |jobs| && job.row == jobs[j].row
    ensures JobsOf(jobs[j := job], o) == JobsOf(jobs, o)
  {
  }

  lemma JobHasRow(s: State, j: JobId)
    requires Inv(s) && j < |s.jobs|
    ensures s.jobs[j].row in s.rows
  {
    assert JobOk(s, j);
  }

  lemma NoJobsYet(s: State, o: RowId)
    requires Inv(s) && o !in s.rows
    ensures JobsOf(s.jobs, o) == {}
  {
    forall j | j in JobsOf(s.jobs, o)
      ensures false
    {
      JobHasRow(s, j);
    }
  }

  lemma CreateKeepsInv(s: State, o: RowId)
    requires Inv(s) && o !in s.rows
    ensures Inv(Next(s, Create(o)))
  {
    var s' := Next(s, Create(o));
    forall p <- s'.rows
      ensures RowOk(s', p) && Counted(s', p)
    {
      if p == o {
        NoJobsYet(s, o);
      } else {
        assert RowOk(s, p) && Counted(s, p);
      }
    }
    forall c <- s'.callers
      ensures CallerOk(s', c)
    {
      assert CallerOk(s, c);
    }
    forall j: JobId | j < |s'.jobs|
      ensures JobOk(s', j)
    {
      assert JobOk(s, j);
    }
  }

  lemma SelectKeepsInv(s: State, c: CallerId, o: RowId)
    requires Inv(s) && c !in s.callers
    ensures Inv(Next(s, Select(c, o)))
  {
    var s' := Next(s, Select(c, o));
    forall p <- s'.rows
      ensures RowOk(s', p) && Counted(s', p)
    {
      assert RowOk(s, p) && Counted(s, p);
    }
    forall d <- s'.callers
      ensures CallerOk(s', d)
    {
      if d != c {
        assert CallerOk(s, d);
      }
    }
    forall j: JobId | j < |s'.jobs|
      ensures JobOk(s', j)
    {
      assert JobOk(s, j);
    }
  }

  lemma DeferKeepsInv(s: State, c: CallerId, ack: bool)
    requires Inv(s) && Enabled(s, Defer(c, ack))
    ensures Inv(Next(s, Defer(c, ack)))
  {
    var s' := Next(s, Defer(c, ack));
    var o := s.callers[c].row;
    assert CallerOk(s, c);
    forall p <- s'.rows
      ensures RowOk(s', p) && Counted(s', p)
    {
      assert RowOk(s, p) && Counted(s, p);
      JobsAppended(s.jobs, Job(o, Todo), p);
    }
    forall d <- s'.callers
      ensures CallerOk(s', d)
    {
      if d != c {
        assert CallerOk(s, d);
      }
    }
    forall j: JobId | j < |s'.jobs|
      ensures JobOk(s', j)
    {
      if j < |s.jobs| {
        assert JobOk(s, j);
      }
    }
  }

  lemma CloseKeepsInv(s: State, ev: Event)
    requires Inv(s) && Enabled(s, ev) && (ev.Commit? || ev.RollBack?)
    ensures Inv(Next(s, ev))
  {
    var s' := Next(s, ev);
    assert CallerOk(s, ev.c);
    forall p <- s'.rows
      ensures RowOk(s', p) && Counted(s', p)
    {
      assert RowOk(s, p) && Counted(s, p);
    }
    forall d <- s'.callers
      ensures CallerOk(s', d)
    {
      if d != ev.c {
        assert CallerOk(s, d);
        assert RowOk(s, s.callers[ev.c].row);
      }
    }
    forall j: JobId | j < |s'.jobs|
      ensures JobOk(s', j)
    {
      assert JobOk(s, j);
    }
  }

  lemma RunKeepsRows(s: State, j: JobId, marked: bool, again: bool)
    requires Inv(s) && Enabled(s, Run(j, marked, again))
    ensures forall p <- Next(s, Run(j, marked, again)).rows ::
              RowOk(Next(s, Run(j, marked, again)), p) && Counted(Next(s, Run(j, marked, again)), p)
  {
    hide JobsOf;
    var s' := Next(s, Run(j, marked, again));
    forall p <- s'.rows
      ensures RowOk(s', p) && Counted(s', p)
    {
      assert RowOk(s, p) && Counted(s, p);
      JobsUpdated(s.jobs, j, s'.jobs[j], p);
    }
  }

  lemma RunKeepsJobs(s: State, j: JobId, marked: bool, again: bool)
    requires Inv(s) && Enabled(s, Run(j, marked, again))
    ensures forall k: JobId :: k < |Next(s, Run(j, marked, again)).jobs| ==> JobOk(Next(s, Run(j, marked, again)), k)
  {
    var s' := Next(s, Run(j, marked, again));
    assert JobOk(s, j);
    forall k: JobId | k < |s'.jobs|
      ensures JobOk(s', k)
    {
      assert JobOk(s, k);
    }
  }

  lemma RunKeepsInv(s: State, j: JobId, marked: bool, again: bool)
    requires Inv(s) && Enabled(s, Run(j, marked, again))
    ensures Inv(Next(s, Run(j, marked, again)))
  {
    var s' := Next(s, Run(j, marked, again));
    RunKeepsRows(s, j, marked, again);
    RunKeepsJobs(s, j, marked, again);
    hide RowOk, Counted, JobOk, CallerOk;
    forall d <- s'.callers
      ensures CallerOk(s', d)
    {
      RunKeepsCaller(s, j, marked, again, d);
    }
  }

  lemma RunKeepsCaller(s: State, j: JobId, marked: bool, again: bool, d: CallerId)
    requires Enabled(s, Run(j, marked, again)) && d in s.callers && CallerOk(s, d)
    ensures CallerOk(Next(s, Run(j, marked, again)), d)
  {
  }

  lemma InvPreserved(s: State, ev: Event)
    requires Inv(s) && Enabled(s, ev)
    ensures Inv(Next(s, ev))
  {
    hide Inv, Next;
    match ev
    case Create(o) => CreateKeepsInv(s, o);
    case Select(c, o) => SelectKeepsInv(s, c, o);
    case Defer(c, ack) => DeferKeepsInv(s, c, ack);
    case Commit(c, _) => CloseKeepsInv(s, ev);
    case RollBack(c) => CloseKeepsInv(s, ev);
    case Run(j, marked, again) => RunKeepsInv(s, j, marked, again);
  }

  // ---- runs -------------------------------------------------------------------------------

  ghost predicate Leads(s: State, ev: Event, s': State) {
    Enabled(s, ev) && s' == Next(s, ev)
  }

  ghost predicate StepAt(ss: seq<State>, evs: seq<Event>, i: nat)
    requires i < |evs| && |ss| == |evs| + 1
  {
    Leads(ss[i], evs[i], ss[i + 1])
  }

  ghost predicate IsPath(ss: seq<State>, evs: seq<Event>) {
    |ss| == |evs| + 1 && forall i :: 0 <= i < |evs| ==> StepAt(ss, evs, i)
  }

  ghost predicate IsRun(ss: seq<State>, evs: seq<Event>) {
    IsPath(ss, evs) && Initial(ss[0])
  }

  lemma {:induction false} PathInv(ss: seq<State>, evs: seq<Event>, n: nat)
    requires IsPath(ss, evs) && Inv(ss[0]) && n <= |evs|
    ensures Inv(ss[n])
  {
    hide Next, Enabled, Inv;
    if n > 0 {
      PathInv(ss, evs, n - 1);
      assert StepAt(ss, evs, n - 1);
      InvPreserved(ss[n - 1], evs[n - 1]);
    }
  }

  lemma RunInv(ss: seq<State>, evs: seq<Event>, n: nat)
    requires IsRun(ss, evs) && n <= |evs|
    ensures Inv(ss[n])
  {
    PathInv(ss, evs, n);
  }

  /** The jobs of a row are the one that was recorded, the one in doubt, and the ones whose
      transaction failed afterwards. */
  lemma JobsAreAccountedFor(ss: seq<State>, evs: seq<Event>, n: nat, o: RowId)
    requires IsRun(ss, evs) && n <= |evs| && o in ss[n].rows
    ensures var s := ss[n]; var row := s.rows[o];
      && |JobsOf(s.jobs, o)| == Count(row.queuedBy.Some?) + Count(InDoubt(s, o)) + row.lost
      && (row.queuedBy.Some? ==> !InDoubt(s, o))
      && (row.lost == 0 ==> |JobsOf(s.jobs, o)| <= 1)
      && (row.queuedBy.Some? ==> exists j: JobId :: j < |s.jobs| && s.jobs[j].row == o)
  {
    RunInv(ss, evs, n);
    assert RowOk(ss[n], o) && Counted(ss[n], o);
    if ss[n].rows[o].queuedBy.Some? {
      var j :| j in JobsOf(ss[n].jobs, o);
    }
  }

  /** What the reconciler selects. */
  predicate IsPending(row: Row) {
    row.queuedBy.None? && row.deliveredBy.None?
  }

  /** However many callers race for a row, one at most ever gets a job id back. */
  lemma OneCallerQueues(ss: seq<State>, evs: seq<Event>, n: nat, c: CallerId, d: CallerId)
    requires IsRun(ss, evs) && n <= |evs| && c in ss[n].callers && d in ss[n].callers
    requires ss[n].callers[c].row == ss[n].callers[d].row
    requires ss[n].callers[c].pc.Returned? && ss[n].callers[c].pc.answer.Some?
    requires ss[n].callers[d].pc.Returned? && ss[n].callers[d].pc.answer.Some?
    ensures c == d
  {
    RunInv(ss, evs, n);
    assert CallerOk(ss[n], c) && CallerOk(ss[n], d);
  }

  /** The lock has one holder, and a holder keeps every other caller out. */
  lemma HoldersExclude(ss: seq<State>, evs: seq<Event>, n: nat, c: CallerId, d: CallerId)
    requires IsRun(ss, evs) && n <= |evs| && c in ss[n].callers && !ss[n].callers[c].pc.Returned?
    ensures d in ss[n].callers && ss[n].callers[d].row == ss[n].callers[c].row && !ss[n].callers[d].pc.Returned? ==>
            c == d
    ensures d !in ss[n].callers ==> Next(ss[n], Select(d, ss[n].callers[c].row)).callers[d].pc == Returned(None)
  {
    RunInv(ss, evs, n);
    assert CallerOk(ss[n], c);
    if d in ss[n].callers {
      assert CallerOk(ss[n], d);
    }
  }

  /** After a failure before the commit, be it a rollback or a lost answer to the defer, the row can be
      taken again, and the reconciler selects it until some job has delivered it. */
  lemma FailedCommitStaysEligible(ss: seq<State>, evs: seq<Event>, n: nat, c: CallerId, d: CallerId)
    requires IsRun(ss, evs) && n < |evs| && (evs[n] == RollBack(c) || evs[n] == Defer(c, false))
    requires c in ss[n].callers && d !in ss[n + 1].callers
    ensures var o := ss[n].callers[c].row; var s' := ss[n + 1];
      && IsFree(s', o)
      && (s'.rows[o].deliveredBy.None? ==> IsPending(s'.rows[o]))
      && Next(s', Select(d, o)).callers[d] == Caller(o, AtDefer)
  {
    RunInv(ss, evs, n);
    assert StepAt(ss, evs, n);
    assert CallerOk(ss[n], c) && RowOk(ss[n], ss[n].callers[c].row);
  }

  lemma RecordsStay(s: State, ev: Event, o: RowId)
    requires Inv(s) && Enabled(s, ev) && o in s.rows
    ensures o in Next(s, ev).rows
    ensures s.rows[o].queuedBy.Some? ==> Next(s, ev).rows[o].queuedBy == s.rows[o].queuedBy
    ensures s.rows[o].deliveredBy.Some? ==> Next(s, ev).rows[o].deliveredBy == s.rows[o].deliveredBy
  {
    assert RowOk(s, o);
    if ev.Commit? {
      assert CallerOk(s, ev.c);
    }
  }

  /** `queued_at` and `delivered_at` are written once. */
  lemma {:induction false} RecordsAreFinal(ss: seq<State>, evs: seq<Event>, i: nat, j: nat, o: RowId)
    requires IsRun(ss, evs) && i <= j <= |evs| && o in ss[i].rows
    ensures o in ss[j].rows
    ensures ss[i].rows[o].queuedBy.Some? ==> ss[j].rows[o].queuedBy == ss[i].rows[o].queuedBy
    ensures ss[i].rows[o].deliveredBy.Some? ==> ss[j].rows[o].deliveredBy == ss[i].rows[o].deliveredBy
    decreases j - i
  {
    if i < j {
      RecordsAreFinal(ss, evs, i, j - 1, o);
      RunInv(ss, evs, j - 1);
      assert StepAt(ss, evs, j - 1);
      RecordsStay(ss[j - 1], evs[j - 1], o);
    }
  }
}
