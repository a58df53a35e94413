/**
 Queueing, the reconciler's loop and delivery, each run without interruption
 over the outbox table and the job queue.
 */
module LifecycleTasks {
  import opened Options
  import opened LifecycleOutbox

  const BATCH := 100

  /** How one queue call meets the queue and the database. */
  datatype Luck = DeferFails | CommitFails | AnswerLost | AllGoesWell

  /** The commit takes effect; whether the caller learns of it is another matter. */
  predicate IsRecorded(luck: Luck) {
    luck.AnswerLost? || luck.AllGoesWell?
  }

  function PendingIds(rows: map<RowId, Row>): set<RowId> {
    set o | o in rows && IsPending(rows[o])
  }

  /** ORDER BY id LIMIT n */
  predicate IsBatch(ids: set<RowId>, batch: seq<RowId>, n: nat) {
    && (forall i, k :: 0 <= i < k < |batch| ==> batch[i] < batch[k])
    && (forall i :: 0 <= i < |batch| ==> batch[i] in ids)
    && |batch| <= n
    && (forall o <- ids :: o !in batch ==> |batch| == n && forall i :: 0 <= i < |batch| ==> batch[i] < o)
  }

  lemma {:induction false} SmallestOf(ids: set<RowId>) returns (least: RowId)
    requires ids != {}
    ensures least in ids && forall o <- ids :: least <= o
    decreases ids
  {
    var o :| o in ids;
    if ids == {o} {
      least := o;
    } else {
      var other := SmallestOf(ids - {o});
      least := if o < other then o else other;
      assert forall p <- ids :: p == o || p in ids - {o};
    }
  }

  lemma {:induction false} BatchExists(ids: set<RowId>, n: nat) returns (batch: seq<RowId>)
    ensures IsBatch(ids, batch, n)
    decreases n
  {
    if n == 0 || ids == {} {
      batch := [];
    } else {
      var least := SmallestOf(ids);
      var rest := BatchExists(ids - {least}, n - 1);
      batch := [least] + rest;
      assert forall i :: 0 <= i < |rest| ==> least < rest[i];
      forall o | o in ids && o !in batch
        ensures |batch| == n && forall i :: 0 <= i < |batch| ==> batch[i] < o
      {
        assert o !in rest && o in ids - {least};
      }
    }
  }

  /** The jobs that going through `batch` defers. */
  function Deferred(batch: seq<RowId>, luck: RowId -> Luck): seq<Job> {
    if batch == [] then []
    else
      var o := batch[|batch| - 1];
      Deferred(batch[..|batch| - 1], luck) + if luck(o).DeferFails? then [] else [Job(o, Todo)]
  }

  function Lucky(batch: seq<RowId>, luck: RowId -> Luck): set<RowId> {
    set o | o in batch && luck(o).AllGoesWell?
  }

  /** One new job each, in the order of the batch, for the rows whose defer reached the queue. */
  predicate AreDeferred(added: seq<Job>, batch: seq<RowId>, luck: RowId -> Luck) {
    && (forall k :: 0 <= k < |added| ==>
          added[k].status.Todo? && added[k].row in batch && !luck(added[k].row).DeferFails?)
    && (forall k, l :: 0 <= k < l < |added| ==> added[k].row < added[l].row)
    && (forall o <- batch :: !luck(o).DeferFails? ==> Job(o, Todo) in added)
  }

  lemma {:induction false} DeferredAre(batch: seq<RowId>, luck: RowId -> Luck)
    requires forall i, k :: 0 <= i < k < |batch| ==> batch[i] < batch[k]
    ensures AreDeferred(Deferred(batch, luck), batch, luck)
  {
    if batch != [] {
      var n := |batch| - 1;
      DeferredAre(batch[..n], luck);
      forall k | 0 <= k < |Deferred(batch[..n], luck)|
        ensures Deferred(batch[..n], luck)[k].row < batch[n]
      {
        assert Deferred(batch[..n], luck)[k].row in batch[..n];
      }
      assert batch == batch[..n] + [batch[n]];
    }
  }

  lemma LuckyIs(batch: seq<RowId>, luck: RowId -> Luck)
    ensures Lucky(batch, luck) == set o | o in batch && luck(o).AllGoesWell?
  {
  }

  lemma BatchIs(rows: map<RowId, Row>, batch: seq<RowId>)
    requires IsBatch(PendingIds(rows), batch, BATCH)
    ensures |batch| <= 100 && forall i, k :: 0 <= i < k < |batch| ==> batch[i] < batch[k]
    ensures forall o <- batch :: o in rows && rows[o].queuedBy.None? && rows[o].deliveredBy.None?
    ensures forall o <- rows :: rows[o].queuedBy.None? && rows[o].deliveredBy.None? && o !in batch ==>
              |batch| == 100 && forall p <- batch :: p < o
  {
    forall o <- batch
      ensures o in rows && rows[o].queuedBy.None? && rows[o].deliveredBy.None?
    {
      var i :| 0 <= i < |batch| && batch[i] == o;
      assert batch[i] in PendingIds(rows);
    }
    forall o <- rows | rows[o].queuedBy.None? && rows[o].deliveredBy.None? && o !in batch
      ensures |batch| == 100 && forall p <- batch :: p < o
    {
      assert o in PendingIds(rows);
    }
  }

  class Outbox {
    var rows: map<RowId, Row>
    var jobs: seq<Job>
    var sessions: nat  // the next database session

    constructor ()
      ensures rows == map[] && jobs == [] && sessions == 0
    {
      rows, jobs, sessions := map[], [], 0;
    }

    /** With the account change, in one transaction. */
    method Insert(o: RowId)
      requires o !in rows
      modifies this`rows
      ensures rows == old(rows)[o := Row(None, None, None, 0)]
    {
      rows := rows[o := Row(None, None, None, 0)];
    }

    /** `queue_account_lifecycle_event` */
    method Queue(o: RowId, luck: Luck) returns (answer: Option<JobId>)
      requires o in rows ==> rows[o].locked.None?
      modifies this
      ensures var free := o in old(rows) && old(rows)[o].queuedBy.None?;
        && answer == (if free && luck.AllGoesWell? then Some(|old(jobs)|) else None)
        && jobs == old(jobs) + (if free && !luck.DeferFails? then [Job(o, Todo)] else [])
        && rows.Keys == old(rows).Keys
        && (forall p <- rows :: p != o || !free ==> rows[p] == old(rows)[p])
        && (free ==> rows[o] == old(rows)[o].(
               queuedBy := if IsRecorded(luck) then Some(old(sessions)) else None,
               lost := old(rows)[o].lost + if luck.CommitFails? then 1 else 0))
      ensures sessions == old(sessions) + 1
    {
      var session := sessions;
      sessions := sessions + 1;
      answer := None;
      if o !in rows || rows[o].queuedBy.Some? {
        return;
      }
      rows := rows[o := rows[o].(locked := Some(session))];
      if luck.DeferFails? {
        rows := rows[o := Unlocked(rows[o])];
        return;
      }
      jobs := jobs + [Job(o, Todo)];
      if luck.CommitFails? {
        rows := rows[o := Unlocked(rows[o]).(lost := rows[o].lost + 1)];
        return;
      }
      rows := rows[o := Unlocked(rows[o]).(queuedBy := Some(session))];
      answer := if luck.AnswerLost? then None else Some(|jobs| - 1);
    }

    /** `dispatch_pending_account_lifecycle_events`: the hundred oldest pending rows each get a try;
        the count tells how many were answered with a job, which a lost answer leaves out. */
    method DispatchPending(luck: RowId -> Luck) returns (queued: nat, ghost batch: seq<RowId>)
      requires forall o <- rows :: rows[o].locked.None?
      modifies this
      ensures rows.Keys == old(rows).Keys
      ensures |batch| <= 100 && forall i, k :: 0 <= i < k < |batch| ==> batch[i] < batch[k]
      ensures forall o <- batch :: o in rows && old(rows)[o].queuedBy.None? && old(rows)[o].deliveredBy.None?
      ensures forall o <- rows :: old(rows)[o].queuedBy.None? && old(rows)[o].deliveredBy.None? && o !in batch ==>
                |batch| == 100 && forall p <- batch :: p < o
      ensures queued == |set o | o in batch && luck(o).AllGoesWell?|
      ensures old(jobs) <= jobs && AreDeferred(jobs[|old(jobs)|..], batch, luck)
      ensures forall o <- rows ::
                rows[o].queuedBy.Some? <==> old(rows)[o].queuedBy.Some? || (o in batch && IsRecorded(luck(o)))
      ensures forall o <- rows :: o !in batch ==> rows[o] == old(rows)[o]
      ensures forall o <- rows :: rows[o].deliveredBy == old(rows)[o].deliveredBy && rows[o].locked.None?
    {
      hide IsBatch, Deferred, Lucky, IsPending;
      ghost var before := rows;
      ghost var ids := PendingIds(rows);
      ghost var some := BatchExists(ids, BATCH);
      var todo: seq<RowId> :| IsBatch(PendingIds(rows), todo, BATCH);
      batch := todo;
      queued := 0;
      Start(luck);
      for i := 0 to |todo|
        invariant rows.Keys == before.Keys
        invariant queued == |Lucky(todo[..i], luck)|
        invariant jobs == old(jobs) + Deferred(todo[..i], luck)
        invariant forall o <- rows :: o !in todo[..i] ==> rows[o] == before[o]
        invariant forall o <- rows :: o in todo[..i] ==> Tried(before[o], rows[o], luck(o))
      {
        var o := todo[i];
        Extend(before, todo, i, luck);
        ghost var earlier := rows;
        var answer := Queue(o, luck(o));
        if answer.Some? {
          queued := queued + 1;
        }
        assert Tried(before[o], rows[o], luck(o));
        forall p <- rows
          ensures p !in todo[..i + 1] ==> rows[p] == before[p]
          ensures p in todo[..i + 1] ==> Tried(before[p], rows[p], luck(p))
        {
          if p != o {
            assert rows[p] == earlier[p];
          }
        }
      }
      assert todo[..|todo|] == todo;
      Finish(before, rows, todo, luck);
      BatchIs(before, todo);
      LuckyIs(todo, luck);
      DeferredAre(todo, luck);
      assert jobs[|old(jobs)|..] == Deferred(todo, luck);
    }

    /** One run of the delivery task: the listeners, then `mark_account_lifecycle_event_delivered`. */
    method Deliver(j: JobId, heard: bool, again: bool)
      requires j < |jobs| && jobs[j].status.Todo?
      modifies this
      ensures |jobs| == |old(jobs)| && (forall k | 0 <= k < |jobs| && k != j :: jobs[k] == old(jobs)[k])
      ensures jobs[j] == Job(old(jobs)[j].row, if heard then Succeeded else if again then Todo else GivenUp)
      ensures rows.Keys == old(rows).Keys
      ensures forall o <- rows :: rows[o] ==
                if heard && o == old(jobs)[j].row && old(rows)[o].deliveredBy.None?
                then old(rows)[o].(deliveredBy := Some(j)) else old(rows)[o]
    {
      var o := jobs[j].row;
      if !heard {
        jobs := jobs[j := Job(o, if again then Todo else GivenUp)];
        return;
      }
      if o in rows && rows[o].deliveredBy.None? {
        rows := rows[o := rows[o].(deliveredBy := Some(j))];
      }
      jobs := jobs[j := Job(o, Succeeded)];
    }
  }

  predicate Tried(before: Row, after: Row, luck: Luck) {
    && after.deliveredBy == before.deliveredBy && after.locked.None?
    && (after.queuedBy.Some? <==> IsRecorded(luck))
  }

  lemma Start(luck: RowId -> Luck)
    ensures Deferred([], luck) == [] && Lucky([], luck) == {}
  {
  }

  lemma Finish(before: map<RowId, Row>, after: map<RowId, Row>, todo: seq<RowId>, luck: RowId -> Luck)
    requires after.Keys == before.Keys && IsBatch(PendingIds(before), todo, BATCH)
    requires forall o <- before :: before[o].locked.None?
    requires forall o <- after :: o !in todo ==> after[o] == before[o]
    requires forall o <- after :: o in todo ==> Tried(before[o], after[o], luck(o))
    ensures forall o <- after ::
              after[o].queuedBy.Some? <==> before[o].queuedBy.Some? || (o in todo && IsRecorded(luck(o)))
    ensures forall o <- after :: after[o].deliveredBy == before[o].deliveredBy && after[o].locked.None?
  {
    forall o <- after
      ensures after[o].queuedBy.Some? <==> before[o].queuedBy.Some? || (o in todo && IsRecorded(luck(o)))
    {
      if o in todo {
        assert o in PendingIds(before);
      }
    }
  }

  lemma Extend(rows: map<RowId, Row>, todo: seq<RowId>, i: nat, luck: RowId -> Luck)
    requires i < |todo| && IsBatch(PendingIds(rows), todo, BATCH)
    ensures todo[i] in rows && IsPending(rows[todo[i]]) && rows[todo[i]].queuedBy.None?
    ensures todo[i] !in todo[..i] && forall o :: o in todo[..i + 1] <==> o in todo[..i] || o == todo[i]
    ensures Deferred(todo[..i + 1], luck) ==
            Deferred(todo[..i], luck) + (if luck(todo[i]).DeferFails? then [] else [Job(todo[i], Todo)])
    ensures |Lucky(todo[..i + 1], luck)| == |Lucky(todo[..i], luck)| + if luck(todo[i]).AllGoesWell? then 1 else 0
  {
    var longer := todo[..i + 1];
    assert longer[..i] == todo[..i] && longer == todo[..i] + [todo[i]];
    assert todo[i] in PendingIds(rows);
    hide IsBatch;
    LuckyGrows(todo[..i], todo[i], luck);
  }

  lemma LuckyGrows(batch: seq<RowId>, o: RowId, luck: RowId -> Luck)
    requires o !in batch
    ensures |Lucky(batch + [o], luck)| == |Lucky(batch, luck)| + if luck(o).AllGoesWell? then 1 else 0
  {
    assert forall p :: p in batch + [o] <==> p in batch || p == o;
    if luck(o).AllGoesWell? {
      assert Lucky(batch + [o], luck) == Lucky(batch, luck) + {o};
    } else {
      assert Lucky(batch + [o], luck) == Lucky(batch, luck);
    }
  }
}
